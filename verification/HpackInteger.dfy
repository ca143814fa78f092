/**
 * HPACK variable-length integers: the encoder's loop, the decoder's resumable
 * loop with its 64-bit accumulator, and the exact range on which the two agree.
 */
module HpackInteger {
  import opened Octets

  const U64: nat := 0x1_0000_0000_0000_0000
  const MAX_BIT_COUNT: nat := 57 // 64 - 7

  /** The number whose `prefix` right-most bits are set. */
  function Mask(prefix: nat): nat {
    if prefix == 0 then 0 else 2 * Mask(prefix - 1) + 1
  }

  /** The `prefix` right-most bits of `n`. */
  function Low(n: nat, prefix: nat): nat {
    if prefix == 0 then 0 else 2 * Low(n / 2, prefix - 1) + n % 2
  }

  // ----- encoder

  function Continuation(n: nat): Bytes {
    if n < 128 then [n] else [n % 128 + 128] + Continuation(n / 128)
  }

  ghost predicate FreePrefix(startingBits: byte, prefix: nat) {
    prefix <= 8 && Low(startingBits, prefix) == 0
  }

  function Encode(n: nat, startingBits: byte, prefix: nat): Bytes
    requires FreePrefix(startingBits, prefix)
  {
    PrefixFits(startingBits, prefix);
    if n < Mask(prefix) then [startingBits + n]
    else [startingBits + Mask(prefix)] + Continuation(n - Mask(prefix))
  }

  lemma PrefixFits(startingBits: byte, prefix: nat)
    requires FreePrefix(startingBits, prefix)
    ensures startingBits + Mask(prefix) < 256
  {
    MaskBelow(startingBits, prefix, 8);
    assert Pow2(8) == 256;
  }

  lemma MaskIsByte(prefix: nat)
    requires prefix <= 8
    ensures Mask(prefix) <= 255
  {
    LowOfZero(prefix);
    PrefixFits(0, prefix);
  }

  lemma LowOfZero(prefix: nat)
    ensures Low(0, prefix) == 0
  {
  }

  lemma {:induction false} MaskBelow(n: nat, prefix: nat, width: nat)
    requires prefix <= width && n < Pow2(width) && Low(n, prefix) == 0
    ensures n + Mask(prefix) < Pow2(width)
  {
    if prefix > 0 {
      MaskBelow(n / 2, prefix - 1, width - 1);
    }
  }

  /** Adding to bits that are clear leaves the addend in them. */
  lemma {:induction false} LowOfSum(k: nat, prefix: nat, n: nat)
    requires Low(k, prefix) == 0 && n <= Mask(prefix)
    ensures Low(k + n, prefix) == n
  {
    if prefix > 0 {
      assert (k + n) / 2 == k / 2 + n / 2;
      LowOfSum(k / 2, prefix - 1, n / 2);
    }
  }

  /** Appends the encoding of a 64-bit integer to `output`. */
  method EncodeInteger(integer: nat, startingBits: byte, prefix: nat, output: Bytes) returns (out: Bytes)
    requires integer < U64 && FreePrefix(startingBits, prefix)
    ensures out == output + Encode(integer, startingBits, prefix)
  {
    PrefixFits(startingBits, prefix);
    var mask := Mask(prefix);
    if integer < mask {
      out := output + [startingBits + integer];
    } else {
      out := AppendContinuation(integer - mask, output + [startingBits + mask]);
      ghost var tail := Continuation(integer - mask);
      assert (output + [startingBits + mask]) + tail == output + ([startingBits + mask] + tail);
    }
  }

  method AppendContinuation(integer: nat, output: Bytes) returns (out: Bytes)
    ensures out == output + Continuation(integer)
  {
    out := output;
    var n := integer;
    while true
      invariant out + Continuation(n) == output + Continuation(integer)
      decreases n
    {
      if n < 128 {
        out := out + [n];
        return;
      }
      ghost var before := out;
      out := out + [n % 128 + 128];
      n := n / 128;
      assert out + Continuation(n) == before + ([out[|out| - 1]] + Continuation(n));
    }
  }

  // ----- decoder

  function Shift(n: nat, bits: nat): nat {
    n * Pow2(bits)
  }

  lemma ShiftWithin(n: nat, bits: nat)
    requires n < 128
    ensures Shift(n, bits) + Pow2(bits) <= Pow2(bits + 7)
  {
    Pow2Add(bits, 7);
    assert Pow2(7) == 128;
    var w := Pow2(bits);
    assert (n + 1) * w <= 128 * w;
  }

  /** Progress through one integer: nothing read yet, or an accumulator and the shift of the next 7 bits. */
  datatype IntProgress = IntInit | IntValue(acc: nat, bits: nat)

  datatype IntStep = StepMore(progress: IntProgress) | StepDone(value: nat) | StepOverflow

  /** The effect of one byte, with the carry out of the 64-bit accumulator as the overflow test. */
  function StepInteger(prefix: nat, p: IntProgress, b: byte): IntStep
    requires prefix <= 8
  {
    match p
    case IntInit =>
      var v := Low(b, prefix);
      if v != Mask(prefix) then StepDone(v) else StepMore(IntValue(v, 0))
    case IntValue(acc, bits) =>
      var sum := acc + Shift(b % 128, bits);
      if sum >= U64 then StepOverflow
      else if b < 128 then StepDone(sum)
      else if bits + 7 > MAX_BIT_COUNT then StepOverflow
      else StepMore(IntValue(sum, bits + 7))
  }

  datatype IntResult = IntOngoing(progress: IntProgress) | IntComplete(value: nat, rest: Bytes) | IntFail

  function DecodeInteger(prefix: nat, p: IntProgress, s: Bytes): (r: IntResult)
    requires prefix <= 8
    ensures r.IntComplete? ==> |r.rest| < |s|
    decreases |s|
  {
    if s == [] then IntOngoing(p)
    else match StepInteger(prefix, p, s[0])
         case StepMore(q) => DecodeInteger(prefix, q, s[1..])
         case StepDone(v) => IntComplete(v, s[1..])
         case StepOverflow => IntFail
  }

  /** The states the decoder can be left in between two calls. */
  ghost predicate Reachable(p: IntProgress) {
    p.IntInit? || (p.bits <= 56 && p.bits % 7 == 0 && p.acc < 255 + Pow2(p.bits))
  }

  /** No byte ever makes the accumulator wrap: the overflow test in the loop cannot fire. */
  lemma AccumulatorNeverWraps(p: IntProgress, b: byte)
    requires p.IntValue? && Reachable(p)
    ensures p.acc + Shift(b % 128, p.bits) < 255 + Pow2(p.bits + 7) < U64
  {
    ShiftWithin(b % 128, p.bits);
    AccumulatorBound(p.bits);
  }

  lemma AccumulatorBound(bits: nat)
    requires bits <= 56
    ensures 255 + Pow2(bits + 7) < U64
  {
    Pow2Monotone(bits + 7, 63);
    Pow2Of63();
  }

  lemma Pow2Of63()
    ensures Pow2(63) == 0x8000_0000_0000_0000
  {
    assert Pow2(9) == 512;
    Pow2Add(9, 9);
    Pow2Add(18, 9);
    Pow2Add(27, 9);
    Pow2Add(36, 27);
  }

  lemma StepStaysReachable(prefix: nat, p: IntProgress, b: byte)
    requires prefix <= 8 && Reachable(p)
    ensures StepInteger(prefix, p, b).StepMore? ==> Reachable(StepInteger(prefix, p, b).progress)
    ensures p.IntValue? && StepInteger(prefix, p, b).StepOverflow? ==> b >= 128 && p.bits == 56
  {
    if p.IntValue? {
      AccumulatorNeverWraps(p, b);
    } else {
      MaskIsByte(prefix);
    }
  }

  /** Between calls the decoder is always in a reachable state, whatever bytes it was fed. */
  lemma {:induction false} DecodeStaysReachable(prefix: nat, p: IntProgress, s: Bytes)
    requires prefix <= 8 && Reachable(p)
    ensures DecodeInteger(prefix, p, s).IntOngoing? ==> Reachable(DecodeInteger(prefix, p, s).progress)
    decreases |s|
  {
    if s != [] {
      StepStaysReachable(prefix, p, s[0]);
      var step := StepInteger(prefix, p, s[0]);
      if step.StepMore? {
        DecodeStaysReachable(prefix, step.progress, s[1..]);
      }
    }
  }

  /** Feeding the input in two pieces is the same as feeding it whole. */
  lemma {:induction false} IntegerSplit(prefix: nat, p: IntProgress, a: Bytes, b: Bytes)
    requires prefix <= 8
    ensures DecodeInteger(prefix, p, a + b) ==
            match DecodeInteger(prefix, p, a)
            case IntOngoing(q) => DecodeInteger(prefix, q, b)
            case IntComplete(v, rest) => IntComplete(v, rest + b)
            case IntFail => IntFail
    decreases |a|
  {
    if a == [] {
      assert a + b == b;
    } else {
      assert (a + b)[0] == a[0] && (a + b)[1..] == a[1..] + b;
      var step := StepInteger(prefix, p, a[0]);
      if step.StepMore? {
        IntegerSplit(prefix, step.progress, a[1..], b);
      }
    }
  }

  /** The decoder's loop over one input buffer; `pos` is the cursor. */
  method DecodeIntegerLoop(input: Bytes, start: nat, prefix: nat, progress: IntProgress)
    returns (pos: nat, r: IntResult)
    requires prefix <= 8 && start <= |input|
    ensures r == DecodeInteger(prefix, progress, input[start..])
    ensures start <= pos <= |input|
    ensures r.IntOngoing? ==> pos == |input|
    ensures r.IntComplete? ==> r.rest == input[pos..]
  {
    pos := start;
    var p := progress;
    while pos < |input|
      invariant start <= pos <= |input|
      invariant DecodeInteger(prefix, progress, input[start..]) == DecodeInteger(prefix, p, input[pos..])
    {
      var step := StepInteger(prefix, p, input[pos]);
      assert input[pos..][0] == input[pos] && input[pos..][1..] == input[pos + 1..];
      pos := pos + 1;
      match step {
        case StepMore(q) => p := q;
        case StepDone(v) => return pos, IntComplete(v, input[pos..]);
        case StepOverflow => return pos, IntFail;
      }
    }
    r := IntOngoing(p);
  }

  // ----- round trip

  /** One continuation byte of `n`, read in a reachable state. */
  lemma ContinuationStep(prefix: nat, n: nat, p: IntProgress)
    requires prefix <= 8 && p.IntValue? && Reachable(p)
    ensures var sum := p.acc + Shift(n % 128, p.bits);
            StepInteger(prefix, p, Continuation(n)[0]) ==
            if n < 128 then StepDone(sum)
            else if p.bits == 56 then StepOverflow
            else StepMore(IntValue(sum, p.bits + 7))
  {
    FirstOctet(n);
    AccumulatorNeverWraps(p, Continuation(n)[0]);
  }

  lemma FirstOctet(n: nat)
    ensures Continuation(n)[0] % 128 == n % 128 && (Continuation(n)[0] < 128 <==> n < 128)
  {
    HighBit(n % 128);
  }

  lemma HighBit(n: nat)
    requires n < 128
    ensures (n + 128) % 128 == n
  {
  }

  lemma DigitBound(n: nat, bits: nat)
    requires bits <= 63
    ensures n / 128 < Pow2(63 - bits) <==> n < 128 * Pow2(63 - bits)
  {
  }

  lemma Pow2Of7()
    ensures Pow2(7) == 128 && Pow2(0) == 1
  {
    assert Pow2(1) == 2 && Pow2(2) == 4 && Pow2(3) == 8 && Pow2(4) == 16 && Pow2(5) == 32 && Pow2(6) == 64;
  }

  /** Continuation bytes add their value, shifted, when it fits in the bits that remain; otherwise they are refused. */
  lemma {:induction false} ContinuationDecodes(prefix: nat, n: nat, p: IntProgress, rest: Bytes)
    requires prefix <= 8 && p.IntValue? && Reachable(p)
    ensures DecodeInteger(prefix, p, Continuation(n) + rest) ==
            if n < Pow2(63 - p.bits) then IntComplete(p.acc + Shift(n, p.bits), rest) else IntFail
    decreases 63 - p.bits
  {
    hide Shift, Pow2;
    var s := Continuation(n) + rest;
    assert s[0] == Continuation(n)[0];
    ContinuationStep(prefix, n, p);
    Pow2Of7();
    if n < 128 {
      Pow2Monotone(7, 63 - p.bits);
      assert s[1..] == rest;
    } else if p.bits == 56 {
    } else {
      var q := IntValue(p.acc + Shift(n % 128, p.bits), p.bits + 7);
      assert s[1..] == Continuation(n / 128) + rest;
      StepStaysReachable(prefix, p, s[0]);
      ContinuationDecodes(prefix, n / 128, q, rest);
      Pow2Add(7, 63 - q.bits);
      DigitBound(n, q.bits);
      ShiftRecombines(n, p.bits);
    }
  }

  lemma ShiftRecombines(n: nat, bits: nat)
    ensures Shift(n % 128, bits) + Shift(n / 128, bits + 7) == Shift(n, bits)
  {
    Pow2Add(bits, 7);
    assert Pow2(7) == 128;
    var w := Pow2(bits);
    var q, r := n / 128, n % 128;
    assert q * (w * 128) == (q * 128) * w;
    assert r * w + (q * 128) * w == (r + q * 128) * w;
  }

  /** A value below the mask is the first byte's low bits. */
  lemma SmallRoundTrip(n: nat, startingBits: byte, prefix: nat, rest: Bytes)
    requires FreePrefix(startingBits, prefix) && n < Mask(prefix)
    ensures DecodeInteger(prefix, IntInit, Encode(n, startingBits, prefix) + rest) == IntComplete(n, rest)
  {
    LowOfSum(startingBits, prefix, n);
    var s := Encode(n, startingBits, prefix) + rest;
    assert s[0] == startingBits + n && s[1..] == rest;
  }

  /** A first byte of all ones hands over to the continuation bytes. */
  lemma LargeHead(n: nat, startingBits: byte, prefix: nat, rest: Bytes)
    requires FreePrefix(startingBits, prefix) && n >= Mask(prefix)
    ensures DecodeInteger(prefix, IntInit, Encode(n, startingBits, prefix) + rest) ==
            DecodeInteger(prefix, IntValue(Mask(prefix), 0), Continuation(n - Mask(prefix)) + rest)
  {
    LowOfSum(startingBits, prefix, Mask(prefix));
    var s := Encode(n, startingBits, prefix) + rest;
    assert s[0] == startingBits + Mask(prefix) && s[1..] == Continuation(n - Mask(prefix)) + rest;
  }

  /**
   * Decoding undoes encoding exactly for values less than 2^63 above the prefix;
   * the decoder refuses the encoding of every larger 64-bit value.
   */
  lemma IntegerRoundTrip(n: nat, startingBits: byte, prefix: nat, rest: Bytes)
    requires n < U64 && FreePrefix(startingBits, prefix)
    ensures DecodeInteger(prefix, IntInit, Encode(n, startingBits, prefix) + rest) ==
            if n < Mask(prefix) + 0x8000_0000_0000_0000 then IntComplete(n, rest) else IntFail
  {
    if n < Mask(prefix) {
      SmallRoundTrip(n, startingBits, prefix, rest);
    } else {
      LargeHead(n, startingBits, prefix, rest);
      var p := IntValue(Mask(prefix), 0);
      MaskIsByte(prefix);
      assert Pow2(0) == 1;
      ContinuationDecodes(prefix, n - Mask(prefix), p, rest);
      Pow2Of63();
      assert Shift(n - Mask(prefix), 0) == n - Mask(prefix);
    }
  }
}
