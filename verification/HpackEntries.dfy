/**
 * The grammar of HPACK entries, read at once from whole input: integers, strings and entries as sections 5 and 6 of
 * RFC 7541 lay them out. The resumable decoder takes exactly this grammar, and the encoder chooses among its forms.
 */
module HpackEntries {
  import opened Octets
  import opened HpackInteger
  import opened HpackTable
  import opened HpackDecoder
  import opened HpackEncoder

  /** What reading from the front of some bytes comes to: a value and what is left, too few bytes, or an error. */
  datatype Parsed<T> = Parsed(value: T, rest: Bytes) | More | Wrong

  // ----- integers

  /** How many octets at the front have their high bit set. */
  function Flagged(s: Bytes): (n: nat)
    ensures n <= |s|
  {
    if s == [] || s[0] < 128 then 0 else 1 + Flagged(s[1..])
  }

  /** Seven bits of each octet, the least significant first. */
  function Sum(s: Bytes): nat {
    if s == [] then 0 else s[0] % 128 + 128 * Sum(s[1..])
  }

  /** The low bits of an octet, and the value they have when all are set. */
  function LowBits(b: byte, prefix: nat): nat {
    if prefix == 4 then b % 16 else if prefix == 5 then b % 32 else if prefix == 6 then b % 64 else b % 128
  }

  function AllOnes(prefix: nat): nat {
    if prefix == 4 then 15 else if prefix == 5 then 31 else if prefix == 6 then 63 else 127
  }

  /** A prefix that is not all ones is the value; else up to nine octets follow, of which the last has no high bit. */
  function ReadInt(prefix: nat, s: Bytes): Parsed<nat> {
    if s == [] then More
    else
      var low, mask := LowBits(s[0], prefix), AllOnes(prefix);
      var n := Flagged(s[1..]);
      if low != mask then Parsed(low, s[1..])
      else if n >= 9 then Wrong
      else if n == |s| - 1 then More
      else Parsed(mask + Sum(s[1..n + 2]), s[n + 2..])
  }

  lemma LowIs(b: byte, prefix: nat)
    requires 4 <= prefix <= 7
    ensures Low(b, prefix) == LowBits(b, prefix)
  {
    hide Low;
    LowOf4(b);
    LowOf5(b);
    LowOf6(b);
    LowOf7(b);
  }

  lemma LowOf7(b: byte)
    ensures Low(b, 7) == b % 128
  {
    assert Low(b, 7) == 2 * Low(b / 2, 6) + b % 2;
    hide Low;
    LowOf6(b / 2);
    Halve128(b, b / 128, b % 128);
  }

  lemma LowOf6(b: byte)
    ensures Low(b, 6) == b % 64
  {
    assert Low(b, 6) == 2 * Low(b / 2, 5) + b % 2;
    hide Low;
    LowOf5(b / 2);
    Halve64(b, b / 64, b % 64);
  }

  lemma LowOf5(b: byte)
    ensures Low(b, 5) == b % 32
  {
    assert Low(b, 5) == 2 * Low(b / 2, 4) + b % 2;
    hide Low;
    LowOf4(b / 2);
    Halve32(b, b / 32, b % 32);
  }

  lemma LowOf4(b: byte)
    ensures Low(b, 4) == b % 16
  {
    assert Low(b, 4) == 2 * Low(b / 2, 3) + b % 2;
    hide Low;
    LowOf3(b / 2);
    Halve16(b, b / 16, b % 16);
  }

  lemma Halve128(b: nat, q: nat, r: nat)
    requires b == 128 * q + r && r < 128
    ensures 2 * (b / 2 % 64) + b % 2 == r
  {
    assert b / 2 == 64 * q + r / 2;
  }

  lemma Halve64(b: nat, q: nat, r: nat)
    requires b == 64 * q + r && r < 64
    ensures 2 * (b / 2 % 32) + b % 2 == r
  {
    assert b / 2 == 32 * q + r / 2;
  }

  lemma Halve32(b: nat, q: nat, r: nat)
    requires b == 32 * q + r && r < 32
    ensures 2 * (b / 2 % 16) + b % 2 == r
  {
    assert b / 2 == 16 * q + r / 2;
  }

  lemma Halve16(b: nat, q: nat, r: nat)
    requires b == 16 * q + r && r < 16
    ensures 2 * (b / 2 % 8) + b % 2 == r
  {
    assert b / 2 == 8 * q + r / 2;
  }

  lemma LowOf3(b: byte)
    ensures Low(b, 3) == b % 8
  {
    assert Low(b / 4, 1) == b / 4 % 2;
    assert Low(b / 2, 2) == 2 * (b / 4 % 2) + b / 2 % 2;
  }

  lemma MaskIs(prefix: nat)
    requires 4 <= prefix <= 7
    ensures Mask(prefix) == AllOnes(prefix)
  {
    ModeMask();
  }

  /** Continuation octets, read in a state that the decoder can be in. */
  lemma {:induction false} TailExactly(prefix: nat, p: IntProgress, s: Bytes)
    requires prefix <= 8 && p.IntValue? && Reachable(p)
    ensures var r, n := DecodeInteger(prefix, p, s), Flagged(s);
            if 7 * n >= 63 - p.bits then r == IntFail
            else if n == |s| then r.IntOngoing?
            else r == IntComplete(p.acc + Sum(s[..n + 1]) * Pow2(p.bits), s[n + 1..])
    decreases |s|
  {
    hide Shift;
    if s != [] {
      AccumulatorNeverWraps(p, s[0]);
      ShiftIs(s[0] % 128, p.bits);
      StepStaysReachable(prefix, p, s[0]);
      if s[0] < 128 {
        assert s[..1] == [s[0]] && [s[0]][1..] == [];
        assert Sum([s[0]]) == s[0] % 128;
      } else if p.bits < 56 {
        var q := IntValue(p.acc + Shift(s[0] % 128, p.bits), p.bits + 7);
        TailExactly(prefix, q, s[1..]);
        var n := Flagged(s[1..]);
        if 7 * n < 56 - p.bits && n < |s| - 1 {
          assert s[..n + 2][1..] == s[1..][..n + 1] && s[1..][n + 1..] == s[n + 2..];
          Pow2Add(p.bits, 7);
          Pow2Of7();
          Weights(s[0] % 128, Sum(s[1..][..n + 1]), Pow2(p.bits));
        }
      }
    }
  }

  lemma ShiftIs(n: nat, bits: nat)
    ensures Shift(n, bits) == n * Pow2(bits)
  {
  }

  lemma Weights(d: nat, sum: nat, w: nat)
    ensures d * w + sum * (w * 128) == (d + 128 * sum) * w
  {
    assert sum * (w * 128) == (128 * sum) * w;
  }

  lemma IntegerExactly(prefix: nat, s: Bytes)
    requires 4 <= prefix <= 7
    ensures match ReadInt(prefix, s)
            case Parsed(v, rest) => DecodeInteger(prefix, IntInit, s) == IntComplete(v, rest)
            case More => DecodeInteger(prefix, IntInit, s).IntOngoing?
            case Wrong => DecodeInteger(prefix, IntInit, s) == IntFail
  {
    if s != [] {
      LowIs(s[0], prefix);
      MaskIs(prefix);
      var mask := Mask(prefix);
      if Low(s[0], prefix) == mask {
        MaskIsByte(prefix);
        var p := IntValue(mask, 0);
        TailExactly(prefix, p, s[1..]);
        var n := Flagged(s[1..]);
        if n < |s| - 1 {
          assert s[1..][..n + 1] == s[1..n + 2] && s[1..][n + 1..] == s[n + 2..];
        }
      }
    }
  }

  // ----- strings

  /** A length, then that many octets, Huffman-coded if the first bit says so. */
  function ReadStr(c: Coder, s: Bytes): Parsed<Bytes> {
    match ReadInt(7, s)
    case More => More
    case Wrong => Wrong
    case Parsed(n, rest) =>
      if |rest| < n then More
      else if s[0] < 128 then Parsed(rest[..n], rest[n..])
      else match HuffmanRun(c, c.start, rest[..n])
           case None => Wrong
           case Some((_, text)) => Parsed(text, rest[n..])
  }

  lemma StringExactly(c: Coder, out: Bytes, s: Bytes)
    ensures var r := DecodeString(c, StrInit, out, s);
            match ReadStr(c, s)
            case Parsed(text, rest) => r == StrComplete(out + text, rest)
            case More => r.StrOngoing? || r.StrFail?
            case Wrong => r == StrFail
  {
    hide DecodeInteger, ReadInt;
    IntegerExactly(7, s);
    ReadNothing(7);
    if ReadInt(7, s).Parsed? {
      var n, rest := ReadInt(7, s).value, ReadInt(7, s).rest;
      if n == 0 {
        assert rest[..0] == [] && rest[0..] == rest && out + [] == out;
      }
    }
  }

  lemma ReadNothing(prefix: nat)
    ensures ReadInt(prefix, []) == More
  {
  }

  // ----- entries

  /** What an entry reports, and the table it leaves. */
  datatype Effect = Effect(event: Event, table: Table) | TableLost

  function EntryAt(statics: seq<Header>, t: Table, index: nat): Option<Header> {
    if 1 <= index <= |statics| + |t.entries| then Some((statics + t.entries)[index - 1]) else None
  }

  /** The field of a literal, saved if its form says so; one that is larger than the table is an error. */
  function Save(t: Table, h: Header, rest: Bytes): Parsed<Effect> {
    if !h.compression.UseCache? then Parsed(Effect(Field(h), t), rest)
    else match Insert(t, h)
         case TooLarge => Wrong
         case Stranded => Parsed(TableLost, rest)
         case Inserted(t') => Parsed(Effect(Field(h), t'), rest)
  }

  function ReadValue(c: Coder, t: Table, name: Bytes, mode: Compression, s: Bytes): Parsed<Effect> {
    match ReadStr(c, s)
    case More => More
    case Wrong => Wrong
    case Parsed(value, rest) => Save(t, Header(name, value, mode), rest)
  }

  /** A literal: an index for the name, or zero and the name; then the value. */
  function ReadLiteral(c: Coder, statics: seq<Header>, t: Table, mode: Compression, prefix: nat,
                       s: Bytes): Parsed<Effect> {
    match ReadInt(prefix, s)
    case More => More
    case Wrong => Wrong
    case Parsed(index, rest) =>
      if index == 0 then
        match ReadStr(c, rest)
        case More => More
        case Wrong => Wrong
        case Parsed(name, rest') => ReadValue(c, t, name, mode, rest')
      else
        match EntryAt(statics, t, index)
        case None => Wrong
        case Some(h) => ReadValue(c, t, h.name, mode, rest)
  }

  /** The five forms of section 6 of RFC 7541, by the leading bits of the first octet. */
  function ReadEntry(c: Coder, statics: seq<Header>, k: Core, s: Bytes): Parsed<Effect> {
    if s == [] then More
    else if s[0] >= 128 then
      match ReadInt(7, s)
      case More => More
      case Wrong => Wrong
      case Parsed(index, rest) =>
        match EntryAt(statics, k.table, index)
        case None => Wrong
        case Some(h) => Parsed(Effect(Field(h), k.table), rest)
    else if s[0] >= 64 then ReadLiteral(c, statics, k.table, UseCache, 6, s)
    else if s[0] >= 32 then
      match ReadInt(5, s)
      case More => More
      case Wrong => Wrong
      case Parsed(size, rest) =>
        if size > k.limit || Resize(k.table, size).None? then Wrong
        else Parsed(Effect(Resized(size), Resize(k.table, size).value), rest)
    else if s[0] >= 16 then ReadLiteral(c, statics, k.table, NoForwardCache, 4, s)
    else ReadLiteral(c, statics, k.table, NoCache, 4, s)
  }

  /** The decoder's result is what was read; an error within a string may be found before all of it is there. */
  ghost predicate Matches(k: Core, r: EntryResult, p: Parsed<Effect>) {
    match p
    case Parsed(Effect(e, t), rest) => r == Complete(Decoder(k.(table := t), EntryInit), e, rest)
    case Parsed(TableLost, _) => r == Lost
    case More => r.Ongoing? || r.Fail?
    case Wrong => r == Fail
  }

  lemma EntryAtIs(statics: seq<Header>, t: Table, index: nat)
    ensures GetHeader(statics, t, index) == EntryAt(statics, t, index)
  {
  }

  lemma ValueMatches(c: Coder, k: Core, name: Bytes, mode: Compression, s: Bytes)
    ensures Matches(k, DecodeFieldValue(c, k, mode, |name|, StrInit, name, s), ReadValue(c, k.table, name, mode, s))
  {
    hide DecodeString, ReadStr, Insert;
    StringExactly(c, name, s);
    if ReadStr(c, s).Parsed? {
      var text := ReadStr(c, s).value;
      assert (name + text)[..|name|] == name && (name + text)[|name|..] == text;
    }
    assert k.(table := k.table) == k;
  }

  lemma LiteralMatches(c: Coder, statics: seq<Header>, k: Core, mode: Compression, s: Bytes)
    ensures Matches(k, DecodeLiteral(c, statics, k, mode, IntInit, s),
                    ReadLiteral(c, statics, k.table, mode, LiteralPrefix(mode), s))
  {
    hide DecodeInteger, ReadInt, DecodeString, ReadStr, DecodeFieldValue, ReadValue;
    IntegerExactly(LiteralPrefix(mode), s);
    if ReadInt(LiteralPrefix(mode), s).Parsed? {
      var index, rest := ReadInt(LiteralPrefix(mode), s).value, ReadInt(LiteralPrefix(mode), s).rest;
      EntryAtIs(statics, k.table, index);
      if index == 0 {
        StringExactly(c, [], rest);
        if ReadStr(c, rest).Parsed? {
          var name := ReadStr(c, rest).value;
          assert [] + name == name;
          ValueMatches(c, k, name, mode, ReadStr(c, rest).rest);
        }
      } else if EntryAt(statics, k.table, index).Some? {
        ValueMatches(c, k, EntryAt(statics, k.table, index).value.name, mode, rest);
      }
    }
  }

  /** Whatever bytes arrive where an entry begins, the decoder takes from them what the grammar reads. */
  lemma EntryExactly(c: Coder, statics: seq<Header>, k: Core, s: Bytes)
    ensures Matches(k, DecodeEntry(c, statics, Decoder(k, EntryInit), s), ReadEntry(c, statics, k, s))
  {
    hide DecodeInteger, ReadInt, DecodeLiteral, ReadLiteral, Resize;
    if s != [] {
      assert k.(table := k.table) == k;
      if s[0] >= 128 {
        IntegerExactly(7, s);
        if ReadInt(7, s).Parsed? {
          EntryAtIs(statics, k.table, ReadInt(7, s).value);
        }
      } else if s[0] >= 64 {
        LiteralMatches(c, statics, k, UseCache, s);
      } else if s[0] >= 32 {
        IntegerExactly(5, s);
      } else if s[0] >= 16 {
        LiteralMatches(c, statics, k, NoForwardCache, s);
      } else {
        LiteralMatches(c, statics, k, NoCache, s);
      }
    }
  }

  // ----- what the encoder chooses

  /** A coder that is its own inverse: the results about correct coders are about something. */
  const PLAIN: Coder := Coder(0, (_, b) => Some((0, [b])), s => s)

  lemma {:induction false} PlainRuns(s: Bytes)
    ensures HuffmanRun(PLAIN, 0, s) == Some((0, s))
  {
    if s != [] {
      PlainRuns(s[1..]);
      assert [s[0]] + s[1..] == s;
    }
  }

  lemma PlainIsCorrect()
    ensures CoderCorrect(PLAIN)
  {
    forall s: Bytes
      ensures HuffmanRun(PLAIN, PLAIN.start, PLAIN.encode(s)).Some?
      ensures HuffmanRun(PLAIN, PLAIN.start, PLAIN.encode(s)).value.1 == s
    {
      PlainRuns(s);
    }
  }

  /**
   * A string goes out Huffman-coded, with the first bit set, if that is asked for or, when the smaller form is, if it
   * is shorter; so the body is then never longer than either.
   */
  lemma StringForm(c: Coder, mode: HuffmanMode, s: Bytes)
    requires Fits(c, s)
    ensures var wire := EncodeString(c, mode, s);
            var n := if mode == Never then |s| else if mode == Always then |c.encode(s)| else Min(|c.encode(s)|, |s|);
            && wire != [] && ReadInt(7, wire).Parsed? && ReadInt(7, wire).value == n && |ReadInt(7, wire).rest| == n
            && (wire[0] >= 128 <==> mode == Always || (mode == Smallest && |c.encode(s)| < |s|))
  {
    hide DecodeInteger, ReadInt, Encode;
    var body := StringBody(c, mode, s);
    StringHead(c, mode, s, body);
    IntegerExactly(7, EncodeString(c, mode, s));
  }

  /** Which form a field goes out in, by its first octet, and what the form leaves of the name and in the table. */
  lemma FieldForm(c: Coder, mode: HuffmanMode, t: Table, h: Header, l: Lookup)
    requires FieldFits(c, h) && l.index < HALF
    ensures var wire := FieldBytes(c, mode, h, l);
            wire != [] &&
            match h.compression
            case NoForwardCache => 16 <= wire[0] < 32 && FieldTable(t, h, l) == Inserted(t)
            case NoCache => wire[0] < 16 && FieldTable(t, h, l) == Inserted(t)
            case UseCache =>
              if l.found && l.index != 0 then
                wire[0] >= 128 && ReadInt(7, wire) == Parsed(l.index, []) && FieldTable(t, h, l) == Inserted(t)
              else 64 <= wire[0] < 128 && FieldTable(t, h, l) == Insert(t, h)
    ensures var wire := FieldBytes(c, mode, h, l);
            !(h.compression.UseCache? && l.found && l.index != 0) ==>
              var r := ReadInt(if h.compression.UseCache? then 6 else 4, wire);
              r.Parsed? && r.value == l.index &&
              r.rest == (if l.index == 0 then EncodeString(c, mode, h.name) else []) + EncodeString(c, mode, h.value)
  {
    hide DecodeInteger, ReadInt, EncodeString, Insert;
    PatternsFree();
    ModeMask();
    var wire := FieldBytes(c, mode, h, l);
    if IsIndexed(h, l) {
      FirstByte(l.index, 128, 7);
      IntegerRoundTrip(l.index, 128, 7, []);
      assert Encode(l.index, 128, 7) + [] == Encode(l.index, 128, 7);
      IntegerExactly(7, wire);
    } else {
      var bits, prefix := LiteralBits(h.compression), LiteralPrefix(h.compression);
      var tail := (if l.index == 0 then EncodeString(c, mode, h.name) else []) + EncodeString(c, mode, h.value);
      FirstByte(l.index, bits, prefix);
      IntegerRoundTrip(l.index, bits, prefix, tail);
      assert wire == Encode(l.index, bits, prefix) + tail;
      IntegerExactly(prefix, wire);
    }
  }
}
