/** The pieces of HTTP/1.1 syntax that its encoder and its decoder share. */
module H1Syntax {
  import opened Octets

  const CR: byte := 13
  const LF: byte := 10
  const CRLF: Bytes := [13, 10]
  const SP: byte := 32
  const TAB: byte := 9
  const COLON: byte := 58
  const SEMICOLON: byte := 59
  const COMMA: byte := 44
  const EQUALS: byte := 61

  // ----- character classes

  predicate IsDigit(c: byte) {
    48 <= c <= 57
  }

  predicate IsAlpha(c: byte) {
    65 <= c <= 90 || 97 <= c <= 122
  }

  predicate IsTokenChar(c: byte) {
    || IsDigit(c) || IsAlpha(c)
    || c in {33, 35, 36, 37, 38, 39, 42, 43, 45, 46, 94, 95, 96, 124, 126}
  }

  predicate IsSpace(c: byte) {
    c == SP || c == TAB
  }

  predicate IsContent(c: byte) {
    IsSpace(c) || 0x21 <= c <= 0x7E || c >= 0x80
  }

  predicate IsToken(s: Bytes) {
    s != [] && forall i | 0 <= i < |s| :: IsTokenChar(s[i])
  }

  predicate IsPhrase(s: Bytes) {
    forall i | 0 <= i < |s| :: IsContent(s[i])
  }

  predicate IsValue(s: Bytes) {
    (s != [] ==> !IsSpace(s[0]) && !IsSpace(s[|s| - 1])) && IsPhrase(s)
  }

  predicate IsTarget(s: Bytes) {
    s != [] && forall i | 0 <= i < |s| :: s[i] > SP
  }

  // ----- trimming

  function TrimLeft(s: Bytes): (r: Bytes)
    ensures |r| <= |s| && (r != [] ==> !IsSpace(r[0]))
  {
    if s != [] && IsSpace(s[0]) then TrimLeft(s[1..]) else s
  }

  function TrimRight(s: Bytes): (r: Bytes)
    ensures |r| <= |s| && (r != [] ==> !IsSpace(r[|r| - 1]) && s != [] && r[0] == s[0])
  {
    if s != [] && IsSpace(s[|s| - 1]) then TrimRight(s[..|s| - 1]) else s
  }

  function Trim(s: Bytes): (r: Bytes)
    ensures r != [] ==> !IsSpace(r[0]) && !IsSpace(r[|r| - 1])
  {
    TrimRight(TrimLeft(s))
  }

  /** A space in front is trimmed off like any other. */
  lemma TrimSpaceFirst(s: Bytes)
    ensures Trim([SP] + s) == Trim(s)
  {
    assert ([SP] + s)[1..] == s;
  }

  lemma {:induction false} TrimLeftChars(s: Bytes, c: byte)
    requires c in s && !IsSpace(c)
    ensures c in TrimLeft(s)
    decreases |s|
  {
    if s != [] && IsSpace(s[0]) {
      assert c in s[1..];
      TrimLeftChars(s[1..], c);
    }
  }

  lemma {:induction false} TrimRightChars(s: Bytes, c: byte)
    requires c in s && !IsSpace(c)
    ensures c in TrimRight(s)
    decreases |s|
  {
    if s != [] && IsSpace(s[|s| - 1]) {
      assert s == s[..|s| - 1] + [s[|s| - 1]];
      TrimRightChars(s[..|s| - 1], c);
    }
  }

  /** Whatever is not white space survives trimming, so a value that is valid once trimmed holds no line end. */
  lemma TrimmedHoldsNoLineEnd(s: Bytes)
    requires IsValue(Trim(s))
    ensures CR !in s && LF !in s
  {
    if CR in s {
      TrimLeftChars(s, CR);
      TrimRightChars(TrimLeft(s), CR);
    }
    if LF in s {
      TrimLeftChars(s, LF);
      TrimRightChars(TrimLeft(s), LF);
    }
  }

  // ----- splitting

  /** The part before the first `c`, and the part after it if there is one. */
  function Cut(s: Bytes, c: byte): (r: (Bytes, Option<Bytes>))
    ensures c !in r.0
    ensures r.1.None? ==> r.0 == s
    ensures r.1.Some? ==> s == r.0 + [c] + r.1.value
  {
    if s == [] then ([], None)
    else if s[0] == c then ([], Some(s[1..]))
    else
      var (head, tail) := Cut(s[1..], c);
      assert tail.Some? ==> s == ([s[0]] + head) + [c] + tail.value by {
        assert tail.Some? ==> s[1..] == head + [c] + tail.value;
      }
      ([s[0]] + head, tail)
  }

  lemma {:induction false} CutAt(a: Bytes, c: byte, b: Bytes)
    requires c !in a
    ensures Cut(a + [c] + b, c) == (a, Some(b))
    decreases |a|
  {
    var s := a + [c] + b;
    if a == [] {
      assert s == [c] + b && s[1..] == b;
    } else {
      assert s[1..] == a[1..] + [c] + b;
      CutAt(a[1..], c, b);
      assert [a[0]] + a[1..] == a;
    }
  }

  lemma {:induction false} CutNone(a: Bytes, c: byte)
    requires c !in a
    ensures Cut(a, c) == (a, None)
    decreases |a|
  {
    if a != [] {
      CutNone(a[1..], c);
      assert [a[0]] + a[1..] == a;
    }
  }

  // ----- numbers

  function DigitValue(c: byte, base: nat): Option<nat> {
    if IsDigit(c) then Some(c - 48)
    else if base == 16 && 65 <= c <= 70 then Some(c - 55)
    else if base == 16 && 97 <= c <= 102 then Some(c - 87)
    else None
  }

  const U64: nat := 0x1_0000_0000_0000_0000

  /** A number in the given base that fits 64 bits; an empty string is none. */
  function Parse(s: Bytes, base: nat): Option<nat> {
    if s == [] then None else ParseDigits(s, base)
  }

  function ParseDigits(s: Bytes, base: nat): (r: Option<nat>)
    ensures r.Some? ==> r.value < U64
    decreases |s|
  {
    if s == [] then Some(0)
    else
      match (ParseDigits(s[..|s| - 1], base), DigitValue(s[|s| - 1], base))
      case (Some(n), Some(d)) => if n * base + d < U64 && n * base + d >= 0 then Some(n * base + d) else None
      case _ => None
  }

  function HexDigit(d: nat): byte
    requires d < 16
  {
    if d < 10 then 48 + d else 55 + d
  }

  /** Upper-case hexadecimal without leading zeros. */
  function Hex(n: nat): (s: Bytes)
    ensures s != []
  {
    if n < 16 then [HexDigit(n)] else Hex(n / 16) + [HexDigit(n % 16)]
  }

  lemma HexDigitRoundTrip(d: nat)
    requires d < 16
    ensures DigitValue(HexDigit(d), 16) == Some(d) && HexDigit(d) != SEMICOLON && HexDigit(d) != CR && HexDigit(d) != LF
  {
  }

  lemma {:induction false} HexRoundTrip(n: nat)
    requires n < U64
    ensures Parse(Hex(n), 16) == Some(n)
    ensures SEMICOLON !in Hex(n) && CR !in Hex(n) && LF !in Hex(n)
  {
    HexDigitRoundTrip(n % 16);
    if n < 16 {
      var s := [HexDigit(n)];
      assert s[..|s| - 1] == [] && ParseDigits([], 16) == Some(0);
      assert n % 16 == n;
    } else {
      HexRoundTrip(n / 16);
      var s := Hex(n);
      assert s[..|s| - 1] == Hex(n / 16) && s[|s| - 1] == HexDigit(n % 16);
      assert n / 16 * 16 + n % 16 == n;
    }
  }

  // ----- line ends

  /** The length of the first line of `s`, with its CRLF, if it has one. */
  function LineLength(s: Bytes): (n: nat)
    ensures n <= |s| && (n > 0 ==> n >= 2)
    decreases |s|
  {
    if |s| < 2 then 0
    else if s[0] == CR && s[1] == LF then 2
    else
      var n := LineLength(s[1..]);
      if n == 0 then 0 else n + 1
  }

  /** No line end in `s`, not even half of one at its end. */
  predicate Plain(s: Bytes) {
    CR !in s && LF !in s
  }

  lemma {:induction false} LineOfPlain(a: Bytes, b: Bytes)
    requires Plain(a)
    ensures LineLength(a + CRLF + b) == |a| + 2
    decreases |a|
  {
    var s := a + CRLF + b;
    if a == [] {
      assert s == CRLF + b;
    } else {
      assert s[1..] == a[1..] + CRLF + b;
      assert s[0] == a[0];
      LineOfPlain(a[1..], b);
    }
  }

  /** A line that ends where it should: no line end in it, or made of its last byte and the one after. */
  predicate Own(line: Bytes) {
    LineLength(line + CRLF) == |line| + 2
  }

  lemma PlainIsOwn(line: Bytes)
    requires Plain(line)
    ensures Own(line)
  {
    LineOfPlain(line, []);
    assert line + CRLF + [] == line + CRLF;
  }

  /** A line found in the first part of the input is the line found in the whole. */
  lemma {:induction false} LineStays(a: Bytes, b: Bytes)
    requires LineLength(a) > 0
    ensures LineLength(a + b) == LineLength(a)
    decreases |a|
  {
    if !(a[0] == CR && a[1] == LF) {
      assert (a + b)[1..] == a[1..] + b;
      LineStays(a[1..], b);
    }
  }
}
