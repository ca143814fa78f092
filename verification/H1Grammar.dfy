/**
 * The grammar that the HTTP/1.1 decoder holds its input to, for arbitrary lines: which start lines, header sections and
 * chunk sizes it takes, what it makes of them, and which it refuses.
 */
module H1Grammar {
  import opened Octets
  import opened H1Syntax
  import opened H1Decoder
  import opened H1Codings
  import opened H1RoundTrip

  // ----- characters

  /** Delimiters of section 3.2.6 of RFC 7230. */
  const DELIMITERS: set<nat> := {34, 40, 41, 44, 47, 58, 59, 60, 61, 62, 63, 64, 91, 92, 93, 123, 125}

  /** A character of a token is a visible one that is no delimiter. */
  lemma TokenChars(c: byte)
    ensures IsTokenChar(c) <==> 33 <= c <= 126 && c as nat !in DELIMITERS
  {
  }

  /** A character of a value is any but controls and DEL, and TAB. */
  lemma ContentChars(c: byte)
    ensures IsContent(c) <==> (c >= 32 && c != 127) || c == 9
  {
  }

  // ----- trimming

  /** Trimming takes off white space at both ends, and nothing else. */
  lemma TrimmedIs(s: Bytes) returns (a: Bytes, b: Bytes)
    ensures s == a + Trim(s) + b
    ensures forall i | 0 <= i < |a| :: a[i] == 32 || a[i] == 9
    ensures forall i | 0 <= i < |b| :: b[i] == 32 || b[i] == 9
    ensures Trim(s) != [] ==> !IsSpace(Trim(s)[0]) && !IsSpace(Trim(s)[|Trim(s)| - 1])
  {
    hide TrimLeft, TrimRight;
    a := LeftSpace(s);
    b := RightSpace(TrimLeft(s));
    Regroup(s, a, TrimLeft(s), Trim(s), b);
  }

  lemma Regroup(s: Bytes, a: Bytes, rest: Bytes, middle: Bytes, b: Bytes)
    requires s == a + rest && rest == middle + b
    ensures s == a + middle + b
  {
  }

  lemma {:induction false} LeftSpace(s: Bytes) returns (a: Bytes)
    ensures s == a + TrimLeft(s) && forall i | 0 <= i < |a| :: a[i] == 32 || a[i] == 9
  {
    if s != [] && IsSpace(s[0]) {
      var more := LeftSpace(s[1..]);
      a := [s[0]] + more;
      SpaceFirst(s, more, TrimLeft(s[1..]));
    } else {
      a := [];
    }
  }

  lemma SpaceFirst(s: Bytes, more: Bytes, rest: Bytes)
    requires s != [] && s[1..] == more + rest
    ensures s == ([s[0]] + more) + rest
  {
    assert s == [s[0]] + s[1..];
  }

  lemma {:induction false} RightSpace(s: Bytes) returns (b: Bytes)
    ensures s == TrimRight(s) + b && forall i | 0 <= i < |b| :: b[i] == 32 || b[i] == 9
  {
    if s != [] && IsSpace(s[|s| - 1]) {
      var more := RightSpace(s[..|s| - 1]);
      b := more + [s[|s| - 1]];
      assert s == s[..|s| - 1] + [s[|s| - 1]];
    } else {
      b := [];
    }
  }

  // ----- numbers

  /** The value of a digit, in either case of letters, or none. */
  function Digit(c: byte): Option<nat> {
    if 48 <= c <= 57 then Some(c - 48)
    else if 65 <= c <= 70 then Some(10 + (c - 65))
    else if 97 <= c <= 102 then Some(10 + (c - 97))
    else None
  }

  predicate AllDigits(s: Bytes, base: nat) {
    forall i | 0 <= i < |s| :: Digit(s[i]).Some? && Digit(s[i]).value < base
  }

  /** The value of digits, most significant first, without bound. */
  function Value(s: Bytes, base: nat): nat
    requires AllDigits(s, base)
    decreases |s|
  {
    if s == [] then 0 else Weighted(Digit(s[0]).value, base, |s| - 1) + Value(s[1..], base)
  }

  function Weighted(digit: nat, base: nat, n: nat): nat {
    digit * Power(base, n)
  }

  function Power(base: nat, n: nat): nat {
    if n == 0 then 1 else base * Power(base, n - 1)
  }

  lemma DigitIs(c: byte, base: nat)
    requires base == 10 || base == 16
    ensures DigitValue(c, base) == if Digit(c).Some? && Digit(c).value < base then Digit(c) else None
  {
  }

  lemma {:induction false} ValuePush(s: Bytes, c: byte, base: nat)
    requires AllDigits(s + [c], base)
    ensures AllDigits(s, base) && Digit(c).Some? && Digit(c).value < base
    ensures Value(s + [c], base) == Value(s, base) * base + Digit(c).value
    decreases |s|
  {
    var all := s + [c];
    assert forall i | 0 <= i < |s| :: all[i] == s[i];
    assert all[|s|] == c;
    if s == [] {
      assert all == [c] && all[1..] == [];
      assert Power(base, 0) == 1;
    } else {
      assert all[1..] == s[1..] + [c];
      ValuePush(s[1..], c, base);
      PowerStep(Digit(s[0]).value, base, |s| - 1, Value(s[1..], base));
    }
  }

  lemma PowerStep(d: nat, base: nat, n: nat, v: nat)
    ensures d * Power(base, n + 1) + v * base == (d * Power(base, n) + v) * base
  {
    assert Power(base, n + 1) == base * Power(base, n);
    assert d * (base * Power(base, n)) == (d * Power(base, n)) * base;
  }

  /** A number is taken exactly if it is made of digits and fits 64 bits, and then for its value. */
  lemma {:induction false} NumberExactly(s: Bytes, base: nat)
    requires base == 10 || base == 16
    ensures ParseDigits(s, base) == if AllDigits(s, base) && Value(s, base) < U64 then Some(Value(s, base)) else None
    decreases |s|
  {
    if s != [] {
      var front, c := s[..|s| - 1], s[|s| - 1];
      assert s == front + [c];
      NumberExactly(front, base);
      DigitIs(c, base);
      if AllDigits(s, base) {
        ValuePush(front, c, base);
      } else if AllDigits(front, base) {
        assert !(Digit(c).Some? && Digit(c).value < base) by {
          if Digit(c).Some? && Digit(c).value < base {
            assert forall i | 0 <= i < |s| :: s[i] == if i < |front| then front[i] else c;
          }
        }
      }
    }
  }

  // ----- start lines

  /** A request line: a token, a target and the version, with single spaces between. */
  predicate IsRequestLine(line: Bytes, verb: Bytes, target: Bytes) {
    && line == verb + [SP] + (target + [SP] + VERSION_1_1)
    && IsToken(verb) && IsTarget(target)
  }

  lemma NoSpaces(verb: Bytes, target: Bytes)
    requires IsToken(verb) && IsTarget(target)
    ensures SP !in verb && SP !in target && SP !in VERSION_1_1
  {
  }

  /** The decoder takes exactly the request lines, and reports their parts. */
  lemma RequestExactly(d: Decoder, line: Bytes)
    ensures var o := ProcessRequest(d, line);
            && (o.Bad? || o.Moved?)
            && (o.Moved? ==>
                  && |o.log| == 1 && o.log[0].Request? && IsRequestLine(line, o.log[0].verb, o.log[0].target)
                  && o.d == d.(state := InLine(HeaderLine)))
  {
  }

  lemma RequestTaken(d: Decoder, line: Bytes, verb: Bytes, target: Bytes)
    requires IsRequestLine(line, verb, target)
    ensures ProcessRequest(d, line) == Moved(d.(state := InLine(HeaderLine)), [Request(verb, target)])
  {
    hide Cut;
    NoSpaces(verb, target);
    CutAt(verb, SP, target + [SP] + VERSION_1_1);
    CutAt(target, SP, VERSION_1_1);
  }

  /** A status line: a version, three digits and a phrase, with single spaces between. */
  predicate IsStatusLine(line: Bytes, version: Bytes, code: Bytes, phrase: Bytes) {
    && line == version + [SP] + (code + [SP] + phrase)
    && (version == VERSION_1_1 || version == VERSION_1_0)
    && |code| == 3 && AllDigits(code, 10) && IsPhrase(phrase)
  }

  lemma {:induction false} SmallValue(s: Bytes)
    requires AllDigits(s, 10)
    ensures Value(s, 10) < Power(10, |s|)
    decreases |s|
  {
    if s != [] {
      SmallValue(s[1..]);
      var p := Power(10, |s| - 1);
      assert Digit(s[0]).value * p <= 9 * p;
    }
  }

  lemma CodeFits(code: Bytes)
    requires |code| == 3 && AllDigits(code, 10)
    ensures Parse(code, 10) == Some(Value(code, 10))
  {
    SmallValue(code);
    assert Power(10, 3) == 1000;
    NumberExactly(code, 10);
  }

  lemma DigitsAreNoSpace(code: Bytes)
    requires AllDigits(code, 10)
    ensures SP !in code && SP !in VERSION_1_1 && SP !in VERSION_1_0
  {
  }

  /**
   * The decoder takes exactly the status lines, and reports the code. 304 means that headers about a body are ignored,
   * 204 and 1xx that they are not allowed.
   */
  lemma StatusTaken(d: Decoder, line: Bytes, version: Bytes, code: Bytes, phrase: Bytes)
    requires IsStatusLine(line, version, code, phrase)
    ensures var n := Value(code, 10);
            ProcessResponse(d, line) ==
            Moved(d.(state := InLine(HeaderLine), ignored := d.ignored || n == 304,
                     forbidden := n == 204 || 100 <= n <= 199), [Response(n)])
  {
    hide Cut, Parse, Value;
    DigitsAreNoSpace(code);
    CutAt(version, SP, code + [SP] + phrase);
    CutAt(code, SP, phrase);
    CodeFits(code);
  }

  lemma StatusExactly(d: Decoder, line: Bytes) returns (version: Bytes, code: Bytes, phrase: Bytes)
    ensures ProcessResponse(d, line).Bad? || ProcessResponse(d, line).Moved?
    ensures ProcessResponse(d, line).Moved? ==> IsStatusLine(line, version, code, phrase)
  {
    hide Parse;
    version, code, phrase := [], [], [];
    if ProcessResponse(d, line).Moved? {
      version := Cut(line, SP).0;
      var tail := Cut(line, SP).1.value;
      code, phrase := Cut(tail, SP).0, Cut(tail, SP).1.value;
      assert ParseDigits(code, 10).Some? by { ParsedDigits(code); }
      NumberExactly(code, 10);
    }
  }

  lemma ParsedDigits(s: Bytes)
    requires Parse(s, 10).Some?
    ensures ParseDigits(s, 10).Some?
  {
  }

  // ----- chunk sizes

  /** A size line is hexadecimal digits, at least one, up to a semicolon or the end, for less than 2^64. */
  lemma SizeExactly(d: Decoder, line: Bytes)
    ensures var digits := Cut(line, SEMICOLON).0;
            var o := ProcessSize(d, line);
            && !o.Finished?
            && (o.Moved? <==> digits != [] && AllDigits(digits, 16) && Value(digits, 16) < U64)
            && (o.Moved? ==>
                  o == if Value(digits, 16) ==
                      0 then Moved(d.(state := InLine(HeaderLine), trailers := true), [BodyEnd])
                       else Moved(d.(state := InChunk, left := Value(digits, 16)), []))
  {
    hide Cut;
    NumberExactly(Cut(line, SEMICOLON).0, 16);
  }

  // ----- header sections

  /** The name and the trimmed value of a well-formed header line. */
  function FieldIn(line: Bytes): Option<(Bytes, Bytes)> {
    var (name, tail) := Cut(line, COLON);
    if tail.Some? && IsToken(name) && IsValue(Trim(tail.value)) then Some((name, Trim(tail.value))) else None
  }

  function KindIn(names: Names, line: Bytes): Kind {
    if FieldIn(line).Some? then names.kind(FieldIn(line).value.0) else Other
  }

  /** All codings that the lines of a section list, in order. */
  function CodingsIn(names: Names, lines: seq<Bytes>): seq<Bytes>
    decreases |lines|
  {
    if lines == [] then []
    else
      var last := lines[|lines| - 1];
      CodingsIn(names, lines[..|lines| - 1]) +
      if KindIn(names, last) == TransferEncoding then CodingsOf(FieldIn(last).value.1) else []
  }

  /** The length that the last line about it gives, or zero. */
  function LengthIn(names: Names, lines: seq<Bytes>): nat
    decreases |lines|
  {
    if lines == [] then 0
    else
      var last := lines[|lines| - 1];
      if KindIn(names, last) == ContentLength && IsNumber(FieldIn(last).value.1) then Value(FieldIn(last).value.1, 10)
      else LengthIn(names, lines[..|lines| - 1])
  }

  predicate IsNumber(s: Bytes) {
    s != [] && AllDigits(s, 10) && Value(s, 10) < U64
  }

  /** It is a known coding or none at all, and not a new one after chunked. */
  predicate Allowed(names: Names, cs: seq<Bytes>, coding: Bytes) {
    && (names.coding(coding).Some? || coding == [])
    && (Chunked in Known(names, cs) && names.coding(coding).Some? ==> names.coding(coding).value in Known(names, cs))
  }

  predicate AllAllowed(names: Names, cs: seq<Bytes>, more: seq<Bytes>) {
    forall j | 0 <= j < |more| :: Allowed(names, cs + more[..j], more[j])
  }

  /** When a line may follow others in a header section. */
  predicate LineFits(names: Names, forbidden: bool, before: seq<Bytes>, line: Bytes) {
    FieldIn(line).Some? &&
    var value := FieldIn(line).value.1;
    match KindIn(names, line)
    case ContentLength =>
      Known(names, CodingsIn(names, before)) == {} && IsNumber(value) && (forbidden ==> Value(value, 10) == 0)
    case TransferEncoding =>
      LengthIn(names, before) == 0 && !forbidden && AllAllowed(names, CodingsIn(names, before), CodingsOf(value))
    case Other => true
  }

  lemma AllowedFirst(names: Names, cs: seq<Bytes>, first: Bytes, more: seq<Bytes>)
    ensures AllAllowed(names, cs, [first] + more) <==>
            Allowed(names, cs, first) && AllAllowed(names, cs + [first], more)
  {
    hide Allowed;
    var all := [first] + more;
    assert cs + all[..0] == cs;
    forall j | 0 <= j < |more| ensures cs + all[..j + 1] == (cs + [first]) + more[..j] && all[j + 1] == more[j] {
      assert all[..j + 1] == [first] + more[..j];
    }
    if AllAllowed(names, cs, all) {
      assert Allowed(names, cs + all[..0], all[0]);
      forall j | 0 <= j < |more| ensures Allowed(names, (cs + [first]) + more[..j], more[j]) {
        assert Allowed(names, cs + all[..j + 1], all[j + 1]);
      }
    }
    if Allowed(names, cs, first) && AllAllowed(names, cs + [first], more) {
      forall j | 0 <= j < |all| ensures Allowed(names, cs + all[..j], all[j]) {
        if j > 0 {
          assert Allowed(names, (cs + [first]) + more[..j - 1], more[j - 1]);
        }
      }
    }
  }

  /** Of any list of codings whatever, the decoder takes exactly those that are allowed after what came before. */
  lemma {:induction false} ListExactly(names: Names, cs: seq<Bytes>, list: Bytes)
    ensures var more := CodingsOf(list);
            AddCodings(names, Known(names, cs), list) ==
            if AllAllowed(names, cs, more) then Some(Known(names, cs + more)) else None
    decreases |list|
  {
    hide Trim, Known, AllAllowed;
    var (head, tail) := Cut(list, COMMA);
    var coding := Trim(head);
    KnownPush(names, cs, coding);
    var rest := if tail.None? then [] else CodingsOf(tail.value);
    AllowedFirst(names, cs, coding, rest);
    assert cs + ([coding] + rest) == (cs + [coding]) + rest;
    var known, before := names.coding(coding), Known(names, cs);
    assert before + {} == before;
    if known.Some? {
      assert known.value in before <==> before + {known.value} == before;
    }
    if tail.None? {
      assert (cs + [coding]) + rest == cs + [coding];
      NothingMore(names, cs + [coding]);
    } else {
      ListExactly(names, cs + [coding], tail.value);
    }
  }

  lemma NothingMore(names: Names, cs: seq<Bytes>)
    ensures AllAllowed(names, cs, [])
  {
  }

  /** The decoder in a header section of which it has read some lines; `d` is the one that began it. */
  function InSection(names: Names, d: Decoder, lines: seq<Bytes>): Decoder {
    d.(codings := Known(names, CodingsIn(names, lines)), contentLength := LengthIn(names, lines))
  }

  /** Where a header section begins. */
  predicate AtSection(d: Decoder) {
    d.state == InLine(HeaderLine) && d.scratch == [] && d.codings == {} && d.contentLength == 0
  }

  lemma InPush(names: Names, lines: seq<Bytes>, line: Bytes)
    ensures CodingsIn(names, lines + [line]) ==
            CodingsIn(names, lines) +
            if KindIn(names, line) == TransferEncoding then CodingsOf(FieldIn(line).value.1) else []
    ensures LengthIn(names, lines + [line]) ==
            if KindIn(names, line) == ContentLength && IsNumber(FieldIn(line).value.1) then
              Value(FieldIn(line).value.1, 10)
            else LengthIn(names, lines)
  {
    assert (lines + [line])[..|lines|] == lines;
  }

  /** One header line after others: taken, with what it adds, exactly if it fits. */
  lemma LineExactly(names: Names, d: Decoder, before: seq<Bytes>, line: Bytes)
    requires line != []
    ensures ProcessHeader(names, InSection(names, d, before), line) ==
            if LineFits(names, d.forbidden, before, line) then
              Moved(InSection(names, d, before + [line]), [Field(FieldIn(line).value.0, FieldIn(line).value.1)])
            else Bad
  {
    hide Cut, Trim, IsToken, IsValue, Known, CodingsIn, LengthIn, AddCodings, CodingsOf, AllAllowed, Parse, Value,
         AllDigits;
    InPush(names, before, line);
    var cs := CodingsIn(names, before);
    assert cs + [] == cs;
    if FieldIn(line).Some? {
      var value := FieldIn(line).value.1;
      ListExactly(names, cs, value);
      NumberIs(value);
    }
  }

  lemma NumberIs(s: Bytes)
    ensures Parse(s, 10) == if IsNumber(s) then Some(Value(s, 10)) else None
  {
    hide ParseDigits;
    NumberExactly(s, 10);
  }

  predicate AllLines(lines: seq<Bytes>) {
    forall j | 0 <= j < |lines| :: lines[j] != [] && Own(lines[j])
  }

  function Lines(lines: seq<Bytes>): Bytes {
    if lines == [] then [] else lines[0] + CRLF + Lines(lines[1..])
  }

  /** The fields of lines that are all well formed. */
  function FieldsIn(lines: seq<Bytes>): seq<Event> {
    if lines == [] then []
    else (if FieldIn(lines[0]).Some? then [Field(FieldIn(lines[0]).value.0, FieldIn(lines[0]).value.1)] else []) +
         FieldsIn(lines[1..])
  }

  /** How many lines fit, one after the other. */
  function Fitting(names: Names, forbidden: bool, before: seq<Bytes>, lines: seq<Bytes>): (n: nat)
    ensures n <= |lines|
    decreases |lines|
  {
    if lines == [] || !LineFits(names, forbidden, before, lines[0]) then 0
    else 1 + Fitting(names, forbidden, before + [lines[0]], lines[1..])
  }

  lemma FirstLine(lines: seq<Bytes>, s: Bytes)
    requires lines != []
    ensures Lines(lines) + s == lines[0] + CRLF + (Lines(lines[1..]) + s)
  {
  }

  lemma OneFurther(before: seq<Bytes>, lines: seq<Bytes>)
    requires lines != []
    ensures before + [lines[0]] + lines[1..] == before + lines
  {
  }

  lemma FirstOff(lines: seq<Bytes>, n: nat)
    requires n < |lines|
    ensures lines[..n + 1][1..] == lines[1..][..n]
  {
  }

  lemma {:induction false} LinesRun(su: Setup, d: Decoder, before: seq<Bytes>, lines: seq<Bytes>, s: Bytes)
    requires AtSection(d) && AllLines(lines)
    ensures var d0, n := InSection(su.names, d, before), Fitting(su.names, d.forbidden, before, lines);
            var d1 := InSection(su.names, d, before + lines);
            && Valid(d0) && Valid(d1)
            && Decode(su, d0, Lines(lines) + s) ==
               if n == |lines| then Then(FieldsIn(lines), Decode(su, d1, s)) else Run(FieldsIn(lines[..n]), Failed)
    decreases |lines|
  {
    hide Decode, ProcessHeader, LineFits, InSection, FieldIn, LineLength, Lines;
    var d0 := InSection(su.names, d, before);
    SectionStays(su.names, d, before);
    SectionStays(su.names, d, before + lines);
    if lines == [] {
      assert before + lines == before;
      NoLines(s);
      ThenNothing(Decode(su, d0, s));
    } else {
      var rest := lines[1..];
      FirstLine(lines, s);
      LineExactly(su.names, d, before, lines[0]);
      RunOwnLine(su, d0, lines[0], Lines(rest) + s);
      assert ProcessLine(su, d0, HeaderLine, lines[0]) == ProcessHeader(su.names, d0, lines[0]);
      if LineFits(su.names, d.forbidden, before, lines[0]) {
        var next := before + [lines[0]];
        LinesRun(su, d, next, rest, s);
        OneFurther(before, lines);
        var n := Fitting(su.names, d.forbidden, next, rest);
        FirstOff(lines, n);
        FitsIsField(su.names, d.forbidden, before, lines[0]);
        var f := Field(FieldIn(lines[0]).value.0, FieldIn(lines[0]).value.1);
        if n == |rest| {
          Appended([f], FieldsIn(rest), Decode(su, InSection(su.names, d, before + lines), s).log);
        }
      }
    }
  }

  lemma SectionStays(names: Names, d: Decoder, lines: seq<Bytes>)
    requires AtSection(d)
    ensures var d0 := InSection(names, d, lines);
            && d0.state == InLine(HeaderLine) && d0.scratch == [] && d0.forbidden == d.forbidden && Valid(d0)
  {
    EmptyIsNoLine();
  }

  lemma NoLines(s: Bytes)
    ensures Lines([]) + s == s
  {
  }

  lemma ThenNothing(r: Run)
    ensures Then([], r) == r
  {
  }

  lemma FitsIsField(names: Names, forbidden: bool, before: seq<Bytes>, line: Bytes)
    requires LineFits(names, forbidden, before, line)
    ensures FieldIn(line).Some?
  {
  }

  lemma Appended(a: seq<Event>, b: seq<Event>, c: seq<Event>)
    ensures (a + b) + c == a + (b + c)
  {
  }

  predicate SectionFits(names: Names, forbidden: bool, lines: seq<Bytes>) {
    forall j | 0 <= j < |lines| :: LineFits(names, forbidden, lines[..j], lines[j])
  }

  lemma {:induction false} FittingIs(names: Names, forbidden: bool, before: seq<Bytes>, lines: seq<Bytes>)
    ensures var n := Fitting(names, forbidden, before, lines);
            && (forall j | 0 <= j < n :: LineFits(names, forbidden, before + lines[..j], lines[j]))
            && (n < |lines| ==> !LineFits(names, forbidden, before + lines[..n], lines[n]))
    decreases |lines|
  {
    hide LineFits;
    if lines != [] {
      assert before + lines[..0] == before;
      if LineFits(names, forbidden, before, lines[0]) {
        var next := before + [lines[0]];
        FittingIs(names, forbidden, next, lines[1..]);
        forall j | 0 <= j < |lines| - 1 ensures next + lines[1..][..j] == before + lines[..j + 1] {
          assert lines[..j + 1] == [lines[0]] + lines[1..][..j];
        }
        var n := Fitting(names, forbidden, next, lines[1..]);
        forall j | 0 <= j < n + 1 ensures LineFits(names, forbidden, before + lines[..j], lines[j]) {
          if j > 0 {
            assert LineFits(names, forbidden, next + lines[1..][..j - 1], lines[1..][j - 1]);
          }
        }
        if n < |lines| - 1 {
          assert next + lines[1..][..n] == before + lines[..n + 1];
        }
      }
    }
  }

  /**
   * Any lines as a header section, whatever they hold: the section is taken, with its fields and with the codings and
   * the length it gives, if and only if each line fits those before it; else it is refused at the first that does not.
   */
  lemma SectionExactly(su: Setup, d: Decoder, lines: seq<Bytes>, s: Bytes)
    requires AtSection(d) && AllLines(lines)
    ensures Valid(d) && Valid(InSection(su.names, d, lines))
    ensures SectionFits(su.names, d.forbidden, lines) ==>
              Decode(su, d, Lines(lines) + s) ==
              Then(FieldsIn(lines), Decode(su, InSection(su.names, d, lines), s))
    ensures !SectionFits(su.names, d.forbidden, lines) ==> Decode(su, d, Lines(lines) + s).end == Failed
  {
    hide Decode, FieldsIn, Fitting, SectionFits, Lines, InSection, AtSection, AllLines;
    LinesRun(su, d, [], lines, s);
    AllFitting(su.names, d.forbidden, lines);
    assert [] + lines == lines;
    EmptySection(su.names, d);
  }

  lemma AllFitting(names: Names, forbidden: bool, lines: seq<Bytes>)
    ensures SectionFits(names, forbidden, lines) <==> Fitting(names, forbidden, [], lines) == |lines|
  {
    hide LineFits;
    FittingIs(names, forbidden, [], lines);
    assert forall j | 0 <= j < |lines| :: [] + lines[..j] == lines[..j];
  }

  lemma EmptySection(names: Names, d: Decoder)
    requires AtSection(d)
    ensures InSection(names, d, []) == d
  {
  }

  // ----- both kinds of framing

  /** Each line is one that could be in some section of this kind of message. */
  predicate LineAlone(names: Names, forbidden: bool, line: Bytes) {
    FieldIn(line).Some? &&
    match KindIn(names, line)
    case ContentLength => IsNumber(FieldIn(line).value.1) && (forbidden ==> Value(FieldIn(line).value.1, 10) == 0)
    case TransferEncoding => !forbidden
    case Other => true
  }

  /** Line `j` gives a length although a coding was named before, or codings although the last length was not zero. */
  predicate Clashes(names: Names, lines: seq<Bytes>, j: nat)
    requires j < |lines|
  {
    || (KindIn(names, lines[j]) == ContentLength && Known(names, CodingsIn(names, lines[..j])) != {})
    || (KindIn(names, lines[j]) == TransferEncoding && LengthIn(names, lines[..j]) != 0)
  }

  /**
   * A section of lines that are each in order, whose codings are allowed one after the other, is refused if and only
   * if a length follows a coding, or codings follow a length that is not zero, where only the last length counts.
   */
  lemma BothRefusedExactly(names: Names, forbidden: bool, lines: seq<Bytes>)
    requires forall j | 0 <= j < |lines| :: LineAlone(names, forbidden, lines[j])
    requires forall j | 0 <= j < |lines| && KindIn(names, lines[j]) == TransferEncoding ::
               AllAllowed(names, CodingsIn(names, lines[..j]), CodingsOf(FieldIn(lines[j]).value.1))
    ensures SectionFits(names, forbidden, lines) <==> forall j | 0 <= j < |lines| :: !Clashes(names, lines, j)
  {
    hide FieldIn, CodingsIn, LengthIn, Known, CodingsOf, AllAllowed, IsNumber, Value;
    forall j | 0 <= j < |lines|
      ensures LineFits(names, forbidden, lines[..j], lines[j]) <==> !Clashes(names, lines, j)
    {
      assert LineAlone(names, forbidden, lines[j]);
    }
  }

  /** What the end of a header section leads to: nothing, chunks, a body of the length given, or the end. */
  lemma BlankExactly(su: Setup, d: Decoder, s: Bytes)
    requires d.state == InLine(HeaderLine) && d.scratch == [] && !d.trailers
    ensures Valid(d) && Valid(Fresh(su, false))
    ensures Decode(su, d, CRLF + s) ==
            if !d.ignored && Chunked in d.codings then Decode(su, d.(state := InLine(SizeLine)), s)
            else if !d.ignored && d.contentLength > 0 then
              Decode(su, d.(state := InBody, left := d.contentLength), s)
            else Then([Done], Decode(su, Fresh(su, false), s))
  {
    hide Decode, LineLength;
    EmptyIsNoLine();
    assert Own([]) by { OwnEmpty(); }
    RunOwnLine(su, d, [], s);
    assert [] + CRLF + s == CRLF + s;
    var o := ProcessLine(su, d, HeaderLine, []);
    if o.Moved? {
      ThenNothing(Decode(su, o.d, s));
    }
  }

  lemma OwnEmpty()
    ensures Own([])
  {
    assert [] + CRLF == CRLF;
  }
}
