/** What the HTTP/1.1 encoder writes, the decoder reads back: start line, headers, body and trailer. */
module H1RoundTrip {
  import opened Octets
  import opened H1Syntax
  import opened H1Decoder
  import opened H1Encoder
  import opened H1Codings

  // ----- which messages

  predicate ValidStart(start: Start) {
    match start
    case RequestStart(verb, target) => IsToken(verb) && IsTarget(target)
    case ResponseStart(code, phrase) => code <= 999 && IsPhrase(phrase)
  }

  /** Every content length is zero. */
  predicate NoLength(names: Names, headers: Fields) {
    forall i | 0 <= i < |headers| :: names.kind(headers[i].0) == ContentLength ==>
        Parse(Trim(headers[i].1), 10) == Some(0)
  }

  /** No content length where there must be no body, and transfer codings that the decoder knows. */
  predicate ReadableHeaders(names: Names, m: Message) {
    (Forbidden(m) ==> NoLength(names, m.headers)) && Readable(names, ListedCodings(names, m.headers))
  }

  predicate SaysLength(names: Names, header: (Bytes, Bytes)) {
    names.kind(header.0) == ContentLength && Parse(Trim(header.1), 10) != Some(0)
  }

  /** Only the last chunk is without data. */
  predicate ValidChunks(chunks: seq<Chunk>) {
    && chunks != []
    && (forall i | 0 <= i < |chunks| :: |chunks[i].data| < U64 && (chunks[i].data == [] <==> i == |chunks| - 1))
  }

  /** No chunk has a line end in its extensions. */
  predicate OwnLines(chunks: seq<Chunk>) {
    forall i | 0 <= i < |chunks| :: Own(SizeBytes(chunks[i]))
  }

  /** The decoder can read the message's headers and, if it is chunked, the first line of each chunk. */
  predicate ReadableMessage(names: Names, m: Message, g: Framing) {
    ReadableHeaders(names, m) && (g.chunked ==> OwnLines(m.chunks))
  }

  predicate ValidTrailer(names: Names, trailer: Fields) {
    forall i | 0 <= i < |trailer| ::
        IsToken(trailer[i].0) && IsValue(Trim(trailer[i].1)) && names.kind(trailer[i].0) == Other
  }

  /** Accepted by the encoder, with the body it announces. */
  predicate ValidMessage(names: Names, m: Message, ignored: bool, g: Framing) {
    && names.coding(CHUNKED) == Some(Chunked)
    && ValidStart(m.start)
    && Accepted(names, m, ignored) == Some(g)
    && (g.length > 0 ==> m.body.Some? && |m.body.value| == g.length)
    && (g.chunked ==> ValidChunks(m.chunks) && (m.trailer.Some? ==> ValidTrailer(names, m.trailer.value)))
  }

  // ----- what is reported

  function StartReport(start: Start): Event {
    match start
    case RequestStart(verb, target) => Request(verb, target)
    case ResponseStart(code, _) => Response(code)
  }

  function FieldReports(fields: Fields): seq<Event> {
    if fields == [] then [] else [Field(fields[0].0, Trim(fields[0].1))] + FieldReports(fields[1..])
  }

  function WholeBody(chunks: seq<Chunk>): Bytes {
    if chunks == [] then [] else chunks[0].data + WholeBody(chunks[1..])
  }

  function BodyReports(m: Message, g: Framing): seq<Event> {
    if g.length > 0 && m.body.Some? then Body(m.body.value) + [BodyEnd]
    else if g.chunked then
      Body(WholeBody(m.chunks)) + [BodyEnd] + if m.trailer.Some? then FieldReports(m.trailer.value) else []
    else []
  }

  function Report(m: Message, g: Framing): seq<Event> {
    [StartReport(m.start)] + FieldReports(m.headers) + BodyReports(m, g) + [Done]
  }

  // ----- following the decoder

  /** A whole line at the front of the input. */
  lemma RunOwnLine(su: Setup, d: Decoder, line: Bytes, s: Bytes)
    requires d.state.InLine? && d.scratch == [] && Own(line)
    ensures Valid(d)
    ensures var o := ProcessLine(su, d, d.state.kind, line);
            && (o.Moved? ==> Valid(o.d) && Decode(su, d, line + CRLF + s) == Then(o.log, Decode(su, o.d, s)))
            && (o.Finished? ==> Decode(su, d, line + CRLF + s) == Then(o.log, Decode(su, Fresh(su, false), s)))
            && (o.Bad? ==> Decode(su, d, line + CRLF + s) == Run([], Failed))
  {
    hide ProcessLine;
    LineStays(line + CRLF, s);
    var input := line + CRLF + s;
    assert [] + input == input && input[..|line|] == line && input[|line| + 2..] == s;
    assert d.(scratch := []) == d;
    StepOk(su, d, input);
    var o := ProcessLine(su, d, d.state.kind, line);
    if !o.Bad? {
      assert [] + o.log == o.log;
    }
  }

  lemma RunLine(su: Setup, d: Decoder, line: Bytes, s: Bytes)
    requires d.state.InLine? && d.scratch == [] && Plain(line)
    ensures Valid(d)
    ensures var o := ProcessLine(su, d, d.state.kind, line);
            && (o.Moved? ==> Valid(o.d) && Decode(su, d, line + CRLF + s) == Then(o.log, Decode(su, o.d, s)))
            && (o.Finished? ==> Decode(su, d, line + CRLF + s) == Then(o.log, Decode(su, Fresh(su, false), s)))
            && (o.Bad? ==> Decode(su, d, line + CRLF + s) == Run([], Failed))
  {
    hide ProcessLine, Decode;
    PlainIsOwn(line);
    RunOwnLine(su, d, line, s);
  }

  // ----- the start line

  lemma TokenIsPlain(s: Bytes)
    requires IsToken(s)
    ensures Plain(s) && SP !in s && COLON !in s
  {
  }

  lemma TargetIsPlain(s: Bytes)
    requires IsTarget(s)
    ensures Plain(s) && SP !in s
  {
  }

  lemma PhraseIsPlain(s: Bytes)
    requires IsPhrase(s)
    ensures Plain(s)
  {
  }

  lemma RequestLineRuns(su: Setup, d: Decoder, verb: Bytes, target: Bytes, s: Bytes)
    requires d.state == InLine(RequestLine) && d.scratch == [] && IsToken(verb) && IsTarget(target)
    ensures var d' := d.(state := InLine(HeaderLine));
            Valid(d') && Decode(su, d, StartBytes(RequestStart(verb, target)) + CRLF + s) ==
                Then([Request(verb, target)], Decode(su, d', s))
  {
    hide Decode, Cut;
    var line := StartBytes(RequestStart(verb, target));
    TokenIsPlain(verb);
    TargetIsPlain(target);
    CutAt(verb, SP, target + [SP] + VERSION_1_1);
    CutAt(target, SP, VERSION_1_1);
    RunLine(su, d, line, s);
  }

  lemma Digits3RoundTrip(code: nat)
    requires code <= 999
    ensures Parse(Digits3(code), 10) == Some(code) && SP !in Digits3(code) && Plain(Digits3(code))
  {
    var s := Digits3(code);
    var a, b, c := code / 100, code / 10 % 10, code % 10;
    assert code == a * 100 + b * 10 + c;
    assert s[..2] == [48 + a, 48 + b] && s[..2][..1] == [48 + a] && s[..2][..1][..0] == [];
    assert ParseDigits([], 10) == Some(0);
    assert ParseDigits(s[..2][..1], 10) == Some(a);
    assert ParseDigits(s[..2], 10) == Some(a * 10 + b);
    assert ParseDigits(s, 10) == Some((a * 10 + b) * 10 + c);
  }

  lemma ResponseLineRuns(su: Setup, d: Decoder, code: nat, phrase: Bytes, s: Bytes)
    requires d.state == InLine(ResponseLine) && d.scratch == [] && code <= 999 && IsPhrase(phrase)
    ensures var d' := d.(state := InLine(HeaderLine), ignored := d.ignored || code == 304, forbidden := code == 204 ||
                         code / 100 == 1);
            Valid(d') && Decode(su, d, StartBytes(ResponseStart(code, phrase)) + CRLF + s) ==
                Then([Response(code)], Decode(su, d', s))
  {
    hide Decode, Parse, Digits3;
    var line := StartBytes(ResponseStart(code, phrase));
    Digits3RoundTrip(code);
    PhraseIsPlain(phrase);
    assert |Digits3(code)| == 3 by { ThreeDigits(code); }
    CutAt(VERSION_1_1, SP, Digits3(code) + [SP] + phrase);
    CutAt(Digits3(code), SP, phrase);
    assert Plain(line);
    RunLine(su, d, line, s);
  }

  lemma ThreeDigits(code: nat)
    requires code <= 999
    ensures |Digits3(code)| == 3
  {
  }

  // ----- header lines

  lemma FieldIsPlain(name: Bytes, value: Bytes)
    requires IsToken(name) && IsValue(Trim(value))
    ensures Plain(FieldBytes(name, value)) && FieldBytes(name, value) != []
    ensures Cut(FieldBytes(name, value), COLON) == (name, Some([SP] + value)) && Trim([SP] + value) == Trim(value)
  {
    TokenIsPlain(name);
    TrimmedHoldsNoLineEnd(value);
    CutAt(name, COLON, [SP] + value);
    TrimSpaceFirst(value);
  }

  /** The decoder's account of the headers so far, with these codings, is the encoder's. */
  predicate Mirrors(names: Names, d: Decoder, f: Framing, cs: seq<Bytes>) {
    && d.codings == Known(names, cs) && d.contentLength == f.length && Readable(names, cs)
    && f.coded == (cs != []) && f.chunked == (cs != [] && cs[|cs| - 1] == CHUNKED)
  }

  function Mirrored(names: Names, d: Decoder, f: Framing, cs: seq<Bytes>): Decoder {
    d.(codings := Known(names, cs), contentLength := f.length)
  }

  /** One header line: the decoder follows the encoder's scan, as long as not both kinds of framing are met. */
  lemma HeaderProcessed(su: Setup, d: Decoder, f: Framing, cs: seq<Bytes>, name: Bytes, value: Bytes)
    requires d.state == InLine(HeaderLine) && d.scratch == [] && !d.trailers && Mirrors(su.names, d, f, cs)
    requires ScanHeader(su.names, f, name, value).Some?
    requires var f' := ScanHeader(su.names, f, name, value).value;
             !(f'.hasLength && f'.coded) && (d.forbidden ==> !f'.coded)
    requires f.length > 0 ==> f.hasLength
    ensures IsToken(name) && IsValue(Trim(value))
    ensures var f', cs' := ScanHeader(su.names, f, name, value).value, cs + HeaderCodings(su.names, (name, value));
            if (d.forbidden && SaysLength(su.names, (name, value))) || !Readable(su.names, cs') then
              ProcessHeader(su.names, d, FieldBytes(name, value)) == Bad
            else
              && ProcessHeader(su.names, d, FieldBytes(name, value)) ==
                 Moved(Mirrored(su.names, d, f', cs'), [Field(name, Trim(value))])
              && Mirrors(su.names, Mirrored(su.names, d, f', cs'), f', cs') && (f'.length > 0 ==> f'.hasLength)
  {
    hide Trim, IsToken, IsValue, Parse, AddCodings, ScanCodings, Readable, Known, CodingsOf;
    FieldIsPlain(name, value);
    var v, f' := Trim(value), ScanHeader(su.names, f, name, value).value;
    assert cs + [] == cs;
    assert Known(su.names, []) == {} by { NoneKnown(su.names); }
    match su.names.kind(name) {
      case ContentLength =>
        assert ProcessHeader(su.names, d, FieldBytes(name, value)) == ProcessLength(d, name, v);
      case TransferEncoding =>
        AddedExactly(su.names, cs, v, f.chunked);
        ScanEnds(v, f.chunked);
        assert ProcessHeader(su.names, d, FieldBytes(name, value)) == ProcessCodings(su.names, d, name, v);
      case Other =>
        assert Mirrored(su.names, d, f', cs) == d;
    }
  }

  lemma NoneKnown(names: Names)
    ensures Known(names, []) == {}
  {
  }

  lemma {:induction false} ScanKeepsFlags(names: Names, f: Framing, headers: Fields)
    requires ScanHeaders(names, f, headers).Some?
    ensures var g := ScanHeaders(names, f, headers).value; (f.hasLength ==> g.hasLength) && (f.coded ==> g.coded)
    decreases |headers|
  {
    hide Trim, IsToken, IsValue, Parse, ScanCodings;
    if headers != [] {
      ScanKeepsFlags(names, ScanHeader(names, f, headers[0].0, headers[0].1).value, headers[1..]);
    }
  }

  lemma NoLengthTail(names: Names, headers: Fields)
    requires headers != []
    ensures NoLength(names, headers) <==> NoLength(names, headers[1..]) && !SaysLength(names, headers[0])
  {
    assert forall i | 0 <= i < |headers[1..]| :: headers[1..][i] == headers[i + 1];
  }

  /** What the scan of a header section must satisfy for the decoder to follow it. */
  predicate Followed(names: Names, forbidden: bool, f: Framing, headers: Fields) {
    && ScanHeaders(names, f, headers).Some?
    && var g := ScanHeaders(names, f, headers).value;
       !(g.hasLength && g.coded) && (forbidden ==> !g.coded)
  }

  /** What the decoder needs to follow the rest of a header section. */
  predicate InStep(names: Names, d: Decoder, f: Framing, cs: seq<Bytes>, headers: Fields) {
    && d.state == InLine(HeaderLine) && d.scratch == [] && !d.trailers
    && Mirrors(names, d, f, cs) && (f.length > 0 ==> f.hasLength)
    && Followed(names, d.forbidden, f, headers)
  }

  /** The rest of a header section will be read. */
  predicate RestReadable(names: Names, forbidden: bool, cs: seq<Bytes>, headers: Fields) {
    (forbidden ==> NoLength(names, headers)) && Readable(names, cs + ListedCodings(names, headers))
  }

  /** The first header is not the one that will stop the reading. */
  predicate FirstReadable(names: Names, forbidden: bool, cs: seq<Bytes>, header: (Bytes, Bytes)) {
    !(forbidden && SaysLength(names, header)) && Readable(names, cs + HeaderCodings(names, header))
  }

  lemma ReadableByFirst(names: Names, forbidden: bool, cs: seq<Bytes>, headers: Fields)
    requires headers != []
    ensures RestReadable(names, forbidden, cs, headers) <==>
            FirstReadable(names, forbidden, cs, headers[0]) &&
            RestReadable(names, forbidden, cs + HeaderCodings(names, headers[0]), headers[1..])
  {
    hide Readable, HeaderCodings, SaysLength, NoLength;
    NoLengthTail(names, headers);
    var here, rest := HeaderCodings(names, headers[0]), ListedCodings(names, headers[1..]);
    assert cs + (here + rest) == (cs + here) + rest;
    ReadablePrefix(names, cs + here, rest);
  }

  lemma FirstHeader(su: Setup, d: Decoder, f: Framing, cs: seq<Bytes>, headers: Fields)
    requires headers != [] && InStep(su.names, d, f, cs, headers)
    ensures var (name, value) := headers[0];
            var r, cs' := ScanHeader(su.names, f, name, value), cs + HeaderCodings(su.names, headers[0]);
            && r.Some? && IsToken(name) && IsValue(Trim(value))
            && (if FirstReadable(su.names, d.forbidden, cs, headers[0]) then
                  && ProcessHeader(su.names, d, FieldBytes(name, value)) ==
                     Moved(Mirrored(su.names, d, r.value, cs'), [Field(name, Trim(value))])
                  && InStep(su.names, Mirrored(su.names, d, r.value, cs'), r.value, cs', headers[1..])
                else ProcessHeader(su.names, d, FieldBytes(name, value)) == Bad)
  {
    hide Trim, IsToken, IsValue, FieldBytes, ProcessHeader, ScanHeader, Readable, HeaderCodings, SaysLength, Known;
    var (name, value) := headers[0];
    var f1 := ScanHeader(su.names, f, name, value).value;
    ScanKeepsFlags(su.names, f1, headers[1..]);
    HeaderProcessed(su, d, f, cs, name, value);
  }

  /** The line of the first header, read. */
  lemma HeaderLineRuns(su: Setup, d: Decoder, headers: Fields, s: Bytes)
    requires headers != [] && d.state == InLine(HeaderLine) && d.scratch == []
    requires IsToken(headers[0].0) && IsValue(Trim(headers[0].1))
    ensures Valid(d)
    ensures var o := ProcessHeader(su.names, d, FieldBytes(headers[0].0, headers[0].1));
            && (o.Moved? ==>
                  && Valid(o.d)
                  && Decode(su, d, FieldLines(headers) + s) ==
                     Then(o.log, Decode(su, o.d, FieldLines(headers[1..]) + s)))
            && (o.Bad? ==> Decode(su, d, FieldLines(headers) + s) == Run([], Failed))
  {
    hide Decode, Trim, IsToken, IsValue, FieldBytes, FieldLines, ProcessHeader, Valid, Plain;
    var line, rest := FieldBytes(headers[0].0, headers[0].1), FieldLines(headers[1..]) + s;
    FieldIsPlain(headers[0].0, headers[0].1);
    FirstFieldLine(headers, s);
    RunLine(su, d, line, rest);
  }

  lemma NoFieldLines()
    ensures FieldLines([]) == []
  {
  }

  lemma FirstFieldLine(headers: Fields, s: Bytes)
    requires headers != []
    ensures FieldLines(headers) + s == FieldBytes(headers[0].0, headers[0].1) + CRLF + (FieldLines(headers[1..]) + s)
  {
    hide FieldBytes;
  }

  lemma {:induction false} HeadersRun(su: Setup, d: Decoder, f: Framing, cs: seq<Bytes>, headers: Fields, s: Bytes)
    requires InStep(su.names, d, f, cs, headers) && RestReadable(su.names, d.forbidden, cs, headers)
    ensures var g, all := ScanHeaders(su.names, f, headers).value, cs + ListedCodings(su.names, headers);
            var d' := Mirrored(su.names, d, g, all);
            && Valid(d') && Mirrors(su.names, d', g, all)
            && Decode(su, d, FieldLines(headers) + s) == Then(FieldReports(headers), Decode(su, d', s))
    decreases |headers|
  {
    hide Decode, Trim, IsToken, IsValue, FieldBytes, ProcessHeader, ScanHeader, HeaderCodings, Known, Readable,
         FirstReadable;
    if headers == [] {
      assert cs + [] == cs && FieldLines(headers) + s == s && Mirrored(su.names, d, f, cs) == d;
      EmptyIsNoLine();
      ThenNone(Decode(su, d, s));
    } else {
      var (name, value) := headers[0];
      ReadableByFirst(su.names, d.forbidden, cs, headers);
      FirstHeader(su, d, f, cs, headers);
      var f1, cs1 := ScanHeader(su.names, f, name, value).value, cs + HeaderCodings(su.names, headers[0]);
      var d1 := Mirrored(su.names, d, f1, cs1);
      HeaderLineRuns(su, d, headers, s);
      HeadersRun(su, d1, f1, cs1, headers[1..], s);
      var rest := ListedCodings(su.names, headers[1..]);
      assert cs1 + rest == cs + (HeaderCodings(su.names, headers[0]) + rest);
      var d' := Mirrored(su.names, d, ScanHeaders(su.names, f, headers).value, cs1 + rest);
      ThenThen([Field(name, Trim(value))], FieldReports(headers[1..]), Decode(su, d', s));
    }
  }

  /** The first header that cannot be read ends the reading. */
  lemma {:induction false} HeadersFail(su: Setup, d: Decoder, f: Framing, cs: seq<Bytes>, headers: Fields, s: Bytes)
    requires InStep(su.names, d, f, cs, headers) && !RestReadable(su.names, d.forbidden, cs, headers)
    ensures Valid(d) && Decode(su, d, FieldLines(headers) + s).end == Failed
    decreases |headers|
  {
    hide Decode, Trim, IsToken, IsValue, FieldBytes, ProcessHeader, ScanHeader, HeaderCodings, Known, Readable,
         FirstReadable;
    assert headers != [] by {
      NothingUnreadable(su.names, d.forbidden, cs);
    }
    ReadableByFirst(su.names, d.forbidden, cs, headers);
    FirstHeader(su, d, f, cs, headers);
    if FirstReadable(su.names, d.forbidden, cs, headers[0]) {
      var (name, value) := headers[0];
      var f1, cs1 := ScanHeader(su.names, f, name, value).value, cs + HeaderCodings(su.names, headers[0]);
      var d1 := Mirrored(su.names, d, f1, cs1);
      HeaderLineRuns(su, d, headers, s);
      HeadersFail(su, d1, f1, cs1, headers[1..], s);
    } else {
      HeaderLineRuns(su, d, headers, s);
    }
  }

  lemma NothingUnreadable(names: Names, forbidden: bool, cs: seq<Bytes>)
    ensures Readable(names, cs) ==> RestReadable(names, forbidden, cs, [])
  {
    assert cs + [] == cs;
  }

  // ----- bodies

  lemma BodyRuns(su: Setup, d: Decoder, body: Bytes, s: Bytes)
    requires Valid(d) && !d.state.InLine? && d.left == |body|
    ensures d.state == InBody ==>
            Decode(su, d, body + s) == Then(Body(body) + [BodyEnd, Done], Decode(su, Fresh(su, false), s))
    ensures d.state == InChunk ==>
              && Valid(d.(state := InLine(ChunkEnd), left := 0))
              && Decode(su, d, body + s) == Then(Body(body), Decode(su, d.(state := InLine(ChunkEnd), left := 0), s))
  {
    hide Body;
    assert (body + s)[..|body|] == body && (body + s)[|body|..] == s && Body(body) + [] == Body(body);
    EmptyIsNoLine();
    StepOk(su, d, body + s);
  }

  /** Whatever its extensions, a size at the front of a line is what the decoder reads, up to the end of the line. */
  lemma SizeRoundTrip(c: Chunk, n: nat)
    requires |c.data| < U64 && |Hex(|c.data|)| <= n <= |SizeBytes(c)|
    ensures Parse(Cut(SizeBytes(c)[..n], SEMICOLON).0, 16) == Some(|c.data|)
  {
    hide Hex, Parse;
    HexRoundTrip(|c.data|);
    var size, more := Hex(|c.data|), ExtensionBytes(c.extensions);
    if n == |size| {
      assert SizeBytes(c)[..n] == size;
      CutNone(size, SEMICOLON);
    } else {
      var k := n - |size|;
      assert SizeBytes(c)[..n] == size + more[..k];
      assert more[..k] == [SEMICOLON] + more[1..k];
      assert size + more[..k] == size + [SEMICOLON] + more[1..k];
      CutAt(size, SEMICOLON, more[1..k]);
    }
  }

  lemma LastChunkRuns(su: Setup, d: Decoder, c: Chunk, s: Bytes)
    requires d.state == InLine(SizeLine) && d.scratch == [] && Own(SizeBytes(c)) && c.data == []
    ensures var d' := d.(state := InLine(HeaderLine), trailers := true);
            Valid(d) && Valid(d') && Decode(su, d, SizeBytes(c) + CRLF + s) == Then([BodyEnd], Decode(su, d', s))
  {
    hide Decode, Parse;
    SizeRoundTrip(c, |SizeBytes(c)|);
    assert SizeBytes(c)[..|SizeBytes(c)|] == SizeBytes(c);
    RunOwnLine(su, d, SizeBytes(c), s);
  }

  lemma ChunkRuns(su: Setup, d: Decoder, c: Chunk, s: Bytes)
    requires d.state == InLine(SizeLine) && d.scratch == [] && d.left == 0 && Own(SizeBytes(c)) && 0 < |c.data| < U64
    ensures Valid(d)
    ensures Decode(su, d, SizeBytes(c) + CRLF + (c.data + (CRLF + s))) == Then(Body(c.data), Decode(su, d, s))
  {
    hide Decode, Parse, Body;
    SizeRoundTrip(c, |SizeBytes(c)|);
    assert SizeBytes(c)[..|SizeBytes(c)|] == SizeBytes(c);
    RunOwnLine(su, d, SizeBytes(c), c.data + (CRLF + s));
    var d1 := d.(state := InChunk, left := |c.data|);
    ThenNone(Decode(su, d1, c.data + (CRLF + s)));
    BodyRuns(su, d1, c.data, CRLF + s);
    var d2 := d.(state := InLine(ChunkEnd));
    assert CRLF + s == [] + CRLF + s;
    RunLine(su, d2, [], s);
    ThenNone(Decode(su, d, s));
  }

  lemma {:induction false} ChunksRun(su: Setup, d: Decoder, chunks: seq<Chunk>, s: Bytes)
    requires d.state == InLine(SizeLine) && d.scratch == [] && d.left == 0 && ValidChunks(chunks) && OwnLines(chunks)
    ensures var d' := d.(state := InLine(HeaderLine), trailers := true);
            && Valid(d) && Valid(d')
            && Decode(su, d, ChunkBytes(chunks) + s) == Then(Body(WholeBody(chunks)) + [BodyEnd], Decode(su, d', s))
    decreases |chunks|
  {
    hide Decode, SizeBytes, Body, Own;
    var c, rest := chunks[0], chunks[1..];
    var d' := d.(state := InLine(HeaderLine), trailers := true);
    if |chunks| == 1 {
      assert c.data == [] && rest == [] && WholeBody(chunks) == c.data + WholeBody(rest) == [];
      assert Body([]) == [] by { NoBody(); }
      assert [] + [BodyEnd] == [BodyEnd];
      assert ChunkBytes(chunks) + s == SizeBytes(c) + CRLF + s;
      LastChunkRuns(su, d, c, s);
    } else {
      assert c.data != [] && ValidChunks(rest) && OwnLines(rest) by { LaterChunks(chunks); }
      var after := ChunkBytes(rest) + s;
      assert ChunkBytes(chunks) + s == SizeBytes(c) + CRLF + (c.data + (CRLF + after));
      ChunkRuns(su, d, c, after);
      ChunksRun(su, d, rest, s);
      BodyConcat(c.data, WholeBody(rest));
      ThenThen(Body(c.data), Body(WholeBody(rest)) + [BodyEnd], Decode(su, d', s));
      assert Body(c.data) + (Body(WholeBody(rest)) + [BodyEnd]) == (Body(c.data) + Body(WholeBody(rest))) + [BodyEnd];
    }
  }

  lemma NoBody()
    ensures Body([]) == []
  {
  }

  lemma LaterChunks(chunks: seq<Chunk>)
    requires ValidChunks(chunks) && |chunks| > 1
    ensures ValidChunks(chunks[1..]) && chunks[0].data != [] && (OwnLines(chunks) ==> OwnLines(chunks[1..]))
  {
    assert forall i | 0 <= i < |chunks[1..]| :: chunks[1..][i] == chunks[i + 1];
  }

  lemma {:induction false} TrailerRuns(su: Setup, d: Decoder, trailer: Fields, s: Bytes)
    requires d.state == InLine(HeaderLine) && d.scratch == [] && ValidTrailer(su.names, trailer)
    ensures Valid(d) && Decode(su, d, FieldLines(trailer) + s) == Then(FieldReports(trailer), Decode(su, d, s))
    decreases |trailer|
  {
    hide Decode, Trim, IsToken, IsValue, FieldBytes, FieldLines;
    EmptyIsNoLine();
    if trailer == [] {
      NoFieldLines();
      assert FieldLines(trailer) + s == s;
      ThenNone(Decode(su, d, s));
    } else {
      var (name, value) := trailer[0];
      var rest := FieldLines(trailer[1..]) + s;
      FieldIsPlain(name, value);
      FirstFieldLine(trailer, s);
      RunLine(su, d, FieldBytes(name, value), rest);
      assert forall i | 0 <= i < |trailer[1..]| :: trailer[1..][i] == trailer[i + 1];
      TrailerRuns(su, d, trailer[1..], s);
      ThenThen([Field(name, Trim(value))], FieldReports(trailer[1..]), Decode(su, d, s));
    }
  }

  /** An empty line, where it ends the message. */
  lemma BlankFinishes(su: Setup, d: Decoder, s: Bytes)
    requires d.state == InLine(HeaderLine) && d.scratch == [] && ProcessBlank(d) == Finished([Done])
    ensures Valid(d) && Decode(su, d, CRLF + s) == Then([Done], Decode(su, Fresh(su, false), s))
  {
    hide Decode;
    assert CRLF + s == [] + CRLF + s;
    RunLine(su, d, [], s);
  }

  lemma BlankMoves(su: Setup, d: Decoder, s: Bytes)
    requires d.state == InLine(HeaderLine) && d.scratch == [] && ProcessBlank(d).Moved?
    ensures Valid(d) && Valid(ProcessBlank(d).d) && Decode(su, d, CRLF + s) == Decode(su, ProcessBlank(d).d, s)
  {
    hide Decode;
    assert CRLF + s == [] + CRLF + s;
    RunLine(su, d, [], s);
    ThenNone(Decode(su, ProcessBlank(d).d, s));
  }

  /** The decoder at the end of the headers, with what they said about the body. */
  predicate AtBody(d: Decoder, g: Framing, ignored: bool) {
    && d.state == InLine(HeaderLine) && d.scratch == [] && !d.trailers && d.left == 0
    && (ignored ==> d.ignored && g.length == 0 && !g.chunked)
    && (!ignored ==>
          !d.ignored && d.contentLength == g.length && (Chunked in d.codings <==> g.chunked) &&
              !(g.length > 0 && g.chunked))
  }

  lemma NoReports()
    ensures FieldReports([]) == []
  {
  }

  lemma BodyRoundTrip(su: Setup, d: Decoder, m: Message, g: Framing, ignored: bool, s: Bytes)
    requires AtBody(d, g, ignored)
    requires g.length > 0 ==> m.body.Some? && |m.body.value| == g.length
    requires g.chunked ==> ValidChunks(m.chunks) && OwnLines(m.chunks) && ValidTrailer(su.names, TrailerFields(m))
    ensures Valid(d)
    ensures Decode(su, d, CRLF + (BodyBytes(m, g) + s)) ==
            Then(BodyReports(m, g) + [Done], Decode(su, Fresh(su, false), s))
  {
    hide Decode, Body, ChunkBytes, FieldLines, WholeBody, FieldReports, OwnLines;
    var done := Decode(su, Fresh(su, false), s);
    if g.length > 0 {
      BlankMoves(su, d, m.body.value + s);
      BodyRuns(su, ProcessBlank(d).d, m.body.value, s);
      assert Body(m.body.value) + [BodyEnd, Done] == (Body(m.body.value) + [BodyEnd]) + [Done];
    } else if g.chunked {
      var after := FieldLines(TrailerFields(m)) + (CRLF + s);
      assert BodyBytes(m, g) + s == ChunkBytes(m.chunks) + after;
      BlankMoves(su, d, ChunkBytes(m.chunks) + after);
      ChunksRun(su, ProcessBlank(d).d, m.chunks, after);
      var d1 := d.(state := InLine(HeaderLine), trailers := true);
      TrailerRuns(su, d1, TrailerFields(m), CRLF + s);
      BlankFinishes(su, d1, s);
      var x, y := Body(WholeBody(m.chunks)) + [BodyEnd], FieldReports(TrailerFields(m));
      NoReports();
      ThenThen(y, [Done], done);
      ThenThen(x, y + [Done], done);
      assert x + (y + [Done]) == (x + y) + [Done];
    } else {
      assert BodyBytes(m, g) + s == s && [] + [Done] == [Done];
      BlankFinishes(su, d, s);
    }
  }

  // ----- the whole message

  /** The decoder after the start line. */
  function Started(su: Setup, m: Message, ignored: bool): Decoder {
    Fresh(su, Ignored(m, ignored)).(state := InLine(HeaderLine), forbidden := Forbidden(m))
  }

  lemma StartRuns(su: Setup, m: Message, ignored: bool, s: Bytes)
    requires ValidStart(m.start) && su.requests == m.start.RequestStart?
    ensures Valid(Fresh(su, ignored)) && Valid(Started(su, m, ignored))
    ensures Decode(su, Fresh(su, ignored), StartBytes(m.start) + CRLF + s) ==
            Then([StartReport(m.start)], Decode(su, Started(su, m, ignored), s))
  {
    hide Decode, StartBytes, IsToken, IsTarget, IsPhrase;
    EmptyIsNoLine();
    match m.start {
      case RequestStart(verb, target) => RequestLineRuns(su, Fresh(su, ignored), verb, target, s);
      case ResponseStart(code, phrase) => ResponseLineRuns(su, Fresh(su, ignored), code, phrase, s);
    }
  }

  lemma MessageInStep(su: Setup, m: Message, ignored: bool, g: Framing)
    requires ValidMessage(su.names, m, ignored, g)
    ensures InStep(su.names, Started(su, m, ignored), NO_FRAMING, [], m.headers)
    ensures RestReadable(su.names, Forbidden(m), [], m.headers) <==> ReadableHeaders(su.names, m)
    ensures Started(su, m, ignored).forbidden == Forbidden(m)
  {
    hide ScanHeaders, NoLength, ValidChunks, ValidTrailer, ValidStart, ListedCodings;
    LengthIsDeclared(su.names, NO_FRAMING, m.headers);
    var cs := ListedCodings(su.names, m.headers);
    assert [] + cs == cs;
  }

  /** After its headers the body of a valid message can be read. */
  lemma MessageAtBody(su: Setup, m: Message, ignored: bool, g: Framing, cs: seq<Bytes>)
    requires ValidMessage(su.names, m, ignored, g)
    requires var f := ScanHeaders(su.names, NO_FRAMING, m.headers).value;
             Mirrors(su.names, Mirrored(su.names, Started(su, m, ignored), f, cs), f, cs)
    ensures var f := ScanHeaders(su.names, NO_FRAMING, m.headers).value;
            AtBody(Mirrored(su.names, Started(su, m, ignored), f, cs), g, Ignored(m, ignored))
  {
    hide ScanHeaders, ValidChunks, ValidTrailer, ValidStart, Readable;
    LengthIsDeclared(su.names, NO_FRAMING, m.headers);
    assert cs != [] && cs[|cs| - 1] == CHUNKED ==> Chunked in Known(su.names, cs);
  }

  lemma {:induction false} LengthIsDeclared(names: Names, f: Framing, headers: Fields)
    requires ScanHeaders(names, f, headers).Some? && (f.length > 0 ==> f.hasLength) && (f.chunked ==> f.coded)
    ensures var g := ScanHeaders(names, f, headers).value; (g.length > 0 ==> g.hasLength) && (g.chunked ==> g.coded)
    decreases |headers|
  {
    hide Trim, IsToken, IsValue, Parse, ScanCodings;
    if headers != [] {
      LengthIsDeclared(names, ScanHeader(names, f, headers[0].0, headers[0].1).value, headers[1..]);
    }
  }

  /** The decoder behind the headers of a message. */
  function Headed(su: Setup, m: Message, ignored: bool): Decoder
    requires ScanHeaders(su.names, NO_FRAMING, m.headers).Some?
  {
    Mirrored(su.names, Started(su, m, ignored), ScanHeaders(su.names, NO_FRAMING, m.headers).value,
             ListedCodings(su.names, m.headers))
  }

  /** Start line and headers. */
  lemma HeadRuns(su: Setup, m: Message, ignored: bool, g: Framing, rest: Bytes)
    requires ValidMessage(su.names, m, ignored, g) && su.requests == m.start.RequestStart?
    requires ReadableHeaders(su.names, m)
    ensures Valid(Fresh(su, ignored)) && Valid(Headed(su, m, ignored))
    ensures AtBody(Headed(su, m, ignored), g, Ignored(m, ignored))
    ensures Decode(su, Fresh(su, ignored), StartBytes(m.start) + CRLF + (FieldLines(m.headers) + rest)) ==
            Then([StartReport(m.start)] + FieldReports(m.headers), Decode(su, Headed(su, m, ignored), rest))
  {
    hide Decode, StartBytes, FieldLines, ScanHeaders, InStep, FieldReports, Mirrors, Known, ListedCodings, AtBody;
    EmptyIsNoLine();
    StartRuns(su, m, ignored, FieldLines(m.headers) + rest);
    MessageInStep(su, m, ignored, g);
    var d1 := Started(su, m, ignored);
    HeadersRun(su, d1, NO_FRAMING, [], m.headers, rest);
    var cs := ListedCodings(su.names, m.headers);
    assert [] + cs == cs;
    MessageAtBody(su, m, ignored, g, cs);
    ThenThen([StartReport(m.start)], FieldReports(m.headers), Decode(su, Headed(su, m, ignored), rest));
  }

  /**
   * Every readable message is read back: start line, headers with their values trimmed, whole body
   * and trailer, and the decoder is ready for the next message. With `SplitInvariance` the same
   * holds however the bytes arrive.
   */
  lemma MessageRoundTrip(su: Setup, m: Message, ignored: bool, g: Framing, s: Bytes)
    requires ValidMessage(su.names, m, ignored, g) && su.requests == m.start.RequestStart?
    requires ReadableMessage(su.names, m, g)
    ensures Valid(Fresh(su, ignored)) && Valid(Fresh(su, false))
    ensures Decode(su, Fresh(su, ignored), Encode(m, g) + s) == Then(Report(m, g), Decode(su, Fresh(su, false), s))
  {
    hide Decode, StartBytes, FieldLines, BodyBytes, ScanHeaders, FieldReports, BodyReports, Headed, OwnLines, AtBody,
         ReadableHeaders;
    EmptyIsNoLine();
    var rest := CRLF + (BodyBytes(m, g) + s);
    assert Encode(m, g) + s == StartBytes(m.start) + CRLF + (FieldLines(m.headers) + rest);
    HeadRuns(su, m, ignored, g, rest);
    BodyRoundTrip(su, Headed(su, m, ignored), m, g, Ignored(m, ignored), s);
    var x, y, z, done := [StartReport(m.start)], FieldReports(m.headers), BodyReports(m, g) + [Done],
        Decode(su, Fresh(su, false), s);
    ThenThen(x + y, z, done);
    assert (x + y) + z == Report(m, g);
  }

  /** A message with headers that cannot be read is refused at them, although the encoder accepts it. */
  lemma UnreadableFails(su: Setup, m: Message, ignored: bool, g: Framing, rest: Bytes)
    requires ValidMessage(su.names, m, ignored, g) && su.requests == m.start.RequestStart?
    requires !ReadableHeaders(su.names, m)
    ensures Valid(Fresh(su, ignored)) && Decode(su, Fresh(su, ignored), Head(m) + rest).end == Failed
  {
    hide Decode, StartBytes, FieldLines, ScanHeaders, InStep, ReadableHeaders, RestReadable;
    EmptyIsNoLine();
    assert Head(m) + rest == StartBytes(m.start) + CRLF + (FieldLines(m.headers) + (CRLF + rest));
    StartRuns(su, m, ignored, FieldLines(m.headers) + (CRLF + rest));
    MessageInStep(su, m, ignored, g);
    HeadersFail(su, Started(su, m, ignored), NO_FRAMING, [], m.headers, CRLF + rest);
  }

  /** What is read is the message, and then what follows. */
  ghost predicate ReadBack(su: Setup, m: Message, ignored: bool, g: Framing)
    requires ValidMessage(su.names, m, ignored, g) && Valid(Fresh(su, ignored)) && Valid(Fresh(su, false))
  {
    forall s :: Decode(su, Fresh(su, ignored), Encode(m, g) + s) == Then(Report(m, g), Decode(su, Fresh(su, false), s))
  }

  /**
   * A valid message is read back if it is readable, and only if its headers are: its transfer codings are
   * known, with no new one after chunked, and it is not a response that must have no body and yet has a
   * content length that is not zero. One with other headers is refused at them, whatever follows.
   */
  lemma ReadBackExactly(su: Setup, m: Message, ignored: bool, g: Framing)
    requires ValidMessage(su.names, m, ignored, g) && su.requests == m.start.RequestStart?
    ensures Valid(Fresh(su, ignored)) && Valid(Fresh(su, false))
    ensures ReadableMessage(su.names, m, g) ==> ReadBack(su, m, ignored, g)
    ensures ReadBack(su, m, ignored, g) ==> ReadableHeaders(su.names, m)
    ensures !g.chunked ==> (ReadBack(su, m, ignored, g) <==> ReadableHeaders(su.names, m))
    ensures !ReadableHeaders(su.names, m) ==> Decode(su, Fresh(su, ignored), Encode(m, g)).end == Failed
  {
    hide Encode, Report, ReadableHeaders, OwnLines, ValidChunks, ValidTrailer, ScanHeaders, Decode;
    EmptyIsNoLine();
    assert Encode(m, g) + [] == Encode(m, g);
    NothingLeft(su);
    if !ReadableHeaders(su.names, m) {
      assert Encode(m, g) == Head(m) + BodyBytes(m, g) by { EncodedIs(m, g); }
      UnreadableFails(su, m, ignored, g, BodyBytes(m, g));
    } else if ReadableMessage(su.names, m, g) {
      forall s ensures Decode(su, Fresh(su, ignored), Encode(m, g) + s) ==
                       Then(Report(m, g), Decode(su, Fresh(su, false), s))
      {
        MessageRoundTrip(su, m, ignored, g, s);
      }
    }
  }

  lemma EncodedIs(m: Message, g: Framing)
    requires m.start.ResponseStart? ==> m.start.code <= 999
    ensures Encode(m, g) == Head(m) + BodyBytes(m, g)
  {
  }

  lemma NothingLeft(su: Setup)
    ensures Valid(Fresh(su, false)) && Decode(su, Fresh(su, false), []) == Run([], Ready(Fresh(su, false)))
  {
    EmptyIsNoLine();
    assert Fresh(su, false).scratch + [] == [];
  }

  /**
   * However the bytes of a message are divided, the message is all that is reported, and the decoder is ready
   * for the next.
   */
  lemma DeliveredInAnyParts(su: Setup, m: Message, ignored: bool, g: Framing, first: Bytes, parts: seq<Bytes>)
    requires ValidMessage(su.names, m, ignored, g) && su.requests == m.start.RequestStart?
    requires ReadableMessage(su.names, m, g)
    requires first + Flatten(parts) == Encode(m, g)
    ensures Valid(Fresh(su, ignored))
    ensures DecodeChunks(su, Decode(su, Fresh(su, ignored), first), parts) == Run(Report(m, g), Ready(Fresh(su, false)))
  {
    hide Encode, Report, ReadableMessage, ValidChunks, ValidTrailer, ScanHeaders, Decode, DecodeChunks;
    EmptyIsNoLine();
    SplitInvariance(su, Fresh(su, ignored), first, parts);
    assert Encode(m, g) + [] == Encode(m, g);
    MessageRoundTrip(su, m, ignored, g, []);
    NothingLeft(su);
    assert Report(m, g) + [] == Report(m, g);
  }

  // ----- a message that is accepted and refused

  const LENGTH_NAME: Bytes := [76]
  const FIVE: Bytes := [53]
  const ZERO: Bytes := [48]

  /** 204 with a content length of 5 and then of 0, for names in which `L` means a content length. */
  const OVERRULED := Message(ResponseStart(204, []), [(LENGTH_NAME, FIVE), (LENGTH_NAME, ZERO)], None, [], None)

  lemma DigitsParse()
    ensures Trim(FIVE) == FIVE && Parse(FIVE, 10) == Some(5) && Trim(ZERO) == ZERO && Parse(ZERO, 10) == Some(0)
    ensures IsToken(LENGTH_NAME) && IsValue(FIVE) && IsValue(ZERO) && IsPhrase([])
  {
    assert FIVE[..0] == [] && ZERO[..0] == [];
    assert ParseDigits([], 10) == Some(0);
    assert ParseDigits(FIVE, 10) == Some(5) && ParseDigits(ZERO, 10) == Some(0);
  }

  /** The encoder takes it, the decoder does not. */
  lemma OverruledIsAccepted(su: Setup)
    requires su.names.kind(LENGTH_NAME) == ContentLength && su.names.coding(CHUNKED) == Some(Chunked) && !su.requests
    ensures ValidMessage(su.names, OVERRULED, false, Framing(0, true, false, false))
    ensures Valid(Fresh(su, false))
    ensures Decode(su, Fresh(su, false), Encode(OVERRULED, Framing(0, true, false, false))).end == Failed
  {
    hide Decode, Encode, Trim, Parse, IsToken, IsValue, IsPhrase;
    DigitsParse();
    var headers := OVERRULED.headers;
    assert headers[1..] == [(LENGTH_NAME, ZERO)];
    var none: Fields := [];
    assert headers[1..][1..] == none;
    assert ScanHeaders(su.names, Framing(0, true, false, false), []) == Some(Framing(0, true, false, false));
    assert ScanHeaders(su.names, Framing(5, true, false, false), headers[1..]) == Some(Framing(0, true, false, false));
    assert ScanHeaders(su.names, NO_FRAMING, headers) == Some(Framing(0, true, false, false));
    assert !NoLength(su.names, headers) by { assert Parse(Trim(headers[0].1), 10) == Some(5); }
    ReadBackExactly(su, OVERRULED, false, Framing(0, true, false, false));
  }

  const CODING_NAME: Bytes := [84]
  const ODD_CODING: Bytes := [120]
  const ODD_LIST: Bytes := [120, 44] + CHUNKED

  /** A request with the transfer codings `x, chunked`, for names in which `T` means a list of codings. */
  const ODDLY_CODED := Message(RequestStart([71], [47]), [(CODING_NAME, ODD_LIST)], None, [Chunk([], [])], None)

  lemma OddListCut()
    ensures Cut(ODD_LIST, COMMA) == (ODD_CODING, Some(CHUNKED)) && Cut(CHUNKED, COMMA) == (CHUNKED, None)
  {
    assert ODD_LIST == ODD_CODING + [COMMA] + CHUNKED;
    CutAt(ODD_CODING, COMMA, CHUNKED);
    CutNone(CHUNKED, COMMA);
  }

  lemma OddListTrimmed()
    ensures Trim(ODD_LIST) == ODD_LIST && Trim(ODD_CODING) == ODD_CODING && Trim(CHUNKED) == CHUNKED
  {
  }

  lemma OddListWritable()
    ensures IsToken(CODING_NAME) && IsValue(ODD_LIST) && IsToken([71]) && IsTarget([47])
  {
  }

  /** The encoder takes any coding before chunked, the decoder does not. */
  lemma OddlyCodedIsAccepted(su: Setup)
    requires su.names.kind(CODING_NAME) == TransferEncoding && su.requests
    requires su.names.coding(CHUNKED) == Some(Chunked) && su.names.coding(ODD_CODING) == None
    ensures ValidMessage(su.names, ODDLY_CODED, false, Framing(0, false, true, true))
    ensures Valid(Fresh(su, false))
    ensures Decode(su, Fresh(su, false), Encode(ODDLY_CODED, Framing(0, false, true, true))).end == Failed
  {
    hide Decode, Encode, Trim, Cut, IsToken, IsValue, IsTarget;
    OddListCut();
    OddListTrimmed();
    OddListWritable();
    var headers := ODDLY_CODED.headers;
    var none: Fields := [];
    assert headers[1..] == none;
    assert ScanCodings(CHUNKED, false) == Some(true) && ScanCodings(ODD_LIST, false) == Some(true);
    assert ScanHeaders(su.names, Framing(0, false, true, true), headers[1..]) == Some(Framing(0, false, true, true));
    assert ScanHeaders(su.names, NO_FRAMING, headers) == Some(Framing(0, false, true, true));
    var cs := ListedCodings(su.names, headers);
    assert cs[0] == ODD_CODING && !NextReadable(su.names, cs[..0], cs[0]);
    ReadBackExactly(su, ODDLY_CODED, false, Framing(0, false, true, true));
  }
}
