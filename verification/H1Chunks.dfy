/**
 * Chunks one by one: which of those that the encoder accepts are delivered by the time
 * they have been sent, and what happens to one with a line end in its extensions.
 */
module H1Chunks {
  import opened Octets
  import opened H1Syntax
  import opened H1Decoder
  import opened H1Encoder
  import opened H1RoundTrip
  import opened H1Codings

  // ----- a first line that ends too early

  /** Before a line found too early there is at least a whole line end left. */
  lemma EarlyLine(line: Bytes)
    ensures 2 <= LineLength(line + CRLF) <= |line| + 2 && (!Own(line) ==> LineLength(line + CRLF) <= |line|)
    decreases |line|
  {
    var s := line + CRLF;
    if line == [] {
      assert s == CRLF;
    } else if !(s[0] == CR && s[1] == LF) {
      assert s[1..] == line[1..] + CRLF;
      EarlyLine(line[1..]);
    } else {
      assert |line| >= 2;
    }
  }

  /** No line ends within a plain beginning. */
  lemma {:induction false} LineAfterPlain(a: Bytes, b: Bytes)
    requires Plain(a) && LineLength(a + b) > 0
    ensures LineLength(a + b) >= |a| + 2
    decreases |a|
  {
    if a != [] {
      assert (a + b)[1..] == a[1..] + b && (a + b)[0] == a[0];
      LineAfterPlain(a[1..], b);
    }
  }

  lemma LineEndsHere(s: Bytes)
    ensures LineLength(s + CRLF) > 0
  {
    EarlyLine(s);
  }

  /** The size line of a chunk, wherever it ends. */
  lemma SizeLineRuns(su: Setup, d: Decoder, c: Chunk, s: Bytes)
    requires d.state == InLine(SizeLine) && d.scratch == [] && d.left == 0 && |c.data| < U64
    ensures var n := LineLength(SizeBytes(c) + CRLF);
            var d1 := if c.data == [] then d.(state := InLine(HeaderLine), trailers := true)
                      else d.(state := InChunk, left := |c.data|);
            && 2 <= n <= |SizeBytes(c)| + 2 && Valid(d) && Valid(d1)
            && Decode(su, d, SizeBytes(c) + CRLF + s) ==
               Then(if c.data == [] then [BodyEnd] else [], Decode(su, d1, (SizeBytes(c) + CRLF)[n..] + s))
  {
    hide Decode, Parse, LineLength, Cut;
    var size := SizeBytes(c);
    var n := LineLength(size + CRLF);
    EarlyLine(size);
    HexRoundTrip(|c.data|);
    assert size + CRLF == Hex(|c.data|) + (ExtensionBytes(c.extensions) + CRLF);
    LineAfterPlain(Hex(|c.data|), ExtensionBytes(c.extensions) + CRLF);
    SizeRoundTrip(c, n - 2);
    var line := size[..n - 2];
    LineContent(size + CRLF);
    assert (size + CRLF)[..n] == line + CRLF && (size + CRLF)[..n - 2] == line;
    assert size + CRLF + s == line + CRLF + ((size + CRLF)[n..] + s);
    RunOwnLine(su, d, line, (size + CRLF)[n..] + s);
  }

  lemma {:induction false} LineEnd(s: Bytes)
    requires LineLength(s) > 0
    ensures var n := LineLength(s); s[n - 2] == CR && s[n - 1] == LF
    decreases |s|
  {
    if !(s[0] == CR && s[1] == LF) {
      LineEnd(s[1..]);
    }
  }

  /** A line found is followed by its own end, and by no other before. */
  lemma LineContent(s: Bytes)
    requires LineLength(s) > 0
    ensures var n := LineLength(s); s[..n] == s[..n - 2] + CRLF && Own(s[..n - 2])
  {
    hide LineLength;
    var n := LineLength(s);
    LineEnd(s);
    LinePrefix(s, n);
    assert s[..n] == s[..n - 2] + CRLF;
  }

  // ----- what a line left over leads to

  /** A decoder that waits for a size and gets a line reports something, fails, or waits for something else. */
  lemma SizeMovesOn(su: Setup, d: Decoder, s: Bytes)
    requires d.state == InLine(SizeLine) && d.scratch == [] && LineLength(s) > 0
    ensures Valid(d) && Decode(su, d, s) != Run([], Ready(d))
  {
    hide Parse, Cut, LineLength, Decode;
    EmptyIsNoLine();
    LineContent(s);
    var n := LineLength(s);
    var line, rest := s[..n - 2], s[n..];
    assert s == line + CRLF + rest;
    RunOwnLine(su, d, line, rest);
    var o := ProcessLine(su, d, SizeLine, line);
    if o.Moved? && o.d.state == InChunk {
      ChunkMovesOn(su, o.d, d, rest);
    }
  }

  lemma ChunkMovesOn(su: Setup, d: Decoder, before: Decoder, s: Bytes)
    requires Valid(d) && d.state == InChunk && before.state != InChunk
    ensures Then([], Decode(su, d, s)) != Run([], Ready(before))
  {
    if s == [] {
      assert Body([]) == [];
    } else {
      var k := if |s| < d.left then |s| else d.left;
      assert Body(s[..k]) != [] && s[..|s|] == s;
    }
  }

  /** A decoder in the trailers that gets a line reports something or fails. */
  lemma TrailerMovesOn(su: Setup, d: Decoder, s: Bytes)
    requires d.state == InLine(HeaderLine) && d.scratch == [] && d.trailers && LineLength(s) > 0
    ensures Valid(d) && (Decode(su, d, s).end == Failed || Decode(su, d, s).log != [])
  {
    hide Decode, LineLength, Cut, Trim, AddCodings, Parse;
    EmptyIsNoLine();
    LineContent(s);
    var n := LineLength(s);
    var line, rest := s[..n - 2], s[n..];
    assert s == line + CRLF + rest;
    RunOwnLine(su, d, line, rest);
  }

  // ----- chunk by chunk

  lemma WaitsForLine(su: Setup, d: Decoder)
    requires d.state.InLine? && d.scratch == []
    ensures Valid(d) && Decode(su, d, []) == Run([], Ready(d))
  {
    EmptyIsNoLine();
    assert d.scratch + [] == [];
  }

  /** A decoder that waits for the end of a chunk and gets more than that does not end up waiting for a size. */
  lemma EndMovesOn(su: Setup, d: Decoder, s: Bytes)
    requires d.state == InLine(SizeLine) && d.scratch == [] && |s| >= 2
    ensures var d2 := d.(state := InLine(ChunkEnd)); Valid(d2) && Decode(su, d2, s + CRLF) != Run([], Ready(d))
  {
    hide Decode, LineLength;
    EmptyIsNoLine();
    var d2, all := d.(state := InLine(ChunkEnd)), s + CRLF;
    LineEndsHere(s);
    LineContent(all);
    var m := LineLength(all);
    assert all == all[..m - 2] + CRLF + all[m..];
    RunOwnLine(su, d2, all[..m - 2], all[m..]);
    if m == 2 {
      assert all[2..] == s[2..] + CRLF;
      LineEndsHere(s[2..]);
      ThenNone(Decode(su, d, all[2..]));
      SizeMovesOn(su, d, all[2..]);
    }
  }

  /** A chunk with data whose first line ends early is not delivered when it has been sent. */
  lemma EarlyChunkFails(su: Setup, d: Decoder, c: Chunk)
    requires d.state == InLine(SizeLine) && d.scratch == [] && d.left == 0 && 0 < |c.data| < U64 && !Own(SizeBytes(c))
    ensures Valid(d) && Decode(su, d, SizeBytes(c) + CRLF + (c.data + CRLF)) != Run(Body(c.data), Ready(d))
  {
    hide Decode, LineLength, SizeBytes, Body;
    var size, k := SizeBytes(c), |c.data|;
    SizeLineRuns(su, d, c, c.data + CRLF);
    EarlyLine(size);
    var left := (size + CRLF)[LineLength(size + CRLF)..];
    var t := left + c.data;
    var d1, d2 := d.(state := InChunk, left := k), d.(state := InLine(ChunkEnd));
    assert left + (c.data + CRLF) == t[..k] + (t[k..] + CRLF);
    ThenNone(Decode(su, d1, left + (c.data + CRLF)));
    BodyRuns(su, d1, t[..k], t[k..] + CRLF);
    assert |t[k..]| >= 2;
    EndMovesOn(su, d, t[k..]);
    BodiesDiffer(t[..k], c.data, Decode(su, d2, t[k..] + CRLF), Ready(d));
  }

  lemma BodiesDiffer(a: Bytes, b: Bytes, r: Run, end: End)
    requires |a| == |b| && r != Run([], end)
    ensures Then(Body(a), r) != Run(Body(b), end)
  {
    if Body(a) + r.log == Body(b) {
      assert |Body(a) + r.log| == |a| + |r.log| && |Body(b)| == |b|;
    }
  }

  /** A chunk with data is delivered when it has been sent, exactly if its first line ends where it should. */
  lemma ChunkExactly(su: Setup, d: Decoder, c: Chunk)
    requires d.state == InLine(SizeLine) && d.scratch == [] && d.left == 0 && 0 < |c.data| < U64
    ensures Valid(d)
    ensures Decode(su, d, SizeBytes(c) + CRLF + (c.data + CRLF)) == Run(Body(c.data), Ready(d)) <==> Own(SizeBytes(c))
  {
    hide Decode, SizeBytes, Own, Body;
    if Own(SizeBytes(c)) {
      ChunkRuns(su, d, c, []);
      assert CRLF + [] == CRLF;
      WaitsForLine(su, d);
      assert Body(c.data) + [] == Body(c.data);
    } else {
      EarlyChunkFails(su, d, c);
    }
  }

  /** The same for the chunk without data, which ends the body. */
  lemma LastExactly(su: Setup, d: Decoder, c: Chunk)
    requires d.state == InLine(SizeLine) && d.scratch == [] && d.left == 0 && c.data == []
    ensures var d' := d.(state := InLine(HeaderLine), trailers := true);
            Valid(d) && (Decode(su, d, SizeBytes(c) + CRLF) == Run([BodyEnd], Ready(d')) <==> Own(SizeBytes(c)))
  {
    hide Decode, LineLength, SizeBytes;
    var size, d' := SizeBytes(c), d.(state := InLine(HeaderLine), trailers := true);
    SizeLineRuns(su, d, c, []);
    assert size + CRLF + [] == size + CRLF;
    EarlyLine(size);
    var rest := (size + CRLF)[LineLength(size + CRLF)..] + [];
    if Own(size) {
      assert rest == [];
      WaitsForLine(su, d');
    } else {
      assert rest == rest[..|rest| - 2] + CRLF;
      LineEndsHere(rest[..|rest| - 2]);
      TrailerMovesOn(su, d', rest);
    }
  }

  // ----- a whole message, chunk by chunk

  /** What has been sent of a chunked message with its first `j` chunks. */
  function SentSoFar(m: Message, j: nat): Bytes
    requires m.start.ResponseStart? ==> m.start.code <= 999
    requires j <= |m.chunks|
  {
    Head(m) + ChunkBytes(m.chunks[..j])
  }

  function ReportSoFar(m: Message, j: nat): seq<Event>
    requires j <= |m.chunks|
  {
    [StartReport(m.start)] + FieldReports(m.headers) + Body(WholeBody(m.chunks[..j])) +
    if j == |m.chunks| then [BodyEnd] else []
  }

  /** Where the decoder stands when it has read all that. */
  function StandingAt(su: Setup, m: Message, ignored: bool, j: nat): Decoder
    requires ScanHeaders(su.names, NO_FRAMING, m.headers).Some?
  {
    if j == |m.chunks| then Headed(su, m, ignored).(state := InLine(HeaderLine), trailers := true)
    else Headed(su, m, ignored).(state := InLine(SizeLine))
  }

  /** By the time a chunk has been sent it has been delivered, and nothing else is left in the decoder. */
  ghost predicate Steady(su: Setup, m: Message, ignored: bool, g: Framing)
    requires ValidMessage(su.names, m, ignored, g) && Valid(Fresh(su, ignored))
  {
    forall j | 0 <= j <= |m.chunks| ::
      Decode(su, Fresh(su, ignored), SentSoFar(m, j)) == Run(ReportSoFar(m, j), Ready(StandingAt(su, m, ignored, j)))
  }

  /** The bytes of one chunk. */
  function OneChunk(c: Chunk): Bytes {
    SizeBytes(c) + CRLF + if c.data == [] then [] else c.data + CRLF
  }

  lemma Regroup(a: Bytes, b: Bytes, c: Bytes, d: Bytes)
    ensures a + (b + (c + d)) == (a + (b + c)) + d
  {
  }

  lemma ChunkFirst(chunks: seq<Chunk>)
    requires chunks != [] && (chunks[0].data == [] ==> |chunks| == 1)
    ensures ChunkBytes(chunks) == OneChunk(chunks[0]) + ChunkBytes(chunks[1..])
  {
    hide SizeBytes;
    var line, data, rest := SizeBytes(chunks[0]) + CRLF, chunks[0].data, ChunkBytes(chunks[1..]);
    if data == [] {
      assert chunks[1..] == [] && rest == [];
      assert line + [] == line && line + rest == line;
    } else {
      Regroup(line, data, CRLF, rest);
    }
  }

  lemma {:induction false} ChunksPush(chunks: seq<Chunk>, j: nat)
    requires ValidChunks(chunks) && j < |chunks|
    ensures ChunkBytes(chunks[..j + 1]) == ChunkBytes(chunks[..j]) + OneChunk(chunks[j])
    ensures WholeBody(chunks[..j + 1]) == WholeBody(chunks[..j]) + chunks[j].data
    decreases |chunks|
  {
    hide OneChunk, ChunkBytes;
    ChunkFirst(chunks[..j + 1]);
    if j == 0 {
      assert chunks[..0] == [] && chunks[..1][1..] == [];
      NoChunks();
      assert OneChunk(chunks[0]) + [] == [] + OneChunk(chunks[0]) && chunks[0].data + [] == [] + chunks[0].data;
    } else {
      LaterChunks(chunks);
      ChunksPush(chunks[1..], j - 1);
      ChunkFirst(chunks[..j]);
      assert chunks[1..][..j] == chunks[..j + 1][1..] && chunks[1..][..j - 1] == chunks[..j][1..];
    }
  }

  lemma NoChunks()
    ensures ChunkBytes([]) == []
  {
  }

  /** One more chunk is delivered exactly if its first line ends where it should. */
  lemma OneMore(su: Setup, m: Message, ignored: bool, g: Framing, j: nat)
    requires ValidMessage(su.names, m, ignored, g) && g.chunked && Valid(Fresh(su, ignored)) && j < |m.chunks|
    requires Decode(su, Fresh(su, ignored), SentSoFar(m, j)) ==
             Run(ReportSoFar(m, j), Ready(StandingAt(su, m, ignored, j)))
    requires Headed(su, m, ignored).scratch == [] && Headed(su, m, ignored).left == 0 &&
             !Headed(su, m, ignored).trailers
    ensures var next := Run(ReportSoFar(m, j + 1), Ready(StandingAt(su, m, ignored, j + 1)));
            Decode(su, Fresh(su, ignored), SentSoFar(m, j + 1)) == next <==> Own(SizeBytes(m.chunks[j]))
  {
    hide Decode, SizeBytes, Own, Head, ChunkBytes, WholeBody, Body, FieldReports, Headed, ScanHeaders;
    var c, d, d' := m.chunks[j], StandingAt(su, m, ignored, j), StandingAt(su, m, ignored, j + 1);
    var bytes := OneChunk(c);
    var log := if c.data == [] then [BodyEnd] else Body(c.data);
    ChunksPush(m.chunks, j);
    assert SentSoFar(m, j + 1) == SentSoFar(m, j) + bytes;
    DecodeSplit(su, Fresh(su, ignored), SentSoFar(m, j), bytes);
    assert Decode(su, Fresh(su, ignored), SentSoFar(m, j + 1)) == Then(ReportSoFar(m, j), Decode(su, d, bytes));
    BodyConcat(WholeBody(m.chunks[..j]), c.data);
    assert ReportSoFar(m, j + 1) == ReportSoFar(m, j) + log by { NextReport(m, j, log); }
    ThenSame(ReportSoFar(m, j), Decode(su, d, bytes), Run(log, Ready(d')));
    if c.data == [] {
      assert SizeBytes(c) + CRLF + [] == SizeBytes(c) + CRLF;
      LastExactly(su, d, c);
    } else {
      ChunkExactly(su, d, c);
    }
  }

  lemma NextReport(m: Message, j: nat, log: seq<Event>)
    requires ValidChunks(m.chunks) && j < |m.chunks|
    requires log == if m.chunks[j].data == [] then [BodyEnd] else Body(m.chunks[j].data)
    requires WholeBody(m.chunks[..j + 1]) == WholeBody(m.chunks[..j]) + m.chunks[j].data
    ensures ReportSoFar(m, j + 1) == ReportSoFar(m, j) + log
  {
    hide WholeBody, FieldReports, Body;
    var head, before := [StartReport(m.start)] + FieldReports(m.headers), Body(WholeBody(m.chunks[..j]));
    BodyConcat(WholeBody(m.chunks[..j]), m.chunks[j].data);
    assert head + before + [] == head + before;
    if m.chunks[j].data == [] {
      assert WholeBody(m.chunks[..j]) + [] == WholeBody(m.chunks[..j]);
    } else {
      assert head + (before + log) + [] == (head + before) + log;
    }
  }

  lemma ThenSame(x: seq<Event>, a: Run, b: Run)
    ensures Then(x, a) == Then(x, b) <==> a == b
  {
    if Then(x, a) == Then(x, b) {
      assert (x + a.log)[|x|..] == a.log && (x + b.log)[|x|..] == b.log;
    }
  }

  lemma HeadArrives(su: Setup, m: Message, ignored: bool, g: Framing)
    requires ValidMessage(su.names, m, ignored, g) && g.chunked && su.requests == m.start.RequestStart?
    requires ReadableHeaders(su.names, m)
    ensures Valid(Fresh(su, ignored))
    ensures Decode(su, Fresh(su, ignored), SentSoFar(m, 0)) ==
            Run(ReportSoFar(m, 0), Ready(StandingAt(su, m, ignored, 0)))
    ensures Headed(su, m, ignored).scratch == [] && Headed(su, m, ignored).left == 0 && !Headed(su, m, ignored).trailers
  {
    hide Decode, StartBytes, FieldLines, ScanHeaders, FieldReports, Headed, ReadableHeaders, Body;
    var d := Headed(su, m, ignored);
    assert m.chunks[..0] == [];
    assert SentSoFar(m, 0) == StartBytes(m.start) + CRLF + (FieldLines(m.headers) + CRLF);
    HeadRuns(su, m, ignored, g, CRLF);
    assert CRLF + [] == CRLF;
    BlankMoves(su, d, []);
    WaitsForLine(su, StandingAt(su, m, ignored, 0));
    assert Body([]) == [] by { NoBody(); }
    var log := [StartReport(m.start)] + FieldReports(m.headers);
    assert log + [] == log && log + [] + [] == log;
  }

  lemma {:induction false} ReadableArrives(su: Setup, m: Message, ignored: bool, g: Framing, j: nat)
    requires ValidMessage(su.names, m, ignored, g) && g.chunked && su.requests == m.start.RequestStart?
    requires ReadableMessage(su.names, m, g) && j <= |m.chunks|
    ensures Valid(Fresh(su, ignored))
    ensures Decode(su, Fresh(su, ignored), SentSoFar(m, j)) ==
            Run(ReportSoFar(m, j), Ready(StandingAt(su, m, ignored, j)))
    decreases j
  {
    hide Decode, SentSoFar, ReportSoFar, StandingAt, Own, SizeBytes, ReadableHeaders, ScanHeaders, Headed;
    HeadArrives(su, m, ignored, g);
    if j > 0 {
      ReadableArrives(su, m, ignored, g, j - 1);
      OneMore(su, m, ignored, g, j - 1);
    }
  }

  /**
   * A chunked message is delivered chunk by chunk as it is sent, if and only if its headers are readable
   * and no chunk has a line end in its extensions.
   */
  lemma SteadyExactly(su: Setup, m: Message, ignored: bool, g: Framing)
    requires ValidMessage(su.names, m, ignored, g) && g.chunked && su.requests == m.start.RequestStart?
    ensures Valid(Fresh(su, ignored))
    ensures Steady(su, m, ignored, g) <==> ReadableMessage(su.names, m, g)
  {
    hide Decode, SentSoFar, ReportSoFar, StandingAt, Own, SizeBytes, ReadableHeaders, ScanHeaders, Headed;
    EmptyIsNoLine();
    if ReadableMessage(su.names, m, g) {
      forall j | 0 <= j <= |m.chunks| ensures Decode(su, Fresh(su, ignored), SentSoFar(m, j)) ==
                                              Run(ReportSoFar(m, j), Ready(StandingAt(su, m, ignored, j))) {
        ReadableArrives(su, m, ignored, g, j);
      }
    }
    if Steady(su, m, ignored, g) {
      if !ReadableHeaders(su.names, m) {
        UnreadableFails(su, m, ignored, g, []);
        assert SentSoFar(m, 0) == Head(m) + [] by { NothingSent(m); }
        assert false;
      }
      HeadArrives(su, m, ignored, g);
      forall j | 0 <= j < |m.chunks| ensures Own(SizeBytes(m.chunks[j])) {
        assert 0 <= j + 1 <= |m.chunks|;
        OneMore(su, m, ignored, g, j);
      }
    }
  }

  lemma NothingSent(m: Message)
    requires m.start.ResponseStart? ==> m.start.code <= 999
    ensures SentSoFar(m, 0) == Head(m) + []
  {
    assert m.chunks[..0] == [];
  }

  // ----- a chunk that is accepted and refused

  const BROKEN_CHUNK := Chunk([97], [Extension([107], CRLF)])

  /**
   * One byte in a chunk with the extension `k` and a line end for its value, for names in which `T` means a
   * list of codings.
   */
  const BROKEN := Message(RequestStart([71], [47]), [(CODING_NAME, CHUNKED)], None, [BROKEN_CHUNK, Chunk([], [])], None)

  lemma BrokenSize()
    ensures SizeBytes(BROKEN_CHUNK) == [49, 59, 107, 61, 13, 10] && SizeBytes(Chunk([], [])) == [48]
  {
    assert BROKEN_CHUNK.extensions[1..] == [] && Hex(1) == [49] && Hex(0) == [48];
    assert ExtensionBytes(BROKEN_CHUNK.extensions[1..]) == [];
    assert ExtensionBytes(BROKEN_CHUNK.extensions) == [59] + [107] + [61] + CRLF + [] == [59, 107, 61, 13, 10];
  }

  lemma BrokenBytes()
    ensures SizeBytes(BROKEN_CHUNK) == [49, 59, 107, 61, 13, 10]
    ensures LineLength(SizeBytes(BROKEN_CHUNK) + CRLF) == 6
    ensures ChunkBytes(BROKEN.chunks) == SizeBytes(BROKEN_CHUNK) + CRLF + [97, 13, 10, 48, 13, 10]
  {
    hide LineLength, SizeBytes, ChunkBytes;
    BrokenSize();
    LineOfPlain([49, 59, 107, 61], CRLF);
    assert SizeBytes(BROKEN_CHUNK) + CRLF == [49, 59, 107, 61] + CRLF + CRLF;
    ChunkFirst(BROKEN.chunks);
    ChunkFirst(BROKEN.chunks[1..]);
    NoChunks();
    assert BROKEN.chunks[1..] == [Chunk([], [])] && BROKEN.chunks[1..][1..] == [];
    assert OneChunk(Chunk([], [])) == [48, 13, 10];
  }

  lemma BrokenIsValid(su: Setup)
    requires su.names.kind(CODING_NAME) == TransferEncoding && su.names.coding(CHUNKED) == Some(Chunked)
    ensures ValidMessage(su.names, BROKEN, false, Framing(0, false, true, true)) && ReadableHeaders(su.names, BROKEN)
  {
    hide Trim, Cut, IsToken, IsValue, IsTarget;
    OddListCut();
    OddListTrimmed();
    OddListWritable();
    ChunkedIsValue();
    var headers, none: Fields := BROKEN.headers, [];
    assert headers[1..] == none;
    assert ScanCodings(CHUNKED, false) == Some(true);
    assert ScanHeaders(su.names, Framing(0, false, true, true), headers[1..]) == Some(Framing(0, false, true, true));
    assert ScanHeaders(su.names, NO_FRAMING, headers) == Some(Framing(0, false, true, true));
    assert ListedCodings(su.names, headers[1..]) == [] && CodingsOf(CHUNKED) == [CHUNKED];
    assert ListedCodings(su.names, headers) == [CHUNKED];
    assert [CHUNKED][..0] == [] && NextReadable(su.names, [CHUNKED][..0], CHUNKED);
  }

  lemma ChunkedIsValue()
    ensures IsValue(CHUNKED)
  {
  }

  /** After the headers: the size, the first half of its line end taken for the data, and then no line end. */
  lemma BrokenBodyFails(su: Setup, d: Decoder, s: Bytes)
    requires d.state == InLine(SizeLine) && d.scratch == [] && d.left == 0
    ensures Valid(d) && Decode(su, d, ChunkBytes(BROKEN.chunks) + s).end == Failed
  {
    hide Decode, SizeBytes, ChunkBytes, LineLength, Body;
    BrokenBytes();
    var size := SizeBytes(BROKEN_CHUNK);
    var after := [97, 13, 10, 48, 13, 10] + s;
    assert ChunkBytes(BROKEN.chunks) + s == size + CRLF + after;
    SizeLineRuns(su, d, BROKEN_CHUNK, after);
    var d1, d2 := d.(state := InChunk, left := 1), d.(state := InLine(ChunkEnd));
    var rest := [13, 10, 48, 13, 10] + s;
    assert (size + CRLF)[6..] + after == [13] + ([10, 97] + rest);
    BodyRuns(su, d1, [13], [10, 97] + rest);
    assert [10, 97] + rest == [10, 97] + CRLF + ([48, 13, 10] + s);
    assert Own([10, 97]) by { LoneLf(); }
    RunOwnLine(su, d2, [10, 97], [48, 13, 10] + s);
  }

  lemma LoneLf()
    ensures Own([10, 97])
  {
    var s := [10, 97] + CRLF;
    assert s[1..][1..] == CRLF && LineLength(s[1..][1..]) == 2 && LineLength(s[1..]) == 3;
  }

  /** The encoder takes it, and its headers can be read, but the decoder refuses it. */
  lemma BrokenIsAccepted(su: Setup)
    requires su.names.kind(CODING_NAME) == TransferEncoding && su.names.coding(CHUNKED) == Some(Chunked) && su.requests
    ensures ValidMessage(su.names, BROKEN, false, Framing(0, false, true, true)) && ReadableHeaders(su.names, BROKEN)
    ensures !OwnLines(BROKEN.chunks)
    ensures Valid(Fresh(su, false)) &&
            Decode(su, Fresh(su, false), Encode(BROKEN, Framing(0, false, true, true))).end == Failed
  {
    hide Decode, StartBytes, FieldLines, ScanHeaders, FieldReports, Headed, ReadableHeaders, ChunkBytes, SizeBytes;
    var g := Framing(0, false, true, true);
    BrokenIsValid(su);
    BrokenBytes();
    assert !Own(SizeBytes(BROKEN.chunks[0]));
    var after := CRLF + (ChunkBytes(BROKEN.chunks) + TrailerBytes(BROKEN));
    assert Encode(BROKEN, g) == StartBytes(BROKEN.start) + CRLF + (FieldLines(BROKEN.headers) + after);
    HeadRuns(su, BROKEN, false, g, after);
    var d := Headed(su, BROKEN, false);
    BlankMoves(su, d, ChunkBytes(BROKEN.chunks) + TrailerBytes(BROKEN));
    BrokenBodyFails(su, ProcessBlank(d).d, TrailerBytes(BROKEN));
  }
}
