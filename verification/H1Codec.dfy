/**
 * The HTTP/1.1 decoder and encoder as objects: the scan for line ends with its
 * scratch space, the loop over decoder states, and the state machine that writes
 * a message into whatever buffers it is given.
 */
module H1Codec {
  import opened Octets
  import opened H1Syntax
  import opened H1Decoder
  import opened H1Encoder
  import opened H1RoundTrip

  // ----- finding a line end

  /** No CRLF within the first `k` bytes. */
  ghost predicate NoBreak(s: Bytes, k: nat)
    requires k <= |s|
  {
    forall j {:trigger s[j]} | 0 <= j && j + 1 < k :: !(s[j] == CR && s[j + 1] == LF)
  }

  lemma {:induction false} BreakAt(s: Bytes, k: nat)
    requires 2 <= k <= |s| && NoBreak(s, k - 1) && s[k - 2] == CR && s[k - 1] == LF
    ensures LineLength(s) == k
    decreases |s|
  {
    if k > 2 {
      assert !(s[0] == CR && s[0 + 1] == LF);
      assert NoBreak(s[1..], k - 2) by {
        forall j | 0 <= j && j + 1 < k - 2 ensures !(s[1..][j] == CR && s[1..][j + 1] == LF) {
          assert s[1..][j] == s[j + 1] && s[1..][j + 1] == s[j + 2];
        }
      }
      BreakAt(s[1..], k - 1);
    }
  }

  lemma {:induction false} NoBreakIsNoLine(s: Bytes)
    ensures NoBreak(s, |s|) <==> LineLength(s) == 0
    decreases |s|
  {
    if |s| >= 2 {
      NoBreakIsNoLine(s[1..]);
      assert forall j | 0 <= j < |s[1..]| :: s[1..][j] == s[j + 1];
      if LineLength(s) == 0 {
        forall j | 0 <= j && j + 1 < |s| ensures !(s[j] == CR && s[j + 1] == LF) {
          if j > 0 {
            assert s[1..][j - 1] == s[j] && s[1..][j] == s[j + 1];
          }
        }
      } else if !(s[0] == CR && s[1] == LF) {
        var j :| 0 <= j && j + 1 < |s[1..]| && s[1..][j] == CR && s[1..][j + 1] == LF;
        assert s[j + 1] == CR && s[j + 1 + 1] == LF;
      }
    }
  }

  /** Looks for LF and then one byte back for CR, which may be the last byte of the scratch space. */
  method ScanForCrlf(scratch: Bytes, input: Bytes) returns (found: bool, n: nat)
    requires LineLength(scratch) == 0
    ensures found <==> LineLength(scratch + input) > 0
    ensures found ==> n <= |input| && |scratch| + n == LineLength(scratch + input)
    ensures !found ==> n == |input|
  {
    hide LineLength;
    ghost var all := scratch + input;
    var pos := 0;
    NoBreakIsNoLine(scratch);
    assert NoBreak(all, |scratch|) by {
      assert forall j | 0 <= j < |scratch| :: all[j] == scratch[j];
    }
    while pos < |input|
      invariant 0 <= pos <= |input| && NoBreak(all, |scratch| + pos)
    {
      var newline := pos;
      while newline < |input| && input[newline] != LF
        invariant pos <= newline <= |input| && NoBreak(all, |scratch| + newline)
      {
        assert all[|scratch| + newline] == input[newline];
        newline := newline + 1;
      }
      if newline == |input| {
        break;
      }
      var previous := if newline > 0 then input[newline - 1] else if |scratch| > 0 then scratch[|scratch| - 1] else 0;
      assert all[|scratch| + newline] == LF;
      assert |scratch| + newline > 0 ==> all[|scratch| + newline - 1] == previous;
      if previous == CR {
        BreakAt(all, |scratch| + newline + 1);
        return true, newline + 1;
      }
      pos := newline + 1;
    }
    NoBreakIsNoLine(all);
    return false, |input|;
  }

  class MessageDecoder {
    const su: Setup
    var state: State
    var scratch: Bytes
    var codings: set<Coding>
    var contentLength: nat
    var left: nat
    var trailers: bool
    var ignored: bool
    var forbidden: bool

    function View(): Decoder
      reads this
    {
      Decoder(state, scratch, codings, contentLength, left, trailers, ignored, forbidden)
    }

    constructor (su: Setup)
      ensures this.su == su && View() == Fresh(su, false)
    {
      this.su, state, scratch, codings := su, InLine(StartLine(su)), [], {};
      contentLength, left, trailers, ignored, forbidden := 0, 0, false, false, false;
    }

    method Load(d: Decoder)
      modifies this
      ensures View() == d
    {
      state, scratch, codings, contentLength := d.state, d.scratch, d.codings, d.contentLength;
      left, trailers, ignored, forbidden := d.left, d.trailers, d.ignored, d.forbidden;
    }

    /**
     * Collects a line, in the scratch space if it does not end here, and processes it when it is whole.
     * `done` says that this finished a message, after which the decoder is reset.
     */
    method RunLine(s: Bytes) returns (r: StepResult, done: bool)
      requires Valid(View()) && state.InLine?
      modifies this
      ensures r == StepLine(su, old(View()), s) && (!r.Stop? ==> View() == r.d)
      ensures done ==> r.Go? && r.d == Fresh(su, false)
      ensures EndsMessage(r.log, done)
    {
      hide ProcessLine, LineLength;
      var d := View();
      done := false;
      var found, n := ScanForCrlf(scratch, s);
      if !found {
        scratch := scratch + s;
        return Wait(View(), []), false;
      }
      LineIsNew(d.scratch, s);
      var line := scratch + s[..n];
      assert line[..|line| - 2] == (d.scratch + s)[..|d.scratch| + n - 2];
      var o := ProcessLine(su, d.(scratch := []), state.kind, line[..|line| - 2]);
      LineEndsMessage(su, d.(scratch := []), state.kind, line[..|line| - 2]);
      r, done := Proceed(su, o, [], s[n..]), o.Finished?;
      if !r.Stop? {
        Load(r.d);
      }
    }

    /** Passes on what has arrived of a body or a chunk. */
    method RunBody(s: Bytes) returns (r: StepResult, done: bool)
      requires Valid(View()) && !state.InLine?
      modifies this
      ensures r == StepBody(su, old(View()), s) && (!r.Stop? ==> View() == r.d)
      ensures done ==> r.Go? && r.d == Fresh(su, false)
      ensures EndsMessage(r.log, done)
    {
      hide Body;
      var n := if |s| > left then left else |s|;
      var log := Body(s[..n]);
      BodyGoesOn(s[..n]);
      left := left - n;
      done := false;
      if left > 0 {
        assert s[..n] == s;
        return Wait(View(), log), false;
      }
      if state == InBody {
        done := true;
        r := Go(Fresh(su, false), s[n..], log + [BodyEnd, Done]);
      } else {
        state := InLine(ChunkEnd);
        r := Go(View(), s[n..], log + []);
      }
      Load(r.d);
    }

    /** Runs states until the input is used up or the message is done; what is left belongs to the next message. */
    method Decode(data: Bytes) returns (ok: bool, done: bool, rest: Bytes, log: seq<Event>)
      requires Valid(View())
      modifies this
      ensures var r := H1Decoder.Decode(su, old(View()), data);
              && (!ok ==> r == Run(log, Failed))
              && (ok && !done ==> rest == [] && r == Run(log, Ready(View())) && Valid(View()))
              && (ok && done ==>
                    && |rest| < |data| && View() == Fresh(su, false) && Valid(View())
                    && r == Then(log, H1Decoder.Decode(su, View(), rest)))
      ensures EndsMessage(log, ok && done)
    {
      hide StepLine, StepBody, H1Decoder.Decode, Valid, EndsMessage;
      ghost var d := View();
      ok, done, rest, log := true, false, data, [];
      NothingEnds();
      assert Then([], H1Decoder.Decode(su, d, data)) ==
             H1Decoder.Decode(su, d, data) by { ThenNone(H1Decoder.Decode(su, d, data)); }
      while rest != [] && !done
        invariant ok && Valid(View()) && (done ==> View() == Fresh(su, false) && |rest| < |data|)
        invariant |rest| <= |data| && EndsMessage(log, done)
        invariant H1Decoder.Decode(su, d, data) == Then(log, H1Decoder.Decode(su, View(), rest))
        decreases |rest|
      {
        ghost var d1, log1, rest1 := View(), log, rest;
        DecodeByStep(su, d1, rest);
        var step;
        if state.InLine? {
          step, done := RunLine(rest);
        } else {
          step, done := RunBody(rest);
        }
        EndsLater(log, step.log, done);
        log := log + step.log;
        match step {
          case Stop(_) => return false, false, rest, log;
          case Wait(_, _) =>
            rest := [];
            WaitingIsIdle(su, View());
            ThenThen(log1, step.log, Run([], Ready(View())));
          case Go(_, more, _) =>
            rest := more;
            ThenThen(log1, step.log, H1Decoder.Decode(su, View(), rest));
        }
      }
      if !done {
        WaitingIsIdle(su, View());
        assert log + [] == log;
      }
    }
  }

  /** A message is reported done at most once in a call, and last. */
  ghost predicate EndsMessage(log: seq<Event>, done: bool) {
    (done <==> Done in log) && (done ==> Done !in log[..|log| - 1] && log[|log| - 1] == Done)
  }

  lemma NothingEnds()
    ensures EndsMessage([], false)
  {
  }

  lemma BodyGoesOn(bytes: Bytes)
    ensures Done !in Body(bytes)
  {
  }

  lemma EndsLater(a: seq<Event>, b: seq<Event>, done: bool)
    requires EndsMessage(a, false) && EndsMessage(b, done)
    ensures EndsMessage(a + b, done)
  {
    if done {
      assert (a + b)[..|a + b| - 1] == a + b[..|b| - 1];
    }
  }

  lemma LineEndsMessage(su: Setup, d: Decoder, kind: LineKind, line: Bytes)
    ensures var o := ProcessLine(su, d, kind, line);
            && (o.Finished? ==> o.log == [Done])
            && (o.Moved? ==> Done !in o.log)
  {
    hide Cut, Trim, IsToken, IsTarget, IsValue, IsPhrase, Parse, AddCodings;
  }

  lemma DecodeByStep(su: Setup, d: Decoder, s: Bytes)
    requires Valid(d)
    ensures var r := Step(su, d, s);
            && (r.Wait? ==> Valid(r.d) && H1Decoder.Decode(su, d, s) == Run(r.log, Ready(r.d)))
            && (r.Stop? ==> H1Decoder.Decode(su, d, s) == Run(r.log, Failed))
            && (r.Go? ==>
                  && Valid(r.d) && |r.rest| < |s|
                  && H1Decoder.Decode(su, d, s) == Then(r.log, H1Decoder.Decode(su, r.d, r.rest)))
  {
    hide Step, Valid;
    StepOk(su, d, s);
  }

  /** Without input, nothing happens. */
  lemma WaitingIsIdle(su: Setup, d: Decoder)
    requires Valid(d)
    ensures H1Decoder.Decode(su, d, []) == Run([], Ready(d))
  {
    hide ProcessLine;
    assert d.scratch + [] == d.scratch;
    DecodeByStep(su, d, []);
  }

  // ----- writing a message

  datatype Phase =
    | Init | HeadPhase | BodyPhase | ChunkNext | ChunkLine | ChunkBody | ChunkEndPhase | TrailerPhase | DonePhase

  /** The first line of a chunk, with its CRLF. */
  function ChunkLineBytes(c: Chunk): Bytes {
    SizeBytes(c) + CRLF
  }

  /** What follows the first line of the chunk at the head of the list. */
  function AfterChunkLine(chunks: seq<Chunk>, trailer: Bytes): Bytes
    requires chunks != []
  {
    if chunks[0].data == [] then trailer else chunks[0].data + (CRLF + (ChunkBytes(chunks[1..]) + trailer))
  }

  lemma Rejoin(a: Bytes, b: Bytes, c: Bytes)
    ensures a + (b + c) == (a + b) + c
  {
  }

  lemma ChunkBytesSplit(chunks: seq<Chunk>, trailer: Bytes)
    requires chunks != []
    ensures ChunkBytes(chunks) + trailer == ChunkLineBytes(chunks[0]) + AfterChunkLine(chunks, trailer)
  {
    hide SizeBytes;
  }

  /**
   * Writes one message; `progress` counts what has been written of the current piece.
   * The methods are told, for their specification only, which chunks are still to be submitted.
   */
  class MessageEncoder {
    var phase: Phase
    var progress: nat
    var head: Bytes
    var body: Bytes
    var chunked: bool
    var chunks: seq<Chunk>
    var hasTrailer: bool
    var trailer: Bytes

    /** The piece being written is not shorter than what has been written of it. */
    ghost predicate Ok()
      reads this
    {
      head != [] && trailer != [] && (!hasTrailer ==> trailer == CRLF) &&
      match phase
      case HeadPhase => progress <= |head|
      case BodyPhase => progress < |body|
      case ChunkLine => chunks != [] && progress <= |ChunkLineBytes(chunks[0])|
      case ChunkBody => chunks != [] && chunks[0].data != [] && progress < |chunks[0].data|
      case ChunkEndPhase => chunks != [] && chunks[0].data != []
      case TrailerPhase => progress <= |trailer| && (!hasTrailer ==> progress == 0)
      case _ => true
    }

    /** What is still to be written when `more` chunks are still to come. */
    ghost function Remaining(more: seq<Chunk>): Bytes
      requires Ok()
      reads this
    {
      match phase
      case Init => []
      case HeadPhase => head[progress..] +
          (if body != [] then body else if chunked then ChunkBytes(chunks + more) + trailer else [])
      case BodyPhase => body[progress..]
      case ChunkNext => ChunkBytes(chunks + more) + trailer
      case ChunkLine => ChunkLineBytes(chunks[0])[progress..] + AfterChunkLine(chunks + more, trailer)
      case ChunkBody => chunks[0].data[progress..] + (CRLF + (ChunkBytes(chunks[1..] + more) + trailer))
      case ChunkEndPhase => CRLF + (ChunkBytes(chunks[1..] + more) + trailer)
      case TrailerPhase => trailer[progress..]
      case DonePhase => []
    }

    /** No chunk is wanting: the one without data has been submitted, if there have to be chunks. */
    ghost predicate Supplied()
      reads this
    {
      match phase
      case HeadPhase => body != [] || !chunked || HasLast(chunks)
      case ChunkNext => HasLast(chunks)
      case ChunkLine => HasLast(chunks)
      case ChunkBody => HasLast(chunks)
      case ChunkEndPhase => HasLast(chunks)
      case _ => true
    }

    /**
     * Why writing stops when the last state wrote `last` bytes and left `left` bytes of space: the message is
     * done, or something is wanting.
     */
    ghost predicate Stopped(left: nat, last: nat, supply: nat)
      reads this
    {
      match phase
      case Init => true
      case HeadPhase => left == 0 && progress < |head|
      case BodyPhase => left == 0 || last == supply
      case ChunkNext => chunks == []
      case ChunkLine => left == 0 && chunks != [] && progress < |ChunkLineBytes(chunks[0])|
      case ChunkBody => left == 0 || last == supply
      case ChunkEndPhase => left < 2
      case TrailerPhase => (left == 0 && progress < |trailer|) || (!hasTrailer && left < 2)
      case DonePhase => false
    }

    /** When writing stops before the end, something remains, and it is space or data of the body that is wanting. */
    lemma StopReasons(left: nat, last: nat, supply: nat, more: seq<Chunk>)
      requires Ok() && Stopped(left, last, supply)
      ensures phase == Init <==> Remaining(more) == []
      ensures Supplied() && phase != Init ==> last == supply || (left <= 1 && left < |Remaining(more)|)
    {
      hide ChunkBytes, ChunkLineBytes, AfterChunkLine;
    }

    constructor (m: Message, g: Framing)
      requires m.start.ResponseStart? ==> m.start.code <= 999
      requires g.length > 0 ==> m.body.Some? && m.body.value != []
      requires g.length == 0 && m.body.Some? ==> !g.chunked
      ensures Ok() && phase == HeadPhase && (Supplied() <==> Ends(m, g))
      ensures forall more: seq<Chunk> :: Remaining(more) == Encode(m.(chunks := m.chunks + more), g)
    {
      phase, progress, head := HeadPhase, 0, Head(m);
      body := if g.length > 0 && m.body.Some? then m.body.value else [];
      chunked, chunks, hasTrailer, trailer := g.chunked, m.chunks, m.trailer.Some?, TrailerBytes(m);
      new;
      assert head[0..] == head;
    }

    method Enter(p: Phase)
      modifies this`phase, this`progress
      ensures phase == p && progress == 0
    {
      phase, progress := p, 0;
    }

    /** Copies as much of a piece as fits; the piece is done when nothing of it is left. */
    method Copy(piece: Bytes, space: nat) returns (out: Bytes, done: bool)
      requires progress <= |piece|
      modifies this`progress
      ensures old(progress) <= progress <= |piece| && out == piece[old(progress)..progress] && |out| <= space
      ensures out + piece[progress..] == piece[old(progress)..]
      ensures (done <==> progress == |piece|) && (!done ==> |out| == space)
    {
      var n := if |piece| - progress < space then |piece| - progress else space;
      out := piece[progress..progress + n];
      progress := progress + n;
      done := progress == |piece|;
    }

    method RunHead(space: nat, ghost more: seq<Chunk>) returns (out: Bytes)
      requires Ok() && phase == HeadPhase
      modifies this`phase, this`progress
      ensures Ok() && out + Remaining(more) == old(Remaining(more)) && |out| <= space &&
              (old(Supplied()) ==> Supplied())
      ensures phase in {HeadPhase, BodyPhase, ChunkNext, DonePhase}
      ensures phase == HeadPhase ==> |out| == space && progress < |head|
    {
      var done;
      ghost var rest := if body != [] then body else if chunked then ChunkBytes(chunks + more) + trailer else [];
      out, done := Copy(head, space);
      assert (out + head[progress..]) + rest == out + (head[progress..] + rest);
      if done {
        assert head[progress..] + rest == rest;
        if body != [] {
          Enter(BodyPhase);
          assert body[0..] == body;
        } else if chunked {
          Enter(ChunkNext);
        } else {
          Enter(DonePhase);
        }
      }
    }

    /** Reads from the body source, which gives no more than `supply` bytes now. */
    method RunBody(space: nat, supply: nat, ghost more: seq<Chunk>) returns (out: Bytes)
      requires Ok() && phase == BodyPhase
      modifies this`phase, this`progress
      ensures Ok() && out + Remaining(more) == old(Remaining(more)) && |out| <= space
      ensures phase in {BodyPhase, DonePhase} && (phase == BodyPhase ==> |out| == space || |out| == supply)
    {
      var done;
      out, done := Copy(body, if space < supply then space else supply);
      if done {
        Enter(DonePhase);
      }
    }

    method RunChunkLine(space: nat, ghost more: seq<Chunk>) returns (out: Bytes)
      requires Ok() && phase == ChunkLine
      modifies this`phase, this`progress, this`chunks
      ensures Ok() && out + Remaining(more) == old(Remaining(more)) && |out| <= space
      ensures (chunks == old(chunks) && phase in {ChunkLine, ChunkBody}) ||
              (|chunks| < |old(chunks)| && phase == TrailerPhase)
      ensures phase == ChunkLine ==> |out| == space && progress < |ChunkLineBytes(chunks[0])|
      ensures old(Supplied()) ==> Supplied()
    {
      hide ChunkBytes, SizeBytes, ChunkLineBytes;
      var done;
      ghost var line, rest := ChunkLineBytes(chunks[0]), AfterChunkLine(chunks + more, trailer);
      assert (chunks + more)[0] == chunks[0] && (chunks + more)[1..] == chunks[1..] + more;
      out, done := Copy(ChunkLineBytes(chunks[0]), space);
      assert (out + line[progress..]) + rest == out + (line[progress..] + rest);
      if done {
        assert line[progress..] + rest == rest;
        if chunks[0].data == [] {
          chunks := chunks[1..];
          Enter(TrailerPhase);
          assert trailer[0..] == trailer;
        } else {
          Enter(ChunkBody);
          assert chunks[0].data[0..] == chunks[0].data;
        }
      }
    }

    method RunChunkBody(space: nat, supply: nat, ghost more: seq<Chunk>) returns (out: Bytes)
      requires Ok() && phase == ChunkBody
      modifies this`phase, this`progress
      ensures Ok() && out + Remaining(more) == old(Remaining(more)) && |out| <= space
      ensures old(Supplied()) ==> Supplied()
      ensures phase in {ChunkBody, ChunkEndPhase} && (phase == ChunkBody ==> |out| == space || |out| == supply)
    {
      hide ChunkBytes;
      var done;
      ghost var data, rest := chunks[0].data, CRLF + (ChunkBytes(chunks[1..] + more) + trailer);
      out, done := Copy(chunks[0].data, if space < supply then space else supply);
      assert (out + data[progress..]) + rest == out + (data[progress..] + rest);
      if done {
        assert data[progress..] + rest == rest;
        Enter(ChunkEndPhase);
      }
    }

    /** The CRLF after a chunk is written whole or not at all. */
    method RunChunkEnd(space: nat, ghost more: seq<Chunk>) returns (out: Bytes)
      requires Ok() && phase == ChunkEndPhase
      modifies this`phase, this`progress, this`chunks
      ensures Ok() && out + Remaining(more) == old(Remaining(more)) && |out| <= space
      ensures (chunks == old(chunks) && phase == ChunkEndPhase) || (|chunks| < |old(chunks)| && phase == ChunkNext)
      ensures phase == ChunkEndPhase ==> space < 2 && out == []
      ensures old(Supplied()) ==> Supplied()
    {
      if space < 2 {
        return [];
      }
      out := CRLF;
      LastIsLater(chunks);
      chunks := chunks[1..];
      Enter(ChunkNext);
    }

    /** A trailer that is set is written in parts; the CRLF that stands for none is written whole or not at all. */
    method RunTrailer(space: nat, ghost more: seq<Chunk>) returns (out: Bytes)
      requires Ok() && phase == TrailerPhase
      modifies this`phase, this`progress
      ensures Ok() && out + Remaining(more) == old(Remaining(more)) && |out| <= space
      ensures phase in {TrailerPhase, DonePhase}
      ensures phase == TrailerPhase ==>
              (|out| == space && progress < |trailer|) || (!hasTrailer && space < 2 && out == [])
    {
      var done;
      if !hasTrailer && space < 2 {
        return [];
      }
      out, done := Copy(trailer, space);
      if done {
        Enter(DonePhase);
      }
    }

    /** One state: what it writes is the front of what remained. */
    method RunState(space: nat, supply: nat, ghost more: seq<Chunk>) returns (out: Bytes)
      requires Ok()
      modifies this`phase, this`progress, this`chunks
      ensures Ok() && out + Remaining(more) == old(Remaining(more)) && |out| <= space
      ensures phase == old(phase) || |chunks| < |old(chunks)| ||
              (chunks == old(chunks) && Order(phase) < Order(old(phase)))
      ensures phase == old(phase) ==> chunks == old(chunks) && Stopped(space - |out|, |out|, supply)
      ensures old(Supplied()) ==> Supplied()
    {
      hide ChunkBytes, ChunkLineBytes, AfterChunkLine;
      out := [];
      match phase {
        case Init =>
        case HeadPhase => out := RunHead(space, more);
        case BodyPhase => out := RunBody(space, supply, more);
        case ChunkNext =>
          if chunks != [] {
            ChunkBytesSplit(chunks + more, trailer);
            Enter(ChunkLine);
            assert ChunkLineBytes(chunks[0])[0..] == ChunkLineBytes(chunks[0]);
          }
        case ChunkLine => out := RunChunkLine(space, more);
        case ChunkBody => out := RunChunkBody(space, supply, more);
        case ChunkEndPhase => out := RunChunkEnd(space, more);
        case TrailerPhase => out := RunTrailer(space, more);
        case DonePhase => Enter(Init);
      }
    }

    /**
     * Runs states until they stop changing, for want of space, of body data or of chunks; the last wrote `last`
     * bytes.
     */
    method Process(space: nat, supply: nat, ghost more: seq<Chunk>) returns (out: Bytes, ghost last: nat)
      requires Ok()
      modifies this`phase, this`progress, this`chunks
      ensures Ok() && out + Remaining(more) == old(Remaining(more)) && |out| <= space
      ensures last <= |out| && Stopped(space - |out|, last, supply)
      ensures (phase == Init <==> Remaining(more) == []) && (old(Supplied()) ==> Supplied())
      ensures old(Supplied()) && phase != Init ==> |out| >= Gain(Fill(space, supply))
      ensures old(Supplied()) && supply >= |old(Remaining(more))| ==>
              (phase == Init <==> space >= |old(Remaining(more))|)
    {
      hide Remaining, Stopped, Ok, Order, Supplied;
      out, last := [], 0;
      var changed := true;
      ghost var all := Remaining(more);
      while changed
        invariant Ok() && out + Remaining(more) == all && |out| <= space && (old(Supplied()) ==> Supplied())
        invariant last <= |out| && (changed || Stopped(space - |out|, last, supply))
        decreases |chunks|, Order(phase), changed
      {
        var previous := phase;
        ghost var before := out;
        var next := RunState(space - |out|, supply, more);
        Rejoin(before, next, Remaining(more));
        out, last := out + next, |next|;
        changed := phase != previous;
      }
      StopReasons(space - |out|, last, supply, more);
      assert |all| == |out| + |Remaining(more)|;
    }

    /** The user submits another chunk. */
    method AddChunk(c: Chunk, ghost more: seq<Chunk>)
      requires Ok()
      modifies this`chunks
      ensures Ok() && chunks == old(chunks) + [c] && Remaining(more) == old(Remaining([c] + more))
      ensures (phase == Init <==> old(phase) == Init) && (old(Supplied()) || c.data == [] ==> Supplied())
    {
      ghost var was := chunks;
      chunks := chunks + [c];
      assert chunks + more == was + ([c] + more);
      LastStays(was, c);
      if was != [] {
        assert chunks[0] == was[0] && chunks[1..] + more == was[1..] + ([c] + more);
      }
    }

    /** Buffers are filled and chunks submitted, in any order. */
    method Drive(ops: seq<Op>) returns (out: Bytes)
      requires Ok() && (phase == Init <==> Remaining(Submitted(ops)) == [])
      modifies this
      ensures Ok() && out + Remaining([]) == old(Remaining(Submitted(ops)))
      ensures phase == Init <==> Remaining([]) == []
      ensures Capacity(old(Supplied()), ops) >= |old(Remaining(Submitted(ops)))| ==> phase == Init
    {
      hide Remaining, Stopped, Ok, Supplied, Capacity;
      out := [];
      var i := 0;
      ghost var all, wanting := Remaining(Submitted(ops)), Capacity(Supplied(), ops);
      ghost var supplied := Supplied();
      assert ops[0..] == ops;
      while i < |ops|
        invariant 0 <= i <= |ops| && Ok() && out + Remaining(Submitted(ops[i..])) == all && (supplied ==> Supplied())
        invariant phase == Init <==> Remaining(Submitted(ops[i..])) == []
        invariant phase == Init || Capacity(supplied, ops[i..]) + |out| >= wanting
      {
        ghost var later := Submitted(ops[i + 1..]);
        assert ops[i..][0] == ops[i] && ops[i..][1..] == ops[i + 1..];
        CapacityFirst(supplied, ops[i..]);
        match ops[i] {
          case Submit(c) =>
            assert Submitted(ops[i..]) == [c] + later;
            AddChunk(c, later);
            supplied := supplied || c.data == [];
          case Fill(space, supply) =>
            assert Submitted(ops[i..]) == [] + later == later;
            ghost var before := out;
            var next, last := Process(space, supply, later);
            Rejoin(before, next, Remaining(later));
            out := out + next;
        }
        i := i + 1;
      }
      NoCapacity(supplied);
      assert ops[|ops|..] == [];
    }
  }

  predicate HasLast(chunks: seq<Chunk>) {
    exists i | 0 <= i < |chunks| :: chunks[i].data == []
  }

  /** A message that has no chunks, or already the one that ends them. */
  predicate Ends(m: Message, g: Framing) {
    g.length > 0 || !g.chunked || HasLast(m.chunks)
  }

  lemma LastIsLater(chunks: seq<Chunk>)
    requires chunks != [] && chunks[0].data != []
    ensures HasLast(chunks) ==> HasLast(chunks[1..])
  {
    if HasLast(chunks) {
      var i :| 0 <= i < |chunks| && chunks[i].data == [];
      assert chunks[1..][i - 1].data == [];
    }
  }

  lemma LastStays(chunks: seq<Chunk>, c: Chunk)
    ensures HasLast(chunks) || c.data == [] ==> HasLast(chunks + [c])
  {
    if HasLast(chunks) {
      var i :| 0 <= i < |chunks| && chunks[i].data == [];
      assert (chunks + [c])[i].data == [];
    } else if c.data == [] {
      assert (chunks + [c])[|chunks|].data == [];
    }
  }

  /** What a buffer takes at least, unless the message ends: all but one byte of its space, or what the body gives. */
  function Gain(op: Op): nat {
    if op.Fill? && op.space > 0 then (if op.space - 1 < op.supply then op.space - 1 else op.supply) else 0
  }

  /** What the buffers take at least that come after the chunk without data was submitted. */
  function Capacity(supplied: bool, ops: seq<Op>): nat
    decreases |ops|
  {
    if ops == [] then 0
    else
      (if supplied then Gain(ops[0]) else 0) +
      Capacity(supplied || (ops[0].Submit? && ops[0].chunk.data == []), ops[1..])
  }

  lemma CapacityFirst(supplied: bool, ops: seq<Op>)
    requires ops != []
    ensures Capacity(supplied, ops) ==
            (if supplied then Gain(ops[0]) else 0) +
            Capacity(supplied || (ops[0].Submit? && ops[0].chunk.data == []), ops[1..])
  {
  }

  lemma NoCapacity(supplied: bool)
    ensures Capacity(supplied, []) == 0
  {
  }

  datatype Op = Fill(space: nat, supply: nat) | Submit(chunk: Chunk)

  function Submitted(ops: seq<Op>): seq<Chunk> {
    if ops == [] then []
    else (if ops[0].Submit? then [ops[0].chunk] else []) + Submitted(ops[1..])
  }

  /**
   * Any sequence of buffers, with the chunks submitted between them, receives the bytes of the
   * message with all its chunks from the front; `left` is what is still wanting. Nothing is, once the
   * buffers that come after the last chunk have the capacity for the message.
   */
  method Send(m: Message, g: Framing, ops: seq<Op>) returns (out: Bytes, complete: bool, ghost left: Bytes)
    requires m.start.ResponseStart? ==> m.start.code <= 999
    requires g.length > 0 ==> m.body.Some? && m.body.value != []
    requires g.length == 0 && m.body.Some? ==> !g.chunked
    ensures out + left == Encode(m.(chunks := m.chunks + Submitted(ops)), g)
    ensures complete <==> out == Encode(m.(chunks := m.chunks + Submitted(ops)), g)
    ensures Capacity(Ends(m, g), ops) >= |Encode(m.(chunks := m.chunks + Submitted(ops)), g)| ==> complete
  {
    hide Encode, Capacity, Ends;
    var e := new MessageEncoder(m, g);
    ghost var whole := Encode(m.(chunks := m.chunks + Submitted(ops)), g);
    assert whole != [] by { EncodedIsNotEmpty(m.(chunks := m.chunks + Submitted(ops)), g); }
    out := e.Drive(ops);
    left := e.Remaining([]);
    complete := e.phase == Init;
    assert out + [] == out && |whole| == |out| + |left|;
  }

  lemma EncodedIsNotEmpty(m: Message, g: Framing)
    requires m.start.ResponseStart? ==> m.start.code <= 999
    ensures Encode(m, g) != []
  {
  }

  /** Decodes all of a buffer, message after message. */
  method Receive(dec: MessageDecoder, data: Bytes) returns (ok: bool, log: seq<Event>)
    requires Valid(dec.View())
    modifies dec
    ensures var r := H1Decoder.Decode(dec.su, old(dec.View()), data);
            if ok then r == Run(log, Ready(dec.View())) && Valid(dec.View()) else r == Run(log, Failed)
  {
    hide H1Decoder.Decode, Valid, EndsMessage;
    ok, log := true, [];
    var rest := data;
    ghost var d := dec.View();
    ThenNone(H1Decoder.Decode(dec.su, d, data));
    while rest != []
      invariant Valid(dec.View()) &&
                H1Decoder.Decode(dec.su, d, data) == Then(log, H1Decoder.Decode(dec.su, dec.View(), rest))
      decreases |rest|
    {
      ghost var d1, log1 := dec.View(), log;
      var done, left, more;
      ok, done, left, more := dec.Decode(rest);
      log := log + more;
      if !ok {
        return;
      }
      if done {
        ThenThen(log1, more, H1Decoder.Decode(dec.su, dec.View(), left));
      } else {
        WaitingIsIdle(dec.su, dec.View());
        assert more + [] == more;
        ThenThen(log1, more, Run([], Ready(dec.View())));
      }
      rest := left;
    }
    WaitingIsIdle(dec.su, dec.View());
    assert log + [] == log;
  }

  /**
   * From the message to its reports: written to any sequence of buffers, with chunks submitted
   * between them, and read in parts of any sizes, once the encoder has finished.
   */
  method Exchange(su: Setup, m: Message, ignored: bool, g: Framing, ops: seq<Op>, sizes: seq<nat>)
    returns (complete: bool, log: seq<Event>)
    requires g.length == 0 && m.body.Some? ==> !g.chunked
    requires ValidMessage(su.names, m.(chunks := m.chunks + Submitted(ops)), ignored, g)
    requires su.requests == m.start.RequestStart? &&
             ReadableMessage(su.names, m.(chunks := m.chunks + Submitted(ops)), g)
    ensures complete ==> log == Report(m.(chunks := m.chunks + Submitted(ops)), g)
    ensures Capacity(Ends(m, g), ops) >= |Encode(m.(chunks := m.chunks + Submitted(ops)), g)| ==> complete
  {
    hide Encode, Report, H1Decoder.Decode, Valid, Submitted, ValidChunks, ScanHeaders, ReadableMessage,
         ValidTrailer, Capacity, Ends;
    ghost var whole := m.(chunks := m.chunks + Submitted(ops));
    var out;
    ghost var left;
    out, complete, left := Send(m, g, ops);
    log := [];
    if !complete {
      return;
    }
    var dec := new MessageDecoder(su);
    dec.ignored := ignored;
    assert dec.View() == Fresh(su, ignored);
    NothingLeft(su);
    assert out + [] == out;
    MessageRoundTrip(su, whole, ignored, g, []);
    WaitingIsIdle(su, Fresh(su, ignored));
    var pos, i := 0, 0;
    while i <= |sizes|
      invariant 0 <= pos <= |out| && 0 <= i <= |sizes| + 1 && (i == |sizes| + 1 ==> pos == |out|)
      invariant Valid(dec.View()) && H1Decoder.Decode(su, Fresh(su, ignored), out[..pos]) == Run(log, Ready(dec.View()))
    {
      var n := if i < |sizes| && sizes[i] < |out| - pos then sizes[i] else |out| - pos;
      ghost var log1, d1 := log, dec.View();
      assert out[..pos] + out[pos..pos + n] == out[..pos + n];
      DecodeSplit(su, Fresh(su, ignored), out[..pos], out[pos..pos + n]);
      var ok, more := Receive(dec, out[pos..pos + n]);
      ghost var end := H1Decoder.Decode(su, Fresh(su, ignored), out[..pos + n]);
      assert end == Then(log1, H1Decoder.Decode(su, d1, out[pos..pos + n]));
      if !ok {
        assert out[..pos + n] + out[pos + n..] == out;
        DecodeSplit(su, Fresh(su, ignored), out[..pos + n], out[pos + n..]);
        assert false;
      }
      log, pos, i := log + more, pos + n, i + 1;
    }
    assert out[..|out|] == out && Report(whole, g) + [] == Report(whole, g);
  }

  function Order(p: Phase): nat {
    match p
    case HeadPhase => 6
    case ChunkNext => 5
    case ChunkLine => 4
    case ChunkBody => 3
    case ChunkEndPhase => 2
    case BodyPhase => 2
    case TrailerPhase => 2
    case DonePhase => 1
    case Init => 0
  }
}
