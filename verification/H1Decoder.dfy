/**
 * The HTTP/1.1 decoder: lines collected until their CRLF and handed to the line
 * processor of the moment, and bodies passed on as they arrive.
 */
module H1Decoder {
  import opened Octets
  import opened H1Syntax

  datatype Kind = ContentLength | TransferEncoding | Other

  datatype Coding = Chunked | Compress | Deflate | Gzip

  /** How header names and transfer codings are recognised, without regard to case. */
  datatype Names = Names(kind: Bytes -> Kind, coding: Bytes -> Option<Coding>)

  datatype Setup = Setup(names: Names, requests: bool)

  datatype LineKind = RequestLine | ResponseLine | HeaderLine | SizeLine | ChunkEnd

  datatype State = InLine(kind: LineKind) | InBody | InChunk

  /** What the callbacks report; body bytes are reported one by one. */
  datatype Event =
    | Request(verb: Bytes, target: Bytes)
    | Response(code: nat)
    | Field(name: Bytes, value: Bytes)
    | BodyByte(octet: byte)
    | BodyEnd
    | Done

  /** `left` is what is still to come of the body or of the current chunk. */
  datatype Decoder = Decoder(
    state: State,
    scratch: Bytes,
    codings: set<Coding>,
    contentLength: nat,
    left: nat,
    trailers: bool,
    ignored: bool,
    forbidden: bool)

  const VERSION_1_1: Bytes := [72, 84, 84, 80, 47, 49, 46, 49]
  const VERSION_1_0: Bytes := [72, 84, 84, 80, 47, 49, 46, 48]

  function StartLine(su: Setup): LineKind {
    if su.requests then RequestLine else ResponseLine
  }

  /** Ready for a message; `ignored` says that the headers about a body are to be ignored. */
  function Fresh(su: Setup, ignored: bool): Decoder {
    Decoder(InLine(StartLine(su)), [], {}, 0, 0, false, ignored, false)
  }

  // ----- lines

  datatype Outcome = Moved(d: Decoder, log: seq<Event>) | Finished(log: seq<Event>) | Bad

  function ProcessRequest(d: Decoder, line: Bytes): Outcome {
    var (verb, tail1) := Cut(line, SP);
    if tail1.None? then Bad
    else
      var (target, tail2) := Cut(tail1.value, SP);
      if tail2.None? || SP in tail2.value then Bad
      else if !IsToken(verb) || !IsTarget(target) || tail2.value != VERSION_1_1 then Bad
      else Moved(d.(state := InLine(HeaderLine)), [Request(verb, target)])
  }

  function ProcessResponse(d: Decoder, line: Bytes): Outcome {
    var (version, tail1) := Cut(line, SP);
    if tail1.None? then Bad
    else
      var (code, tail2) := Cut(tail1.value, SP);
      if tail2.None? then Bad
      else if version != VERSION_1_1 && version != VERSION_1_0 then Bad
      else if !IsPhrase(tail2.value) || |code| != 3 || Parse(code, 10).None? then Bad
      else
        var n := Parse(code, 10).value;
        Moved(d.(state := InLine(HeaderLine), ignored := d.ignored || n == 304, forbidden := n == 204 || n / 100 == 1),
              [Response(n)])
  }

  /** The transfer codings after a list of more; nothing may come after chunked. */
  function AddCodings(names: Names, codings: set<Coding>, list: Bytes): Option<set<Coding>>
    decreases |list|
  {
    var (head, tail) := Cut(list, COMMA);
    var coding := Trim(head);
    var known := names.coding(coding);
    if known.None? && coding != [] then None
    else
      var more := if known.Some? then codings + {known.value} else codings;
      if Chunked in codings && more != codings then None
      else if tail.None? then Some(more)
      else AddCodings(names, more, tail.value)
  }

  function ProcessLength(d: Decoder, name: Bytes, value: Bytes): Outcome {
    if d.codings != {} then Bad
    else if Parse(value, 10).None? then Bad
    else if d.forbidden && Parse(value, 10).value != 0 then Bad
    else Moved(d.(contentLength := Parse(value, 10).value), [Field(name, value)])
  }

  function ProcessCodings(names: Names, d: Decoder, name: Bytes, value: Bytes): Outcome {
    if d.contentLength != 0 || d.forbidden then Bad
    else
      var codings := AddCodings(names, d.codings, value);
      if codings.None? then Bad else Moved(d.(codings := codings.value), [Field(name, value)])
  }

  /** The end of a header section, or of the trailers. */
  function ProcessBlank(d: Decoder): Outcome {
    if d.trailers || d.ignored then Finished([Done])
    else if Chunked in d.codings then Moved(d.(state := InLine(SizeLine)), [])
    else if d.contentLength > 0 then Moved(d.(state := InBody, left := d.contentLength), [])
    else Finished([Done])
  }

  function ProcessHeader(names: Names, d: Decoder, line: Bytes): Outcome {
    if line == [] then ProcessBlank(d)
    else
      var (name, tail) := Cut(line, COLON);
      if tail.None? || !IsToken(name) || !IsValue(Trim(tail.value)) then Bad
      else
        match names.kind(name)
        case ContentLength => ProcessLength(d, name, Trim(tail.value))
        case TransferEncoding => ProcessCodings(names, d, name, Trim(tail.value))
        case Other => Moved(d, [Field(name, Trim(tail.value))])
  }

  /** The size of a chunk; extensions after a semicolon are skipped. */
  function ProcessSize(d: Decoder, line: Bytes): Outcome {
    var size := Parse(Cut(line, SEMICOLON).0, 16);
    if size.None? then Bad
    else if size.value == 0 then Moved(d.(state := InLine(HeaderLine), trailers := true), [BodyEnd])
    else Moved(d.(state := InChunk, left := size.value), [])
  }

  function ProcessLine(su: Setup, d: Decoder, kind: LineKind, line: Bytes): Outcome {
    match kind
    case RequestLine => ProcessRequest(d, line)
    case ResponseLine => ProcessResponse(d, line)
    case HeaderLine => ProcessHeader(su.names, d, line)
    case SizeLine => ProcessSize(d, line)
    case ChunkEnd => if line == [] then Moved(d.(state := InLine(SizeLine)), []) else Bad
  }

  // ----- steps

  datatype StepResult =
    | Wait(d: Decoder, log: seq<Event>)
    | Go(d: Decoder, rest: Bytes, log: seq<Event>)
    | Stop(log: seq<Event>)

  function Proceed(su: Setup, o: Outcome, before: seq<Event>, rest: Bytes): StepResult {
    match o
    case Moved(d, log) => Go(d, rest, before + log)
    case Finished(log) => Go(Fresh(su, false), rest, before + log)
    case Bad => Stop(before)
  }

  function Body(bytes: Bytes): seq<Event> {
    seq(|bytes|, i requires 0 <= i < |bytes| => BodyByte(bytes[i]))
  }

  function StepLine(su: Setup, d: Decoder, s: Bytes): StepResult
    requires Valid(d) && d.state.InLine?
  {
    var all := d.scratch + s;
    var n := LineLength(all);
    if n == 0 then Wait(d.(scratch := all), [])
    else
      LineIsNew(d.scratch, s);
      Proceed(su, ProcessLine(su, d.(scratch := []), d.state.kind, all[..n - 2]), [], s[n - |d.scratch|..])
  }

  /** What follows a body or a chunk that has all arrived. */
  function AfterBody(d: Decoder): Outcome {
    if d.state == InBody then Finished([BodyEnd, Done]) else Moved(d.(state := InLine(ChunkEnd), left := 0), [])
  }

  function StepBody(su: Setup, d: Decoder, s: Bytes): StepResult
    requires Valid(d) && !d.state.InLine?
  {
    if |s| < d.left then Wait(d.(left := d.left - |s|), Body(s))
    else Proceed(su, AfterBody(d), Body(s[..d.left]), s[d.left..])
  }

  function Step(su: Setup, d: Decoder, s: Bytes): StepResult
    requires Valid(d)
  {
    if d.state.InLine? then StepLine(su, d, s) else StepBody(su, d, s)
  }

  /** What is in the scratch space is never a whole line. */
  predicate Valid(d: Decoder) {
    if d.state.InLine? then LineLength(d.scratch) == 0 else d.scratch == [] && d.left > 0
  }

  /** A line that the scratch does not hold ends in the new input. */
  lemma LineIsNew(scratch: Bytes, s: Bytes)
    requires LineLength(scratch) == 0 && LineLength(scratch + s) > 0
    ensures |scratch| < LineLength(scratch + s)
  {
    assert (scratch + s)[..|scratch|] == scratch;
    if LineLength(scratch + s) <= |scratch| {
      LinePrefix(scratch + s, |scratch|);
    }
  }

  /** A line is found in any part of the input that holds it. */
  lemma {:induction false} LinePrefix(s: Bytes, k: nat)
    requires 0 < LineLength(s) <= k <= |s|
    ensures LineLength(s[..k]) == LineLength(s)
    decreases |s|
  {
    if !(s[0] == CR && s[1] == LF) {
      LinePrefix(s[1..], k - 1);
      assert s[..k][1..] == s[1..][..k - 1];
    }
  }

  ghost predicate OutcomeOk(o: Outcome) {
    o.Moved? ==> Valid(o.d)
  }

  lemma ProcessOk(su: Setup, d: Decoder, kind: LineKind, line: Bytes)
    requires d.scratch == [] && d.state == InLine(kind)
    ensures OutcomeOk(ProcessLine(su, d, kind, line))
  {
    hide Cut, Trim, IsToken, IsTarget, IsValue, IsPhrase, Parse, AddCodings;
  }

  /** Every step leaves a valid decoder and, if it goes on, has used input. */
  lemma StepOk(su: Setup, d: Decoder, s: Bytes)
    requires Valid(d)
    ensures var r := Step(su, d, s);
            && (r.Wait? ==> Valid(r.d))
            && (r.Go? ==> Valid(r.d) && |r.rest| < |s|)
  {
    hide ProcessLine, LineLength;
    assert LineLength([]) == 0 by { EmptyIsNoLine(); }
    if d.state.InLine? {
      var all := d.scratch + s;
      var n := LineLength(all);
      if n > 0 {
        LineIsNew(d.scratch, s);
        ProcessOk(su, d.(scratch := []), d.state.kind, all[..n - 2]);
      }
    }
  }

  lemma EmptyIsNoLine()
    ensures LineLength([]) == 0
  {
  }

  // ----- one call of the decoder, and the calls for the messages after it

  datatype End = Ready(d: Decoder) | Failed

  datatype Run = Run(log: seq<Event>, end: End)

  function Then(log: seq<Event>, r: Run): Run {
    Run(log + r.log, r.end)
  }

  function Decode(su: Setup, d: Decoder, s: Bytes): (r: Run)
    requires Valid(d)
    ensures r.end.Ready? ==> Valid(r.end.d)
    decreases |s|
  {
    StepOk(su, d, s);
    match Step(su, d, s)
    case Wait(d1, log) => Run(log, Ready(d1))
    case Stop(log) => Run(log, Failed)
    case Go(d1, rest, log) => Then(log, Decode(su, d1, rest))
  }

  function Resume(su: Setup, r: Run, b: Bytes): (out: Run)
    requires r.end.Ready? ==> Valid(r.end.d)
    ensures out.end.Ready? ==> Valid(out.end.d)
  {
    if r.end.Ready? then Then(r.log, Decode(su, r.end.d, b)) else r
  }

  // ----- any division of the input

  function Continue(su: Setup, r: StepResult, b: Bytes): StepResult
    requires r.Wait? ==> Valid(r.d)
  {
    match r
    case Stop(_) => r
    case Go(d, rest, log) => Go(d, rest + b, log)
    case Wait(d, log) =>
      match Step(su, d, b)
      case Wait(d2, log2) => Wait(d2, log + log2)
      case Go(d2, rest, log2) => Go(d2, rest, log + log2)
      case Stop(log2) => Stop(log + log2)
  }

  lemma BodyConcat(a: Bytes, b: Bytes)
    ensures Body(a + b) == Body(a) + Body(b)
  {
  }

  lemma LineInFirst(su: Setup, d: Decoder, a: Bytes, b: Bytes)
    requires Valid(d) && d.state.InLine? && LineLength(d.scratch + a) > 0
    ensures !Step(su, d, a).Wait? && Step(su, d, a + b) == Continue(su, Step(su, d, a), b)
  {
    hide ProcessLine, LineLength, Proceed, StepBody, Continue;
    var part := d.scratch + a;
    assert d.scratch + (a + b) == part + b;
    LineIsNew(d.scratch, a);
    LineStays(part, b);
    var n := LineLength(part);
    var k := n - |d.scratch|;
    assert (part + b)[..n - 2] == part[..n - 2];
    assert (a + b)[k..] == a[k..] + b;
    var o := ProcessLine(su, d.(scratch := []), d.state.kind, part[..n - 2]);
    assert Step(su, d, a) == Proceed(su, o, [], a[k..]);
    assert Step(su, d, a + b) == Proceed(su, o, [], a[k..] + b);
    ProceedMore(su, o, a[k..], b);
  }

  lemma ProceedMore(su: Setup, o: Outcome, rest: Bytes, b: Bytes)
    ensures var r := Proceed(su, o, [], rest);
            !r.Wait? && Proceed(su, o, [], rest + b) == Continue(su, r, b)
  {
    hide Step;
  }

  lemma LineLater(su: Setup, d: Decoder, a: Bytes, b: Bytes)
    requires Valid(d) && d.state.InLine? && LineLength(d.scratch + a) == 0
    ensures var d1 := d.(scratch := d.scratch + a);
            Valid(d1) && Step(su, d, a) == Wait(d1, []) && Step(su, d, a + b) == Step(su, d1, b)
  {
    hide ProcessLine, LineLength;
    var part := d.scratch + a;
    assert d.scratch + (a + b) == part + b;
    if LineLength(part + b) > 0 {
      LineIsNew(part, b);
      var n := LineLength(part + b);
      assert (a + b)[n - |d.scratch|..] == b[n - |part|..];
    }
  }

  lemma StepLineSplit(su: Setup, d: Decoder, a: Bytes, b: Bytes)
    requires Valid(d) && d.state.InLine?
    ensures Step(su, d, a).Wait? ==> Valid(Step(su, d, a).d)
    ensures Step(su, d, a + b) == Continue(su, Step(su, d, a), b)
  {
    hide Step, LineLength;
    if LineLength(d.scratch + a) > 0 {
      LineInFirst(su, d, a, b);
    } else {
      LineLater(su, d, a, b);
      var r := Step(su, d.(scratch := d.scratch + a), b);
      assert [] + r.log == r.log;
    }
  }

  lemma StepBodySplit(su: Setup, d: Decoder, a: Bytes, b: Bytes)
    requires Valid(d) && !d.state.InLine?
    ensures Step(su, d, a).Wait? ==> Valid(Step(su, d, a).d)
    ensures Step(su, d, a + b) == Continue(su, Step(su, d, a), b)
  {
    hide Body;
    if |a| < d.left {
      BodyConcat(a, b);
      var more := d.left - |a|;
      if |b| >= more {
        assert (a + b)[..d.left] == a + b[..more] && (a + b)[d.left..] == b[more..];
        BodyConcat(a, b[..more]);
        var o := AfterBody(d);
        assert (Body(a) + Body(b[..more])) + o.log == Body(a) + (Body(b[..more]) + o.log);
      }
    } else {
      assert (a + b)[..d.left] == a[..d.left] && (a + b)[d.left..] == a[d.left..] + b;
    }
  }

  lemma ThenNone(r: Run)
    ensures Then([], r) == r
  {
  }

  lemma ThenThen(x: seq<Event>, y: seq<Event>, r: Run)
    ensures Then(x, Then(y, r)) == Then(x + y, r)
  {
    assert x + (y + r.log) == (x + y) + r.log;
  }

  lemma {:induction false} DecodeSplit(su: Setup, d: Decoder, a: Bytes, b: Bytes)
    requires Valid(d)
    ensures Decode(su, d, a + b) == Resume(su, Decode(su, d, a), b)
    decreases |a|
  {
    hide StepLine, StepBody, Valid;
    if d.state.InLine? {
      StepLineSplit(su, d, a, b);
    } else {
      StepBodySplit(su, d, a, b);
    }
    StepOk(su, d, a);
    StepOk(su, d, a + b);
    match Step(su, d, a) {
      case Stop(_) =>
      case Go(d1, rest, log) =>
        DecodeSplit(su, d1, rest, b);
        var first := Decode(su, d1, rest);
        if first.end.Ready? {
          ThenThen(log, first.log, Decode(su, first.end.d, b));
        }
      case Wait(d1, log) =>
        StepOk(su, d1, b);
        match Step(su, d1, b) {
          case Go(d2, rest2, log2) => ThenThen(log, log2, Decode(su, d2, rest2));
          case Wait(_, _) =>
          case Stop(_) =>
        }
    }
  }

  function DecodeChunks(su: Setup, r: Run, chunks: seq<Bytes>): Run
    requires r.end.Ready? ==> Valid(r.end.d)
    decreases |chunks|
  {
    if chunks == [] then r else DecodeChunks(su, Resume(su, r, chunks[0]), chunks[1..])
  }

  /** However the input is divided, what is reported, whether it is refused and the final state are the same. */
  lemma {:induction false} SplitInvariance(su: Setup, d: Decoder, first: Bytes, chunks: seq<Bytes>)
    requires Valid(d)
    ensures DecodeChunks(su, Decode(su, d, first), chunks) == Decode(su, d, first + Flatten(chunks))
    decreases |chunks|
  {
    hide Decode, Valid;
    if chunks == [] {
      assert first + [] == first;
    } else {
      DecodeSplit(su, d, first, chunks[0]);
      SplitInvariance(su, d, first + chunks[0], chunks[1..]);
      assert (first + chunks[0]) + Flatten(chunks[1..]) == first + Flatten(chunks);
    }
  }
}
