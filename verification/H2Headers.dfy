/**
 * Header blocks on the wire: one HEADERS or PUSH_PROMISE frame and as many
 * CONTINUATION frames as the output buffers make necessary, and how the decoder
 * puts the block together again.
 */
module H2Headers {
  import opened Octets
  import opened HpackTable
  import opened H2Decoder
  import opened H2Frames
  import Hpack = HpackDecoder
  import HpackEncoder
  import H2Fields

  /** Stream dependency, exclusive flag and weight. */
  datatype Dependency = Dependency(stream: nat, exclusive: bool, weight: byte)

  /** A HEADERS frame, or a PUSH_PROMISE frame if it promises a stream. */
  datatype Head = Head(stream: nat, pad: byte, end: bool, priority: Option<Dependency>, promised: Option<nat>)

  predicate ValidHead(h: Head) {
    && ValidStream(h.stream)
    && (h.priority.Some? ==> ValidStream(h.priority.value.stream) && h.promised.None?)
    && (h.promised.Some? ==> ValidStream(h.promised.value) && !h.end)
  }

  /** A decoder takes a promise if it is a client's, pushes are enabled, and the promised stream is a server's. */
  predicate Welcome(isServer: bool, enablePush: bool, h: Head) {
    h.promised.Some? ==> enablePush && !isServer && h.promised.value % 2 == 0
  }

  // ----- one frame of a header block

  /** What precedes the fragment in the first frame, besides padding. */
  function Lead(h: Head): Bytes {
    (if h.priority.Some? then PriorityBytes(h.priority.value.stream, h.priority.value.exclusive,
                                            h.priority.value.weight) else [])
    + (if h.promised.Some? then BeBytes(h.promised.value, 4) else [])
  }

  function Overhead(h: Head, first: bool): nat {
    if !first then 0
    else
      (if h.pad > 0 then 1 + h.pad as int else 0) + (if h.priority.Some? then 5 else 0) +
      (if h.promised.Some? then 4 else 0)
  }

  function HeadKind(h: Head): FrameType {
    if h.promised.Some? then PUSH_PROMISE else HEADERS
  }

  function HeadFlags(h: Head, last: bool): Flags {
    Flags(h.end && h.promised.None?, last, h.pad > 0, h.priority.Some?)
  }

  function FrameBytes(h: Head, first: bool, fragment: Bytes, last: bool): Bytes {
    if first then
      EncodePrefix(HeadKind(h), HeadFlags(h, last), h.stream, Overhead(h, true) + |fragment|) +
          Pad(h.pad, Lead(h) + fragment)
    else EncodePrefix(CONTINUATION, Flags(false, last, false, false), h.stream, |fragment|) + fragment
  }

  // ----- dividing a header block over frames and buffers

  /** How much of the header block the next frame takes, if it is worth writing in the space there is. */
  function FragmentLen(h: Head, first: bool, left: nat, space: nat, maxFrame: nat): Option<nat> {
    if space < 9 then None
    else
      var room := if space - 9 < maxFrame then space - 9 else maxFrame;
      var overhead := Overhead(h, first);
      if room < overhead then None
      else
        var n := if room - overhead < left then room - overhead else left;
        if n < left && n < 9 + overhead then None else Some(n)
  }

  /** Where the encoding of a header block stands. */
  datatype Progress = Progress(first: bool, left: Bytes, done: bool)

  /** Frames written into one buffer with this much space left, as their fragments. */
  function Fill(h: Head, p: Progress, space: nat, maxFrame: nat): (r: (Progress, seq<Bytes>))
    decreases |p.left|, !p.done
  {
    if p.done then (p, [])
    else match FragmentLen(h, p.first, |p.left|, space, maxFrame)
         case None => (p, [])
         case Some(n) =>
           var p1 := Progress(false, p.left[n..], n == |p.left|);
           var (p2, more) := Fill(h, p1, space - 9 - Overhead(h, p.first) - n, maxFrame);
           (p2, [p.left[..n]] + more)
  }

  /** Frames written into one buffer after the other. */
  function FillAll(h: Head, p: Progress, spaces: seq<nat>, maxFrame: nat): (Progress, seq<Bytes>)
    decreases |spaces|
  {
    if spaces == [] then (p, [])
    else
      var (p1, here) := Fill(h, p, spaces[0], maxFrame);
      var (p2, more) := FillAll(h, p1, spaces[1..], maxFrame);
      (p2, here + more)
  }

  /** The bytes of the frames for these fragments; `done` says whether the last of them ends the block. */
  function Wire(h: Head, first: bool, fragments: seq<Bytes>, done: bool): Bytes
    decreases |fragments|
  {
    if fragments == [] then []
    else FrameBytes(h, first, fragments[0], done && |fragments| == 1) + Wire(h, false, fragments[1..], done)
  }

  /** Every frame's payload keeps within the limit. */
  ghost predicate WithinLimit(h: Head, first: bool, fragments: seq<Bytes>, maxFrame: nat) {
    forall i | 0 <= i < |fragments| :: Overhead(h, first && i == 0) + |fragments[i]| <= maxFrame
  }

  /** From one progress to another by way of some fragments. */
  ghost predicate Divides(h: Head, p: Progress, p': Progress, fragments: seq<Bytes>, maxFrame: nat) {
    && Flatten(fragments) + p'.left == p.left && (p'.done ==> p'.left == [])
    && (fragments == [] ==> p' == p) && (fragments != [] ==> !p'.first)
    && WithinLimit(h, p.first, fragments, maxFrame)
  }

  lemma DividesChain(h: Head, p: Progress, p1: Progress, p2: Progress, a: seq<Bytes>, b: seq<Bytes>, maxFrame: nat)
    requires Divides(h, p, p1, a, maxFrame) && Divides(h, p1, p2, b, maxFrame)
    ensures Divides(h, p, p2, a + b, maxFrame)
  {
    hide Flatten, WithinLimit;
    FlattenConcat(a, b);
    assert (Flatten(a) + Flatten(b)) + p2.left == Flatten(a) + (Flatten(b) + p2.left);
    NotFirstIsWeaker(h, p.first && a == [], p1.first, b, maxFrame);
    LimitConcat(h, p.first, a, b, maxFrame);
  }

  lemma FragmentLenFits(h: Head, first: bool, left: nat, space: nat, maxFrame: nat)
    ensures var r := FragmentLen(h, first, left, space, maxFrame);
            r.Some? ==>
              && r.value <= left && Overhead(h, first) + r.value <= maxFrame
              && 9 + Overhead(h, first) + r.value <= space && (r.value < left ==> r.value > 0)
  {
  }

  /** A frame with `n` bytes of the header block fits the space and the largest frame. */
  predicate FitsIn(h: Head, first: bool, n: nat, space: nat, maxFrame: nat) {
    9 + Overhead(h, first) + n <= space && Overhead(h, first) + n <= maxFrame
  }

  /**
   * A frame is written exactly if it fits at all, and either ends the block or can carry as much of it as it costs
   * itself; it then carries all that fits.
   */
  lemma FragmentExactly(h: Head, first: bool, left: nat, space: nat, maxFrame: nat)
    ensures Overhead(h, first) == if first then |Lead(h)| + PadTotal(h) else 0
    ensures var r, cost := FragmentLen(h, first, left, space, maxFrame), 9 + Overhead(h, first);
            && (r.Some? <==>
                  && FitsIn(h, first, 0, space, maxFrame)
                  && (FitsIn(h, first, left, space, maxFrame) || FitsIn(h, first, cost, space, maxFrame)))
            && (r.Some? ==>
                  && r.value <= left && FitsIn(h, first, r.value, space, maxFrame)
                  && (r.value < left ==> !FitsIn(h, first, r.value + 1, space, maxFrame)))
  {
  }

  lemma OneFragment(h: Head, p: Progress, n: nat, maxFrame: nat)
    requires n <= |p.left| && Overhead(h, p.first) + n <= maxFrame
    ensures Divides(h, p, Progress(false, p.left[n..], n == |p.left|), [p.left[..n]], maxFrame)
  {
    var fragments := [p.left[..n]];
    assert fragments[1..] == [] && Flatten(fragments) == p.left[..n] + Flatten(fragments[1..]) == p.left[..n];
    assert p.first && 0 == 0 <==> p.first;
  }

  lemma {:induction false} FillDivides(h: Head, p: Progress, space: nat, maxFrame: nat)
    requires p.done ==> p.left == []
    ensures var (p', fragments) := Fill(h, p, space, maxFrame); Divides(h, p, p', fragments, maxFrame)
    decreases |p.left|, !p.done
  {
    hide FragmentLen, Overhead, Flatten, WithinLimit;
    FragmentLenFits(h, p.first, |p.left|, space, maxFrame);
    if p.done || FragmentLen(h, p.first, |p.left|, space, maxFrame).None? {
      NothingDivides(h, p, maxFrame);
    } else {
      var n := FragmentLen(h, p.first, |p.left|, space, maxFrame).value;
      var p1, space1 := Progress(false, p.left[n..], n == |p.left|), space - 9 - Overhead(h, p.first) - n;
      OneFragment(h, p, n, maxFrame);
      FillDivides(h, p1, space1, maxFrame);
      var (p2, more) := Fill(h, p1, space1, maxFrame);
      DividesChain(h, p, p1, p2, [p.left[..n]], more, maxFrame);
    }
  }

  lemma NothingDivides(h: Head, p: Progress, maxFrame: nat)
    requires p.done ==> p.left == []
    ensures Divides(h, p, p, [], maxFrame)
  {
  }

  lemma {:induction false} FlattenConcat(a: seq<Bytes>, b: seq<Bytes>)
    ensures Flatten(a + b) == Flatten(a) + Flatten(b)
    decreases |a|
  {
    if a == [] {
      assert a + b == b;
    } else {
      assert (a + b)[1..] == a[1..] + b;
      FlattenConcat(a[1..], b);
      assert (a[0] + Flatten(a[1..])) + Flatten(b) == a[0] + (Flatten(a[1..]) + Flatten(b));
    }
  }

  lemma LimitConcat(h: Head, first: bool, a: seq<Bytes>, b: seq<Bytes>, maxFrame: nat)
    requires WithinLimit(h, first, a, maxFrame) && WithinLimit(h, first && a == [], b, maxFrame)
    ensures WithinLimit(h, first, a + b, maxFrame)
  {
    forall i | 0 <= i < |a + b| ensures Overhead(h, first && i == 0) + |(a + b)[i]| <= maxFrame {
      if i < |a| {
        assert (a + b)[i] == a[i];
      } else {
        assert (a + b)[i] == b[i - |a|];
        assert Overhead(h, (first && a == []) && i - |a| == 0) + |b[i - |a|]| <= maxFrame;
      }
    }
  }

  /**
   * However the buffers come, the fragments of a finished header block put
   * together are the block, and no frame's payload exceeds the limit.
   */
  lemma {:induction false} FragmentsMakeBlock(h: Head, p: Progress, spaces: seq<nat>, maxFrame: nat)
    requires p.done ==> p.left == []
    ensures var (p', fragments) := FillAll(h, p, spaces, maxFrame); Divides(h, p, p', fragments, maxFrame)
    decreases |spaces|
  {
    hide Fill, Flatten, WithinLimit;
    if spaces == [] {
      NothingDivides(h, p, maxFrame);
    } else {
      FillDivides(h, p, spaces[0], maxFrame);
      var (p1, here) := Fill(h, p, spaces[0], maxFrame);
      FragmentsMakeBlock(h, p1, spaces[1..], maxFrame);
      var (p2, more) := FillAll(h, p1, spaces[1..], maxFrame);
      DividesChain(h, p, p1, p2, here, more, maxFrame);
    }
  }

  /** Space enough for a frame that is worth sending, whatever its first fields. */
  const AMPLE := 548

  lemma OverheadBound(h: Head, first: bool)
    requires ValidHead(h)
    ensures Overhead(h, first) <= 265
  {
  }

  lemma FillAdvances(h: Head, p: Progress, space: nat, maxFrame: nat)
    requires ValidHead(h) && space >= AMPLE && maxFrame >= AMPLE - 9
    ensures var p' := Fill(h, p, space, maxFrame).0;
            p'.done || |p'.left| < |p.left|
  {
    hide Overhead, Fill, Flatten;
    if !p.done {
      OverheadBound(h, p.first);
      var n := FragmentLen(h, p.first, |p.left|, space, maxFrame).value;
      var p1, space1 := Progress(false, p.left[n..], n == |p.left|), space - 9 - Overhead(h, p.first) - n;
      FillByStep(h, p, space, maxFrame, n);
      FillShrinks(h, p1, space1, maxFrame);
    } else {
      FillShrinks(h, p, space, maxFrame);
    }
  }

  lemma FillByStep(h: Head, p: Progress, space: nat, maxFrame: nat, n: nat)
    requires !p.done && FragmentLen(h, p.first, |p.left|, space, maxFrame) == Some(n)
    ensures n <= |p.left| && 9 + Overhead(h, p.first) + n <= space
    ensures Fill(h, p, space, maxFrame).0 ==
            Fill(h, Progress(false, p.left[n..], n == |p.left|), space - 9 - Overhead(h, p.first) - n, maxFrame).0
  {
    FragmentLenFits(h, p.first, |p.left|, space, maxFrame);
  }

  lemma FillShrinks(h: Head, p: Progress, space: nat, maxFrame: nat)
    ensures var p' := Fill(h, p, space, maxFrame).0;
            |p'.left| <= |p.left| && (p.done ==> p'.done)
    decreases |p.left|, !p.done
  {
    hide Overhead, Flatten;
    if !p.done && FragmentLen(h, p.first, |p.left|, space, maxFrame).Some? {
      var n := FragmentLen(h, p.first, |p.left|, space, maxFrame).value;
      FillByStep(h, p, space, maxFrame, n);
      FillShrinks(h, Progress(false, p.left[n..], n == |p.left|), space - 9 - Overhead(h, p.first) - n, maxFrame);
    }
  }

  /** A block is always finished by as many buffers as it has bytes, and one more, if each is ample. */
  lemma {:induction false} AmpleBuffersFinish(h: Head, p: Progress, spaces: seq<nat>, maxFrame: nat)
    requires ValidHead(h) && maxFrame >= AMPLE - 9 && forall i | 0 <= i < |spaces| :: spaces[i] >= AMPLE
    requires p.done || |spaces| > |p.left|
    ensures FillAll(h, p, spaces, maxFrame).0.done
    decreases |spaces|
  {
    hide Fill;
    if spaces != [] {
      FillAdvances(h, p, spaces[0], maxFrame);
      FillShrinks(h, p, spaces[0], maxFrame);
      AmpleBuffersFinish(h, Fill(h, p, spaces[0], maxFrame).0, spaces[1..], maxFrame);
    }
  }

  lemma NotFirstIsWeaker(h: Head, first: bool, first': bool, fragments: seq<Bytes>, maxFrame: nat)
    requires WithinLimit(h, first', fragments, maxFrame) && (first ==> first')
    ensures WithinLimit(h, first, fragments, maxFrame)
  {
    forall i | 0 <= i < |fragments| ensures Overhead(h, first && i == 0) + |fragments[i]| <= maxFrame {
      assert Overhead(h, first' && i == 0) + |fragments[i]| <= maxFrame;
    }
  }

  // ----- decoding a fragment

  /** What a list of HPACK entries does to the block. */
  function TakeEvents(isServer: bool, stream: nat, b: Block, events: seq<Hpack.Event>): (Block, seq<Event>)
    decreases |events|
  {
    if events == [] then (b, [])
    else
      var (b1, log) := TakeEvent(isServer, stream, b, events[0]);
      var (b2, more) := TakeEvents(isServer, stream, b1, events[1..]);
      (b2, log + more)
  }

  lemma TakeCons(isServer: bool, stream: nat, b: Block, e: Hpack.Event, events: seq<Hpack.Event>)
    ensures var (b1, log) := TakeEvent(isServer, stream, b, e);
            var (b2, more) := TakeEvents(isServer, stream, b1, events);
            TakeEvents(isServer, stream, b, [e] + events) == (b2, log + more)
  {
    hide TakeEvent;
    assert ([e] + events)[1..] == events;
  }

  lemma {:induction false} TakeConcat(isServer: bool, stream: nat, b: Block, x: seq<Hpack.Event>, y: seq<Hpack.Event>)
    ensures var (b1, log) := TakeEvents(isServer, stream, b, x);
            var (b2, more) := TakeEvents(isServer, stream, b1, y);
            TakeEvents(isServer, stream, b, x + y) == (b2, log + more)
    decreases |x|
  {
    hide TakeEvent;
    if x == [] {
      assert x + y == y;
      var log := TakeEvents(isServer, stream, b, y).1;
      assert [] + log == log;
    } else {
      assert (x + y)[1..] == x[1..] + y;
      var (b1, log) := TakeEvent(isServer, stream, b, x[0]);
      TakeConcat(isServer, stream, b1, x[1..], y);
      var (b2, more) := TakeEvents(isServer, stream, b1, x[1..]);
      Regroup(log, more, TakeEvents(isServer, stream, b2, y).1);
    }
  }

  lemma {:induction false} TakeKeeps(isServer: bool, stream: nat, b: Block, events: seq<Hpack.Event>)
    ensures var b' := TakeEvents(isServer, stream, b, events).0; b' == b.(fields := b'.fields)
    decreases |events|
  {
    if events != [] {
      TakeKeeps(isServer, stream, TakeEvent(isServer, stream, b, events[0]).0, events[1..]);
    }
  }

  /** What a frame's share of the entries does to the block, and its end if this is the last frame. */
  function TakeShare(isServer: bool, stream: nat, b: Block, events: seq<Hpack.Event>, last: bool): (Block, seq<Event>) {
    var (b1, log) := TakeEvents(isServer, stream, b, events);
    if last then (NO_BLOCK, log + BlockEnd(isServer, stream, b1)) else (b1, log)
  }

  lemma ShareConcat(isServer: bool, stream: nat, b: Block, x: seq<Hpack.Event>, y: seq<Hpack.Event>)
    ensures var (b1, log) := TakeShare(isServer, stream, b, x, false);
            var (b2, more) := TakeShare(isServer, stream, b1, y, true);
            TakeShare(isServer, stream, b, x + y, true) == (NO_BLOCK, log + more)
  {
    hide TakeEvents, BlockEnd;
    TakeConcat(isServer, stream, b, x, y);
    var (b1, log) := TakeEvents(isServer, stream, b, x);
    var (b2, more) := TakeEvents(isServer, stream, b1, y);
    Regroup(log, more, BlockEnd(isServer, stream, b2));
  }

  lemma Regroup(a: seq<Event>, b: seq<Event>, c: seq<Event>)
    ensures (a + b) + c == a + (b + c)
  {
  }

  /** An entry that is begun and not finished is never at its beginning. */
  lemma OngoingHasBegun(c: Hpack.Coder, statics: seq<Header>, d: Hpack.Decoder, s: Bytes)
    requires Hpack.EntryValid(d.entry) && s != []
    ensures var r := Hpack.DecodeEntry(c, statics, d, s);
            r.Ongoing? ==> r.decoder.entry != Hpack.EntryInit
  {
  }

  /** The decoder in the header-block loop, having used up its frame's payload. */
  function Drained(d: Decoder, h: Hpack.Decoder, b: Block): Decoder {
    d.(frame := d.frame.(payload := 0), hpack := h, block := b)
  }

  /** One HPACK entry, or the beginning of one, at the front of a fragment. */
  lemma EntryRuns(su: Setup, d: Decoder, fragment: Bytes, s: Bytes)
    requires Valid(d) && d.state == HeaderLoop && d.scratch == [] && d.frame.payload == |fragment| && fragment != []
    ensures var r := Hpack.DecodeEntry(su.coder, su.statics, d.hpack, fragment);
            && (r.Complete? ==>
                  var (b, log) := TakeEvent(su.isServer, d.frame.stream, d.block, r.event);
                  var d' := d.(frame := d.frame.(payload := |r.rest|), hpack := r.decoder, block := b);
                  && Valid(d')
                  && Decode(su, d, fragment + s) == Then(log, Decode(su, d', (fragment + s)[|fragment| - |r.rest|..])))
            && (r.Ongoing? && !d.frame.endHeaders ==>
                  var d' := Drained(d, r.decoder, d.block);
                  Valid(d') && Decode(su, d, fragment + s) == Decode(su, d', s))
  {
    hide Hpack.DecodeEntry, Decode, TakeEvent;
    RunFree(su, d, fragment + s);
    var d1 := d.(state := HeaderEntry);
    ThenNone(Decode(su, d1, fragment + s));
    assert (fragment + s)[..|fragment|] == fragment && (fragment + s)[|fragment|..] == s;
    StepOk(su, d1, fragment + s);
    var r := Hpack.DecodeEntry(su.coder, su.statics, d.hpack, fragment);
    EntryStep(su, d, d1, fragment + s, |fragment|, r);
    if r.Complete? {
      DecodeGo(su, d1, fragment + s);
    } else if r.Ongoing? && !d.frame.endHeaders {
      DecodeGo(su, d1, fragment + s);
      ThenNone(Decode(su, Drained(d, r.decoder, d.block), s));
    }
  }

  /** Where an entry leaves the decoder. */
  lemma EntryStep(su: Setup, d: Decoder, d1: Decoder, s: Bytes, n: nat, r: Hpack.EntryResult)
    requires d.state == HeaderLoop && d1 == d.(state := HeaderEntry) && d.scratch == []
    requires n <= |s| && d.frame.payload == n
    requires r.Complete? ==> |r.rest| <= n
    ensures r.Complete? ==>
              var (b, log) := TakeEvent(su.isServer, d.frame.stream, d.block, r.event);
              AfterEntry(su, d1, s, n, r) ==
              Go(d.(frame := d.frame.(payload := |r.rest|), hpack := r.decoder, block := b), s[n - |r.rest|..], log)
    ensures r.Ongoing? && !d.frame.endHeaders ==>
              AfterEntry(su, d1, s, n, r) == Go(Drained(d, r.decoder, d.block), s[n..], [])
  {
    hide TakeEvent;
    if r.Complete? {
      var log := TakeEvent(su.isServer, d.frame.stream, d.block, r.event).1;
      assert [] + log == log;
    }
  }

  lemma DecodeGo(su: Setup, d: Decoder, s: Bytes)
    requires Valid(d) && Step(su, d, s).Go?
    ensures var r := Step(su, d, s);
            Valid(r.d) && Decode(su, d, s) == Then(r.log, Decode(su, r.d, r.rest))
  {
    hide Step, Valid;
    StepOk(su, d, s);
  }

  // ----- decoding a whole header block

  /** A fragment that the HPACK decoder takes whole, in the frame that carries it. */
  lemma {:induction false} FragmentRuns(su: Setup, d: Decoder, fragment: Bytes, s: Bytes)
    requires Valid(d) && d.state == HeaderLoop && d.scratch == [] && d.frame.payload == |fragment|
    requires var r := Hpack.DecodeAll(su.coder, su.statics, d.hpack, fragment);
             r.end.Alive? && (d.frame.endHeaders ==> r.end.decoder.entry == Hpack.EntryInit)
    ensures var r := Hpack.DecodeAll(su.coder, su.statics, d.hpack, fragment);
            var (b, log) := TakeEvents(su.isServer, d.frame.stream, d.block, r.events);
            var d' := Drained(d, r.end.decoder, b);
            Valid(d') && Decode(su, d, fragment + s) == Then(log, Decode(su, d', s))
    decreases |fragment|
  {
    hide Hpack.DecodeEntry, Hpack.DecodeAll, Hpack.EntryValid, Decode, TakeEvent, TakeEvents, Valid, Then;
    EntryIsValid(d);
    EntryFirst(su, d.hpack, fragment);
    if fragment == [] {
      NothingDecoded(su, d.hpack);
      NothingTaken(su, d);
      assert fragment + s == s;
      ThenNone(Decode(su, d, s));
    } else {
      EntryRuns(su, d, fragment, s);
      var r := Hpack.DecodeEntry(su.coder, su.statics, d.hpack, fragment);
      if r.Complete? {
        assert (fragment + s)[|fragment| - |r.rest|..] == r.rest + s by { EntryIsSuffix(su, d.hpack, fragment); }
        var (b1, log) := TakeEvent(su.isServer, d.frame.stream, d.block, r.event);
        var d1 := d.(frame := d.frame.(payload := |r.rest|), hpack := r.decoder, block := b1);
        EntryIsValid(d1);
        FragmentRuns(su, d1, r.rest, s);
        var more := Hpack.DecodeAll(su.coder, su.statics, r.decoder, r.rest);
        TakeCons(su.isServer, d.frame.stream, d.block, r.event, more.events);
        var (b2, log2) := TakeEvents(su.isServer, d.frame.stream, b1, more.events);
        ThenThen(log, log2, Decode(su, Drained(d, more.end.decoder, b2), s));
      } else {
        OngoingHasBegun(su.coder, su.statics, d.hpack, fragment);
        NothingTaken(su, d);
        ThenNone(Decode(su, Drained(d, r.decoder, d.block), s));
      }
    }
  }

  lemma NothingTaken(su: Setup, d: Decoder)
    ensures TakeEvents(su.isServer, d.frame.stream, d.block, []) == (d.block, [])
  {
  }

  /** Decoding begins with one entry. */
  lemma EntryFirst(su: Setup, d: Hpack.Decoder, s: Bytes)
    requires Hpack.EntryValid(d.entry)
    ensures var r, all := Hpack.DecodeEntry(su.coder, su.statics, d, s), Hpack.DecodeAll(su.coder, su.statics, d, s);
            && (r.Complete? ==>
                  && |r.rest| < |s| && Hpack.EntryValid(r.decoder.entry)
                  && var more := Hpack.DecodeAll(su.coder, su.statics, r.decoder, r.rest);
                     all == Hpack.Run([r.event] + more.events, more.end))
            && (r.Ongoing? ==> all == Hpack.Run([], Hpack.Alive(r.decoder)))
            && (all.end.Alive? ==> r.Complete? || r.Ongoing?)
  {
    hide Hpack.DecodeEntry;
  }

  lemma NothingDecoded(su: Setup, d: Hpack.Decoder)
    requires Hpack.EntryValid(d.entry)
    ensures Hpack.DecodeAll(su.coder, su.statics, d, []) == Hpack.Run([], Hpack.Alive(d))
  {
  }

  /** What an entry leaves of the input is the end of the input. */
  lemma EntryIsSuffix(su: Setup, d: Hpack.Decoder, s: Bytes)
    requires Hpack.EntryValid(d.entry)
    ensures var r := Hpack.DecodeEntry(su.coder, su.statics, d, s);
            r.Complete? ==> r.rest == s[|s| - |r.rest|..]
  {
    hide Hpack.DecodeEntry;
    var r := Hpack.DecodeEntry(su.coder, su.statics, d, s);
    if r.Complete? {
      var k := |s| - |r.rest|;
      assert s == s[..k] + s[k..];
      Hpack.EntrySplit(su.coder, su.statics, d, s[..k], s[k..]);
    }
  }

  /** The end of a frame of a header block. */
  lemma BlockFrameEnds(su: Setup, d: Decoder, s: Bytes)
    requires Valid(d) && d.state == HeaderLoop && d.scratch == [] && d.frame.payload == 0
    ensures var d' := d.(state := Prefix, frame := NO_FRAME, block := if d.frame.endHeaders then NO_BLOCK else d.block);
            var log := if d.frame.endHeaders then BlockEnd(su.isServer, d.frame.stream, d.block) else [];
            Valid(d') && Decode(su, d, Zeros(d.frame.padding) + s) == Then(log, Decode(su, d', s))
  {
    hide Decode, Zeros, BlockEnd;
    RunFree(su, d, Zeros(d.frame.padding) + s);
    var d1 := d.(state := Padding, block := if d.frame.endHeaders then NO_BLOCK else d.block);
    PaddingRuns(su, d1, s);
  }

  /** A fragment and the end of its frame. */
  lemma FragmentAndEnd(su: Setup, d: Decoder, fragment: Bytes, s: Bytes)
    requires Valid(d) && d.state == HeaderLoop && d.scratch == [] && d.frame.payload == |fragment|
    requires var r := Hpack.DecodeAll(su.coder, su.statics, d.hpack, fragment);
             r.end.Alive? && (d.frame.endHeaders ==> r.end.decoder.entry == Hpack.EntryInit)
    ensures var r := Hpack.DecodeAll(su.coder, su.statics, d.hpack, fragment);
            var (b, log) := TakeShare(su.isServer, d.frame.stream, d.block, r.events, d.frame.endHeaders);
            var d' := d.(state := Prefix, frame := NO_FRAME, hpack := r.end.decoder, block := b);
            && Valid(d')
            && Decode(su, d, fragment + (Zeros(d.frame.padding) + s)) == Then(log, Decode(su, d', s))
  {
    hide Decode, Zeros, Hpack.DecodeAll, TakeEvents, BlockEnd;
    FragmentRuns(su, d, fragment, Zeros(d.frame.padding) + s);
    var r := Hpack.DecodeAll(su.coder, su.statics, d.hpack, fragment);
    var (b, log) := TakeEvents(su.isServer, d.frame.stream, d.block, r.events);
    var d1 := Drained(d, r.end.decoder, b);
    BlockFrameEnds(su, d1, s);
    var end := if d.frame.endHeaders then BlockEnd(su.isServer, d.frame.stream, b) else [];
    var block := if d.frame.endHeaders then NO_BLOCK else b;
    assert log + [] == log;
    ThenThen(log, end, Decode(su, d.(state := Prefix, frame := NO_FRAME, hpack := r.end.decoder, block := block), s));
  }

  /** Between frames, in the middle of the block that `h` began. */
  predicate MidBlock(d: Decoder, h: Head) {
    && Valid(d) && d.state == Prefix && d.scratch == [] && d.frame == NO_FRAME && d.greeted && d.settings == []
    && d.goaway == (0, 0, []) && d.block == BlockOf(h).(fields := d.block.fields)
  }

  function BlockOf(h: Head): Block {
    Block(h.stream, h.promised.Some?, h.end && h.promised.None?, H2Fields.NO_FIELDS)
  }

  /** The decoder about to read a fragment of `n` bytes in a CONTINUATION frame. */
  function InContinuation(d: Decoder, h: Head, last: bool, n: nat): Decoder {
    d.(frame := Announced(CONTINUATION, Flags(false, last, false, false), h.stream, n), state := HeaderLoop)
  }

  lemma ContinuationBegins(su: Setup, d: Decoder, h: Head, last: bool, n: nat, s: Bytes)
    requires MidBlock(d, h) && ValidHead(h) && n <= d.limits.maxFrame && n <= PAYLOAD_MAX
    ensures Valid(InContinuation(d, h, last, n))
    ensures Decode(su, d, EncodePrefix(CONTINUATION, Flags(false, last, false, false), h.stream, n) + s) ==
            Decode(su, InContinuation(d, h, last, n), s)
  {
    hide Decode, EncodePrefix;
    var flags := Flags(false, last, false, false);
    RunPrefix(su, d, CONTINUATION, flags, h.stream, n, s);
    var d1 := d.(frame := Announced(CONTINUATION, flags, h.stream, n), state := FrameContinuation);
    RunFree(su, d1, s);
    ThenNone(Decode(su, d1, s));
    ThenNone(Decode(su, InContinuation(d, h, last, n), s));
  }

  lemma ContinuationRuns(su: Setup, d: Decoder, h: Head, fragment: Bytes, last: bool, s: Bytes)
    requires MidBlock(d, h) && ValidHead(h) && |fragment| <= d.limits.maxFrame && |fragment| <= PAYLOAD_MAX
    requires var r := Hpack.DecodeAll(su.coder, su.statics, d.hpack, fragment);
             r.end.Alive? && (last ==> r.end.decoder.entry == Hpack.EntryInit)
    ensures var r := Hpack.DecodeAll(su.coder, su.statics, d.hpack, fragment);
            var (b, log) := TakeShare(su.isServer, h.stream, d.block, r.events, last);
            var d' := d.(hpack := r.end.decoder, block := b);
            && Valid(d') && (!last ==> MidBlock(d', h))
            && Decode(su, d, FrameBytes(h, false, fragment, last) + s) == Then(log, Decode(su, d', s))
  {
    hide Decode, Hpack.DecodeAll, TakeEvents, BlockEnd, EncodePrefix, Valid;
    EntryIsValid(d);
    var prefix := EncodePrefix(CONTINUATION, Flags(false, last, false, false), h.stream, |fragment|);
    assert FrameBytes(h, false, fragment, last) + s == prefix + (fragment + s);
    ContinuationBegins(su, d, h, last, |fragment|, fragment + s);
    var d2 := InContinuation(d, h, last, |fragment|);
    assert Zeros(0) + s == s;
    FragmentAndEnd(su, d2, fragment, s);
    var r := Hpack.DecodeAll(su.coder, su.statics, d.hpack, fragment);
    TakeKeeps(su.isServer, h.stream, d.block, r.events);
    var b := TakeShare(su.isServer, h.stream, d.block, r.events, last).0;
    assert d.(hpack := r.end.decoder, block := b) ==
           d2.(state := Prefix, frame := NO_FRAME, hpack := r.end.decoder, block := b);
  }

  // ----- the first frame

  /** The first frame of a block with `n` bytes of payload to come before its padding. */
  function Opening(h: Head, last: bool, n: nat): Frame {
    Announced(HeadKind(h), HeadFlags(h, last), h.stream, n).(padding := h.pad)
  }

  function Opened(d: Decoder, h: Head, last: bool, n: nat): Decoder {
    d.(frame := Opening(h, last, n), state := if h.priority.Some? then PriorityBlock else StateOf(HeadKind(h)))
  }

  /** The decoder about to read a fragment of `n` bytes in the first frame. */
  function InBlock(d: Decoder, h: Head, last: bool, n: nat): Decoder {
    d.(frame := Opening(h, last, n), state := HeaderLoop, block := BlockOf(h))
  }

  function PadTotal(h: Head): nat {
    if h.pad > 0 then 1 + h.pad as int else 0
  }

  /** What the prefix leads to: the padding length if there is padding, else the payload. */
  lemma HeadPrefixFires(su: Setup, d: Decoder, h: Head, last: bool, n: nat)
    requires Idle(d) && ValidHead(h) && n + PadTotal(h) <= d.limits.maxFrame && n + PadTotal(h) <= PAYLOAD_MAX
    requires n >= (if h.priority.Some? then 5 else 0) + (if h.promised.Some? then 4 else 0)
    ensures var total := n + PadTotal(h);
            FireFixed(su, d, EncodePrefix(HeadKind(h), HeadFlags(h, last), h.stream, total)) ==
            Fired(if h.pad > 0 then d.(frame := Opening(h, last, total).(padding := 0), state := PaddingLen)
                  else Opened(d, h, last, n), [])
  {
    hide EncodePrefix, ParsePrefix, Padded, FirePrefix, FirePaddingLen, FireSettingsEntry, FirePush, Valid;
    var total := n + PadTotal(h);
    PrefixRoundTrip(HeadKind(h), HeadFlags(h, last), h.stream, total);
    PrefixAccepted(d, EncodePrefix(HeadKind(h), HeadFlags(h, last), h.stream, total),
                   Announced(HeadKind(h), HeadFlags(h, last), h.stream, total));
  }

  lemma PrefixAccepted(d: Decoder, bytes: Bytes, f: Frame)
    requires |bytes| == 9 && ParsePrefix(bytes) == f && d.greeted && f.kind != DATA
    requires StreamIdOk(f.kind, f.stream) && BlockOk(d.block, f) && f.payload <= d.limits.maxFrame
    ensures FirePrefix(d, bytes) == if Padded(bytes) then Switch(d.(frame := f), PaddingLen, [])
            else EnterPayload(d.(frame := f), [])
  {
    hide ParsePrefix, Padded, Switch, EnterPayload, StreamIdOk, BlockOk;
  }

  lemma HeadPadFires(su: Setup, d: Decoder, h: Head, last: bool, n: nat)
    requires Idle(d) && ValidHead(h) && h.pad > 0
    requires n >= (if h.priority.Some? then 5 else 0) + (if h.promised.Some? then 4 else 0)
    ensures var d0 := d.(frame := Opening(h, last, n + PadTotal(h)).(padding := 0), state := PaddingLen);
            Valid(d0) && FireFixed(su, d0, [h.pad]) == Fired(Opened(d, h, last, n), [])
  {
    hide FirePrefix, FireSettingsEntry, FirePush;
  }

  /** The prefix and the padding length; `n` is the payload without padding. */
  lemma HeadPrefixRuns(su: Setup, d: Decoder, h: Head, last: bool, n: nat, s: Bytes)
    requires Idle(d) && ValidHead(h) && n + PadTotal(h) <= d.limits.maxFrame && n + PadTotal(h) <= PAYLOAD_MAX
    requires n >= (if h.priority.Some? then 5 else 0) + (if h.promised.Some? then 4 else 0)
    ensures var prefix := EncodePrefix(HeadKind(h), HeadFlags(h, last), h.stream, n + PadTotal(h));
            && Valid(Opened(d, h, last, n))
            && Decode(su, d, prefix + ((if h.pad > 0 then [h.pad] else []) + s)) == Decode(su, Opened(d, h, last, n), s)
  {
    hide Decode, EncodePrefix, FireFixed, Opened, Opening;
    var prefix := EncodePrefix(HeadKind(h), HeadFlags(h, last), h.stream, n + PadTotal(h));
    HeadPrefixFires(su, d, h, last, n);
    if h.pad == 0 {
      assert [] + s == s;
      RunFixed(su, d, prefix, s);
      ThenNone(Decode(su, Opened(d, h, last, n), s));
    } else {
      HeadPadFires(su, d, h, last, n);
      RunFixed(su, d, prefix, [h.pad] + s);
      var d0 := d.(frame := Opening(h, last, n + PadTotal(h)).(padding := 0), state := PaddingLen);
      ThenNone(Decode(su, d0, [h.pad] + s));
      RunFixed(su, d0, [h.pad], s);
      ThenNone(Decode(su, Opened(d, h, last, n), s));
    }
  }

  lemma PriorityRuns(su: Setup, d: Decoder, bytes: Bytes, s: Bytes)
    requires Valid(d) && d.state == PriorityBlock && d.scratch == [] && |bytes| == 5 && d.frame.kind == HEADERS
    ensures var d1 := Used(d, 5).(state := FrameHeaders);
            Valid(d1) && Decode(su, d, bytes + s) == Decode(su, d1, s)
  {
    hide Decode;
    RunFixed(su, d, bytes, s);
    ThenNone(Decode(su, Used(d, 5).(state := FrameHeaders), s));
  }

  function BlockBegin(h: Head): seq<Event> {
    if h.promised.Some? then [PushBegin(h.stream, h.promised.value)] else [HeadersBegin(h.stream)]
  }

  lemma PromiseRuns(su: Setup, d: Decoder, h: Head, s: Bytes)
    requires Valid(d) && d.state == FramePush && d.scratch == [] && d.frame.stream == h.stream && ValidHead(h) &&
             h.promised.Some?
    requires Welcome(su.isServer, d.limits.enablePush, h)
    ensures var d1 := Used(d, 4).(state := HeaderLoop, block := BlockOf(h));
            Valid(d1) && Decode(su, d, BeBytes(h.promised.value, 4) + s) == Then(BlockBegin(h), Decode(su, d1, s))
  {
    hide Decode, Be, BeBytes;
    Powers();
    BeRoundTrip(h.promised.value, 4);
    RunFixed(su, d, BeBytes(h.promised.value, 4), s);
  }

  lemma LeadPromise(su: Setup, d: Decoder, h: Head, last: bool, n: nat, s: Bytes)
    requires Idle(d) && ValidHead(h) && h.promised.Some? && Welcome(su.isServer, d.limits.enablePush, h)
    requires Valid(Opened(d, h, last, n + 4))
    ensures Valid(InBlock(d, h, last, n))
    ensures Decode(su, Opened(d, h, last, n + 4), BeBytes(h.promised.value, 4) + s) ==
            Then(BlockBegin(h), Decode(su, InBlock(d, h, last, n), s))
  {
    hide Decode, BeBytes, BlockBegin;
    PromiseRuns(su, Opened(d, h, last, n + 4), h, s);
  }

  lemma LeadNothing(su: Setup, d: Decoder, h: Head, last: bool, n: nat, s: Bytes)
    requires Idle(d) && ValidHead(h) && h.promised.None?
    ensures var d1 := Opened(d, h, last, n).(state := FrameHeaders);
            && Valid(d1) && Valid(InBlock(d, h, last, n))
            && Decode(su, d1, s) == Then(BlockBegin(h), Decode(su, InBlock(d, h, last, n), s))
  {
    hide Decode;
    var d1 := Opened(d, h, last, n).(state := FrameHeaders);
    assert FireFree(su, d1) == Fired(InBlock(d, h, last, n), BlockBegin(h));
    RunFree(su, d1, s);
  }

  lemma LeadPriority(su: Setup, d: Decoder, h: Head, last: bool, n: nat, bytes: Bytes, s: Bytes)
    requires Idle(d) && ValidHead(h) && h.priority.Some? && |bytes| == 5 && Valid(Opened(d, h, last, n + 5))
    ensures var d1 := Opened(d, h, last, n).(state := FrameHeaders);
            Valid(d1) && Decode(su, Opened(d, h, last, n + 5), bytes + s) == Decode(su, d1, s)
  {
    hide Decode;
    PriorityRuns(su, Opened(d, h, last, n + 5), bytes, s);
    assert Used(Opened(d, h, last, n + 5), 5).(state := FrameHeaders) == Opened(d, h, last, n).(state := FrameHeaders);
  }

  lemma PromiseFails(su: Setup, d: Decoder, h: Head, s: Bytes)
    requires Valid(d) && d.state == FramePush && d.scratch == [] && ValidHead(h)
    requires !Welcome(su.isServer, d.limits.enablePush, h)
    ensures Decode(su, d, BeBytes(h.promised.value, 4) + s) == Run([], Failed(ProtocolError))
  {
    hide Decode, Be, BeBytes, FirePrefix, FirePaddingLen, FireSettingsEntry;
    Powers();
    BeRoundTrip(h.promised.value, 4);
    RunBroken(su, d, BeBytes(h.promised.value, 4), s);
  }

  /** A promise that is not welcome ends the connection. */
  lemma LeadUnwelcome(su: Setup, d: Decoder, h: Head, last: bool, n: nat, s: Bytes)
    requires Idle(d) && ValidHead(h) && !Welcome(su.isServer, d.limits.enablePush, h)
    requires Valid(Opened(d, h, last, n + 4))
    ensures Lead(h) == BeBytes(h.promised.value, 4)
    ensures Decode(su, Opened(d, h, last, n + 4), Lead(h) + s) == Run([], Failed(ProtocolError))
  {
    hide Decode, BeBytes, Valid;
    assert Lead(h) == BeBytes(h.promised.value, 4);
    PromiseFails(su, Opened(d, h, last, n + 4), h, s);
  }

  /** What comes between the padding length and the fragment. */
  lemma LeadRuns(su: Setup, d: Decoder, h: Head, last: bool, n: nat, s: Bytes)
    requires Idle(d) && ValidHead(h) && Welcome(su.isServer, d.limits.enablePush, h)
    requires Valid(Opened(d, h, last, n + |Lead(h)|))
    ensures var d2 := InBlock(d, h, last, n);
            && Valid(d2)
            && Decode(su, Opened(d, h, last, n + |Lead(h)|), Lead(h) + s) == Then(BlockBegin(h), Decode(su, d2, s))
  {
    hide Decode, BeBytes, PriorityBytes, BlockBegin, Valid, Opening, InBlock;
    var lead := Lead(h);
    if h.promised.Some? {
      assert lead == BeBytes(h.promised.value, 4);
      LeadPromise(su, d, h, last, n, s);
    } else {
      LeadNothing(su, d, h, last, n, s);
      if h.priority.Some? {
        LeadPriority(su, d, h, last, n, lead, s);
      } else {
        assert lead == [] && lead + s == s;
        assert Opened(d, h, last, n) == Opened(d, h, last, n).(state := FrameHeaders);
      }
    }
  }

  lemma OverheadIs(h: Head)
    ensures Overhead(h, true) == |Lead(h)| + PadTotal(h)
    ensures |Lead(h)| == (if h.priority.Some? then 5 else 0) + (if h.promised.Some? then 4 else 0)
  {
  }

  lemma FirstFrameLayout(h: Head, fragment: Bytes, last: bool, s: Bytes)
    ensures var prefix := EncodePrefix(HeadKind(h), HeadFlags(h, last), h.stream, Overhead(h, true) + |fragment|);
            var pad := if h.pad > 0 then [h.pad] else [];
            FrameBytes(h, true, fragment, last) + s == prefix + (pad + (Lead(h) + (fragment + (Zeros(h.pad) + s))))
  {
    hide EncodePrefix, Lead, Zeros;
    var tail := Lead(h) + fragment;
    if h.pad == 0 {
      assert Zeros(0) == [];
      assert [] + (Lead(h) + (fragment + ([] + s))) == tail + s;
    } else {
      assert Pad(h.pad, tail) + s == [h.pad] + (Lead(h) + (fragment + (Zeros(h.pad) + s)));
    }
  }

  lemma EntryIsValid(d: Decoder)
    requires Valid(d)
    ensures Hpack.EntryValid(d.hpack.entry)
  {
  }

  lemma FirstFrameRuns(su: Setup, d: Decoder, h: Head, fragment: Bytes, last: bool, s: Bytes)
    requires Idle(d) && ValidHead(h) && Welcome(su.isServer, d.limits.enablePush, h)
    requires Overhead(h, true) + |fragment| <= d.limits.maxFrame && Overhead(h, true) + |fragment| <= PAYLOAD_MAX
    requires var r := Hpack.DecodeAll(su.coder, su.statics, d.hpack, fragment);
             r.end.Alive? && (last ==> r.end.decoder.entry == Hpack.EntryInit)
    ensures var r := Hpack.DecodeAll(su.coder, su.statics, d.hpack, fragment);
            var (b, log) := TakeShare(su.isServer, h.stream, BlockOf(h), r.events, last);
            var d' := d.(hpack := r.end.decoder, block := b);
            && Valid(d') && (!last ==> MidBlock(d', h))
            && Decode(su, d, FrameBytes(h, true, fragment, last) + s) == Then(BlockBegin(h) + log, Decode(su, d', s))
  {
    hide Decode, Hpack.DecodeAll, TakeEvents, BlockEnd, BlockBegin, EncodePrefix, FrameBytes, Zeros, Opened, Lead,
         Overhead, PadTotal, Valid;
    EntryIsValid(d);
    FirstFrameLayout(h, fragment, last, s);
    OverheadIs(h);
    var rest := fragment + (Zeros(h.pad) + s);
    HeadPrefixRuns(su, d, h, last, |fragment| + |Lead(h)|, Lead(h) + rest);
    LeadRuns(su, d, h, last, |fragment|, rest);
    var d2 := InBlock(d, h, last, |fragment|);
    FragmentAndEnd(su, d2, fragment, s);
    var r := Hpack.DecodeAll(su.coder, su.statics, d.hpack, fragment);
    TakeKeeps(su.isServer, h.stream, BlockOf(h), r.events);
    var (b, log) := TakeShare(su.isServer, h.stream, BlockOf(h), r.events, last);
    var d' := d.(hpack := r.end.decoder, block := b);
    assert d' == d2.(state := Prefix, frame := NO_FRAME, hpack := r.end.decoder, block := b);
    ThenThen(BlockBegin(h), log, Decode(su, d', s));
  }

  // ----- the whole block

  /** Frames after the first, up to the end of the block. */
  lemma {:induction false} ContinuationsRun(su: Setup, d: Decoder, h: Head, fragments: seq<Bytes>, s: Bytes)
    requires MidBlock(d, h) && ValidHead(h) && fragments != []
    requires forall i | 0 <= i < |fragments| :: |fragments[i]| <= d.limits.maxFrame && |fragments[i]| <= PAYLOAD_MAX
    requires var r := Hpack.DecodeAll(su.coder, su.statics, d.hpack, Flatten(fragments));
             r.end.Alive? && r.end.decoder.entry == Hpack.EntryInit
    ensures var r := Hpack.DecodeAll(su.coder, su.statics, d.hpack, Flatten(fragments));
            var log := TakeShare(su.isServer, h.stream, d.block, r.events, true).1;
            var d' := d.(hpack := r.end.decoder, block := NO_BLOCK);
            Valid(d') && Decode(su, d, Wire(h, false, fragments, true) + s) == Then(log, Decode(su, d', s))
    decreases |fragments|
  {
    hide Decode, Hpack.DecodeAll, TakeEvents, BlockEnd, FrameBytes, Valid;
    EntryIsValid(d);
    var f, rest := fragments[0], fragments[1..];
    var after := Wire(h, false, rest, true) + s;
    assert Wire(h, false, fragments, true) + s == FrameBytes(h, false, f, |fragments| == 1) + after;
    Hpack.RunSplit(su.coder, su.statics, d.hpack, f, Flatten(rest));
    if rest == [] {
      assert f + Flatten(rest) == f && after == s;
      ContinuationRuns(su, d, h, f, true, s);
    } else {
      ContinuationRuns(su, d, h, f, false, after);
      var first := Hpack.DecodeAll(su.coder, su.statics, d.hpack, f);
      var (b1, log) := TakeShare(su.isServer, h.stream, d.block, first.events, false);
      var d1 := d.(hpack := first.end.decoder, block := b1);
      ContinuationsRun(su, d1, h, rest, s);
      var more := Hpack.DecodeAll(su.coder, su.statics, first.end.decoder, Flatten(rest));
      ShareConcat(su.isServer, h.stream, d.block, first.events, more.events);
      ThenThen(log, TakeShare(su.isServer, h.stream, b1, more.events, true).1,
               Decode(su, d.(hpack := more.end.decoder, block := NO_BLOCK), s));
    }
  }

  /**
   * A header block divided in any way over a HEADERS or PUSH_PROMISE frame and
   * CONTINUATION frames is reported as one block, made of the fields that HPACK
   * finds in the whole, and leaves the decoder between frames.
   */
  lemma BlockRoundTrip(su: Setup, d: Decoder, h: Head, fragments: seq<Bytes>, s: Bytes)
    requires Idle(d) && ValidHead(h) && Welcome(su.isServer, d.limits.enablePush, h)
    requires fragments != [] && WithinLimit(h, true, fragments, d.limits.maxFrame) && d.limits.maxFrame <= PAYLOAD_MAX
    requires var r := Hpack.DecodeAll(su.coder, su.statics, d.hpack, Flatten(fragments));
             r.end.Alive? && r.end.decoder.entry == Hpack.EntryInit
    ensures var r := Hpack.DecodeAll(su.coder, su.statics, d.hpack, Flatten(fragments));
            var log := TakeShare(su.isServer, h.stream, BlockOf(h), r.events, true).1;
            var d' := d.(hpack := r.end.decoder);
            && Idle(d')
            && Decode(su, d, Wire(h, true, fragments, true) + s) == Then(BlockBegin(h) + log, Decode(su, d', s))
  {
    hide Decode, Hpack.DecodeAll, TakeEvents, BlockEnd, BlockBegin, FrameBytes, Overhead;
    var f, rest := fragments[0], fragments[1..];
    var after := Wire(h, false, rest, true) + s;
    assert Wire(h, true, fragments, true) + s == FrameBytes(h, true, f, |fragments| == 1) + after;
    assert Overhead(h, true && 0 == 0) + |fragments[0]| <= d.limits.maxFrame;
    Hpack.RunSplit(su.coder, su.statics, d.hpack, f, Flatten(rest));
    if rest == [] {
      assert f + Flatten(rest) == f && after == s;
      FirstFrameRuns(su, d, h, f, true, s);
    } else {
      FirstFrameRuns(su, d, h, f, false, after);
      var first := Hpack.DecodeAll(su.coder, su.statics, d.hpack, f);
      var (b1, log) := TakeShare(su.isServer, h.stream, BlockOf(h), first.events, false);
      var d1 := d.(hpack := first.end.decoder, block := b1);
      LaterLimits(h, fragments, d.limits.maxFrame);
      ContinuationsRun(su, d1, h, rest, s);
      var second := Hpack.DecodeAll(su.coder, su.statics, first.end.decoder, Flatten(rest));
      ShareConcat(su.isServer, h.stream, BlockOf(h), first.events, second.events);
      var more := TakeShare(su.isServer, h.stream, b1, second.events, true).1;
      Regroup(BlockBegin(h), log, more);
      ThenThen(BlockBegin(h) + log, more, Decode(su, d.(hpack := second.end.decoder), s));
    }
  }

  /** A promise that is not welcome is refused, whatever the block holds. */
  lemma BlockUnwelcome(su: Setup, d: Decoder, h: Head, fragments: seq<Bytes>, s: Bytes)
    requires Idle(d) && ValidHead(h) && !Welcome(su.isServer, d.limits.enablePush, h)
    requires fragments != [] && WithinLimit(h, true, fragments, d.limits.maxFrame) && d.limits.maxFrame <= PAYLOAD_MAX
    ensures Decode(su, d, Wire(h, true, fragments, true) + s) == Run([], Failed(ProtocolError))
  {
    hide Decode, FrameBytes, Overhead, Lead, PadTotal, Zeros, EncodePrefix, Opened, Valid;
    var f, last := fragments[0], |fragments| == 1;
    var after := Wire(h, false, fragments[1..], true) + s;
    assert Wire(h, true, fragments, true) + s == FrameBytes(h, true, f, last) + after;
    assert Overhead(h, true && 0 == 0) + |fragments[0]| <= d.limits.maxFrame;
    FirstFrameLayout(h, f, last, after);
    OverheadIs(h);
    var rest := f + (Zeros(h.pad) + after);
    HeadPrefixRuns(su, d, h, last, |f| + 4, Lead(h) + rest);
    LeadUnwelcome(su, d, h, last, |f|, rest);
  }

  lemma LaterLimits(h: Head, fragments: seq<Bytes>, maxFrame: nat)
    requires fragments != [] && WithinLimit(h, true, fragments, maxFrame)
    ensures forall i | 0 <= i < |fragments[1..]| :: |fragments[1..][i]| <= maxFrame
  {
    forall i | 0 <= i < |fragments[1..]| ensures |fragments[1..][i]| <= maxFrame {
      assert fragments[1..][i] == fragments[i + 1];
      assert Overhead(h, true && i + 1 == 0) + |fragments[i + 1]| <= maxFrame;
    }
  }

  // ----- header lists from end to end

  /** What the decoder is to report of a list of fields. */
  function BlockReport(isServer: bool, h: Head, hs: seq<Header>): seq<Event> {
    var (f, out) := H2Fields.Whole(ContextOf(isServer, BlockOf(h)), hs);
    ReportOf(h, f.kind, out, f.malformed)
  }

  /** A block of this type with these fields. */
  function ReportOf(h: Head, kind: H2Fields.BlockType, hs: seq<Header>, malformed: bool): seq<Event> {
    var b := BlockOf(h);
    BlockBegin(h) + (Deliver(h.stream, b.push, kind, hs) +
                     ([HeadersEnd(h.stream, b.push, malformed, kind)] + if b.endsStream then [EndStream(h.stream)]
                      else []))
  }

  lemma {:induction false} ResizesReportNothing(isServer: bool, stream: nat, b: Block, sizes: seq<nat>)
    ensures TakeEvents(isServer, stream, b, HpackEncoder.ResizeEvents(sizes)) == (b, [])
    decreases |sizes|
  {
    if sizes != [] {
      var all := HpackEncoder.ResizeEvents(sizes);
      assert all[1..] == HpackEncoder.ResizeEvents(sizes[1..]);
      ResizesReportNothing(isServer, stream, b, sizes[1..]);
      var none: seq<Event> := [];
      assert none + none == none;
    }
  }

  lemma {:induction false} FieldEventsSnoc(hs: seq<Header>)
    requires hs != []
    ensures HpackEncoder.FieldEvents(hs) == HpackEncoder.FieldEvents(hs[..|hs| - 1]) + [Hpack.Field(hs[|hs| - 1])]
    decreases |hs|
  {
    if |hs| > 1 {
      FieldEventsSnoc(hs[1..]);
      assert hs[1..][..|hs| - 2] == hs[..|hs| - 1][1..];
    }
  }

  lemma TakeOne(isServer: bool, stream: nat, b: Block, e: Hpack.Event)
    ensures TakeEvents(isServer, stream, b, [e]) == TakeEvent(isServer, stream, b, e)
  {
    hide TakeEvent;
    assert [e][1..] == [];
    var log := TakeEvent(isServer, stream, b, e).1;
    assert log + [] == log;
  }

  lemma DeliverConcat(stream: nat, push: bool, kind: H2Fields.BlockType, a: seq<Header>, b: seq<Header>)
    ensures Deliver(stream, push, kind, a + b) == Deliver(stream, push, kind, a) + Deliver(stream, push, kind, b)
  {
  }

  /** All that a block delivers is delivered as of the type it turns out to be. */
  lemma {:induction false} FieldsReported(isServer: bool, stream: nat, b: Block, hs: seq<Header>)
    requires !b.fields.done
    ensures var (f, out) := H2Fields.ProcessAll(ContextOf(isServer, b), b.fields, hs);
            && TakeEvents(isServer, stream, b, HpackEncoder.FieldEvents(hs)) ==
               (b.(fields := f), Deliver(stream, b.push, f.kind, out))
            && (out != [] ==> f.done)
    decreases |hs|
  {
    hide H2Fields.Process, TakeEvents;
    if hs == [] {
      NoFieldsTaken(isServer, stream, b);
      assert H2Fields.ProcessAll(ContextOf(isServer, b), b.fields, hs) == (b.fields, []);
      assert b == b.(fields := b.fields) && Deliver(stream, b.push, b.fields.kind, []) == [];
    } else {
      var c, front, h := ContextOf(isServer, b), hs[..|hs| - 1], hs[|hs| - 1];
      FieldsReported(isServer, stream, b, front);
      var (f1, out) := H2Fields.ProcessAll(c, b.fields, front);
      var (f2, more) := H2Fields.Process(c, f1, h);
      H2Fields.ProcessKeepsKind(c, f1, h);
      FieldEventsSnoc(hs);
      TakeConcat(isServer, stream, b, HpackEncoder.FieldEvents(front), [Hpack.Field(h)]);
      TakeOne(isServer, stream, b.(fields := f1), Hpack.Field(h));
      DeliverConcat(stream, b.push, f2.kind, out, more);
      assert Deliver(stream, b.push, f1.kind, out) == Deliver(stream, b.push, f2.kind, out);
    }
  }

  lemma NoFieldsTaken(isServer: bool, stream: nat, b: Block)
    ensures TakeEvents(isServer, stream, b, HpackEncoder.FieldEvents([])) == (b, [])
  {
  }

  lemma CloseKeepsKind(c: H2Fields.Context, f: H2Fields.Fields)
    ensures f.done ==> H2Fields.Close(c, f).0.kind == f.kind
  {
  }

  /** The entries of an encoded list are reported as the list. */
  lemma ListReported(isServer: bool, h: Head, sizes: seq<nat>, hs: seq<Header>)
    ensures var events := HpackEncoder.ResizeEvents(sizes) + HpackEncoder.FieldEvents(hs);
            BlockBegin(h) + TakeShare(isServer, h.stream, BlockOf(h), events, true).1 == BlockReport(isServer, h, hs)
  {
    hide TakeEvents, H2Fields.ProcessAll, H2Fields.Close;
    var b := BlockOf(h);
    var c := ContextOf(isServer, b);
    ResizesReportNothing(isServer, h.stream, b, sizes);
    FieldsReported(isServer, h.stream, b, hs);
    TakeConcat(isServer, h.stream, b, HpackEncoder.ResizeEvents(sizes), HpackEncoder.FieldEvents(hs));
    var (f, out) := H2Fields.ProcessAll(c, b.fields, hs);
    var (f', more) := H2Fields.Close(c, f);
    CloseKeepsKind(c, f);
    DeliverConcat(h.stream, b.push, f'.kind, out, more);
    var log, last := Deliver(h.stream, b.push, f.kind, out), Deliver(h.stream, b.push, f'.kind, more);
    assert log == Deliver(h.stream, b.push, f'.kind, out);
    assert [] + log == log;
    var end := [HeadersEnd(h.stream, b.push, f'.malformed, f'.kind)] + if b.endsStream then [EndStream(h.stream)]
        else [];
    assert BlockEnd(isServer, h.stream, b.(fields := f)) == last + end;
    Regroup(log, last, end);
  }

  /**
   * A block is marked malformed if and only if its list of fields breaks a rule. A list is reported exactly as
   * it was given if and only if it breaks none, its pseudo-headers are in the fixed order, and it has no cookie
   * but one that is not empty, at its end.
   */
  lemma ReportedExactly(isServer: bool, h: Head, hs: seq<Header>)
    ensures var c := ContextOf(isServer, BlockOf(h));
            var kind := H2Fields.TypeOf(c, hs[..H2Fields.Leading(hs)]);
            var (f, out) := H2Fields.Whole(c, hs);
            && BlockReport(isServer, h, hs) == ReportOf(h, f.kind, out, !H2Fields.WellFormed(c, hs))
            && (H2Fields.WellFormed(c, hs) ==> f.kind == kind && out == H2Fields.Delivered(hs))
            && (BlockReport(isServer, h, hs) == ReportOf(h, kind, hs, false) <==>
                H2Fields.WellFormed(c, hs) && H2Fields.Canonical(hs))
  {
    hide H2Fields.Whole, H2Fields.WellFormed, H2Fields.Canonical, H2Fields.Delivered, H2Fields.TypeOf, ReportOf;
    var c := ContextOf(isServer, BlockOf(h));
    H2Fields.WholeExactly(c, hs);
    var (f, out) := H2Fields.Whole(c, hs);
    var kind := H2Fields.TypeOf(c, hs[..H2Fields.Leading(hs)]);
    ReportsDiffer(h, f.kind, kind, out, hs, f.malformed);
    if H2Fields.WellFormed(c, hs) {
      H2Fields.DeliveredAsGiven(c, hs);
    }
  }

  /** A report tells the fields and whether they are malformed. */
  lemma ReportsDiffer(h: Head, k1: H2Fields.BlockType, k2: H2Fields.BlockType, a: seq<Header>, b: seq<Header>, m: bool)
    ensures ReportOf(h, k1, a, m) == ReportOf(h, k2, b, false) ==> a == b && !m
  {
    var x, y := ReportOf(h, k1, a, m), ReportOf(h, k2, b, false);
    if x == y {
      assert |a| == |b|;
      assert x[1 + |a|] == y[1 + |a|];
      forall i | 0 <= i < |a| ensures a[i] == b[i] {
        assert x[1 + i] == y[1 + i];
      }
    }
  }

  lemma BlockDecodes(su: Setup, k: Hpack.Core, mode: HpackEncoder.HuffmanMode, p: HpackEncoder.Pending,
                     hs: seq<Header>, ls: seq<HpackEncoder.Lookup>, chunks: seq<Bytes>)
    requires Hpack.CoderCorrect(su.coder) && HpackEncoder.Shared(su.statics, k.table)
    requires HpackEncoder.BlockSound(su.coder, su.statics, k.table, p, hs, ls)
    requires forall n | n in HpackEncoder.Announced(p) :: n <= k.limit
    requires HpackEncoder.EncodeBlock(su.coder, mode, k.table, p, hs, ls).Encoded?
    requires Flatten(chunks) == HpackEncoder.EncodeBlock(su.coder, mode, k.table, p, hs, ls).bytes
    ensures var e := HpackEncoder.EncodeBlock(su.coder, mode, k.table, p, hs, ls);
            Hpack.DecodeAll(su.coder, su.statics, Hpack.Decoder(k, Hpack.EntryInit), Flatten(chunks)) ==
            Hpack.Run(HpackEncoder.ResizeEvents(HpackEncoder.Announced(p)) + HpackEncoder.FieldEvents(hs),
                      Hpack.Alive(Hpack.Decoder(k.(table := e.table), Hpack.EntryInit)))
  {
    hide HpackEncoder.EncodeBlock, Hpack.DecodeAll, Hpack.DecodeChunks, HpackEncoder.Shared;
    HpackEncoder.BlockLockstep(su.coder, su.statics, mode, k, p, hs, ls, chunks);
    var start := Hpack.Run([], Hpack.Alive(Hpack.Decoder(k, Hpack.EntryInit)));
    Hpack.SplitInvariance(su.coder, su.statics, start, chunks);
    var r := Hpack.DecodeAll(su.coder, su.statics, Hpack.Decoder(k, Hpack.EntryInit), Flatten(chunks));
    assert [] + r.events == r.events;
  }

  /**
   * From header list to header list: whatever buffers the encoder was given, once
   * it has finished a block, the decoder reports what `BlockReport` says of the list,
   * as one block of the stream, and its dynamic table is the encoder's, whether or
   * not the list is well formed.
   */
  lemma HeaderListRoundTrip(su: Setup, d: Decoder, h: Head, mode: HpackEncoder.HuffmanMode, p: HpackEncoder.Pending,
                            hs: seq<Header>, ls: seq<HpackEncoder.Lookup>, spaces: seq<nat>, s: Bytes)
    requires Idle(d) && d.hpack.entry == Hpack.EntryInit && d.limits.maxFrame <= PAYLOAD_MAX
    requires ValidHead(h) && Welcome(su.isServer, d.limits.enablePush, h)
    requires Hpack.CoderCorrect(su.coder) && HpackEncoder.Shared(su.statics, d.hpack.core.table)
    requires HpackEncoder.BlockSound(su.coder, su.statics, d.hpack.core.table, p, hs, ls)
    requires forall n | n in HpackEncoder.Announced(p) :: n <= d.hpack.core.limit
    requires HpackEncoder.EncodeBlock(su.coder, mode, d.hpack.core.table, p, hs, ls).Encoded?
    requires var block := HpackEncoder.EncodeBlock(su.coder, mode, d.hpack.core.table, p, hs, ls).bytes;
             FillAll(h, Progress(true, block, false), spaces, d.limits.maxFrame).0.done
    ensures var e := HpackEncoder.EncodeBlock(su.coder, mode, d.hpack.core.table, p, hs, ls);
            var fragments := FillAll(h, Progress(true, e.bytes, false), spaces, d.limits.maxFrame).1;
            var d' := d.(hpack := Hpack.Decoder(d.hpack.core.(table := e.table), Hpack.EntryInit));
            && Idle(d')
            && Decode(su, d, Wire(h, true, fragments, true) + s) ==
               Then(BlockReport(su.isServer, h, hs), Decode(su, d', s))
  {
    hide Decode, Hpack.DecodeAll, TakeShare, BlockReport, BlockBegin, Wire, FillAll, HpackEncoder.EncodeBlock,
         HpackEncoder.Shared;
    var k := d.hpack.core;
    var e := HpackEncoder.EncodeBlock(su.coder, mode, k.table, p, hs, ls);
    var start := Progress(true, e.bytes, false);
    FragmentsMakeBlock(h, start, spaces, d.limits.maxFrame);
    var (p', fragments) := FillAll(h, start, spaces, d.limits.maxFrame);
    assert Flatten(fragments) == e.bytes;
    BlockDecodes(su, k, mode, p, hs, ls, fragments);
    ListReported(su.isServer, h, HpackEncoder.Announced(p), hs);
    BlockRoundTrip(su, d, h, fragments, s);
  }

  /**
   * Whatever buffers the encoder was given, a finished header block is reported if and only if it is not a promise, or
   * one that is welcome: the encoder makes a promise of any stream, and the decoder refuses one of an odd stream.
   */
  lemma HeaderListExactly(su: Setup, d: Decoder, h: Head, mode: HpackEncoder.HuffmanMode, p: HpackEncoder.Pending,
                          hs: seq<Header>, ls: seq<HpackEncoder.Lookup>, spaces: seq<nat>, s: Bytes)
    requires Idle(d) && d.hpack.entry == Hpack.EntryInit && d.limits.maxFrame <= PAYLOAD_MAX && ValidHead(h)
    requires Hpack.CoderCorrect(su.coder) && HpackEncoder.Shared(su.statics, d.hpack.core.table)
    requires HpackEncoder.BlockSound(su.coder, su.statics, d.hpack.core.table, p, hs, ls)
    requires forall n | n in HpackEncoder.Announced(p) :: n <= d.hpack.core.limit
    requires HpackEncoder.EncodeBlock(su.coder, mode, d.hpack.core.table, p, hs, ls).Encoded?
    requires var block := HpackEncoder.EncodeBlock(su.coder, mode, d.hpack.core.table, p, hs, ls).bytes;
             FillAll(h, Progress(true, block, false), spaces, d.limits.maxFrame).0.done
    ensures var e := HpackEncoder.EncodeBlock(su.coder, mode, d.hpack.core.table, p, hs, ls);
            var fragments := FillAll(h, Progress(true, e.bytes, false), spaces, d.limits.maxFrame).1;
            var d' := d.(hpack := Hpack.Decoder(d.hpack.core.(table := e.table), Hpack.EntryInit));
            var welcome, r := Welcome(su.isServer, d.limits.enablePush, h),
                Decode(su, d, Wire(h, true, fragments, true) + s);
            && Idle(d')
            && (r == Then(BlockReport(su.isServer, h, hs), Decode(su, d', s)) <==> welcome)
            && (!welcome ==> r == Run([], Failed(ProtocolError)))
  {
    hide Decode, Hpack.DecodeAll, ReportOf, Wire, FillAll, HpackEncoder.EncodeBlock, HpackEncoder.Shared, WithinLimit;
    var e := HpackEncoder.EncodeBlock(su.coder, mode, d.hpack.core.table, p, hs, ls);
    var start := Progress(true, e.bytes, false);
    if Welcome(su.isServer, d.limits.enablePush, h) {
      HeaderListRoundTrip(su, d, h, mode, p, hs, ls, spaces, s);
    } else {
      FragmentsMakeBlock(h, start, spaces, d.limits.maxFrame);
      BlockUnwelcome(su, d, h, FillAll(h, start, spaces, d.limits.maxFrame).1, s);
      ReportBegins(su.isServer, h, hs);
    }
  }

  lemma ReportBegins(isServer: bool, h: Head, hs: seq<Header>)
    ensures BlockReport(isServer, h, hs) != []
  {
    hide H2Fields.Whole;
  }
}
