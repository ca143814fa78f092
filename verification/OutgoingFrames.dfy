/**
 * A connection's output as an object: insertion by walking the queue, the loop
 * that encodes frames from its head until the message is full, and the loop that
 * lets streams write DATA in turn once the queue is empty.
 */
module OutgoingFrames {
  import opened Octets
  import opened WireOrder
  import opened WireRuns

  /** What one attempt at a frame does: how many pieces it writes and whether that finishes the frame. */
  datatype Try = Try(pieces: nat, complete: bool)

  datatype Result = Done | EncoderBusy | MessageTooSmall

  /**
   * Attempts from the head of the queue, until it is empty or a frame does not finish; `written` counts pieces
   * so far.
   */
  function Drain(o: Output, tries: nat -> Try, k: nat, written: nat): (Output, Result)
    decreases |o.queue|
  {
    if o.queue == [] then (o, Done)
    else if !Encodable(o, o.queue[0]) then (o, EncoderBusy)
    else
      var t := tries(k);
      var o1 := Attempt(o, t.pieces, t.complete);
      if t.complete then Drain(o1, tries, k + 1, written + t.pieces)
      else (o1, if written + t.pieces == 0 then MessageTooSmall else Done)
  }

  /**
   * The loop keeps the order of the wire, is never refused by the encoder, and stops with a frame in progress
   * or nothing left; it complains exactly if frames are left and nothing at all was written.
   */
  lemma {:induction false} DrainKeeps(o: Output, tries: nat -> Try, k: nat, written: nat)
    requires Inv(o)
    ensures var (o', r) := Drain(o, tries, k, written);
            && Inv(o') && r != EncoderBusy
            && (o'.queue == [] || o'.current == Some(o'.queue[0]))
            && o.wire <= o'.wire && o'.count == o.count
            && (r == MessageTooSmall <==> o'.queue != [] && written == 0 && o'.wire == o.wire)
    decreases |o.queue|
  {
    hide Inv, Attempt;
    if o.queue != [] {
      HeadEncodable(o);
      var t := tries(k);
      var o1 := Attempt(o, t.pieces, t.complete);
      AttemptKeeps(o, t.pieces, t.complete);
      AttemptShrinks(o, t.pieces, t.complete);
      if t.complete {
        DrainKeeps(o1, tries, k + 1, written + t.pieces);
      }
    }
  }

  lemma HeadEncodable(o: Output)
    requires Inv(o) && o.queue != []
    ensures Encodable(o, o.queue[0])
  {
    hide WireOk, StartsOk, Classed;
  }

  lemma AttemptShrinks(o: Output, pieces: nat, complete: bool)
    requires o.queue != []
    ensures var o' := Attempt(o, pieces, complete);
            && (complete ==> o'.queue == o.queue[1..])
            && (!complete ==> o'.queue == o.queue && o'.current == Some(o.queue[0]))
            && o.wire <= o'.wire && |o'.wire| == |o.wire| + pieces && o'.count == o.count
  {
  }

  // ----- a round of DATA

  /** The streams that may send: ready, put by until the round is over, waiting for the user, or for the window. */
  datatype Lists = Lists(ready: seq<nat>, putBy: seq<nat>, waiting: seq<nat>, stalled: seq<nat>)

  datatype Status = Ongoing | BodyStalled | WaitingForWrites | WindowStalled

  /** What happens when a stream is asked for DATA: it is stalled already, its body fails, or it writes. */
  datatype Turn = NoWindow | BodyFails | Writes(end: bool, status: Status)

  function Place(l: Lists, stream: nat, status: Status): Lists {
    match status
    case Ongoing => l.(ready := l.ready + [stream])
    case BodyStalled => l.(putBy := l.putBy + [stream])
    case WaitingForWrites => l.(waiting := l.waiting + [stream])
    case WindowStalled => l.(stalled := l.stalled + [stream])
  }

  function TakeTurn(s: Sender, l: Lists, turn: Turn): (Sender, Lists)
    requires s.round != None && l.ready != []
  {
    var stream, l1 := l.ready[0], l.(ready := l.ready[1..]);
    match turn
    case NoWindow => (s, Place(l1, stream, WindowStalled))
    case BodyFails => (QueueReset(s, stream), l1)
    case Writes(end, status) => (SendFrom(s, stream, end), if end then l1 else Place(l1, stream, status))
  }

  /** Streams take turns until none is ready or the message is full, which is when `turns` end. */
  function Turns(s: Sender, l: Lists, turns: seq<Turn>): (Sender, Lists)
    requires s.round != None
    decreases |turns|
  {
    if l.ready == [] || turns == [] then (s, l)
    else
      var (s1, l1) := TakeTurn(s, l, turns[0]);
      Turns(s1, l1, turns[1..])
  }

  /** A whole round, after which streams that were put by are ready again. */
  function Round(s: Sender, l: Lists, turns: seq<Turn>): (Sender, Lists) {
    var (s1, l1) := Turns(s.(round := Some(s.o.count)), l, turns);
    (s1.(round := None), l1.(ready := l1.ready + l1.putBy, putBy := []))
  }

  function Listed(l: Lists): multiset<nat> {
    multiset(l.ready) + multiset(l.putBy) + multiset(l.waiting) + multiset(l.stalled)
  }

  /** Streams that may send are in one list, and no others are. */
  ghost predicate ListsOk(s: Sender, l: Lists) {
    forall t: nat :: Listed(l)[t] == if t in s.sending then 1 else 0
  }

  /** A list without a stream. */
  function Rid(q: seq<nat>, stream: nat): seq<nat> {
    if q == [] then [] else (if q[0] == stream then [] else [q[0]]) + Rid(q[1..], stream)
  }

  /** A stream taken off the list that it is in. */
  function TakeOff(l: Lists, stream: nat): Lists {
    Lists(Rid(l.ready, stream), Rid(l.putBy, stream), Rid(l.waiting, stream), Rid(l.stalled, stream))
  }

  lemma {:induction false} RidCounts(q: seq<nat>, stream: nat, t: nat)
    ensures multiset(Rid(q, stream))[t] == if t == stream then 0 else multiset(q)[t]
  {
    if q != [] {
      RidCounts(q[1..], stream, t);
      assert q == [q[0]] + q[1..];
    }
  }

  lemma TakeOffCounts(l: Lists, stream: nat, t: nat)
    ensures Listed(TakeOff(l, stream))[t] == if t == stream then 0 else Listed(l)[t]
  {
    RidCounts(l.ready, stream, t);
    RidCounts(l.putBy, stream, t);
    RidCounts(l.waiting, stream, t);
    RidCounts(l.stalled, stream, t);
  }

  /** A stream that may no longer send leaves its list. */
  lemma DropKeepsLists(s: Sender, l: Lists, stream: nat)
    requires ListsOk(s, l)
    ensures ListsOk(Next(s, Drop(stream)), TakeOff(l, stream))
    ensures ListsOk(QueueReset(s, stream), TakeOff(l, stream))
  {
    hide Listed, TakeOff, Enqueue;
    forall t: nat ensures Listed(TakeOff(l, stream))[t] == if t in s.sending - {stream} then 1 else 0 {
      TakeOffCounts(l, stream, t);
    }
  }

  /** A stream that may send again, for its window or for new writes, moves to the end of those that are ready. */
  lemma ResumeKeepsLists(s: Sender, l: Lists, stream: nat)
    requires ListsOk(s, l) && stream in s.sending
    ensures ListsOk(s, Place(TakeOff(l, stream), stream, Ongoing))
  {
    hide Listed, TakeOff, Place;
    PlaceCounts(TakeOff(l, stream), stream, Ongoing);
    forall t: nat ensures Listed(Place(TakeOff(l, stream), stream, Ongoing))[t] == if t in s.sending then 1 else 0 {
      TakeOffCounts(l, stream, t);
    }
  }

  lemma PlaceCounts(l: Lists, stream: nat, status: Status)
    ensures Listed(Place(l, stream, status)) == Listed(l) + multiset{stream}
  {
  }

  lemma FrontCounts(l: Lists)
    requires l.ready != []
    ensures Listed(l) == Listed(l.(ready := l.ready[1..])) + multiset{l.ready[0]}
  {
    assert l.ready == [l.ready[0]] + l.ready[1..];
  }

  lemma TurnKeepsLists(s: Sender, l: Lists, turn: Turn)
    requires ListsOk(s, l) && s.round != None && l.ready != []
    ensures l.ready[0] in s.sending && ListsOk(TakeTurn(s, l, turn).0, TakeTurn(s, l, turn).1)
  {
    hide Listed, Place, Enqueue;
    var l1 := l.(ready := l.ready[1..]);
    FrontCounts(l);
    assert Listed(l)[l.ready[0]] >= 1;
    PlaceCounts(l1, l.ready[0], WindowStalled);
    if turn.Writes? {
      PlaceCounts(l1, l.ready[0], turn.status);
    }
  }

  lemma TurnKeeps(s: Sender, l: Lists, turn: Turn)
    requires Ok(s) && ListsOk(s, l) && s.round != None && l.ready != []
    ensures var (s', l') := TakeTurn(s, l, turn);
            Ok(s') && ListsOk(s', l') && s'.round == s.round && s.o.wire <= s'.o.wire
  {
    hide Ok, ListsOk, Place, Enqueue;
    TurnKeepsLists(s, l, turn);
    var stream := l.ready[0];
    match turn {
      case NoWindow =>
      case BodyFails =>
        StepKeeps(s, Reset(stream));
        assert Enqueue(s.o, false, ResetStream(stream)).wire ==
               s.o.wire by { EnqueueSeen(s.o, false, ResetStream(stream)); }
      case Writes(end, status) => StepKeeps(s, SendData(stream, end));
    }
  }

  lemma ActivateKeepsLists(s: Sender, l: Lists, stream: nat, body: bool, status: Status)
    requires ListsOk(s, l) && stream !in s.sending
    ensures ListsOk(WireRuns.ActivateStream(s, stream, body), if body then Place(l, stream, status) else l)
  {
    hide Listed, Place, Enqueue;
    PlaceCounts(l, stream, status);
  }

  lemma BeginValid(s: Sender)
    requires Begin(s)
    ensures Ok(s) && ListsOk(s, Lists([], [], [], []))
  {
    hide Ok;
    BeginOk(s);
  }

  lemma {:induction false} TurnsKeep(s: Sender, l: Lists, turns: seq<Turn>)
    requires Ok(s) && ListsOk(s, l) && s.round != None
    ensures var (s', l') := Turns(s, l, turns);
            Ok(s') && ListsOk(s', l') && s'.round == s.round && s.o.wire <= s'.o.wire
    decreases |turns|
  {
    hide Ok, ListsOk, TakeTurn;
    if l.ready != [] && turns != [] {
      TurnKeeps(s, l, turns[0]);
      var (s1, l1) := TakeTurn(s, l, turns[0]);
      TurnsKeep(s1, l1, turns[1..]);
    }
  }

  /** A round that begins with an empty queue keeps everything that holds in runs. */
  lemma RoundKeeps(s: Sender, l: Lists, turns: seq<Turn>)
    requires Ok(s) && ListsOk(s, l) && s.round == None && s.o.queue == [] && l.putBy == []
    ensures var (s', l') := Round(s, l, turns);
            Ok(s') && ListsOk(s', l') && s'.round == None && s.o.wire <= s'.o.wire && l'.putBy == []
  {
    hide Ok, Turns;
    StepKeeps(s, BeginRound);
    TurnsKeep(s.(round := Some(s.o.count)), l, turns);
    var (s1, l1) := Turns(s.(round := Some(s.o.count)), l, turns);
    StepKeeps(s1, EndRound);
    assert multiset(l1.ready + l1.putBy) == multiset(l1.ready) + multiset(l1.putBy);
  }

  /** A message filled from the queue is a part of a run like any other. */
  lemma {:induction false} DrainIsRun(s: Sender, tries: nat -> Try, k: nat, written: nat)
    requires Ok(s) && s.round == None
    ensures Ok(s.(o := Drain(s.o, tries, k, written).0))
    decreases |s.o.queue|
  {
    hide Ok, Inv, Attempt;
    if s.o.queue != [] {
      assert Inv(s.o) by { OkHasInv(s); }
      HeadEncodable(s.o);
      var t := tries(k);
      StepKeeps(s, Write(t.pieces, t.complete));
      AttemptShrinks(s.o, t.pieces, t.complete);
      if t.complete {
        DrainIsRun(s.(o := Attempt(s.o, t.pieces, t.complete)), tries, k + 1, written + t.pieces);
      }
    }
  }

  lemma OkHasInv(s: Sender)
    requires Ok(s)
    ensures Inv(s.o)
  {
    hide Inv;
  }

  class FrameWriter {
    var queue: seq<Frame>
    var current: Option<Frame>
    var encoding: Option<Frame>
    var count: nat
    var wire: seq<Entry>
    var starts: seq<Frame>
    var headers: map<nat, Frame>
    var known: set<nat>
    var sending: set<nat>
    var ready: seq<nat>
    var putBy: seq<nat>
    var waiting: seq<nat>
    var stalled: seq<nat>

    function View(): Output
      reads this
    {
      Output(queue, current, encoding, count, wire, starts)
    }

    /** The output between rounds, or in one that began when `round` frames had been queued. */
    function Whole(round: Option<nat>): Sender
      reads this
    {
      Sender(View(), round, headers, known, sending)
    }

    function Streams(): Lists
      reads this
    {
      Lists(ready, putBy, waiting, stalled)
    }

    ghost predicate Valid()
      reads this
    {
      Ok(Whole(None)) && ListsOk(Whole(None), Streams()) && putBy == []
    }

    constructor ()
      ensures Begin(Whole(None)) && Valid()
    {
      queue, current, encoding, count, wire, starts := [], None, None, 0, [], [];
      headers, known, sending, ready, putBy, waiting, stalled := map[], {}, {}, [], [], [], [];
      new;
      hide Ok, ListsOk;
      BeginValid(Whole(None));
    }

    /** Walks past the frame in progress and the high-priority frames. */
    method FindSlot() returns (i: nat)
      ensures i == Passed(queue, current)
    {
      i := 0;
      assert queue[0..] == queue;
      while i < |queue| && (current == Some(queue[i]) || queue[i].high)
        invariant 0 <= i <= |queue| && Passed(queue, current) == i + Passed(queue[i..], current)
      {
        assert queue[i..][1..] == queue[i + 1..];
        i := i + 1;
      }
    }

    method Insert(high: bool, kind: Kind)
      modifies this`queue, this`count
      ensures View() == Enqueue(old(View()), high, kind)
    {
      var f := Frame(count, high, kind);
      if high {
        var i := FindSlot();
        queue := queue[..i] + [f] + queue[i..];
      } else {
        assert queue + [f] == InsertAt(queue, |queue|, f);
        queue := queue + [f];
      }
      count := count + 1;
    }

    method Add(high: bool)
      requires Valid()
      modifies this
      ensures Valid() && Whole(None) == QueueControl(old(Whole(None)), high) && Streams() == old(Streams())
    {
      hide Ok, Enqueue, Listed;
      StepKeeps(Whole(None), Queue(high));
      Insert(high, Control);
    }

    /** A new stream's HEADERS are queued; with a body it joins the streams that are ready, or wait for the user. */
    method ActivateStream(stream: nat, body: bool, waits: bool)
      requires Valid() && stream !in known
      modifies this
      ensures Valid() && Whole(None) == WireRuns.ActivateStream(old(Whole(None)), stream, body)
      ensures Streams() == if !body then old(Streams())
                           else Place(old(Streams()), stream, if waits then WaitingForWrites else Ongoing)
    {
      hide Ok, ListsOk, Enqueue;
      assert stream !in sending by { SendingIsKnown(Whole(None)); }
      StepKeeps(Whole(None), Activate(stream, body));
      ActivateKeepsLists(Whole(None), Streams(), stream, body, if waits then WaitingForWrites else Ongoing);
      headers := headers[stream := Frame(count, false, Headers(stream))];
      known := known + {stream};
      Insert(false, Headers(stream));
      if body {
        sending := sending + {stream};
        if waits {
          waiting := waiting + [stream];
        } else {
          ready := ready + [stream];
        }
      }
    }

    /** A stream that is done sends no more. */
    method DropStream(stream: nat)
      requires Valid()
      modifies this`sending, this`ready, this`waiting, this`stalled
      ensures Valid() && Whole(None) == Next(old(Whole(None)), Drop(stream))
      ensures Streams() == TakeOff(old(Streams()), stream)
    {
      hide Ok, ListsOk;
      StepKeeps(Whole(None), Drop(stream));
      DropKeepsLists(Whole(None), Streams(), stream);
      sending := sending - {stream};
      ready, waiting, stalled := Rid(ready, stream), Rid(waiting, stream), Rid(stalled, stream);
    }

    /** A stream is reset, by the user or for an error, and sends no more. */
    method ResetAndDrop(stream: nat)
      requires Valid()
      modifies this
      ensures Valid() && Whole(None) == QueueReset(old(Whole(None)), stream)
      ensures Streams() == TakeOff(old(Streams()), stream)
    {
      hide Ok, ListsOk, Enqueue;
      StepKeeps(Whole(None), Reset(stream));
      DropKeepsLists(Whole(None), Streams(), stream);
      known, sending := known + {stream}, sending - {stream};
      ready, waiting, stalled := Rid(ready, stream), Rid(waiting, stream), Rid(stalled, stream);
      Insert(false, ResetStream(stream));
    }

    /** A stream's window has opened again, or the user has given it more to write. */
    method Resume(stream: nat)
      requires Valid() && stream in sending
      modifies this`ready, this`waiting, this`stalled
      ensures Valid() && Whole(None) == old(Whole(None))
      ensures Streams() == Place(TakeOff(old(Streams()), stream), stream, Ongoing)
    {
      hide Ok, ListsOk;
      ResumeKeepsLists(Whole(None), Streams(), stream);
      ready, waiting, stalled := Rid(ready, stream), Rid(waiting, stream), Rid(stalled, stream);
      ready := ready + [stream];
    }

    /** One attempt at the frame at the head of the queue. */
    method EncodeHead(t: Try)
      requires queue != []
      modifies this`queue, this`current, this`encoding, this`wire, this`starts
      ensures View() == Attempt(old(View()), t.pieces, t.complete)
    {
      var f := queue[0];
      current := Some(f);
      if encoding != Some(f) {
        starts := starts + [f];
      }
      wire := wire + Pieces(f, t.pieces);
      encoding := if t.complete then None else Some(f);
      if t.complete {
        queue := queue[1..];
        current := None;
      }
    }

    method EncodeQueue(tries: nat -> Try) returns (r: Result)
      requires Valid()
      modifies this`queue, this`current, this`encoding, this`wire, this`starts
      ensures (View(), r) == Drain(old(View()), tries, 0, 0)
      ensures Valid() && r != EncoderBusy
    {
      hide Ok, Inv, Attempt, Encodable, Listed;
      ghost var before := View();
      DrainIsRun(Whole(None), tries, 0, 0);
      OkHasInv(Whole(None));
      DrainKeeps(before, tries, 0, 0);
      var k: nat, written: nat := 0, 0;
      while queue != []
        invariant Drain(before, tries, 0, 0) == Drain(View(), tries, k, written)
        decreases |queue|
      {
        if !Encodable(View(), queue[0]) {
          return EncoderBusy;
        }
        var t := tries(k);
        AttemptShrinks(View(), t.pieces, t.complete);
        EncodeHead(t);
        k, written := k + 1, written + t.pieces;
        if !t.complete {
          return if written == 0 then MessageTooSmall else Done;
        }
      }
      return Done;
    }

    /** The stream at the front takes its turn. A body that cannot be read queues RST_STREAM. */
    method EncodeFromFront(turn: Turn, round: nat)
      requires ready != []
      modifies this
      ensures (Whole(Some(round)), Streams()) == TakeTurn(old(Whole(Some(round))), old(Streams()), turn)
    {
      hide Enqueue;
      var stream := ready[0];
      ready := ready[1..];
      match turn {
        case NoWindow => stalled := stalled + [stream];
        case BodyFails =>
          known, sending := known + {stream}, sending - {stream};
          Insert(false, ResetStream(stream));
        case Writes(end, status) =>
          wire := wire + [Data(stream, round, count)];
          if end {
            sending := sending - {stream};
          } else {
            match status {
              case Ongoing => ready := ready + [stream];
              case BodyStalled => putBy := putBy + [stream];
              case WaitingForWrites => waiting := waiting + [stream];
              case WindowStalled => stalled := stalled + [stream];
            }
          }
      }
    }

    /** The loop over the streams, which does not look at the queue again. */
    method EncodeData(turns: seq<Turn>)
      requires Valid() && queue == []
      modifies this
      ensures (Whole(None), Streams()) == Round(old(Whole(None)), old(Streams()), turns)
      ensures Valid()
    {
      hide Ok, ListsOk, TakeTurn;
      RoundKeeps(Whole(None), Streams(), turns);
      ghost var s, l := Whole(Some(count)), Streams();
      var round, i := count, 0;
      assert turns[0..] == turns;
      while ready != [] && i < |turns|
        invariant 0 <= i <= |turns|
        invariant Turns(s, l, turns) == Turns(Whole(Some(round)), Streams(), turns[i..])
        decreases |turns| - i
      {
        assert turns[i..][0] == turns[i] && turns[i..][1..] == turns[i + 1..];
        TurnKeepsRound(Whole(Some(round)), Streams(), turns[i]);
        EncodeFromFront(turns[i], round);
        i := i + 1;
      }
      ready := ready + putBy;
      putBy := [];
    }

    /** Fills a message: from the queue first, and with DATA only if that leaves the queue empty. */
    method WriteMessage(tries: nat -> Try, mayWriteData: bool, turns: seq<Turn>) returns (r: Result)
      requires Valid()
      modifies this
      ensures Valid() && r != EncoderBusy
      ensures r == Drain(old(View()), tries, 0, 0).1
      ensures var s := old(Whole(None)).(o := Drain(old(View()), tries, 0, 0).0);
              (Whole(None), Streams()) ==
              if r == Done && s.o.queue == [] && mayWriteData then Round(s, old(Streams()), turns)
                  else (s, old(Streams()))
    {
      hide Ok, ListsOk, Drain, Round;
      r := EncodeQueue(tries);
      if r == Done && queue == [] && mayWriteData {
        EncodeData(turns);
      }
    }
  }

  lemma TurnKeepsRound(s: Sender, l: Lists, turn: Turn)
    requires s.round != None && l.ready != []
    ensures TakeTurn(s, l, turn).0.round == s.round
  {
    hide Enqueue;
  }

  lemma SendingIsKnown(s: Sender)
    requires Ok(s)
    ensures s.sending <= s.known
  {
    hide Inv, Seen;
  }
}
