/**
 * Runs of an HTTP/2 connection's output: streams are activated and reset, frames
 * are queued and written, and DATA is written in rounds. All of it happens on one
 * thread; a round is a loop over the streams, and what the loop calls may queue
 * frames, as a failed read of a body queues RST_STREAM.
 */
module WireRuns {
  import opened Octets
  import opened WireOrder

  /**
   * `round` is the number of frames queued when the current round of DATA began.
   * `headers` maps each stream that was activated to its HEADERS, `known` are the
   * streams ever met, and `sending` those that may still send DATA.
   */
  datatype Sender = Sender(o: Output, round: Option<nat>, headers: map<nat, Frame>, known: set<nat>, sending: set<nat>)

  datatype Event =
    | Queue(high: bool)
    | Activate(stream: nat, body: bool)
    | Reset(stream: nat)
    | Drop(stream: nat)
    | Write(pieces: nat, complete: bool)
    | BeginRound
    | SendData(stream: nat, end: bool)
    | EndRound

  /** A round begins when the queue is empty. Streams are activated, and queued frames written, outside of rounds. */
  predicate Enabled(s: Sender, e: Event) {
    match e
    case Queue(_) => true
    case Activate(stream, _) => s.round == None && stream !in s.known
    case Reset(_) => true
    case Drop(_) => true
    case Write(_, _) => s.round == None && s.o.queue != []
    case BeginRound => s.round == None && s.o.queue == []
    case SendData(stream, _) => s.round != None && stream in s.sending
    case EndRound => s.round != None
  }

  function QueueControl(s: Sender, high: bool): Sender {
    s.(o := Enqueue(s.o, high, Control))
  }

  function ActivateStream(s: Sender, stream: nat, body: bool): Sender {
    s.(o := Enqueue(s.o, false, Headers(stream)),
       headers := s.headers[stream := Frame(s.o.count, false, Headers(stream))],
       known := s.known + {stream},
       sending := if body then s.sending + {stream} else s.sending)
  }

  /** RST_STREAM is queued, and the stream sends no more. */
  function QueueReset(s: Sender, stream: nat): Sender {
    s.(o := Enqueue(s.o, false, ResetStream(stream)), known := s.known + {stream}, sending := s.sending - {stream})
  }

  function SendFrom(s: Sender, stream: nat, end: bool): Sender
    requires s.round != None
  {
    s.(o := WriteData(s.o, stream, s.round.value), sending := if end then s.sending - {stream} else s.sending)
  }

  function Next(s: Sender, e: Event): Sender
    requires Enabled(s, e)
  {
    match e
    case Queue(high) => QueueControl(s, high)
    case Activate(stream, body) => ActivateStream(s, stream, body)
    case Reset(stream) => QueueReset(s, stream)
    case Drop(stream) => s.(sending := s.sending - {stream})
    case Write(pieces, complete) => s.(o := Attempt(s.o, pieces, complete))
    case BeginRound => s.(round := Some(s.o.count))
    case SendData(stream, end) => SendFrom(s, stream, end)
    case EndRound => s.(round := None)
  }

  ghost predicate Begin(s: Sender) {
    Start(s.o) && s == Sender(s.o, None, map[], {}, {})
  }

  // ----- the invariant

  /** The frame waits, or its encoding has begun. */
  ghost predicate Seen(o: Output, f: Frame) {
    f in o.queue || f in o.starts
  }

  ghost predicate OpenedOk(s: Sender) {
    && s.sending <= s.headers.Keys <= s.known
    && (forall t | t in s.headers ::
          && s.headers[t].kind == Headers(t) && !s.headers[t].high && s.headers[t].id < s.o.count
          && Seen(s.o, s.headers[t]))
  }

  /** What the frames of a stream say about it. */
  ghost predicate FrameOk(s: Sender, f: Frame) {
    match f.kind
    case Headers(t) => t in s.headers && s.headers[t] == f
    case ResetStream(t) => !f.high && t in s.known && t !in s.sending && (t in s.headers ==> s.headers[t].id < f.id)
    case Control => true
  }

  ghost predicate FramesOk(s: Sender) {
    forall f | Seen(s.o, f) :: FrameOk(s, f)
  }

  /** DATA of a stream was sent in a round that began after its HEADERS were queued. */
  ghost predicate DataOk(s: Sender) {
    forall i | 0 <= i < |s.o.wire| && s.o.wire[i].Data? ::
      s.o.wire[i].stream in s.headers && s.headers[s.o.wire[i].stream].id < s.o.wire[i].base
  }

  /** DATA of a stream was sent before its RST_STREAM was queued. */
  ghost predicate ResetsOk(s: Sender) {
    forall i, f | 0 <= i < |s.o.wire| && s.o.wire[i].Data? && Seen(s.o, f) &&
        f.kind == ResetStream(s.o.wire[i].stream) ::
      s.o.wire[i].count <= f.id
  }

  ghost predicate RoundOk(s: Sender) {
    s.round != None ==>
      InRound(s.o, s.round.value) && forall t | t in s.sending :: t in s.headers && s.headers[t].id < s.round.value
  }

  ghost predicate Ok(s: Sender) {
    Inv(s.o) && OpenedOk(s) && FramesOk(s) && DataOk(s) && ResetsOk(s) && RoundOk(s)
  }

  // ----- what the operations change

  lemma EnqueueSeen(o: Output, high: bool, kind: Kind)
    ensures var o', n := Enqueue(o, high, kind), Frame(o.count, high, kind);
            && (forall f :: Seen(o', f) <==> Seen(o, f) || f == n)
            && o'.wire == o.wire && o'.count == o.count + 1 && o'.current == o.current && |o'.queue| == |o.queue| + 1
            && (forall i | 0 <= i < |o'.queue| :: o'.queue[i] == n || o'.queue[i] in o.queue)
  {
    var o', n := Enqueue(o, high, kind), Frame(o.count, high, kind);
    var k := if high then Passed(o.queue, o.current) else |o.queue|;
    assert o'.queue == o.queue[..k] + [n] + o.queue[k..];
    assert o.queue == o.queue[..k] + o.queue[k..];
    assert forall f :: f in o'.queue <==> f in o.queue || f == n;
  }

  lemma AttemptSeen(o: Output, pieces: nat, complete: bool)
    requires QueueOk(o) && StartsOk(o) && o.queue != []
    ensures var o' := Attempt(o, pieces, complete);
            && (forall f :: Seen(o', f) <==> Seen(o, f))
            && o'.count == o.count && o.wire <= o'.wire
            && forall i | |o.wire| <= i < |o'.wire| :: o'.wire[i].Piece?
  {
    hide Classed, InStartOrder;
    var o' := Attempt(o, pieces, complete);
    assert o.queue == [o.queue[0]] + o.queue[1..];
    assert o.encoding == Some(o.queue[0]) ==> o.queue[0] in o.starts;
    assert o.encoding != Some(o.queue[0]) ==> o'.starts == o.starts + [o.queue[0]];
    forall f ensures Seen(o', f) <==> Seen(o, f) {
    }
  }

  /** The frame being queued is newer than all. */
  lemma SeenIsOlder(o: Output, f: Frame)
    requires Inv(o) && Seen(o, f)
    ensures f.id < o.count
  {
    hide WireOk, Classed, InStartOrder;
  }

  lemma EnqueueInRound(o: Output, base: nat, high: bool, kind: Kind)
    requires InRound(o, base)
    ensures InRound(Enqueue(o, high, kind), base)
  {
    hide Enqueue;
    EnqueueSeen(o, high, kind);
  }

  lemma QueueKeeps(s: Sender, high: bool)
    requires Ok(s)
    ensures Ok(QueueControl(s, high))
  {
    hide Inv, Enqueue, InRound, Seen;
    EnqueueSeen(s.o, high, Control);
    EnqueueKeeps(s.o, high, Control);
    if s.round != None {
      EnqueueInRound(s.o, s.round.value, high, Control);
    }
  }

  lemma ActivateKeeps(s: Sender, stream: nat, body: bool)
    requires Ok(s) && s.round == None && stream !in s.known
    ensures Ok(ActivateStream(s, stream, body))
  {
    hide Inv, Enqueue, InRound, Seen;
    EnqueueSeen(s.o, false, Headers(stream));
    EnqueueKeeps(s.o, false, Headers(stream));
  }

  lemma ResetKeeps(s: Sender, stream: nat)
    requires Ok(s)
    ensures Ok(QueueReset(s, stream))
  {
    hide Inv, Enqueue, InRound, Seen;
    EnqueueSeen(s.o, false, ResetStream(stream));
    EnqueueKeeps(s.o, false, ResetStream(stream));
    if s.round != None {
      EnqueueInRound(s.o, s.round.value, false, ResetStream(stream));
    }
    DataIsOlder(s.o);
  }

  lemma DataIsOlder(o: Output)
    requires Inv(o)
    ensures forall i | 0 <= i < |o.wire| && o.wire[i].Data? :: o.wire[i].count <= o.count
  {
    hide QueueOk, StartsOk, WireOrdered, Contiguous;
  }

  lemma WriteKeeps(s: Sender, pieces: nat, complete: bool)
    requires Ok(s) && s.round == None && s.o.queue != []
    ensures Ok(s.(o := Attempt(s.o, pieces, complete)))
  {
    hide QueueOk, WireOk, StartsOk, Attempt, InRound, Seen;
    AttemptSeen(s.o, pieces, complete);
    AttemptKeeps(s.o, pieces, complete);
  }

  lemma EmptyBegins(o: Output)
    requires Inv(o) && o.queue == []
    ensures InRound(o, o.count)
  {
    hide Classed, WireOrdered, Contiguous, StartsOk;
  }

  lemma BeginKeeps(s: Sender)
    requires Ok(s) && s.round == None && s.o.queue == []
    ensures Ok(s.(round := Some(s.o.count)))
  {
    hide Inv, InRound, Seen;
    assert InRound(s.o, s.o.count) by { EmptyBegins(s.o); }
  }

  lemma SendKeeps(s: Sender, stream: nat, end: bool)
    requires Ok(s) && s.round != None && stream in s.sending
    ensures Ok(SendFrom(s, stream, end))
  {
    hide Inv, InRound, Seen;
    var s' := SendFrom(s, stream, end);
    DataKeeps(s.o, stream, s.round.value);
    assert forall f :: Seen(s'.o, f) <==> Seen(s.o, f) by { DataSeen(s.o, stream, s.round.value); }
  }

  lemma DataSeen(o: Output, stream: nat, base: nat)
    ensures forall f :: Seen(WriteData(o, stream, base), f) <==> Seen(o, f)
  {
  }

  // ----- runs

  lemma StepKeeps(s: Sender, e: Event)
    requires Ok(s) && Enabled(s, e)
    ensures Ok(Next(s, e))
  {
    match e {
      case Queue(high) => QueueKeeps(s, high);
      case Activate(stream, body) => ActivateKeeps(s, stream, body);
      case Reset(stream) => ResetKeeps(s, stream);
      case Drop(stream) => DropKeeps(s, stream);
      case Write(pieces, complete) => WriteKeeps(s, pieces, complete);
      case BeginRound => BeginKeeps(s);
      case SendData(stream, end) => SendKeeps(s, stream, end);
      case EndRound => EndKeeps(s);
    }
  }

  lemma DropKeeps(s: Sender, stream: nat)
    requires Ok(s)
    ensures Ok(s.(sending := s.sending - {stream}))
  {
    hide Inv, InRound, Seen;
  }

  lemma EndKeeps(s: Sender)
    requires Ok(s)
    ensures Ok(s.(round := None))
  {
    hide Inv, InRound, Seen;
  }

  ghost predicate IsRun(states: seq<Sender>, events: seq<Event>) {
    && |states| == |events| + 1
    && Begin(states[0])
    && forall k | 0 <= k < |events| :: Enabled(states[k], events[k]) && states[k + 1] == Next(states[k], events[k])
  }

  lemma BeginOk(s: Sender)
    requires Begin(s)
    ensures Ok(s)
  {
    assert Waiting(s.o) == [];
  }

  lemma {:induction false} RunInv(states: seq<Sender>, events: seq<Event>, n: nat)
    requires IsRun(states, events) && n < |states|
    ensures Ok(states[n])
  {
    hide Next, Ok;
    if n == 0 {
      BeginOk(states[0]);
    } else {
      RunInv(states, events, n - 1);
      assert Enabled(states[n - 1], events[n - 1]);
      StepKeeps(states[n - 1], events[n - 1]);
    }
  }

  /**
   * In every run the queue is an optional frame in progress, then high-priority frames, then normal ones, each
   * first in, first out.
   */
  lemma QueueShape(states: seq<Sender>, events: seq<Event>, n: nat)
    requires IsRun(states, events) && n < |states|
    ensures var o := states[n].o;
            && (o.current != None ==> o.queue != [] && o.queue[0] == o.current.value && Waiting(o) == o.queue[1..])
            && (o.current == None ==> Waiting(o) == o.queue)
            && Classed(Waiting(o))
  {
    hide WireOk, StartsOk, Classed, IsRun, FramesOk, OpenedOk, RoundOk;
    RunInv(states, events, n);
  }

  /** The encoder is never asked to begin a frame, or DATA, while it is in the middle of another. */
  lemma NeverPreempted(states: seq<Sender>, events: seq<Event>, n: nat)
    requires IsRun(states, events) && n < |states|
    ensures states[n].o.queue != [] ==> Encodable(states[n].o, states[n].o.queue[0])
    ensures states[n].round != None ==> states[n].o.encoding == None
  {
    hide WireOk, StartsOk, Classed, IsRun, FramesOk, OpenedOk;
    RunInv(states, events, n);
  }

  /**
   * In every run, on the wire: the pieces of a frame are contiguous; frames of one priority are
   * in the order they were queued; and a DATA frame comes after all of every frame queued before
   * its round began, and before all of every frame queued after that.
   */
  lemma WireIsOrdered(states: seq<Sender>, events: seq<Event>, n: nat)
    requires IsRun(states, events) && n < |states|
    ensures Contiguous(states[n].o.wire) && WireOrdered(states[n].o.wire)
  {
    hide QueueOk, StartsOk, Contiguous, WireOrdered, IsRun, FramesOk, OpenedOk, RoundOk;
    RunInv(states, events, n);
  }

  /**
   * When DATA is written, everything queued before it is on the wire if and only if nothing was
   * queued since its round began; otherwise exactly what was queued since is still waiting.
   */
  lemma DataBehindQueue(states: seq<Sender>, events: seq<Event>, n: nat)
    requires IsRun(states, events) && n < |events| && events[n].SendData?
    ensures var s := states[n];
            && s.round != None && s.round.value <= s.o.count
            && (s.o.queue == [] <==> s.o.count == s.round.value)
            && |s.o.queue| == s.o.count - s.round.value
            && forall i | 0 <= i < |s.o.queue| :: s.round.value <= s.o.queue[i].id
  {
    hide Inv, FramesOk, OpenedOk, Next;
    RunInv(states, events, n);
    assert Enabled(states[n], events[n]);
  }

  /** The order one might expect: DATA after everything queued before it was written. */
  ghost predicate BehindAll(wire: seq<Entry>) {
    forall i, j | 0 <= i < j < |wire| && wire[i].Data? && wire[j].Piece? :: wire[i].count <= wire[j].frame.id
  }

  /** The event at `b` begins a round which goes on until the event at `d`. */
  ghost predicate RoundFrom(events: seq<Event>, b: nat, d: nat) {
    b < d <= |events| && events[b].BeginRound? && forall j | b < j < d :: !events[j].EndRound?
  }

  /** Between the beginning of a round and DATA of this round a frame is queued. */
  ghost predicate QueuedInRound(events: seq<Event>, b: nat, q: nat, d: nat) {
    && b < q < d < |events| && RoundFrom(events, b, d) && events[d].SendData?
    && (events[q].Queue? || events[q].Reset?)
  }

  /** A piece of the frame which the event at `q` queued is on the wire. */
  ghost predicate Written(states: seq<Sender>, n: nat, q: nat)
    requires n < |states| && q < |states|
  {
    exists j | 0 <= j < |states[n].o.wire| ::
        states[n].o.wire[j].Piece? && states[n].o.wire[j].frame.id == states[q].o.count
  }

  /** Some frame that is on the wire was queued in a round, before DATA of that round. */
  ghost predicate Overtaken(states: seq<Sender>, events: seq<Event>, n: nat)
    requires n < |states| == |events| + 1
  {
    exists b, q, d | 0 <= b < q < d < n :: QueuedInRound(events, b, q, d) && Written(states, n, q)
  }

  /** Every DATA entry was written by an event of the run, which says how much had been queued. */
  lemma {:induction false} DataIsSent(states: seq<Sender>, events: seq<Event>, n: nat, i: nat) returns (d: nat)
    requires IsRun(states, events) && n < |states| && i < |states[n].o.wire| && states[n].o.wire[i].Data?
    ensures d < n && events[d].SendData? && states[d].round != None
    ensures var e := states[n].o.wire[i]; e.base == states[d].round.value && e.count == states[d].o.count
  {
    assert n > 0;
    assert Enabled(states[n - 1], events[n - 1]);
    if i < |states[n - 1].o.wire| {
      d := DataIsSent(states, events, n - 1, i);
    } else {
      d := n - 1;
    }
  }

  /** What an event wrote stays on the wire. */
  lemma {:induction false} SentIsData(states: seq<Sender>, events: seq<Event>, n: nat, d: nat) returns (i: nat)
    requires IsRun(states, events) && d < n < |states| && events[d].SendData?
    ensures states[d].round != None && i < |states[n].o.wire| && states[n].o.wire[i].Data?
    ensures var e := states[n].o.wire[i]; e.base == states[d].round.value && e.count == states[d].o.count
  {
    assert Enabled(states[n - 1], events[n - 1]);
    if d == n - 1 {
      i := |states[d].o.wire|;
    } else {
      i := SentIsData(states, events, n - 1, d);
    }
  }

  /** A round that is going on was begun by an event. */
  lemma {:induction false} RoundIsBegun(states: seq<Sender>, events: seq<Event>, d: nat) returns (b: nat)
    requires IsRun(states, events) && d < |states| && states[d].round != None
    ensures RoundFrom(events, b, d) && states[b].o.count == states[d].round.value
  {
    assert Enabled(states[d - 1], events[d - 1]);
    if events[d - 1].BeginRound? {
      b := d - 1;
    } else {
      b := RoundIsBegun(states, events, d - 1);
    }
  }

  /** Until a round ends it is the one that was begun, and the number of queued frames grows. */
  lemma {:induction false} RoundGoesOn(states: seq<Sender>, events: seq<Event>, b: nat, d: nat)
    requires IsRun(states, events) && RoundFrom(events, b, d)
    ensures states[d].round == Some(states[b].o.count) && states[b].o.count <= states[d].o.count
  {
    assert Enabled(states[d - 1], events[d - 1]);
    if b < d - 1 {
      RoundGoesOn(states, events, b, d - 1);
    }
  }

  /** Each frame numbered since a round began was queued by an event of the round. */
  lemma {:induction false} NumberIsQueued(states: seq<Sender>, events: seq<Event>, b: nat, d: nat, id: nat)
    returns (q: nat)
    requires IsRun(states, events) && RoundFrom(events, b, d) && states[b].o.count <= id < states[d].o.count
    ensures b < q < d && (events[q].Queue? || events[q].Reset?) && states[q].o.count == id
  {
    assert Enabled(states[d - 1], events[d - 1]);
    if b < d - 1 {
      RoundGoesOn(states, events, b, d - 1);
    }
    if id < states[d - 1].o.count {
      q := NumberIsQueued(states, events, b, d - 1, id);
    } else {
      q := d - 1;
    }
  }

  lemma {:induction false} CountGrows(states: seq<Sender>, events: seq<Event>, q: nat, d: nat)
    requires IsRun(states, events) && q <= d < |states|
    ensures states[q].o.count <= states[d].o.count
  {
    if q < d {
      assert Enabled(states[d - 1], events[d - 1]);
      CountGrows(states, events, q, d - 1);
    }
  }

  /** A frame queued in a round, before DATA of this round, follows that DATA on the wire. */
  lemma OvertakenFollows(states: seq<Sender>, events: seq<Event>, n: nat, b: nat, q: nat, d: nat)
    requires IsRun(states, events) && d < n < |states| && QueuedInRound(events, b, q, d) && Written(states, n, q)
    ensures !BehindAll(states[n].o.wire)
  {
    var wire := states[n].o.wire;
    var j :| 0 <= j < |wire| && wire[j].Piece? && wire[j].frame.id == states[q].o.count;
    var i := SentIsData(states, events, n, d);
    RoundGoesOn(states, events, b, d);
    RoundGoesOn(states, events, b, q);
    assert Enabled(states[q], events[q]);
    CountGrows(states, events, q + 1, d);
    hide IsRun, Contiguous, WireOrdered;
    WireIsOrdered(states, events, n);
    FollowsData(wire, i, j);
  }

  lemma FollowsData(wire: seq<Entry>, i: nat, j: nat)
    requires WireOrdered(wire) && i < |wire| && j < |wire| && wire[i].Data? && wire[j].Piece?
    requires wire[i].base <= wire[j].frame.id
    ensures i < j
  {
  }

  /**
   * That order holds if and only if no frame that is on the wire was queued between the beginning of a round and DATA
   * of that round.
   */
  lemma BehindAllUnlessOvertaken(states: seq<Sender>, events: seq<Event>, n: nat)
    requires IsRun(states, events) && n < |states|
    ensures BehindAll(states[n].o.wire) <==> !Overtaken(states, events, n)
  {
    assert |states| == |events| + 1;
    hide IsRun, Contiguous;
    var wire := states[n].o.wire;
    if Overtaken(states, events, n) {
      var b, q, d :| 0 <= b < q < d < n && QueuedInRound(events, b, q, d) && Written(states, n, q);
      OvertakenFollows(states, events, n, b, q, d);
    }
    forall i, j | 0 <= i < j < |wire| && wire[i].Data? && wire[j].Piece? && wire[j].frame.id < wire[i].count
      ensures Overtaken(states, events, n)
    {
      WireIsOrdered(states, events, n);
      assert Ordered(wire[i], wire[j]);
      var d := DataIsSent(states, events, n, i);
      var b := RoundIsBegun(states, events, d);
      var q := NumberIsQueued(states, events, b, d, wire[j].frame.id);
      assert QueuedInRound(events, b, q, d) && Written(states, n, q);
    }
  }

  /** In every run, frames reach the wire in the order in which their encoding, and with it HPACK, began, each once. */
  lemma HpackOrderIsWireOrder(states: seq<Sender>, events: seq<Event>, n: nat)
    requires IsRun(states, events) && n < |states|
    ensures InStartOrder(states[n].o.wire, states[n].o.starts)
    ensures forall p, q | 0 <= p < q < |states[n].o.starts| :: states[n].o.starts[p] != states[n].o.starts[q]
  {
    hide QueueOk, WireOk, InStartOrder, IsRun, FramesOk, OpenedOk, RoundOk;
    RunInv(states, events, n);
  }

  /** When DATA of a stream is written, its HEADERS, with all CONTINUATIONs, have been written. */
  lemma HeadersAreComplete(states: seq<Sender>, events: seq<Event>, n: nat)
    requires IsRun(states, events) && n < |events| && events[n].SendData?
    ensures var s, t := states[n], events[n].stream;
            && t in s.headers && s.headers[t].kind == Headers(t)
            && s.headers[t] in s.o.starts && s.headers[t] !in s.o.queue && s.o.encoding == None
  {
    hide WireOk, StartsOk, Classed, FramesOk, Next;
    RunInv(states, events, n);
    assert Enabled(states[n], events[n]);
  }

  lemma PiecesAreSeen(o: Output, j: nat)
    requires Inv(o) && j < |o.wire| && o.wire[j].Piece?
    ensures Seen(o, o.wire[j].frame)
  {
    hide QueueOk, WireOk, InStartOrder;
  }

  /**
   * In every run, for every stream, on the wire: all of HEADERS, then DATA, then RST_STREAM;
   * and there is only one HEADERS frame.
   */
  lemma StreamOrder(states: seq<Sender>, events: seq<Event>, n: nat, t: nat, i: nat, j: nat)
    requires IsRun(states, events) && n < |states|
    requires i < |states[n].o.wire| && j < |states[n].o.wire| && states[n].o.wire[j].Piece?
    ensures var a, f := states[n].o.wire[i], states[n].o.wire[j].frame;
            && (a.Data? && a.stream == t && f.kind == Headers(t) ==> j < i)
            && (a.Data? && a.stream == t && f.kind == ResetStream(t) ==> i < j)
            && (a.Piece? && a.frame.kind == Headers(t) && f.kind == ResetStream(t) ==> i < j)
            && (a.Piece? && a.frame.kind == f.kind == Headers(t) ==> a.frame == f)
  {
    hide IsRun, Seen, Contiguous, Inv;
    RunInv(states, events, n);
    WireIsOrdered(states, events, n);
    var s := states[n];
    var a, b := s.o.wire[i], s.o.wire[j];
    PiecesAreSeen(s.o, j);
    assert FrameOk(s, b.frame);
    if a.Piece? {
      PiecesAreSeen(s.o, i);
      assert FrameOk(s, a.frame);
    } else {
      assert a.base <= a.count by { DataInBounds(s.o, i); }
    }
    assert i < j ==> Ordered(a, b);
    assert j < i ==> Ordered(b, a);
  }

  lemma DataInBounds(o: Output, i: nat)
    requires Inv(o) && i < |o.wire| && o.wire[i].Data?
    ensures o.wire[i].base <= o.wire[i].count <= o.count
  {
    hide QueueOk, StartsOk, WireOrdered, Contiguous;
  }

  // ----- a run in which DATA overtakes

  /** What a body that cannot be read does to the other stream's DATA. */
  const OVERTAKING: seq<Event> :=
    [Activate(1, true), Write(1, true), Activate(3, true), Write(1, true), BeginRound, Reset(1), SendData(3, true),
     EndRound, Write(1, true)]

  /**
   * RST_STREAM is queued in a round of DATA, DATA of another stream is written in the same round, RST_STREAM
   * follows.
   */
  lemma OvertakingIsReachable(s: Sender) returns (states: seq<Sender>)
    requires Begin(s)
    ensures IsRun(states, OVERTAKING)
    ensures Overtaken(states, OVERTAKING, |OVERTAKING|) && !BehindAll(states[|OVERTAKING|].o.wire)
  {
    var s1 := Next(s, OVERTAKING[0]);
    assert s1.o.queue == [Frame(0, false, Headers(1))];
    var s2 := Next(s1, OVERTAKING[1]);
    assert s2.o.queue == [];
    var s3 := Next(s2, OVERTAKING[2]);
    assert s3.o.queue == [Frame(1, false, Headers(3))];
    var s4 := Next(s3, OVERTAKING[3]);
    assert s4.o.queue == [];
    var s5 := Next(s4, OVERTAKING[4]);
    var s6 := Next(s5, OVERTAKING[5]);
    assert s6.o.queue == [Frame(2, false, ResetStream(1))];
    var s7 := Next(s6, OVERTAKING[6]);
    var s8 := Next(s7, OVERTAKING[7]);
    var s9 := Next(s8, OVERTAKING[8]);
    states := [s, s1, s2, s3, s4, s5, s6, s7, s8, s9];
    var w := s9.o.wire;
    assert w == s4.o.wire + [Data(3, 2, 3)] + [Piece(Frame(2, false, ResetStream(1)))];
    var k := |s4.o.wire|;
    assert w[k] == Data(3, 2, 3) && w[k + 1].frame.id == 2;
    assert !BehindAll(w);
    BehindAllUnlessOvertaken(states, OVERTAKING, |OVERTAKING|);
  }
}
