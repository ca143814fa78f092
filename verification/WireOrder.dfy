/**
 * The order in which an HTTP/2 connection puts frames on the wire: a queue of
 * control frames in which high-priority frames overtake normal ones but never a
 * frame that is partly written, and rounds of DATA that begin only when that
 * queue is empty. Frames may be queued while a round goes on.
 */
module WireOrder {
  import opened Octets

  datatype Kind = Headers(stream: nat) | ResetStream(stream: nat) | Control

  /** A frame is known by the number of frames that were put in the queue before it. */
  datatype Frame = Frame(id: nat, high: bool, kind: Kind)

  /**
   * A piece of a frame's encoding, or a DATA frame of a stream: `base` frames had ever been
   * queued when its round began, and `count` when it was written.
   */
  datatype Entry = Piece(frame: Frame) | Data(stream: nat, base: nat, count: nat)

  /**
   * `current` is the frame the connection is writing and `encoding` the one the
   * encoder is in the middle of. `count` frames were ever queued. `starts` are the
   * frames in the order in which their encoding began, which is when a header
   * block goes through HPACK.
   */
  datatype Output = Output(
    queue: seq<Frame>,
    current: Option<Frame>,
    encoding: Option<Frame>,
    count: nat,
    wire: seq<Entry>,
    starts: seq<Frame>)

  // ----- the operations

  /** How many frames at the head of the queue a high-priority frame goes behind. */
  function Passed(queue: seq<Frame>, current: Option<Frame>): (n: nat)
    ensures n <= |queue|
  {
    if queue != [] && (current == Some(queue[0]) || queue[0].high) then 1 + Passed(queue[1..], current) else 0
  }

  function InsertAt(queue: seq<Frame>, n: nat, f: Frame): seq<Frame>
    requires n <= |queue|
  {
    queue[..n] + [f] + queue[n..]
  }

  function Enqueue(o: Output, high: bool, kind: Kind): Output {
    var f := Frame(o.count, high, kind);
    var n := if high then Passed(o.queue, o.current) else |o.queue|;
    o.(queue := InsertAt(o.queue, n, f), count := o.count + 1)
  }

  function Pieces(f: Frame, n: nat): seq<Entry> {
    seq(n, _ => Piece(f))
  }

  /** The encoder refuses to begin a frame while another is unfinished. */
  predicate Encodable(o: Output, f: Frame) {
    o.encoding == None || o.encoding == Some(f)
  }

  /** One attempt at the frame at the head of the queue, which writes some pieces and may finish it. */
  function Attempt(o: Output, pieces: nat, complete: bool): Output
    requires o.queue != []
  {
    var f := o.queue[0];
    var o1 := o.(wire := o.wire + Pieces(f, pieces), starts := if o.encoding == Some(f) then o.starts
                 else o.starts + [f]);
    if complete then o1.(queue := o.queue[1..], current := None, encoding := None)
    else o1.(current := Some(f), encoding := Some(f))
  }

  /** DATA of a stream, in a round that began when `base` frames had been queued. */
  function WriteData(o: Output, stream: nat, base: nat): Output {
    o.(wire := o.wire + [Data(stream, base, o.count)])
  }

  // ----- the shape of the queue

  /** Leading high-priority frames, then normal ones, each in the order they were queued. */
  ghost predicate Classed(queue: seq<Frame>) {
    forall i, j | 0 <= i < j < |queue| ::
      && (queue[j].high ==> queue[i].high)
      && (queue[i].high == queue[j].high ==> queue[i].id < queue[j].id)
  }

  /** The part of the queue that no encoding has begun of. */
  function Waiting(o: Output): seq<Frame> {
    if o.current == None || o.queue == [] then o.queue else o.queue[1..]
  }

  /** An optional frame in progress, then high-priority frames, then normal frames. */
  ghost predicate QueueOk(o: Output) {
    && o.encoding == o.current
    && (o.current != None ==> o.queue != [] && o.queue[0] == o.current.value)
    && Classed(Waiting(o))
    && (o.queue != [] ==> forall j | 1 <= j < |o.queue| :: o.queue[0].high == o.queue[j].high ==>
        o.queue[0].id < o.queue[j].id)
    && (forall i | 0 <= i < |o.queue| :: o.queue[i].id < o.count)
    && (forall i, j | 0 <= i < j < |o.queue| :: o.queue[i].id != o.queue[j].id)
  }

  // ----- the shape of the wire

  /**
   * Two entries in the right order: DATA falls between the frames queued before and after the
   * beginning of its round; equal priorities stay in order.
   */
  predicate Ordered(a: Entry, b: Entry) {
    match (a, b)
    case (Data(_, n, _), Piece(g)) => n <= g.id
    case (Piece(f), Data(_, n, _)) => f.id < n
    case (Piece(f), Piece(g)) => f.high == g.high ==> f.id <= g.id
    case (Data(_, m, _), Data(_, n, _)) => m <= n
  }

  ghost predicate WireOrdered(wire: seq<Entry>) {
    forall i, j | 0 <= i < j < |wire| :: Ordered(wire[i], wire[j])
  }

  /** Nothing falls between two pieces of a frame. */
  ghost predicate Contiguous(wire: seq<Entry>) {
    forall i, j, k | 0 <= i < j < k < |wire| && wire[i].Piece? && wire[i] == wire[k] :: wire[j] == wire[i]
  }

  ghost predicate Before(starts: seq<Frame>, f: Frame, g: Frame) {
    exists p, q | 0 <= p < q < |starts| :: starts[p] == f && starts[q] == g
  }

  ghost predicate Started(starts: seq<Frame>, f: Frame) {
    exists p | 0 <= p < |starts| :: starts[p] == f
  }

  /** Pieces appear in the order in which encodings began. */
  ghost predicate InStartOrder(wire: seq<Entry>, starts: seq<Frame>) {
    forall i, j | 0 <= i < j < |wire| && wire[i].Piece? && wire[j].Piece? && wire[i] != wire[j] ::
      Before(starts, wire[i].frame, wire[j].frame)
  }

  /** What is on the wire comes before everything still waiting. */
  ghost predicate Precedes(wire: seq<Entry>, waiting: seq<Frame>) {
    forall i, j | 0 <= i < |wire| && 0 <= j < |waiting| ::
        Ordered(wire[i], Piece(waiting[j])) && wire[i] != Piece(waiting[j])
  }

  /** While a frame is in progress, nothing but it is on the wire after its first piece. */
  ghost predicate CurrentLast(wire: seq<Entry>, current: Option<Frame>) {
    current != None ==>
      forall i, j | 0 <= i < j < |wire| && wire[i] == Piece(current.value) :: wire[j] == wire[i]
  }

  ghost predicate WireOk(o: Output) {
    && WireOrdered(o.wire) && Contiguous(o.wire) && CurrentLast(o.wire, o.current)
    && Precedes(o.wire, Waiting(o))
    && (forall i | 0 <= i < |o.wire| ::
        if o.wire[i].Piece? then o.wire[i].frame.id < o.count else o.wire[i].base <= o.wire[i].count <= o.count)
    && (o.current != None ==> forall i | 0 <= i < |o.wire| :: Ordered(o.wire[i], Piece(o.current.value)))
  }

  ghost predicate StartsOk(o: Output) {
    && InStartOrder(o.wire, o.starts)
    && (forall i | 0 <= i < |o.wire| && o.wire[i].Piece? :: Started(o.starts, o.wire[i].frame))
    && (o.current != None ==> o.starts != [] && o.starts[|o.starts| - 1] == o.current.value)
    && (forall j | 0 <= j < |Waiting(o)| :: !Started(o.starts, Waiting(o)[j]))
    && (forall p, q | 0 <= p < q < |o.starts| :: o.starts[p] != o.starts[q])
    && (forall p | 0 <= p < |o.starts| :: o.starts[p].id < o.count)
  }

  ghost predicate Inv(o: Output) {
    QueueOk(o) && WireOk(o) && StartsOk(o)
  }

  ghost predicate Start(o: Output) {
    o == Output([], None, None, 0, [], [])
  }

  // ----- queueing

  lemma {:induction false} PassedFrames(queue: seq<Frame>, current: Option<Frame>)
    ensures var n := Passed(queue, current);
            && (forall i | 0 <= i < n :: current == Some(queue[i]) || queue[i].high)
            && (n < |queue| ==> current != Some(queue[n]) && !queue[n].high)
    decreases |queue|
  {
    if queue != [] && (current == Some(queue[0]) || queue[0].high) {
      PassedFrames(queue[1..], current);
      var n := Passed(queue, current);
      forall i | 0 <= i < n ensures current == Some(queue[i]) || queue[i].high {
        if i > 0 {
          assert queue[i] == queue[1..][i - 1];
        }
      }
    }
  }

  lemma InsertKeepsClassed(queue: seq<Frame>, n: nat, f: Frame)
    requires Classed(queue) && n <= |queue|
    requires forall i | 0 <= i < |queue| :: queue[i].id < f.id
    requires if f.high then (forall i | 0 <= i < n :: queue[i].high) && (n < |queue| ==> !queue[n].high)
             else n == |queue|
    ensures Classed(InsertAt(queue, n, f))
  {
    var r := InsertAt(queue, n, f);
    forall i, j | 0 <= i < j < |r|
      ensures (r[j].high ==> r[i].high) && (r[i].high == r[j].high ==> r[i].id < r[j].id)
    {
      var a, b := if i < n then i else i - 1, if j < n then j else j - 1;
      if i != n && j != n {
        assert r[i] == queue[a] && r[j] == queue[b] && a < b;
      } else if j == n {
        assert r[i] == queue[i];
      } else {
        assert r[j] == queue[j - 1];
        assert f.high ==> !queue[j - 1].high;
      }
    }
  }

  /** How many waiting frames a new frame goes behind. */
  function Behind(o: Output, high: bool): int {
    (if high then Passed(o.queue, o.current) else |o.queue|) - (if o.current == None then 0 else 1)
  }

  lemma BehindIsExact(o: Output, high: bool)
    requires QueueOk(o)
    ensures var k := Behind(o, high);
            && 0 <= k <= |Waiting(o)|
            && (if high then (forall i | 0 <= i < k :: Waiting(o)[i].high) && (k < |Waiting(o)| ==> !Waiting(o)[k].high)
                else k == |Waiting(o)|)
  {
    hide Classed;
    PassedFrames(o.queue, o.current);
    var k, w := Behind(o, high), Waiting(o);
    if o.current != None {
      assert forall i | 0 <= i < |w| :: w[i] == o.queue[i + 1] && w[i] != o.queue[0];
    }
  }

  lemma InsertBehindHead(queue: seq<Frame>, n: nat, f: Frame)
    requires 1 <= n <= |queue|
    ensures InsertAt(queue, n, f)[0] == queue[0] && InsertAt(queue, n, f)[1..] == InsertAt(queue[1..], n - 1, f)
  {
  }

  /** A new frame joins the waiting frames behind those it may not pass, and the frame in progress stays in front. */
  lemma EnqueueWaiting(o: Output, high: bool, kind: Kind)
    requires QueueOk(o)
    ensures var f, k := Frame(o.count, high, kind), Behind(o, high);
            && 0 <= k <= |Waiting(o)| && Waiting(Enqueue(o, high, kind)) == InsertAt(Waiting(o), k, f)
            && (o.current != None ==> Enqueue(o, high, kind).queue[0] == o.queue[0])
  {
    BehindIsExact(o, high);
    hide Classed, InsertAt, Passed;
    if o.current != None {
      InsertBehindHead(o.queue, Behind(o, high) + 1, Frame(o.count, high, kind));
    }
  }

  lemma InsertKeepsIds(queue: seq<Frame>, n: nat, f: Frame)
    requires n <= |queue|
    requires forall i | 0 <= i < |queue| :: queue[i].id < f.id
    requires forall i, j | 0 <= i < j < |queue| :: queue[i].id != queue[j].id
    ensures var r := InsertAt(queue, n, f);
            && (forall i | 0 <= i < |r| :: r[i].id <= f.id)
            && (forall i, j | 0 <= i < j < |r| :: r[i].id != r[j].id)
  {
    var r := InsertAt(queue, n, f);
    assert forall i | 0 <= i < n :: r[i] == queue[i];
    assert forall i | n < i < |r| :: r[i] == queue[i - 1];
    forall i, j | 0 <= i < j < |r| ensures r[i].id != r[j].id {
      var a, b := if i < n then i else i - 1, if j < n then j else j - 1;
      if i != n && j != n {
        assert queue[a].id != queue[b].id;
      }
    }
  }

  lemma InsertKeepsHead(queue: seq<Frame>, n: nat, f: Frame)
    requires n <= |queue|
    requires forall i | 0 <= i < |queue| :: queue[i].id < f.id
    requires n == 0 && queue != [] ==> f.high && forall i | 0 <= i < |queue| :: !queue[i].high
    requires queue != [] ==> forall j | 1 <= j < |queue| :: queue[0].high == queue[j].high ==> queue[0].id < queue[j].id
    ensures var r := InsertAt(queue, n, f);
            forall j | 1 <= j < |r| :: r[0].high == r[j].high ==> r[0].id < r[j].id
  {
    var r := InsertAt(queue, n, f);
    assert forall i | 0 <= i < n :: r[i] == queue[i];
    assert forall i | n < i < |r| :: r[i] == queue[i - 1];
  }

  lemma EnqueueKeepsWaiting(o: Output, high: bool, kind: Kind)
    requires QueueOk(o)
    ensures Classed(Waiting(Enqueue(o, high, kind)))
  {
    hide Enqueue, InsertAt, Classed, Behind;
    BehindIsExact(o, high);
    EnqueueWaiting(o, high, kind);
    assert forall i | 0 <= i < |Waiting(o)| :: Waiting(o)[i].id < o.count;
    InsertKeepsClassed(Waiting(o), Behind(o, high), Frame(o.count, high, kind));
  }

  lemma FrontIsNormal(o: Output, high: bool)
    requires QueueOk(o) && (if high then Passed(o.queue, o.current) == 0 else o.queue == [])
    ensures o.queue != [] ==> high && forall i | 0 <= i < |o.queue| :: !o.queue[i].high
  {
    if o.queue != [] {
      assert o.current == None && Waiting(o) == o.queue;
    }
  }

  lemma EnqueueKeepsQueue(o: Output, high: bool, kind: Kind)
    requires QueueOk(o)
    ensures QueueOk(Enqueue(o, high, kind))
  {
    hide Classed, Passed, InsertAt;
    EnqueueWaiting(o, high, kind);
    EnqueueKeepsWaiting(o, high, kind);
    var f := Frame(o.count, high, kind);
    var n := if high then Passed(o.queue, o.current) else |o.queue|;
    if n == 0 {
      FrontIsNormal(o, high);
    }
    InsertKeepsIds(o.queue, n, f);
    InsertKeepsHead(o.queue, n, f);
    InsertNotEmpty(o.queue, n, f);
  }

  lemma InsertNotEmpty(queue: seq<Frame>, n: nat, f: Frame)
    requires n <= |queue|
    ensures |InsertAt(queue, n, f)| == |queue| + 1
  {
  }

  lemma InsertedFrom(queue: seq<Frame>, n: nat, f: Frame, j: nat)
    requires n <= |queue| && j < |InsertAt(queue, n, f)|
    ensures InsertAt(queue, n, f)[j] == f || (exists i | 0 <= i < |queue| :: queue[i] == InsertAt(queue, n, f)[j])
  {
    var r := InsertAt(queue, n, f);
    if j < n {
      assert r[j] == queue[j];
    } else if j > n {
      assert r[j] == queue[j - 1];
    }
  }

  lemma EnqueueKeepsWire(o: Output, high: bool, kind: Kind)
    requires QueueOk(o) && WireOk(o)
    ensures WireOk(Enqueue(o, high, kind))
  {
    hide Contiguous, WireOrdered, CurrentLast, Classed, Passed, InsertAt;
    EnqueueWaiting(o, high, kind);
    var k := Behind(o, high);
    var o', f := Enqueue(o, high, kind), Frame(o.count, high, kind);
    forall i, j | 0 <= i < |o.wire| && 0 <= j < |Waiting(o')|
      ensures Ordered(o.wire[i], Piece(Waiting(o')[j])) && o.wire[i] != Piece(Waiting(o')[j])
    {
      InsertedFrom(Waiting(o), k, f, j);
    }
  }

  lemma EnqueueKeepsStarts(o: Output, high: bool, kind: Kind)
    requires QueueOk(o) && StartsOk(o)
    ensures StartsOk(Enqueue(o, high, kind))
  {
    hide InStartOrder, Classed, Passed, InsertAt;
    EnqueueWaiting(o, high, kind);
    var k := Behind(o, high);
    var o', f := Enqueue(o, high, kind), Frame(o.count, high, kind);
    forall j | 0 <= j < |Waiting(o')| ensures !Started(o.starts, Waiting(o')[j]) {
      InsertedFrom(Waiting(o), k, f, j);
    }
  }

  // ----- writing

  lemma AttemptKeepsQueue(o: Output, pieces: nat, complete: bool)
    requires QueueOk(o) && o.queue != []
    ensures QueueOk(Attempt(o, pieces, complete))
  {
    var o' := Attempt(o, pieces, complete);
    assert Waiting(o') == o.queue[1..];
    assert Classed(o.queue[1..]);
  }

  /** The frame to be written next comes after everything on the wire and before everything waiting. */
  lemma HeadOrder(o: Output)
    requires QueueOk(o) && WireOk(o) && o.queue != []
    ensures forall i | 0 <= i < |o.wire| :: Ordered(o.wire[i], Piece(o.queue[0]))
    ensures forall j | 1 <= j < |o.queue| :: Ordered(Piece(o.queue[0]), Piece(o.queue[j])) && o.queue[0] != o.queue[j]
    ensures CurrentLast(o.wire, Some(o.queue[0]))
  {
    hide Contiguous, WireOrdered;
    if o.current == None {
      assert Waiting(o)[0] == o.queue[0];
    }
  }

  lemma PiecesKeepOrder(wire: seq<Entry>, f: Frame, n: nat)
    requires WireOrdered(wire) && forall i | 0 <= i < |wire| :: Ordered(wire[i], Piece(f))
    ensures WireOrdered(wire + Pieces(f, n))
  {
    var w := wire + Pieces(f, n);
    forall i, j | 0 <= i < j < |w| ensures Ordered(w[i], w[j]) {
    }
  }

  lemma PiecesKeepContiguous(wire: seq<Entry>, f: Frame, n: nat)
    requires Contiguous(wire) && CurrentLast(wire, Some(f))
    ensures Contiguous(wire + Pieces(f, n)) && CurrentLast(wire + Pieces(f, n), Some(f))
  {
    var w := wire + Pieces(f, n);
    forall i, j | 0 <= i < j < |w| && w[i] == Piece(f) ensures w[j] == w[i] {
    }
    forall i, j, k | 0 <= i < j < k < |w| && w[i].Piece? && w[i] == w[k] ensures w[j] == w[i] {
      if k < |wire| {
        assert wire[i] == wire[k];
      }
    }
  }

  lemma AttemptKeepsWire(o: Output, pieces: nat, complete: bool)
    requires QueueOk(o) && WireOk(o) && o.queue != []
    ensures WireOk(Attempt(o, pieces, complete))
  {
    hide Contiguous, WireOrdered, CurrentLast, Classed, Ordered;
    HeadOrder(o);
    var f, o' := o.queue[0], Attempt(o, pieces, complete);
    PiecesKeepOrder(o.wire, f, pieces);
    PiecesKeepContiguous(o.wire, f, pieces);
    assert Waiting(o') == o.queue[1..];
    assert CurrentLast(o'.wire, None) by { NoneCurrent(o'.wire); }
    assert Ordered(Piece(f), Piece(f)) by { SelfOrdered(f); }
    WaitingPrecedes(o);
    forall i, j | 0 <= i < |o'.wire| && 0 <= j < |o.queue[1..]|
      ensures Ordered(o'.wire[i], Piece(o.queue[1..][j])) && o'.wire[i] != Piece(o.queue[1..][j])
    {
      assert o.queue[1..][j] == o.queue[j + 1];
      if i < |o.wire| {
        assert o'.wire[i] == o.wire[i];
      } else {
        assert o'.wire[i] == Piece(f);
      }
    }
  }

  lemma NoneCurrent(wire: seq<Entry>)
    ensures CurrentLast(wire, None)
  {
  }

  lemma SelfOrdered(f: Frame)
    ensures Ordered(Piece(f), Piece(f))
  {
  }

  lemma WaitingPrecedes(o: Output)
    requires QueueOk(o) && WireOk(o) && o.queue != []
    ensures Precedes(o.wire, o.queue[1..])
  {
    hide Contiguous, WireOrdered, CurrentLast, Classed, Ordered;
    forall i, j | 0 <= i < |o.wire| && 0 <= j < |o.queue[1..]|
      ensures Ordered(o.wire[i], Piece(o.queue[1..][j])) && o.wire[i] != Piece(o.queue[1..][j])
    {
      var w := Waiting(o);
      var k := if o.current == None then j + 1 else j;
      assert w[k] == o.queue[1..][j];
      assert Ordered(o.wire[i], Piece(w[k])) && o.wire[i] != Piece(w[k]);
    }
  }

  lemma StartedPush(starts: seq<Frame>, f: Frame, g: Frame)
    ensures Started(starts + [f], g) <==> Started(starts, g) || g == f
  {
    var r := starts + [f];
    if g == f {
      assert r[|starts|] == f;
    }
    if Started(starts, g) {
      var p :| 0 <= p < |starts| && starts[p] == g;
      assert r[p] == g;
    }
  }

  lemma BeforePush(starts: seq<Frame>, f: Frame, g: Frame, h: Frame)
    ensures Before(starts, g, h) ==> Before(starts + [f], g, h)
    ensures Started(starts, g) ==> Before(starts + [f], g, f)
  {
    var r := starts + [f];
    if Before(starts, g, h) {
      var p, q :| 0 <= p < q < |starts| && starts[p] == g && starts[q] == h;
      assert r[p] == g && r[q] == h;
    }
    if Started(starts, g) {
      var p :| 0 <= p < |starts| && starts[p] == g;
      assert r[p] == g && r[|starts|] == f;
    }
  }

  /** A frame whose encoding began last comes after every other frame on the wire. */
  lemma LastStarted(starts: seq<Frame>, f: Frame, g: Frame)
    requires starts != [] && starts[|starts| - 1] == f && Started(starts, g) && g != f
    ensures Before(starts, g, f)
  {
    var p :| 0 <= p < |starts| && starts[p] == g;
    assert p < |starts| - 1;
  }

  function StartsAfter(o: Output): seq<Frame>
    requires o.queue != []
  {
    if o.encoding == Some(o.queue[0]) then o.starts else o.starts + [o.queue[0]]
  }

  lemma StartsGrow(o: Output)
    requires QueueOk(o) && StartsOk(o) && o.queue != []
    ensures var starts := StartsAfter(o);
            && starts != [] && starts[|starts| - 1] == o.queue[0]
            && (forall g :: Started(o.starts, g) ==> Started(starts, g))
            && InStartOrder(o.wire, starts)
            && (forall p, q | 0 <= p < q < |starts| :: starts[p] != starts[q])
            && (forall p | 0 <= p < |starts| :: starts[p].id < o.count)
  {
    var f, starts := o.queue[0], StartsAfter(o);
    if o.encoding != Some(f) {
      forall g | Started(o.starts, g) ensures Started(starts, g) {
        StartedPush(o.starts, f, g);
      }
      forall i, j | 0 <= i < j < |o.wire| && o.wire[i].Piece? && o.wire[j].Piece? && o.wire[i] != o.wire[j]
        ensures Before(starts, o.wire[i].frame, o.wire[j].frame)
      {
        BeforePush(o.starts, f, o.wire[i].frame, o.wire[j].frame);
      }
      assert Waiting(o)[0] == f;
      forall p, q | 0 <= p < q < |starts| ensures starts[p] != starts[q] {
        if q == |o.starts| {
          assert Started(o.starts, o.starts[p]);
        }
      }
    }
  }

  lemma AttemptKeepsStarts(o: Output, pieces: nat, complete: bool)
    requires QueueOk(o) && StartsOk(o) && o.queue != []
    ensures StartsOk(Attempt(o, pieces, complete))
  {
    hide Classed;
    StartsGrow(o);
    var f, starts, o' := o.queue[0], StartsAfter(o), Attempt(o, pieces, complete);
    assert o'.starts == starts;
    assert Started(starts, f);
    forall i | 0 <= i < |o'.wire| && o'.wire[i].Piece? ensures Started(starts, o'.wire[i].frame) {
      if i < |o.wire| {
        assert o'.wire[i] == o.wire[i];
      }
    }
    forall i, j | 0 <= i < j < |o'.wire| && o'.wire[i].Piece? && o'.wire[j].Piece? && o'.wire[i] != o'.wire[j]
      ensures Before(starts, o'.wire[i].frame, o'.wire[j].frame)
    {
      if j < |o.wire| {
        assert o'.wire[i] == o.wire[i] && o'.wire[j] == o.wire[j];
      } else {
        LastStarted(starts, f, o'.wire[i].frame);
      }
    }
    RestNotStarted(o);
  }

  lemma RestNotStarted(o: Output)
    requires QueueOk(o) && StartsOk(o) && o.queue != []
    ensures forall j | 0 <= j < |o.queue[1..]| :: !Started(StartsAfter(o), o.queue[1..][j])
  {
    hide Classed, InStartOrder;
    forall j | 0 <= j < |o.queue[1..]| ensures !Started(StartsAfter(o), o.queue[1..][j]) {
      var w := Waiting(o);
      var k := if o.current == None then j + 1 else j;
      assert w[k] == o.queue[1..][j];
      assert o.queue[j + 1] == w[k] && o.queue[0].id != o.queue[j + 1].id;
      StartedPush(o.starts, o.queue[0], w[k]);
    }
  }

  // ----- DATA

  /** Everything queued before the round is on the wire, and everything queued since is waiting. */
  ghost predicate InRound(o: Output, base: nat) {
    && o.current == None && o.count == base + |o.queue|
    && (forall i | 0 <= i < |o.queue| :: base <= o.queue[i].id)
    && (forall i | 0 <= i < |o.wire| :: if o.wire[i].Piece? then o.wire[i].frame.id < base else o.wire[i].base <= base)
  }

  lemma DataKeepsWire(o: Output, stream: nat, base: nat)
    requires QueueOk(o) && WireOk(o) && InRound(o, base)
    ensures WireOk(WriteData(o, stream, base)) && InRound(WriteData(o, stream, base), base)
  {
    hide Classed;
    var o' := WriteData(o, stream, base);
    assert Waiting(o') == Waiting(o) == o.queue;
    forall i, j | 0 <= i < j < |o'.wire| ensures Ordered(o'.wire[i], o'.wire[j]) {
    }
    forall i, j, k | 0 <= i < j < k < |o'.wire| && o'.wire[i].Piece? && o'.wire[i] == o'.wire[k]
      ensures o'.wire[j] == o'.wire[i]
    {
      assert o.wire[i] == o.wire[k];
    }
  }

  lemma DataKeepsStarts(o: Output, stream: nat, base: nat)
    requires StartsOk(o)
    ensures StartsOk(WriteData(o, stream, base))
  {
    var o' := WriteData(o, stream, base);
    assert Waiting(o') == Waiting(o);
    forall i, j | 0 <= i < j < |o'.wire| && o'.wire[i].Piece? && o'.wire[j].Piece? && o'.wire[i] != o'.wire[j]
      ensures Before(o.starts, o'.wire[i].frame, o'.wire[j].frame)
    {
      assert o.wire[i] != o.wire[j];
    }
  }

  lemma DataKeeps(o: Output, stream: nat, base: nat)
    requires Inv(o) && InRound(o, base)
    ensures Inv(WriteData(o, stream, base)) && InRound(WriteData(o, stream, base), base)
  {
    hide WireOk, StartsOk, InRound, Classed;
    DataKeepsWire(o, stream, base);
    DataKeepsStarts(o, stream, base);
  }

  lemma EnqueueKeeps(o: Output, high: bool, kind: Kind)
    requires Inv(o)
    ensures Inv(Enqueue(o, high, kind))
  {
    hide QueueOk, WireOk, StartsOk, Enqueue;
    EnqueueKeepsQueue(o, high, kind);
    EnqueueKeepsWire(o, high, kind);
    EnqueueKeepsStarts(o, high, kind);
  }

  lemma AttemptKeeps(o: Output, pieces: nat, complete: bool)
    requires Inv(o) && o.queue != []
    ensures Inv(Attempt(o, pieces, complete))
  {
    hide QueueOk, WireOk, StartsOk, Attempt;
    AttemptKeepsQueue(o, pieces, complete);
    AttemptKeepsWire(o, pieces, complete);
    AttemptKeepsStarts(o, pieces, complete);
  }
}
