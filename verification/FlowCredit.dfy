/**
 * One direction of flow-controlled data, from a sender to a receiver: what the
 * sender may still send, what is in flight either way, and what the receiver
 * will accept always add up, whatever initial window sizes are announced meanwhile.
 */
module FlowCredit {
  import opened FlowControl

  // ----- the two ends of a direction, with stream windows relative to the initial size

  datatype Sender = Sender(conn: int, init: nat, rel: map<nat, int>, closed: set<nat>)

  datatype Receiver = Receiver(conn: int, init: nat, pending: seq<seq<nat>>, rel: map<nat, int>, ended: set<nat>,
                               closed: set<nat>)

  function Sending(e: Endpoint): Sender {
    Sender(e.connPeer, e.peerInit, (map s | s in e.streams :: e.streams[s].peer - e.peerInit), e.closed.Keys)
  }

  function Receiving(e: Endpoint): Receiver {
    Receiver(e.connSelf, e.selfInit, e.pending, (map s | s in e.streams :: e.streams[s].self - e.selfInit),
             (set s | s in e.streams && e.streams[s].gotEnd), e.closed.Keys)
  }

  function Known(e: Endpoint): set<nat> {
    e.streams.Keys + e.closed.Keys
  }

  // ----- what is in flight

  function DataOf(f: Frame): nat {
    if f.Data? then f.len else 0
  }

  function DataOnOf(f: Frame, s: nat): nat {
    if f.Data? && f.id == s then f.len else 0
  }

  function CreditOf(f: Frame): nat {
    if f.ConnUpdate? then f.inc else 0
  }

  function CreditOnOf(f: Frame, s: nat): nat {
    if f.StreamUpdate? && f.id == s then f.inc else 0
  }

  function DataIn(fs: seq<Frame>): nat {
    if fs == [] then 0 else DataOf(fs[0]) + DataIn(fs[1..])
  }

  function DataOn(fs: seq<Frame>, s: nat): nat {
    if fs == [] then 0 else DataOnOf(fs[0], s) + DataOn(fs[1..], s)
  }

  function CreditIn(fs: seq<Frame>): nat {
    if fs == [] then 0 else CreditOf(fs[0]) + CreditIn(fs[1..])
  }

  function CreditOn(fs: seq<Frame>, s: nat): nat {
    if fs == [] then 0 else CreditOnOf(fs[0], s) + CreditOn(fs[1..], s)
  }

  function SettingsIn(fs: seq<Frame>): seq<seq<nat>> {
    if fs == [] then []
    else (if fs[0].Settings? then [fs[0].values] else []) + SettingsIn(fs[1..])
  }

  lemma {:induction false} SumsConcat(a: seq<Frame>, b: seq<Frame>, s: nat)
    ensures DataIn(a + b) == DataIn(a) + DataIn(b)
    ensures DataOn(a + b, s) == DataOn(a, s) + DataOn(b, s)
    ensures CreditIn(a + b) == CreditIn(a) + CreditIn(b)
    ensures CreditOn(a + b, s) == CreditOn(a, s) + CreditOn(b, s)
    decreases |a|
  {
    if a == [] {
      assert a + b == b;
    } else {
      assert (a + b)[1..] == a[1..] + b;
      SumsConcat(a[1..], b, s);
    }
  }

  lemma {:induction false} SettingsConcat(a: seq<Frame>, b: seq<Frame>)
    ensures SettingsIn(a + b) == SettingsIn(a) + SettingsIn(b)
    decreases |a|
  {
    if a == [] {
      assert a + b == b;
    } else {
      assert (a + b)[1..] == a[1..] + b;
      SettingsConcat(a[1..], b);
    }
  }

  // ----- what the receiver will be when a frame in flight reaches it

  datatype Ahead = Ahead(init: nat, pending: seq<seq<nat>>, known: set<nat>)

  function LastOr(values: seq<nat>, init: nat): nat {
    if values == [] then init else values[|values| - 1]
  }

  function Advance(f: Frame, h: Ahead): Ahead {
    match f
    case Headers(s, _) => h.(known := h.known + {s})
    case SettingsAck => if h.pending == [] then h
        else h.(init := LastOr(h.pending[0], h.init), pending := h.pending[1..])
    case _ => h
  }

  ghost predicate ValidValues(values: seq<nat>) {
    forall i | 0 <= i < |values| :: values[i] <= MAX_WINDOW
  }

  /** A frame that the receiver will take without a connection error, whatever its windows are by then. */
  ghost predicate Acceptable(f: Frame, h: Ahead) {
    match f
    case Headers(_, _) => true
    case Data(s, len, _) => s in h.known && len <= h.init
    case ConnUpdate(inc) => inc > 0
    case StreamUpdate(s, inc) => s in h.known && inc > 0
    case Settings(values) => ValidValues(values)
    case SettingsAck => h.pending != []
    case Reset(s, error) => s in h.known && error == ProtocolError
  }

  ghost predicate AllAcceptable(fs: seq<Frame>, h: Ahead) {
    fs != [] ==> Acceptable(fs[0], h) && AllAcceptable(fs[1..], Advance(fs[0], h))
  }

  function Arrived(fs: seq<Frame>, h: Ahead): Ahead {
    if fs == [] then h else Arrived(fs[1..], Advance(fs[0], h))
  }

  lemma {:induction false} AheadConcat(a: seq<Frame>, b: seq<Frame>, h: Ahead)
    ensures AllAcceptable(a + b, h) <==> AllAcceptable(a, h) && AllAcceptable(b, Arrived(a, h))
    ensures Arrived(a + b, h) == Arrived(b, Arrived(a, h))
    decreases |a|
  {
    if a == [] {
      assert a + b == b;
    } else {
      assert (a + b)[1..] == a[1..] + b;
      AheadConcat(a[1..], b, Advance(a[0], h));
    }
  }

  lemma AheadPush(fs: seq<Frame>, f: Frame, h: Ahead)
    ensures AllAcceptable(fs + [f], h) <==> AllAcceptable(fs, h) && Acceptable(f, Arrived(fs, h))
    ensures Arrived(fs + [f], h) == Advance(f, Arrived(fs, h))
  {
    AheadConcat(fs, [f], h);
    assert [f][1..] == [];
  }

  /** Knowing more streams and having announced more does no harm. */
  lemma {:induction false} AheadGrows(fs: seq<Frame>, h: Ahead, more: seq<seq<nat>>, known: set<nat>)
    requires AllAcceptable(fs, h) && h.known <= known
    ensures var h' := h.(pending := h.pending + more, known := known);
            && AllAcceptable(fs, h')
            && Arrived(fs, h').init == Arrived(fs, h).init
            && Arrived(fs, h').pending == Arrived(fs, h).pending + more
            && Arrived(fs, h).known <= Arrived(fs, h').known && known <= Arrived(fs, h').known
    decreases |fs|
  {
    if fs != [] {
      var h' := h.(pending := h.pending + more, known := known);
      var n, n' := Advance(fs[0], h), Advance(fs[0], h');
      assert n' == n.(pending := n.pending + more, known := n'.known) by {
        if fs[0].SettingsAck? {
          assert (h.pending + more)[1..] == h.pending[1..] + more;
        }
      }
      AheadGrows(fs[1..], n, more, n'.known);
    }
  }

  // ----- the invariant of a direction

  function Rel(rel: map<nat, int>, s: nat): int {
    if s in rel then rel[s] else 0
  }

  /** Credit on one stream: conserved while both ends have not closed it, and never beyond the initial size. */
  ghost predicate StreamOk(o: Sender, i: Receiver, there: seq<Frame>, back: seq<Frame>, s: nat) {
    && (s in o.rel ==> s !in o.closed && o.rel[s] + MAX_WINDOW >= 0)
    && (s !in o.closed ==> Rel(o.rel, s) + CreditOn(back, s) <= 0)
    && (s in i.rel ==> s !in i.closed && i.rel[s] <= 0 && (s !in i.ended ==> i.rel[s] == 0))
    && (s !in o.closed && s !in i.closed ==> Rel(o.rel, s) + DataOn(there, s) + CreditOn(back, s) == Rel(i.rel, s))
  }

  ghost predicate StreamsOk(o: Sender, i: Receiver, there: seq<Frame>, back: seq<Frame>) {
    forall s: nat :: StreamOk(o, i, there, back, s)
  }

  predicate ConnOk(o: Sender, i: Receiver, there: seq<Frame>, back: seq<Frame>) {
    o.conn >= 0 && i.conn == MAX_WINDOW && o.conn + DataIn(there) + CreditIn(back) == i.conn
  }

  function Facing(i: Receiver): Ahead {
    Ahead(i.init, i.pending, i.rel.Keys + i.closed)
  }

  ghost predicate AheadOk(o: Sender, i: Receiver, there: seq<Frame>, back: seq<Frame>) {
    && o.init <= MAX_WINDOW && i.init <= MAX_WINDOW
    && (forall k | 0 <= k < |i.pending| :: ValidValues(i.pending[k]))
    && AllAcceptable(there, Facing(i))
    && var h := Arrived(there, Facing(i));
       h.init == o.init && h.pending == SettingsIn(back) && o.rel.Keys + o.closed <= h.known
  }

  ghost predicate Balanced(o: Sender, i: Receiver, there: seq<Frame>, back: seq<Frame>) {
    && ConnOk(o, i, there, back)
    && StreamsOk(o, i, there, back)
    && AheadOk(o, i, there, back)
  }

  // ----- steps of the sender

  lemma PushSums(fs: seq<Frame>, f: Frame, s: nat)
    ensures DataIn(fs + [f]) == DataIn(fs) + DataOf(f)
    ensures DataOn(fs + [f], s) == DataOn(fs, s) + DataOnOf(f, s)
    ensures CreditIn(fs + [f]) == CreditIn(fs) + CreditOf(f)
    ensures CreditOn(fs + [f], s) == CreditOn(fs, s) + CreditOnOf(f, s)
  {
    SumsConcat(fs, [f], s);
    assert [f][1..] == [];
  }

  lemma PushSettings(fs: seq<Frame>, f: Frame)
    ensures SettingsIn(fs + [f]) == SettingsIn(fs) + (if f.Settings? then [f.values] else [])
  {
    SettingsConcat(fs, [f]);
    assert [f][1..] == [];
    assert SettingsIn([f]) == if f.Settings? then [f.values] else [];
  }

  /** A frame that carries no data and acknowledges nothing leaves the direction balanced. */
  lemma SendControl(o: Sender, i: Receiver, there: seq<Frame>, back: seq<Frame>, f: Frame)
    requires Balanced(o, i, there, back) && !f.Data? && !f.SettingsAck?
    requires Acceptable(f, Arrived(there, Facing(i)))
    ensures Balanced(o, i, there + [f], back)
  {
    hide DataIn, DataOn, CreditOn, CreditIn, AllAcceptable, Arrived;
    PushSums(there, f, 0);
    forall s: nat ensures StreamOk(o, i, there + [f], back, s) {
      assert StreamOk(o, i, there, back, s);
      PushSums(there, f, s);
    }
    AheadPush(there, f, Facing(i));
  }

  lemma SendOpen(o: Sender, i: Receiver, there: seq<Frame>, back: seq<Frame>, s: nat, end: bool)
    requires Balanced(o, i, there, back) && s !in o.rel && s !in o.closed
    ensures Balanced(o.(rel := o.rel[s := 0]), i, there + [Headers(s, end)], back)
  {
    hide DataIn, DataOn, CreditOn, CreditIn, AllAcceptable, Arrived;
    SendControl(o, i, there, back, Headers(s, end));
    AheadPush(there, Headers(s, end), Facing(i));
    var o', there' := o.(rel := o.rel[s := 0]), there + [Headers(s, end)];
    forall t: nat ensures StreamOk(o', i, there', back, t) {
      assert StreamOk(o, i, there', back, t);
    }
  }

  lemma SendSome(o: Sender, i: Receiver, there: seq<Frame>, back: seq<Frame>, s: nat, len: nat, end: bool)
    requires Balanced(o, i, there, back) && s in o.rel && len <= o.conn && len <= o.init + o.rel[s]
    ensures Balanced(o.(conn := o.conn - len, rel := o.rel[s := o.rel[s] - len]), i, there + [Data(s, len, end)], back)
  {
    hide DataIn, DataOn, CreditOn, CreditIn, AllAcceptable, Arrived;
    var f := Data(s, len, end);
    assert StreamOk(o, i, there, back, s);
    AheadPush(there, f, Facing(i));
    PushSums(there, f, s);
    var o' := o.(conn := o.conn - len, rel := o.rel[s := o.rel[s] - len]);
    forall t: nat ensures StreamOk(o', i, there + [f], back, t) {
      assert StreamOk(o, i, there, back, t);
      PushSums(there, f, t);
    }
  }

  /** A stream closed by the sender. */
  lemma SenderCloses(o: Sender, i: Receiver, there: seq<Frame>, back: seq<Frame>, s: nat)
    requires Balanced(o, i, there, back) && s in o.rel
    ensures Balanced(o.(rel := o.rel - {s}, closed := o.closed + {s}), i, there, back)
  {
    hide DataIn, DataOn, CreditOn, CreditIn, AllAcceptable, Arrived;
    var o' := o.(rel := o.rel - {s}, closed := o.closed + {s});
    forall t: nat ensures StreamOk(o', i, there, back, t) {
      assert StreamOk(o, i, there, back, t);
    }
  }

  /** A frame at the front of the way back that carries no credit and no settings is of no concern to the sender. */
  lemma SkipBack(o: Sender, i: Receiver, there: seq<Frame>, back: seq<Frame>)
    requires Balanced(o, i, there, back) && back != []
    requires !back[0].ConnUpdate? && !back[0].StreamUpdate? && !back[0].Settings?
    ensures Balanced(o, i, there, back[1..])
  {
    hide DataIn, DataOn, AllAcceptable, Arrived;
    forall s: nat ensures StreamOk(o, i, there, back[1..], s) {
      assert StreamOk(o, i, there, back, s);
    }
  }

  /** A stream that the sender learns of. */
  lemma SenderLearns(o: Sender, i: Receiver, there: seq<Frame>, back: seq<Frame>, s: nat)
    requires Balanced(o, i, there, back) && s !in o.rel && s !in o.closed
    requires s in i.rel.Keys + i.closed
    ensures Balanced(o.(rel := o.rel[s := 0]), i, there, back)
  {
    hide DataIn, DataOn, CreditOn, CreditIn;
    var o' := o.(rel := o.rel[s := 0]);
    forall t: nat ensures StreamOk(o', i, there, back, t) {
      assert StreamOk(o, i, there, back, t);
    }
    KnownStays(there, Facing(i));
  }

  lemma {:induction false} KnownStays(fs: seq<Frame>, h: Ahead)
    ensures h.known <= Arrived(fs, h).known
    decreases |fs|
  {
    if fs != [] {
      KnownStays(fs[1..], Advance(fs[0], h));
    }
  }

  lemma TakeConnCredit(o: Sender, i: Receiver, there: seq<Frame>, back: seq<Frame>)
    requires Balanced(o, i, there, back) && back != [] && back[0].ConnUpdate?
    ensures o.conn + back[0].inc <= MAX_WINDOW
    ensures Balanced(o.(conn := o.conn + back[0].inc), i, there, back[1..])
  {
    hide DataIn, DataOn, AllAcceptable, Arrived;
    var o' := o.(conn := o.conn + back[0].inc);
    forall s: nat ensures StreamOk(o', i, there, back[1..], s) {
      assert StreamOk(o, i, there, back, s);
    }
  }

  lemma TakeStreamCredit(o: Sender, i: Receiver, there: seq<Frame>, back: seq<Frame>)
    requires Balanced(o, i, there, back) && back != [] && back[0].StreamUpdate?
    ensures var s, inc := back[0].id, back[0].inc;
            && (s in o.rel ==>
                  && o.init + o.rel[s] + inc <= MAX_WINDOW
                  && Balanced(o.(rel := o.rel[s := o.rel[s] + inc]), i, there, back[1..]))
            && (s in o.closed && s !in o.rel ==> Balanced(o, i, there, back[1..]))
  {
    hide DataIn, DataOn, AllAcceptable, Arrived;
    var s, inc := back[0].id, back[0].inc;
    assert StreamOk(o, i, there, back, s);
    var o' := if s in o.rel then o.(rel := o.rel[s := o.rel[s] + inc]) else o;
    if s in o.rel || s in o.closed {
      forall t: nat ensures StreamOk(o', i, there, back[1..], t) {
        assert StreamOk(o, i, there, back, t);
      }
    }
  }

  /** New initial window sizes take effect at the sender, which acknowledges them. */
  lemma TakeSettings(o: Sender, i: Receiver, there: seq<Frame>, back: seq<Frame>)
    requires Balanced(o, i, there, back) && back != [] && back[0].Settings? && ValidValues(back[0].values)
    ensures Balanced(o.(init := LastOr(back[0].values, o.init)), i, there + [SettingsAck], back[1..])
  {
    hide DataIn, DataOn, AllAcceptable, Arrived;
    var o' := o.(init := LastOr(back[0].values, o.init));
    PushSums(there, SettingsAck, 0);
    forall s: nat ensures StreamOk(o', i, there + [SettingsAck], back[1..], s) {
      assert StreamOk(o, i, there, back, s);
      PushSums(there, SettingsAck, s);
    }
    AheadPush(there, SettingsAck, Facing(i));
    assert SettingsIn(back) == [back[0].values] + SettingsIn(back[1..]);
  }

  // ----- steps of the receiver

  /** A frame on the way back that carries no credit and no settings. */
  lemma BackControl(o: Sender, i: Receiver, there: seq<Frame>, back: seq<Frame>, f: Frame)
    requires Balanced(o, i, there, back) && !f.ConnUpdate? && !f.StreamUpdate? && !f.Settings?
    ensures Balanced(o, i, there, back + [f])
  {
    hide DataIn, DataOn, CreditOn, CreditIn, AllAcceptable, Arrived;
    PushSums(back, f, 0);
    PushSettings(back, f);
    assert SettingsIn(back) + [] == SettingsIn(back);
    forall s: nat ensures StreamOk(o, i, there, back + [f], s) {
      assert StreamOk(o, i, there, back, s);
      PushSums(back, f, s);
    }
  }

  /** A frame that the receiver takes off the way there without any effect on its side of the direction. */
  lemma SkipThere(o: Sender, i: Receiver, there: seq<Frame>, back: seq<Frame>)
    requires Balanced(o, i, there, back) && there != [] && !there[0].Data? && !there[0].SettingsAck? &&
             !there[0].Headers?
    ensures Balanced(o, i, there[1..], back)
  {
    hide CreditOn, CreditIn;
    forall s: nat ensures StreamOk(o, i, there[1..], back, s) {
      assert StreamOk(o, i, there, back, s);
    }
  }

  lemma ReceiverLearns(o: Sender, i: Receiver, there: seq<Frame>, back: seq<Frame>, s: nat)
    requires Balanced(o, i, there, back) && s !in i.closed && s !in i.rel && s !in i.ended
    ensures Balanced(o, i.(rel := i.rel[s := 0]), there, back)
    ensures Balanced(o, i.(rel := i.rel[s := 0], ended := i.ended + {s}), there, back)
  {
    hide DataIn, DataOn, CreditOn, CreditIn, AllAcceptable, Arrived;
    var i1 := i.(rel := i.rel[s := 0]);
    forall t: nat ensures StreamOk(o, i1, there, back, t) && StreamOk(o, i1.(ended := i.ended + {s}), there, back, t) {
      assert StreamOk(o, i, there, back, t);
    }
    var h := Facing(i);
    AheadGrows(there, h, [], h.known + {s});
    assert h.pending + [] == h.pending && Arrived(there, h).pending + [] == Arrived(there, h).pending;
    assert Facing(i1) == h.(pending := h.pending + [], known := h.known + {s});
    assert Facing(i1.(ended := i.ended + {s})) == Facing(i1);
  }

  lemma TakeHeaders(o: Sender, i: Receiver, there: seq<Frame>, back: seq<Frame>)
    requires Balanced(o, i, there, back) && there != [] && there[0].Headers? && there[0].id in i.rel.Keys + i.closed
    ensures Balanced(o, i, there[1..], back)
  {
    hide CreditOn, CreditIn;
    assert Facing(i).known + {there[0].id} == Facing(i).known;
    assert Advance(there[0], Facing(i)) == Facing(i);
    forall s: nat ensures StreamOk(o, i, there[1..], back, s) {
      assert StreamOk(o, i, there, back, s);
    }
  }

  lemma ReceiverEnds(o: Sender, i: Receiver, there: seq<Frame>, back: seq<Frame>, s: nat)
    requires Balanced(o, i, there, back)
    ensures Balanced(o, i.(ended := i.ended + {s}), there, back)
  {
    hide DataIn, DataOn, CreditOn, CreditIn, AllAcceptable, Arrived;
    var i1 := i.(ended := i.ended + {s});
    assert Facing(i1) == Facing(i);
    forall t: nat ensures StreamOk(o, i1, there, back, t) {
      assert StreamOk(o, i, there, back, t);
    }
  }

  lemma ReceiverCloses(o: Sender, i: Receiver, there: seq<Frame>, back: seq<Frame>, s: nat)
    requires Balanced(o, i, there, back) && s in i.rel
    ensures Balanced(o, i.(rel := i.rel - {s}, ended := i.ended - {s}, closed := i.closed + {s}), there, back)
  {
    hide DataIn, DataOn, CreditOn, CreditIn, AllAcceptable, Arrived;
    var i1 := i.(rel := i.rel - {s}, ended := i.ended - {s}, closed := i.closed + {s});
    assert Facing(i1).known == Facing(i).known;
    assert Facing(i1) == Facing(i);
    forall t: nat ensures StreamOk(o, i1, there, back, t) {
      assert StreamOk(o, i, there, back, t);
    }
  }

  /** DATA fits both windows of the receiver when it arrives. */
  lemma DataFits(o: Sender, i: Receiver, there: seq<Frame>, back: seq<Frame>)
    requires Balanced(o, i, there, back) && there != [] && there[0].Data?
    ensures there[0].len <= i.conn && there[0].id in i.rel.Keys + i.closed
    ensures there[0].id in i.rel && there[0].id !in i.ended ==> there[0].len <= i.init + i.rel[there[0].id]
  {
    hide CreditOn, CreditIn;
    assert StreamOk(o, i, there, back, there[0].id);
  }

  /** The credit given back for a DATA frame, for its stream if `more` is to come and for the connection. */
  function CreditFor(s: nat, len: nat, more: bool): seq<Frame> {
    (if more && len != 0 then [StreamUpdate(s, len)] else []) + (if len != 0 then [ConnUpdate(len)] else [])
  }

  lemma CreditForSums(s: nat, len: nat, more: bool, t: nat)
    ensures var fs := CreditFor(s, len, more);
            && CreditIn(fs) == len && CreditOn(fs, t) == (if more && s == t then len else 0)
            && SettingsIn(fs) == []
  {
    if len != 0 {
      var last := [ConnUpdate(len)];
      assert last[1..] == [];
      assert SettingsIn(last) == [] && CreditIn(last) == len && CreditOn(last, t) == 0;
      if more {
        assert ([StreamUpdate(s, len)] + last)[1..] == last;
      } else {
        assert [] + last == last;
      }
    }
  }

  /** DATA is taken: its bytes are credited to the connection again, and to the stream unless it ends or is closed. */
  lemma TakeData(o: Sender, i: Receiver, there: seq<Frame>, back: seq<Frame>, rel: map<nat, int>, ended: set<nat>,
                 more: bool)
    requires Balanced(o, i, there, back) && there != [] && there[0].Data?
    requires var s := there[0].id;
             || (s in i.closed && !more && rel == i.rel && ended == i.ended)
             || (s in i.rel && s !in i.ended && more && rel == i.rel && ended == i.ended)
             || (s in i.rel && s !in i.ended && !more && rel == i.rel[s := i.rel[s] - there[0].len] &&
                 ended == i.ended + {s})
    ensures Balanced(o, i.(rel := rel, ended := ended), there[1..], back + CreditFor(there[0].id, there[0].len, more))
  {
    hide CreditOn, CreditIn, SettingsIn, CreditFor;
    var s, len, i' := there[0].id, there[0].len, i.(rel := rel, ended := ended);
    var extra := CreditFor(s, len, more);
    CreditForSums(s, len, more, s);
    SumsConcat(back, extra, s);
    SettingsConcat(back, extra);
    assert SettingsIn(back) + [] == SettingsIn(back);
    assert Facing(i') == Facing(i);
    forall t: nat ensures StreamOk(o, i', there[1..], back + extra, t) {
      assert StreamOk(o, i, there, back, t);
      CreditForSums(s, len, more, t);
      SumsConcat(back, extra, t);
    }
  }

  lemma TakeAck(o: Sender, i: Receiver, there: seq<Frame>, back: seq<Frame>)
    requires Balanced(o, i, there, back) && there != [] && there[0].SettingsAck?
    ensures i.pending != [] && ValidValues(i.pending[0])
    ensures Balanced(o, i.(init := LastOr(i.pending[0], i.init), pending := i.pending[1..]), there[1..], back)
  {
    hide CreditOn, CreditIn, SettingsIn;
    var i' := i.(init := LastOr(i.pending[0], i.init), pending := i.pending[1..]);
    assert Facing(i') == Advance(there[0], Facing(i));
    forall t: nat ensures StreamOk(o, i', there[1..], back, t) {
      assert StreamOk(o, i, there, back, t);
    }
  }

  lemma Announce(o: Sender, i: Receiver, there: seq<Frame>, back: seq<Frame>, values: seq<nat>)
    requires Balanced(o, i, there, back) && ValidValues(values)
    ensures Balanced(o, i.(pending := i.pending + [values]), there, back + [Settings(values)])
  {
    hide CreditOn, CreditIn, SettingsIn, AllAcceptable, Arrived, DataIn, DataOn;
    var i', f := i.(pending := i.pending + [values]), Settings(values);
    PushSums(back, f, 0);
    PushSettings(back, f);
    AheadGrows(there, Facing(i), [values], Facing(i).known);
    assert Facing(i') == Facing(i).(pending := Facing(i).pending + [values], known := Facing(i).known);
    forall t: nat ensures StreamOk(o, i', there, back + [f], t) {
      assert StreamOk(o, i, there, back, t);
      PushSums(back, f, t);
    }
  }
}
