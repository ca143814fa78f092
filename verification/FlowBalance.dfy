/**
 * What an endpoint may do, and how each of its actions looks from both directions of
 * its connection: whatever it does, both stay balanced.
 */
module FlowBalance {
  import opened FlowControl
  import opened FlowCredit
  import opened FlowOrder

  /** What an endpoint may do of its own accord. */
  datatype Action =
    | Open(s: nat, end: bool)
    | Answering(s: nat, end: bool)
    | Send(s: nat, len: nat, end: bool, space: nat)
    | Change(values: seq<nat>)
    | Abandon(s: nat)
    | Take(arrival: Arrival)

  /** When an endpoint may act; `to` is the channel that leads to it. */
  ghost predicate Enabled(e: Endpoint, to: seq<Frame>, a: Action) {
    match a
    case Open(s, _) => e.client && s !in Known(e)
    case Answering(s, _) => !e.client && s in e.streams && !e.streams[s].sentEnd
    case Send(s, len, _, space) => MaySend(e, s) && len <= MaxPayload(e, s, space)
    case Change(values) => ValidValues(values)
    case Abandon(s) => s in e.streams
    case Take(_) => to != []
  }

  /** What an endpoint's action does to it, and what it sends. */
  function Act(e: Endpoint, to: seq<Frame>, a: Action): Outcome
    requires a.Send? || a.Answering? ==> a.s in e.streams
    requires a.Take? ==> to != []
  {
    match a
    case Open(s, end) => var (e1, out) := OpenStream(e, s, end); Ok(e1, out)
    case Answering(s, end) => var (e1, out) := Respond(e, s, end); Ok(e1, out)
    case Send(s, len, end, _) => var (e1, out) := SendData(e, s, len, end); Ok(e1, out)
    case Change(values) => var (e1, out) := ChangeSettings(e, values); Ok(e1, out)
    case Abandon(s) => var (e1, out) := ResetStream(e, s, ProtocolError); Ok(e1, out)
    case Take(arrival) => Receive(e, to[0], arrival)
  }

  function Rest(to: seq<Frame>, a: Action): seq<Frame>
    requires a.Take? ==> to != []
  {
    if a.Take? then to[1..] else to
  }

  // ----- both directions of one endpoint's channels

  /** `from` leads away from endpoint `e`, `to` leads to it; `f` is the endpoint at the other end. */
  ghost predicate Both(e: Endpoint, f: Endpoint, from: seq<Frame>, to: seq<Frame>) {
    && Balanced(Sending(e), Receiving(f), from, to)
    && Balanced(Sending(f), Receiving(e), to, from)
    && HeadersKnown(from, Known(e)) && HeadersKnown(to, Known(f))
  }

  /** A stream announced on a channel is one that the end it comes from has opened. */
  ghost predicate HeadersKnown(fs: seq<Frame>, known: set<nat>) {
    forall k | 0 <= k < |fs| :: fs[k].Headers? ==> fs[k].id in known
  }

  ghost predicate Harmless(out: seq<Frame>) {
    forall k | 0 <= k < |out| :: out[k].Reset? ==> out[k].error == ProtocolError
  }

  /** A frame on a stream that was closed so long ago that it is no longer remembered. */
  predicate Forgot(e: Endpoint, g: Frame) {
    HasStream(g) && g.id in e.closed && g.id !in e.streams && g.id !in e.recent
  }

  /** The stream of a frame is remembered, and was not ended or reset by its sender before. */
  predicate WellPlaced(e: Endpoint, g: Frame) {
    HasStream(g) ==> (Carries(g, g.id) ==> !Finished(e, g.id)) && !CutOff(e, g.id) && !Forgot(e, g)
  }

  // ----- how endpoint operations look from each direction

  lemma RetireViews(e: Endpoint, s: nat, when: When)
    requires s in e.streams
    ensures var e', keys := Retire(e, s, when), e.closed.Keys + {s};
            && Sending(e') == Sending(e).(rel := Sending(e).rel - {s}, closed := keys)
            && Receiving(e') == Receiving(e).(rel := Receiving(e).rel - {s}, ended := Receiving(e).ended - {s},
                                              closed := keys)
            && Known(e') == Known(e)
  {
    var e' := Retire(e, s, when);
    assert Sending(e').rel == Sending(e).rel - {s};
    assert Receiving(e').rel == Receiving(e).rel - {s};
    assert Receiving(e').ended == Receiving(e).ended - {s};
    assert e'.closed.Keys == e.closed.Keys + {s};
  }

  lemma RetireKeeps(e: Endpoint, f: Endpoint, from: seq<Frame>, to: seq<Frame>, s: nat, when: When)
    requires Both(e, f, from, to) && s in e.streams
    ensures Both(Retire(e, s, when), f, from, to)
  {
    hide Balanced, Retire;
    RetireViews(e, s, when);
    SenderCloses(Sending(e), Receiving(f), from, to, s);
    ReceiverCloses(Sending(f), Receiving(e), to, from, s);
  }

  lemma SettleKeeps(e: Endpoint, f: Endpoint, from: seq<Frame>, to: seq<Frame>, s: nat)
    requires Both(e, f, from, to) && s in e.streams
    ensures Both(Settle(e, s), f, from, to)
  {
    hide Both, Retire;
    if e.streams[s].sentEnd && e.streams[s].gotEnd {
      RetireKeeps(e, f, from, to, s, BothEnded);
    }
  }

  lemma KnownThere(e: Endpoint, f: Endpoint, from: seq<Frame>, to: seq<Frame>, s: nat)
    requires Both(e, f, from, to) && s in Known(e)
    ensures s in Arrived(from, Facing(Receiving(f))).known
  {
    hide Arrived, AllAcceptable, StreamsOk, ConnOk;
    assert Sending(e).rel.Keys + Sending(e).closed == Known(e);
  }

  lemma SendResetKeeps(e: Endpoint, f: Endpoint, from: seq<Frame>, to: seq<Frame>, g: Frame)
    requires Both(e, f, from, to) && g.Reset?
    requires Acceptable(g, Arrived(from, Facing(Receiving(f))))
    ensures Both(e, f, from + [g], to)
  {
    hide Balanced, Arrived, Sending, Receiving;
    SendControl(Sending(e), Receiving(f), from, to, g);
    BackControl(Sending(f), Receiving(e), to, from, g);
  }

  lemma ResetKeeps(e: Endpoint, f: Endpoint, from: seq<Frame>, to: seq<Frame>, s: nat)
    requires Both(e, f, from, to) && s in e.streams
    ensures Both(Retire(e, s, ResetSent), f, from + [Reset(s, ProtocolError)], to)
  {
    hide Both, Retire, Arrived;
    KnownThere(e, f, from, to, s);
    SendResetKeeps(e, f, from, to, Reset(s, ProtocolError));
    RetireKeeps(e, f, from + [Reset(s, ProtocolError)], to, s, ResetSent);
  }

  // ----- opening a stream

  /** A stream new to both views. */
  lemma NewStreamViews(e: Endpoint, s: nat, w: Win)
    requires s !in e.streams && w.peer == e.peerInit && w.self == e.selfInit
    ensures var e' := e.(streams := e.streams[s := w]);
            && Sending(e') == Sending(e).(rel := Sending(e).rel[s := 0])
            && Receiving(e') == Receiving(e).(rel := Receiving(e).rel[s := 0],
                                              ended := if w.gotEnd then Receiving(e).ended + {s}
                                                  else Receiving(e).ended)
  {
    var e' := e.(streams := e.streams[s := w]);
    assert Sending(e').rel == Sending(e).rel[s := 0];
    assert Receiving(e').rel == Receiving(e).rel[s := 0];
    assert Receiving(e').ended == if w.gotEnd then Receiving(e).ended + {s} else Receiving(e).ended;
  }

  lemma OpenKeeps(e: Endpoint, f: Endpoint, from: seq<Frame>, to: seq<Frame>, s: nat, end: bool)
    requires Both(e, f, from, to) && s !in Known(e)
    ensures Both(OpenStream(e, s, end).0, f, from + [Headers(s, end)], to)
  {
    hide Balanced, Sending, Receiving;
    var w := Win(e.peerInit, e.selfInit, end, false);
    NewStreamViews(e, s, w);
    assert s !in Sending(e).rel && s !in Sending(e).closed && s !in Receiving(e).rel && s !in Receiving(e).closed
        && s !in Receiving(e).ended by { ViewKeys(e); }
    SendOpen(Sending(e), Receiving(f), from, to, s, end);
    BackControl(Sending(f), Receiving(e), to, from, Headers(s, end));
    ReceiverLearns(Sending(f), Receiving(e), to, from + [Headers(s, end)], s);
    assert HeadersKnown(from + [Headers(s, end)], Known(OpenStream(e, s, end).0));
  }

  lemma ViewKeys(e: Endpoint)
    ensures Sending(e).rel.Keys == Receiving(e).rel.Keys == e.streams.Keys
    ensures Sending(e).closed == Receiving(e).closed == e.closed.Keys && Receiving(e).ended <= e.streams.Keys
  {
  }

  lemma RespondViews(e: Endpoint, s: nat, end: bool)
    requires s in e.streams
    ensures var e1 := e.(streams := e.streams[s := e.streams[s].(sentEnd := end)]);
            Sending(e1) == Sending(e) && Receiving(e1) == Receiving(e) && Known(e1) == Known(e)
  {
    var e1 := e.(streams := e.streams[s := e.streams[s].(sentEnd := end)]);
    assert Sending(e1).rel == Sending(e).rel;
    assert Receiving(e1).rel == Receiving(e).rel;
    assert Receiving(e1).ended == Receiving(e).ended;
  }

  lemma RespondKeeps(e: Endpoint, f: Endpoint, from: seq<Frame>, to: seq<Frame>, s: nat, end: bool)
    requires Both(e, f, from, to) && s in e.streams
    ensures Both(Respond(e, s, end).0, f, from + [Headers(s, end)], to)
  {
    hide Balanced, Sending, Receiving, Settle;
    var e1 := e.(streams := e.streams[s := e.streams[s].(sentEnd := end)]);
    RespondViews(e, s, end);
    SendControl(Sending(e), Receiving(f), from, to, Headers(s, end));
    BackControl(Sending(f), Receiving(e), to, from, Headers(s, end));
    assert Both(e1, f, from + [Headers(s, end)], to);
    SettleKeeps(e1, f, from + [Headers(s, end)], to, s);
  }

  // ----- sending data

  lemma SendViews(e: Endpoint, s: nat, len: nat, end: bool)
    requires s in e.streams
    ensures var w := e.streams[s];
            var e1 := e.(connPeer := e.connPeer - len,
                         streams := e.streams[s := w.(peer := w.peer - len, sentEnd := end)]);
            && Sending(e1) == Sending(e).(conn := e.connPeer - len, rel := Sending(e).rel[s := Sending(e).rel[s] - len])
            && Receiving(e1) == Receiving(e) && Known(e1) == Known(e)
  {
    var w := e.streams[s];
    var e1 := e.(connPeer := e.connPeer - len, streams := e.streams[s := w.(peer := w.peer - len, sentEnd := end)]);
    assert Sending(e1).rel == Sending(e).rel[s := Sending(e).rel[s] - len];
    assert Receiving(e1).rel == Receiving(e).rel;
    assert Receiving(e1).ended == Receiving(e).ended;
  }

  lemma SendKeeps(e: Endpoint, f: Endpoint, from: seq<Frame>, to: seq<Frame>, s: nat, len: nat, end: bool, space: nat)
    requires Both(e, f, from, to) && MaySend(e, s) && len <= MaxPayload(e, s, space)
    ensures Both(SendData(e, s, len, end).0, f, from + [Data(s, len, end)], to)
  {
    hide Balanced, Settle, Receiving, Known;
    var w := e.streams[s];
    var e1 := e.(connPeer := e.connPeer - len, streams := e.streams[s := w.(peer := w.peer - len, sentEnd := end)]);
    SendViews(e, s, len, end);
    SendSome(Sending(e), Receiving(f), from, to, s, len, end);
    BackControl(Sending(f), Receiving(e), to, from, Data(s, len, end));
    assert Both(e1, f, from + [Data(s, len, end)], to);
    SettleKeeps(e1, f, from + [Data(s, len, end)], to, s);
  }

  // ----- settings

  lemma ChangeKeeps(e: Endpoint, f: Endpoint, from: seq<Frame>, to: seq<Frame>, values: seq<nat>)
    requires Both(e, f, from, to) && ValidValues(values)
    ensures Both(ChangeSettings(e, values).0, f, from + [Settings(values)], to)
  {
    hide Balanced, Arrived;
    var e' := ChangeSettings(e, values).0;
    assert Sending(e') == Sending(e);
    assert Receiving(e') == Receiving(e).(pending := e.pending + [values]);
    SendControl(Sending(e), Receiving(f), from, to, Settings(values));
    Announce(Sending(f), Receiving(e), to, from, values);
  }

  ghost predicate Below(rel: map<nat, int>) {
    forall s | s in rel :: rel[s] <= 0
  }

  lemma ShiftPeerViews(e: Endpoint, v: nat)
    ensures var e' := e.(peerInit := v, streams := ShiftPeer(e.streams, v - e.peerInit));
            Sending(e') == Sending(e).(init := v) && Receiving(e') == Receiving(e) && e'.streams.Keys == e.streams.Keys
  {
    var e' := e.(peerInit := v, streams := ShiftPeer(e.streams, v - e.peerInit));
    assert Sending(e').rel == Sending(e).rel;
    assert Receiving(e').rel == Receiving(e).rel;
    assert Receiving(e').ended == Receiving(e).ended;
  }

  /** Whatever valid sizes the peer announces, no stream window exceeds the maximum, and relative windows stay. */
  lemma {:induction false} ApplyPeerViews(e: Endpoint, values: seq<nat>)
    requires ValidValues(values) && Below(Sending(e).rel)
    ensures var r := ApplyPeer(e, values);
            && r.Ok? && r.out == [] && r.e.streams.Keys == e.streams.Keys
            && Sending(r.e) == Sending(e).(init := LastOr(values, e.peerInit)) && Receiving(r.e) == Receiving(e)
    decreases |values|
  {
    hide Receiving, ShiftPeer;
    if values != [] {
      var v := values[0];
      assert forall s | s in e.streams :: e.streams[s].peer + (v - e.peerInit) <= MAX_WINDOW by {
        forall s | s in e.streams ensures e.streams[s].peer + (v - e.peerInit) <= MAX_WINDOW {
          assert Sending(e).rel[s] <= 0;
        }
      }
      ShiftPeerViews(e, v);
      var e' := if v == e.peerInit then e else e.(peerInit := v, streams := ShiftPeer(e.streams, v - e.peerInit));
      ApplyPeerViews(e', values[1..]);
    }
  }

  lemma ShiftSelfViews(e: Endpoint, v: nat)
    ensures var e' := e.(selfInit := v, streams := ShiftSelf(e.streams, v - e.selfInit));
            Receiving(e') == Receiving(e).(init := v) && Sending(e') == Sending(e) && e'.streams.Keys == e.streams.Keys
  {
    var e' := e.(selfInit := v, streams := ShiftSelf(e.streams, v - e.selfInit));
    assert Sending(e').rel == Sending(e).rel;
    assert Receiving(e').rel == Receiving(e).rel;
    assert Receiving(e').ended == Receiving(e).ended;
  }

  lemma {:induction false} ApplySelfViews(e: Endpoint, values: seq<nat>)
    requires ValidValues(values) && Below(Receiving(e).rel)
    ensures var r := ApplySelf(e, values);
            && r.Ok? && r.out == [] && r.e.streams.Keys == e.streams.Keys
            && Receiving(r.e) == Receiving(e).(init := LastOr(values, e.selfInit)) && Sending(r.e) == Sending(e)
    decreases |values|
  {
    hide Sending, ShiftSelf;
    if values != [] {
      var v := values[0];
      assert forall s | s in e.streams :: e.streams[s].self + (v - e.selfInit) <= MAX_WINDOW by {
        forall s | s in e.streams ensures e.streams[s].self + (v - e.selfInit) <= MAX_WINDOW {
          assert Receiving(e).rel[s] <= 0;
        }
      }
      ShiftSelfViews(e, v);
      var e' := if v == e.selfInit then e else e.(selfInit := v, streams := ShiftSelf(e.streams, v - e.selfInit));
      ApplySelfViews(e', values[1..]);
    }
  }

  lemma BalancedBelow(o: Sender, i: Receiver, there: seq<Frame>, back: seq<Frame>)
    requires Balanced(o, i, there, back)
    ensures Below(o.rel) && Below(i.rel)
  {
    forall s: nat ensures (s in o.rel ==> o.rel[s] <= 0) && (s in i.rel ==> i.rel[s] <= 0) {
      assert StreamOk(o, i, there, back, s);
    }
  }

  lemma FrontAcceptable(o: Sender, i: Receiver, there: seq<Frame>, back: seq<Frame>)
    requires Balanced(o, i, there, back) && there != []
    ensures Acceptable(there[0], Facing(i))
  {
  }

  lemma TakeSettingsKeeps(e: Endpoint, f: Endpoint, from: seq<Frame>, to: seq<Frame>)
    requires Both(e, f, from, to) && to != [] && to[0].Settings?
    ensures var r := OnSettings(e, to[0].values);
            r.Ok? && r.out == [SettingsAck] && Both(r.e, f, from + [SettingsAck], to[1..])
  {
    hide Balanced, Sending, Receiving, ApplyPeer;
    FrontAcceptable(Sending(f), Receiving(e), to, from);
    BalancedBelow(Sending(e), Receiving(f), from, to);
    ApplyPeerViews(e, to[0].values);
    assert Sending(e).init == e.peerInit by { ViewInits(e); }
    TakeSettings(Sending(e), Receiving(f), from, to);
    SkipThere(Sending(f), Receiving(e), to, from);
    BackControl(Sending(f), Receiving(e), to[1..], from, SettingsAck);
    ApplyPeerKnown(e, to[0].values);
  }

  lemma ViewInits(e: Endpoint)
    ensures Sending(e).init == e.peerInit && Receiving(e).init == e.selfInit && Receiving(e).pending == e.pending
  {
  }

  lemma {:induction false} ApplyPeerKnown(e: Endpoint, values: seq<nat>)
    ensures ApplyPeer(e, values).Ok? ==> ApplyPeer(e, values).e.closed == e.closed
    decreases |values|
  {
    if values != [] {
      ApplyPeerKnown(e, values[1..]);
      ApplyPeerKnown(e.(peerInit := values[0], streams := ShiftPeer(e.streams, values[0] - e.peerInit)), values[1..]);
    }
  }

  lemma {:induction false} ApplySelfKnown(e: Endpoint, values: seq<nat>)
    ensures ApplySelf(e, values).Ok? ==> ApplySelf(e, values).e.closed == e.closed
    decreases |values|
  {
    if values != [] {
      ApplySelfKnown(e, values[1..]);
      ApplySelfKnown(e.(selfInit := values[0], streams := ShiftSelf(e.streams, values[0] - e.selfInit)), values[1..]);
    }
  }

  lemma PendingViews(e: Endpoint)
    requires e.pending != []
    ensures var e1 := e.(pending := e.pending[1..]);
            Sending(e1) == Sending(e) && Receiving(e1) == Receiving(e).(pending := e.pending[1..])
  {
  }

  lemma TakeAckKeeps(e: Endpoint, f: Endpoint, from: seq<Frame>, to: seq<Frame>)
    requires Both(e, f, from, to) && to != [] && to[0].SettingsAck?
    ensures var r := OnSettingsAck(e);
            r.Ok? && r.out == [] && Both(r.e, f, from, to[1..])
  {
    hide Balanced, Sending, Receiving, ApplySelf;
    ViewInits(e);
    TakeAck(Sending(f), Receiving(e), to, from);
    BalancedBelow(Sending(f), Receiving(e), to, from);
    PendingViews(e);
    ApplySelfViews(e.(pending := e.pending[1..]), e.pending[0]);
    ApplySelfKnown(e.(pending := e.pending[1..]), e.pending[0]);
    SkipBack(Sending(e), Receiving(f), from, to);
  }

  // ----- receiving the other frames

  /** A frame taken off the channel that neither direction takes note of. */
  lemma TakePlain(e: Endpoint, f: Endpoint, from: seq<Frame>, to: seq<Frame>)
    requires Both(e, f, from, to) && to != [] && (to[0].Reset? || (to[0].Headers? && to[0].id in Known(e)))
    ensures Both(e, f, from, to[1..])
  {
    hide Balanced, Sending, Receiving;
    ViewKeys(e);
    SkipBack(Sending(e), Receiving(f), from, to);
    if to[0].Reset? {
      SkipThere(Sending(f), Receiving(e), to, from);
    } else {
      TakeHeaders(Sending(f), Receiving(e), to, from);
    }
  }

  /** A stream reset in answer to a frame, which is taken off the channel. */
  lemma RefuseKeeps(e: Endpoint, f: Endpoint, from: seq<Frame>, to: seq<Frame>, s: nat)
    requires Both(e, f, from, to) && to != [] && to[0].Headers? && to[0].id == s && s in e.streams
    ensures Both(Retire(e, s, ResetSent), f, from + [Reset(s, ProtocolError)], to[1..])
  {
    hide Both, Retire;
    ResetKeeps(e, f, from, to, s);
    assert s in Known(Retire(e, s, ResetSent)) by { RetireViews(e, s, ResetSent); }
    TakePlain(Retire(e, s, ResetSent), f, from + [Reset(s, ProtocolError)], to);
  }

  lemma TakeResetKeeps(e: Endpoint, f: Endpoint, from: seq<Frame>, to: seq<Frame>)
    requires Both(e, f, from, to) && to != [] && to[0].Reset? && WellPlaced(e, to[0])
    ensures var r := OnReset(e, to[0].id);
            r.Ok? && r.out == [] && Both(r.e, f, from, to[1..])
  {
    hide Balanced, Retire, Sending, Receiving;
    ViewKeys(e);
    FrontAcceptable(Sending(f), Receiving(e), to, from);
    assert Facing(Receiving(e)).known == Known(e);
    TakePlain(e, f, from, to);
    if to[0].id in e.streams {
      RetireKeeps(e, f, from, to[1..], to[0].id, ResetReceived);
    }
  }

  lemma EndViews(e: Endpoint, s: nat)
    requires s in e.streams
    ensures var e1 := e.(streams := e.streams[s := e.streams[s].(gotEnd := true)]);
            && Sending(e1) == Sending(e) && Receiving(e1) == Receiving(e).(ended := Receiving(e).ended + {s})
            && Known(e1) == Known(e)
  {
    var e1 := e.(streams := e.streams[s := e.streams[s].(gotEnd := true)]);
    assert Sending(e1).rel == Sending(e).rel;
    assert Receiving(e1).rel == Receiving(e).rel;
    assert Receiving(e1).ended == Receiving(e).ended + {s};
  }

  lemma EndKeeps(e: Endpoint, f: Endpoint, from: seq<Frame>, to: seq<Frame>, s: nat)
    requires Both(e, f, from, to) && s in e.streams
    ensures Both(e.(streams := e.streams[s := e.streams[s].(gotEnd := true)]), f, from, to)
  {
    hide Balanced, Sending, Receiving;
    EndViews(e, s);
    ReceiverEnds(Sending(f), Receiving(e), to, from, s);
  }

  /** A stream opened by the other end. */
  lemma LearnKeeps(e: Endpoint, f: Endpoint, from: seq<Frame>, to: seq<Frame>, s: nat, end: bool)
    requires Both(e, f, from, to) && s !in Known(e) && s in Known(f)
    ensures Both(e.(streams := e.streams[s := Win(e.peerInit, e.selfInit, false, end)]), f, from, to)
  {
    hide Balanced, Sending, Receiving;
    ViewKeys(e);
    ViewKeys(f);
    NewStreamViews(e, s, Win(e.peerInit, e.selfInit, false, end));
    SenderLearns(Sending(e), Receiving(f), from, to, s);
    ReceiverLearns(Sending(f), Receiving(e), to, from, s);
  }

  lemma TakeStreamHeadersKeeps(e: Endpoint, f: Endpoint, from: seq<Frame>, to: seq<Frame>, a: Arrival)
    requires Both(e, f, from, to) && to != [] && to[0].Headers? && WellPlaced(e, to[0]) && to[0].id in e.streams
    ensures var (e1, out) := OnStreamHeaders(e, to[0].id, to[0].end, a);
            Both(e1, f, from + out, to[1..]) && Harmless(out)
  {
    hide Both, Settle, Retire;
    var s, end := to[0].id, to[0].end;
    assert from + [] == from;
    if a.malformed || (end && a.short) {
      RefuseKeeps(e, f, from, to, s);
    } else {
      TakePlain(e, f, from, to);
      if end {
        EndKeeps(e, f, from, to[1..], s);
        SettleKeeps(e.(streams := e.streams[s := e.streams[s].(gotEnd := true)]), f, from, to[1..], s);
      }
    }
  }

  lemma TakeHeadersKeeps(e: Endpoint, f: Endpoint, from: seq<Frame>, to: seq<Frame>, a: Arrival)
    requires Both(e, f, from, to) && to != [] && to[0].Headers? && WellPlaced(e, to[0])
    requires to[0].id !in Known(e) ==> !e.client
    ensures var r := OnHeaders(e, to[0].id, to[0].end, a);
            r.Ok? && Both(r.e, f, from + r.out, to[1..]) && Harmless(r.out)
  {
    hide Balanced, OnStreamHeaders;
    var s, end := to[0].id, to[0].end;
    assert from + [] == from;
    match Find(e, s) {
      case Active => TakeStreamHeadersKeeps(e, f, from, to, a);
      case Ended(_) => TakePlain(e, f, from, to);
      case Nowhere =>
        LearnKeeps(e, f, from, to, s, end);
        TakePlain(e.(streams := e.streams[s := Win(e.peerInit, e.selfInit, false, end)]), f, from, to);
    }
  }

  lemma ConnViews(e: Endpoint, inc: nat)
    ensures var e1 := e.(connPeer := e.connPeer + inc);
            Sending(e1) == Sending(e).(conn := e.connPeer + inc) && Receiving(e1) == Receiving(e) &&
                Sending(e).conn == e.connPeer
  {
  }

  lemma TakeConnUpdateKeeps(e: Endpoint, f: Endpoint, from: seq<Frame>, to: seq<Frame>)
    requires Both(e, f, from, to) && to != [] && to[0].ConnUpdate?
    ensures var r := OnConnUpdate(e, to[0].inc);
            r.Ok? && r.out == [] && Both(r.e, f, from, to[1..])
  {
    hide Balanced, Sending, Receiving;
    FrontAcceptable(Sending(f), Receiving(e), to, from);
    ConnViews(e, to[0].inc);
    TakeConnCredit(Sending(e), Receiving(f), from, to);
    SkipThere(Sending(f), Receiving(e), to, from);
  }

  lemma UpdateViews(e: Endpoint, s: nat, inc: nat)
    requires s in e.streams
    ensures var e1 := e.(streams := e.streams[s := e.streams[s].(peer := e.streams[s].peer + inc)]);
            && s in Sending(e).rel && e.peerInit + Sending(e).rel[s] == e.streams[s].peer
            && Sending(e1) == Sending(e).(rel := Sending(e).rel[s := Sending(e).rel[s] + inc])
            && Receiving(e1) == Receiving(e) && Known(e1) == Known(e)
  {
    var e1 := e.(streams := e.streams[s := e.streams[s].(peer := e.streams[s].peer + inc)]);
    assert Sending(e1).rel == Sending(e).rel[s := Sending(e).rel[s] + inc];
    assert Receiving(e1).rel == Receiving(e).rel;
    assert Receiving(e1).ended == Receiving(e).ended;
  }

  lemma TakeStreamUpdateKeeps(e: Endpoint, f: Endpoint, from: seq<Frame>, to: seq<Frame>)
    requires Both(e, f, from, to) && to != [] && to[0].StreamUpdate? && WellPlaced(e, to[0])
    ensures var r := OnStreamUpdate(e, to[0].id, to[0].inc);
            r.Ok? && r.out == [] && Both(r.e, f, from, to[1..])
  {
    hide Balanced, Sending, Receiving;
    ViewKeys(e);
    ViewInits(e);
    FrontAcceptable(Sending(f), Receiving(e), to, from);
    assert Facing(Receiving(e)).known == Known(e);
    TakeStreamCredit(Sending(e), Receiving(f), from, to);
    SkipThere(Sending(f), Receiving(e), to, from);
    if to[0].id in e.streams {
      UpdateViews(e, to[0].id, to[0].inc);
    }
  }

  // ----- receiving data

  lemma EndDataViews(e: Endpoint, s: nat, len: nat)
    requires s in e.streams
    ensures var e1 := e.(streams := e.streams[s := e.streams[s].(self := e.streams[s].self - len, gotEnd := true)]);
            && Sending(e1) == Sending(e) && Known(e1) == Known(e) && s in Receiving(e).rel
            && Receiving(e1) == Receiving(e).(rel := Receiving(e).rel[s := Receiving(e).rel[s] - len],
                                              ended := Receiving(e).ended + {s})
  {
    var e1 := e.(streams := e.streams[s := e.streams[s].(self := e.streams[s].self - len, gotEnd := true)]);
    assert Sending(e1).rel == Sending(e).rel;
    assert Receiving(e1).rel == Receiving(e).rel[s := Receiving(e).rel[s] - len];
    assert Receiving(e1).ended == Receiving(e).ended + {s};
  }

  /** Sending credit is plain control from the other direction's point of view. */
  lemma CreditIsControl(o: Sender, i: Receiver, there: seq<Frame>, back: seq<Frame>, s: nat, len: nat, more: bool)
    requires Balanced(o, i, there, back) && s in Arrived(there, Facing(i)).known
    ensures Balanced(o, i, there + CreditFor(s, len, more), back)
  {
    hide Balanced, Arrived;
    var first := if more && len != 0 then [StreamUpdate(s, len)] else [];
    var second := if len != 0 then [ConnUpdate(len)] else [];
    assert there + [] == there;
    if more && len != 0 {
      SendControl(o, i, there, back, StreamUpdate(s, len));
    }
    assert Balanced(o, i, there + first, back);
    assert (there + first) + [] == there + first;
    if len != 0 {
      SendControl(o, i, there + first, back, ConnUpdate(len));
    }
    assert (there + first) + second == there + (first + second);
  }

  /** DATA taken off the channel and credited, for a receiver view that is already known. */
  lemma TakeDataKeeps(e: Endpoint, f: Endpoint, from: seq<Frame>, to: seq<Frame>, e1: Endpoint, more: bool)
    requires Both(e, f, from, to) && to != [] && to[0].Data? && to[0].id in Known(e)
    requires Sending(e1) == Sending(e) && Known(e1) == Known(e)
    requires Receiving(e1) == Receiving(e).(rel := Receiving(e1).rel, ended := Receiving(e1).ended)
    requires var s, i, i1 := to[0].id, Receiving(e), Receiving(e1);
             || (s in i.closed && !more && i1 == i)
             || (s in i.rel && s !in i.ended && more && i1 == i)
             || (s in i.rel && s !in i.ended && !more && i1.rel == i.rel[s := i.rel[s] - to[0].len] &&
                 i1.ended == i.ended + {s})
    ensures Both(e1, f, from + CreditFor(to[0].id, to[0].len, more), to[1..])
  {
    hide Balanced, Sending, Receiving, CreditFor, Arrived;
    var s, len := to[0].id, to[0].len;
    KnownThere(e, f, from, to, s);
    TakeData(Sending(f), Receiving(e), to, from, Receiving(e1).rel, Receiving(e1).ended, more);
    CreditIsControl(Sending(e), Receiving(f), from, to, s, len, more);
    SkipBack(Sending(e), Receiving(f), from + CreditFor(s, len, more), to);
    CreditHasNoHeaders(s, len, more);
  }

  lemma CreditHasNoHeaders(s: nat, len: nat, more: bool)
    ensures forall k | 0 <= k < |CreditFor(s, len, more)| ::
            !CreditFor(s, len, more)[k].Headers? && !CreditFor(s, len, more)[k].Reset?
  {
  }

  lemma DataAccepted(e: Endpoint, f: Endpoint, from: seq<Frame>, to: seq<Frame>)
    requires Both(e, f, from, to) && to != [] && to[0].Data?
    ensures to[0].len <= e.connSelf && to[0].id in Known(e)
    ensures to[0].id in e.streams && !e.streams[to[0].id].gotEnd ==> to[0].len <= e.streams[to[0].id].self
  {
    hide Balanced;
    DataFits(Sending(f), Receiving(e), to, from);
  }

  lemma TakeStreamDataReset(e: Endpoint, f: Endpoint, from: seq<Frame>, to: seq<Frame>)
    requires Both(e, f, from, to) && to != [] && to[0].Data? && to[0].id in e.streams
    ensures var s := to[0].id;
            Both(Retire(e, s, ResetSent), f, from + ([Reset(s, ProtocolError)] + CreditFor(s, to[0].len, false)),
                 to[1..])
  {
    hide Both, CreditFor;
    var s, from1 := to[0].id, from + [Reset(to[0].id, ProtocolError)];
    ResetKeeps(e, f, from, to, s);
    TakeDataKeeps(Retire(e, s, ResetSent), f, from1, to, Retire(e, s, ResetSent), false);
    var credit := CreditFor(s, to[0].len, false);
    assert from1 + credit == from + ([Reset(s, ProtocolError)] + credit);
  }

  /** The stream is found too short at its end: the credit is given before the reset. */
  lemma TakeStreamDataShort(e: Endpoint, f: Endpoint, from: seq<Frame>, to: seq<Frame>)
    requires Both(e, f, from, to) && to != [] && to[0].Data? && to[0].id in e.streams
    ensures var s := to[0].id;
            Both(Retire(e, s, ResetSent), f, from + (CreditFor(s, to[0].len, false) + [Reset(s, ProtocolError)]),
                 to[1..])
  {
    hide Both, CreditFor, Arrived, Acceptable;
    var s := to[0].id;
    var e', credit := Retire(e, s, ResetSent), CreditFor(s, to[0].len, false);
    RetireKeeps(e, f, from, to, s, ResetSent);
    TakeDataKeeps(e', f, from, to, e', false);
    KnownThere(e', f, from + credit, to[1..], s);
    assert Acceptable(Reset(s, ProtocolError), Arrived(from + credit, Facing(Receiving(f)))) by {
      ResetAcceptable(s, Arrived(from + credit, Facing(Receiving(f))));
    }
    SendResetKeeps(e', f, from + credit, to[1..], Reset(s, ProtocolError));
    assert (from + credit) + [Reset(s, ProtocolError)] == from + (credit + [Reset(s, ProtocolError)]);
  }

  lemma ResetAcceptable(s: nat, h: Ahead)
    ensures s in h.known ==> Acceptable(Reset(s, ProtocolError), h)
  {
  }

  lemma TakeStreamDataEnd(e: Endpoint, f: Endpoint, from: seq<Frame>, to: seq<Frame>)
    requires Both(e, f, from, to) && to != [] && to[0].Data? && to[0].id in e.streams && !e.streams[to[0].id].gotEnd
    ensures var s, w := to[0].id, e.streams[to[0].id];
            var e1 := e.(streams := e.streams[s := w.(self := w.self - to[0].len, gotEnd := true)]);
            Both(Settle(e1, s), f, from + CreditFor(s, to[0].len, false), to[1..])
  {
    hide Both, CreditFor, Settle;
    var s, w := to[0].id, e.streams[to[0].id];
    var e1 := e.(streams := e.streams[s := w.(self := w.self - to[0].len, gotEnd := true)]);
    EndDataViews(e, s, to[0].len);
    ViewKeys(e);
    TakeDataKeeps(e, f, from, to, e1, false);
    SettleKeeps(e1, f, from + CreditFor(s, to[0].len, false), to[1..], s);
  }

  /** What DATA does to an active stream that its sender had not ended, if it fits both windows. */
  function DataTaken(e: Endpoint, s: nat, len: nat, end: bool, a: Arrival): Outcome
    requires s in e.streams
  {
    var w, credit := e.streams[s], CreditFor(s, len, false);
    if a.malformed then Ok(Retire(e, s, ResetSent), [Reset(s, ProtocolError)] + credit)
    else if !end then Ok(e, CreditFor(s, len, true))
    else if a.short then Ok(Retire(e, s, ResetSent), credit + [Reset(s, ProtocolError)])
    else Ok(Settle(e.(streams := e.streams[s := w.(self := w.self - len, gotEnd := true)]), s), credit)
  }

  lemma DataByCase(e: Endpoint, s: nat, len: nat, end: bool, a: Arrival)
    requires s in e.streams && !e.streams[s].gotEnd && len <= e.connSelf && len <= e.streams[s].self
    ensures OnData(e, s, len, end, a) == DataTaken(e, s, len, end, a)
  {
    hide Retire, Settle;
    var w := e.streams[s];
    var credit := CreditFor(s, len, false);
    var none: seq<Frame> := [];
    assert credit + none == credit && none + credit == credit;
    if a.malformed {
      RetireForgets(e, s);
      assert ([Reset(s, ProtocolError)] + credit) + none == [Reset(s, ProtocolError)] + credit;
    } else if !end {
      assert CreditFor(s, len, true) + none == CreditFor(s, len, true);
    } else if a.short {
      RetireReplaced(e, s, w.(self := w.self - len));
    } else {
      var w1, w2 := w.(self := w.self - len), w.(self := w.self - len, gotEnd := true);
      assert e.streams[s := w1][s := w2] == e.streams[s := w2];
    }
  }

  lemma TakeStreamDataKeeps(e: Endpoint, f: Endpoint, from: seq<Frame>, to: seq<Frame>, a: Arrival)
    requires Both(e, f, from, to) && to != [] && to[0].Data? && to[0].id in e.streams && !e.streams[to[0].id].gotEnd
    ensures var r := OnData(e, to[0].id, to[0].len, to[0].end, a);
            r.Ok? && Both(r.e, f, from + r.out, to[1..]) && Harmless(r.out)
  {
    hide Both, Retire, Settle, OnData;
    DataAccepted(e, f, from, to);
    DataByCase(e, to[0].id, to[0].len, to[0].end, a);
    if a.malformed {
      TakeStreamDataReset(e, f, from, to);
    } else if !to[0].end {
      TakeDataKeeps(e, f, from, to, e, true);
    } else if a.short {
      TakeStreamDataShort(e, f, from, to);
    } else {
      TakeStreamDataEnd(e, f, from, to);
    }
  }

  lemma RetireForgets(e: Endpoint, s: nat)
    ensures s !in Retire(e, s, ResetSent).streams
  {
  }

  lemma RetireReplaced(e: Endpoint, s: nat, w: Win)
    ensures Retire(e.(streams := e.streams[s := w]), s, ResetSent) == Retire(e, s, ResetSent)
  {
    assert e.streams[s := w] - {s} == e.streams - {s};
  }

  lemma TakeAnyDataKeeps(e: Endpoint, f: Endpoint, from: seq<Frame>, to: seq<Frame>, a: Arrival)
    requires Both(e, f, from, to) && to != [] && to[0].Data? && WellPlaced(e, to[0])
    ensures var r := OnData(e, to[0].id, to[0].len, to[0].end, a);
            r.Ok? && Both(r.e, f, from + r.out, to[1..]) && Harmless(r.out)
  {
    hide Both, OnStreamData, OnEnd;
    DataAccepted(e, f, from, to);
    if to[0].id in e.streams {
      TakeStreamDataKeeps(e, f, from, to, a);
    } else {
      TakeDataKeeps(e, f, from, to, e, false);
      var len := to[0].len;
      assert CreditFor(to[0].id, len, false) == if len != 0 then [ConnUpdate(len)] else [];
    }
  }

  // ----- every action

  lemma TakeKeeps(e: Endpoint, f: Endpoint, from: seq<Frame>, to: seq<Frame>, a: Arrival)
    requires Both(e, f, from, to) && to != [] && WellPlaced(e, to[0])
    requires to[0].Headers? && to[0].id !in Known(e) ==> !e.client
    ensures var r := Receive(e, to[0], a);
            r.Ok? && Both(r.e, f, from + r.out, to[1..]) && Harmless(r.out)
  {
    hide Both, OnHeaders, OnData, OnConnUpdate, OnStreamUpdate, OnSettings, OnSettingsAck, OnReset;
    assert from + [] == from;
    match to[0] {
      case Headers(_, _) => TakeHeadersKeeps(e, f, from, to, a);
      case Data(_, _, _) => TakeAnyDataKeeps(e, f, from, to, a);
      case ConnUpdate(_) => TakeConnUpdateKeeps(e, f, from, to);
      case StreamUpdate(_, _) => TakeStreamUpdateKeeps(e, f, from, to);
      case Settings(_) => TakeSettingsKeeps(e, f, from, to);
      case SettingsAck => TakeAckKeeps(e, f, from, to);
      case Reset(_, _) => TakeResetKeeps(e, f, from, to);
    }
  }

  /** Whatever an endpoint does with well-placed frames: no error, no undue reset, and both directions stay balanced. */
  lemma ActKeeps(e: Endpoint, f: Endpoint, from: seq<Frame>, to: seq<Frame>, a: Action)
    requires Both(e, f, from, to) && Enabled(e, to, a)
    requires a.Take? ==> WellPlaced(e, to[0]) && (to[0].Headers? && to[0].id !in Known(e) ==> !e.client)
    ensures var r := Act(e, to, a);
            r.Ok? && Both(r.e, f, from + r.out, Rest(to, a)) && Harmless(r.out)
  {
    hide Both, Receive, Known, MaxPayload, Settle, Retire, WellPlaced;
    match a {
      case Open(s, end) => OpenKeeps(e, f, from, to, s, end);
      case Answering(s, end) => RespondKeeps(e, f, from, to, s, end);
      case Send(s, len, end, space) => SendKeeps(e, f, from, to, s, len, end, space);
      case Change(values) => ChangeKeeps(e, f, from, to, values);
      case Abandon(s) => ResetKeeps(e, f, from, to, s);
      case Take(arrival) => TakeKeeps(e, f, from, to, arrival);
    }
  }
}
