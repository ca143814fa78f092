/** How each action of an endpoint keeps the order of frames, and what it remembers of closed streams. */
module FlowConduct {
  import opened FlowControl
  import opened FlowCredit
  import opened FlowOrder
  import opened FlowBalance
  import opened Sequences

  // ----- the order of frames, action by action

  /** Nothing that arrived is new to the endpoint. */
  ghost predicate HearsNothing(e: Endpoint, e': Endpoint) {
    forall s: nat :: (Finished(e', s) ==> Finished(e, s)) && (CutOff(e', s) ==> CutOff(e, s))
  }

  ghost predicate Ordered(e: Endpoint, f: Endpoint, from: seq<Frame>, to: seq<Frame>) {
    Orderly(e, f, from) && Orderly(f, e, to)
  }

  /** The endpoint changes while nothing arrives, and sends nothing. */
  lemma QuietOrder(e: Endpoint, e': Endpoint, f: Endpoint, from: seq<Frame>, to: seq<Frame>)
    requires Ordered(e, f, from, to) && HearsNothing(e, e') && forall s: nat :: RestsOn(e, e', s)
    ensures Ordered(e', f, from, to)
  {
    hide StreamOrderly, RestsOn, Finished, CutOff;
    forall s: nat ensures StreamOrderly(e', f, from, s) && StreamOrderly(f, e', to, s) {
      assert StreamOrderly(e, f, from, s) && StreamOrderly(f, e, to, s);
      RestOrderly(e, e', f, from, s);
      HearOrderly(f, e, e', to, s);
    }
  }

  lemma SendOrder(e: Endpoint, e': Endpoint, f: Endpoint, from: seq<Frame>, to: seq<Frame>, g: Frame)
    requires Ordered(e, f, from, to) && HearsNothing(e, e') && forall s: nat :: SendsOn(e, e', g, s)
    ensures Ordered(e', f, from + [g], to)
  {
    hide StreamOrderly, SendsOn, Finished, CutOff;
    forall s: nat ensures StreamOrderly(e', f, from + [g], s) && StreamOrderly(f, e', to, s) {
      assert StreamOrderly(e, f, from, s) && StreamOrderly(f, e, to, s);
      SendOrderly(e, e', f, from, g, s);
      HearOrderly(f, e, e', to, s);
    }
  }

  /** A frame without a stream, or an update of an active one. */
  lemma SendPlain(e: Endpoint, f: Endpoint, from: seq<Frame>, to: seq<Frame>, g: Frame)
    requires Ordered(e, f, from, to) && (HasStream(g) ==> g.StreamUpdate? && g.id in e.streams)
    ensures Ordered(e, f, from + [g], to)
  {
    hide Ordered;
    SendOrder(e, e, f, from, to, g);
  }

  lemma SendResetOrder(e: Endpoint, f: Endpoint, from: seq<Frame>, to: seq<Frame>, s: nat, error: Error)
    requires Ordered(e, f, from, to) && s in e.streams
    ensures Ordered(Retire(e, s, ResetSent), f, from + [Reset(s, error)], to)
  {
    hide Ordered;
    SendOrder(e, Retire(e, s, ResetSent), f, from, to, Reset(s, error));
  }

  lemma SettleOrder(e: Endpoint, f: Endpoint, from: seq<Frame>, to: seq<Frame>, s: nat)
    requires Ordered(e, f, from, to) && s in e.streams
    ensures Ordered(Settle(e, s), f, from, to)
  {
    hide Ordered;
    QuietOrder(e, Settle(e, s), f, from, to);
  }

  lemma OpenOrder(e: Endpoint, f: Endpoint, from: seq<Frame>, to: seq<Frame>, s: nat, end: bool)
    requires Ordered(e, f, from, to) && s !in Known(e)
    ensures Ordered(OpenStream(e, s, end).0, f, from + [Headers(s, end)], to)
  {
    hide Ordered;
    SendOrder(e, OpenStream(e, s, end).0, f, from, to, Headers(s, end));
  }

  lemma AnswerOrder(e: Endpoint, f: Endpoint, from: seq<Frame>, to: seq<Frame>, s: nat, end: bool)
    requires Ordered(e, f, from, to) && MayCarry(e, s)
    ensures Ordered(Respond(e, s, end).0, f, from + [Headers(s, end)], to)
  {
    hide Ordered, Settle;
    var e1 := e.(streams := e.streams[s := e.streams[s].(sentEnd := end)]);
    SendOrder(e, e1, f, from, to, Headers(s, end));
    SettleOrder(e1, f, from + [Headers(s, end)], to, s);
  }

  lemma SendDataOrder(e: Endpoint, f: Endpoint, from: seq<Frame>, to: seq<Frame>, s: nat, len: nat, end: bool)
    requires Ordered(e, f, from, to) && MayCarry(e, s)
    ensures Ordered(SendData(e, s, len, end).0, f, from + [Data(s, len, end)], to)
  {
    hide Ordered, Settle;
    var w := e.streams[s];
    var e1 := e.(connPeer := e.connPeer - len, streams := e.streams[s := w.(peer := w.peer - len, sentEnd := end)]);
    SendOrder(e, e1, f, from, to, Data(s, len, end));
    SettleOrder(e1, f, from + [Data(s, len, end)], to, s);
  }

  // ----- frames that arrive

  ghost predicate HearsFirst(e: Endpoint, e': Endpoint, g: Frame) {
    forall s: nat ::
      (Finished(e', s) ==> Finished(e, s) || Ends(g, s)) && (CutOff(e', s) ==> CutOff(e, s) || Resets(g, s))
  }

  lemma TakeOrder(e: Endpoint, e': Endpoint, f: Endpoint, from: seq<Frame>, to: seq<Frame>)
    requires Ordered(e, f, from, to) && to != []
    requires HearsFirst(e, e', to[0]) && forall s: nat :: RestsOn(e, e', s)
    ensures Ordered(e', f, from, to[1..])
  {
    hide StreamOrderly, RestsOn, Finished, CutOff;
    forall s: nat ensures StreamOrderly(e', f, from, s) && StreamOrderly(f, e', to[1..], s) {
      assert StreamOrderly(e, f, from, s) && StreamOrderly(f, e, to, s);
      RestOrderly(e, e', f, from, s);
      TakeOrderly(f, e, e', to, s);
    }
  }

  /** A frame that changes nothing its endpoint is asked about. */
  lemma DropOrder(e: Endpoint, f: Endpoint, from: seq<Frame>, to: seq<Frame>)
    requires Ordered(e, f, from, to) && to != []
    ensures Ordered(e, f, from, to[1..])
  {
    hide Ordered;
    TakeOrder(e, e, f, from, to);
  }

  lemma EndOrder(e: Endpoint, f: Endpoint, from: seq<Frame>, to: seq<Frame>, s: nat, w: Win)
    requires Ordered(e, f, from, to) && to != [] && Ends(to[0], s) && s in e.streams
    requires w.gotEnd && w.sentEnd == e.streams[s].sentEnd
    ensures Ordered(Settle(e.(streams := e.streams[s := w]), s), f, from, to[1..])
  {
    hide Ordered, Settle;
    var e1 := e.(streams := e.streams[s := w]);
    TakeOrder(e, e1, f, from, to);
    SettleOrder(e1, f, from, to[1..], s);
  }

  lemma TakeHeadersOrder(e: Endpoint, f: Endpoint, from: seq<Frame>, to: seq<Frame>, a: Arrival)
    requires Ordered(e, f, from, to) && to != [] && to[0].Headers? && WellPlaced(e, to[0])
    requires OnHeaders(e, to[0].id, to[0].end, a).Ok?
    ensures var r := OnHeaders(e, to[0].id, to[0].end, a); Ordered(r.e, f, from + r.out, to[1..])
  {
    hide Ordered, Settle, Retire;
    var s, end := to[0].id, to[0].end;
    assert from + [] == from;
    DropOrder(e, f, from, to);
    match Find(e, s) {
      case Active =>
        if a.malformed || (end && a.short) {
          SendResetOrder(e, f, from, to[1..], s, ProtocolError);
        } else if end {
          EndOrder(e, f, from, to, s, e.streams[s].(gotEnd := true));
        }
      case Ended(_) =>
      case Nowhere =>
        TakeOrder(e, e.(streams := e.streams[s := Win(e.peerInit, e.selfInit, false, end)]), f, from, to);
    }
  }

  lemma CreditOrder(e: Endpoint, f: Endpoint, from: seq<Frame>, to: seq<Frame>, s: nat, len: nat, more: bool)
    requires Ordered(e, f, from, to) && (more ==> s in e.streams)
    ensures Ordered(e, f, from + CreditFor(s, len, more), to)
  {
    hide Ordered;
    var first := if more && len != 0 then [StreamUpdate(s, len)] else [];
    var second := if len != 0 then [ConnUpdate(len)] else [];
    assert from + [] == from && (from + first) + [] == from + first;
    if more && len != 0 {
      SendPlain(e, f, from, to, StreamUpdate(s, len));
    }
    if len != 0 {
      SendPlain(e, f, from + first, to, ConnUpdate(len));
    }
    assert (from + first) + second == from + (first + second);
  }

  lemma TakeStreamDataOrder(e: Endpoint, f: Endpoint, from: seq<Frame>, to: seq<Frame>, a: Arrival)
    requires Ordered(e, f, from, to) && to != [] && to[0].Data? && to[0].id in e.streams
    ensures var r := DataTaken(e, to[0].id, to[0].len, to[0].end, a); Ordered(r.e, f, from + r.out, to[1..])
  {
    hide Ordered, Settle, Retire, CreditFor;
    var s, len, end := to[0].id, to[0].len, to[0].end;
    var w, credit, reset := e.streams[s], CreditFor(s, len, false), [Reset(s, ProtocolError)];
    DropOrder(e, f, from, to);
    if a.malformed {
      SendResetOrder(e, f, from, to[1..], s, ProtocolError);
      CreditOrder(Retire(e, s, ResetSent), f, from + reset, to[1..], s, len, false);
      assert (from + reset) + credit == from + (reset + credit);
    } else if !end {
      CreditOrder(e, f, from, to[1..], s, len, true);
    } else if a.short {
      CreditOrder(e, f, from, to[1..], s, len, false);
      SendResetOrder(e, f, from + credit, to[1..], s, ProtocolError);
      assert (from + credit) + reset == from + (credit + reset);
    } else {
      EndOrder(e, f, from, to, s, w.(self := w.self - len, gotEnd := true));
      CreditOrder(Settle(e.(streams := e.streams[s := w.(self := w.self - len, gotEnd := true)]), s), f, from, to[1..],
                  s, len, false);
    }
  }

  lemma TakeDataOrder(e: Endpoint, f: Endpoint, from: seq<Frame>, to: seq<Frame>, a: Arrival)
    requires Both(e, f, from, to) && Ordered(e, f, from, to) && to != [] && to[0].Data? && WellPlaced(e, to[0])
    ensures var r := OnData(e, to[0].id, to[0].len, to[0].end, a); r.Ok? && Ordered(r.e, f, from + r.out, to[1..])
  {
    hide Ordered, Both, OnStreamData, OnEnd, DataTaken;
    DataAccepted(e, f, from, to);
    var s, len := to[0].id, to[0].len;
    if s in e.streams {
      DataByCase(e, s, len, to[0].end, a);
      TakeStreamDataOrder(e, f, from, to, a);
    } else {
      DropOrder(e, f, from, to);
      CreditOrder(e, f, from, to[1..], s, len, false);
      assert CreditFor(s, len, false) == if len != 0 then [ConnUpdate(len)] else [];
    }
  }

  /** All that the order of frames depends on. */
  ghost predicate SameFlags(e: Endpoint, e': Endpoint) {
    && e'.client == e.client && e'.memory == e.memory && e'.closed == e.closed && e'.recent == e.recent
    && e'.streams.Keys == e.streams.Keys
    && forall s | s in e.streams ::
         e'.streams[s].sentEnd == e.streams[s].sentEnd && e'.streams[s].gotEnd == e.streams[s].gotEnd
  }

  lemma {:induction false} ApplyPeerFlags(e: Endpoint, values: seq<nat>)
    requires ApplyPeer(e, values).Ok?
    ensures SameFlags(e, ApplyPeer(e, values).e) && ApplyPeer(e, values).out == []
    decreases |values|
  {
    if values != [] {
      var e' := if values[0] == e.peerInit then e
                else e.(peerInit := values[0], streams := ShiftPeer(e.streams, values[0] - e.peerInit));
      assert SameFlags(e, e');
      ApplyPeerFlags(e', values[1..]);
    }
  }

  lemma {:induction false} ApplySelfFlags(e: Endpoint, values: seq<nat>)
    requires ApplySelf(e, values).Ok?
    ensures SameFlags(e, ApplySelf(e, values).e) && ApplySelf(e, values).out == []
    decreases |values|
  {
    if values != [] {
      var e' := if values[0] == e.selfInit then e
                else e.(selfInit := values[0], streams := ShiftSelf(e.streams, values[0] - e.selfInit));
      assert SameFlags(e, e');
      ApplySelfFlags(e', values[1..]);
    }
  }

  lemma FlagsOrder(e: Endpoint, e': Endpoint, f: Endpoint, from: seq<Frame>, to: seq<Frame>)
    requires Ordered(e, f, from, to) && SameFlags(e, e')
    ensures Ordered(e', f, from, to)
  {
    hide Ordered;
    QuietOrder(e, e', f, from, to);
  }

  lemma TakeStreamUpdateOrder(e: Endpoint, f: Endpoint, from: seq<Frame>, to: seq<Frame>)
    requires Ordered(e, f, from, to) && to != [] && to[0].StreamUpdate? && WellPlaced(e, to[0])
    requires OnStreamUpdate(e, to[0].id, to[0].inc).Ok?
    ensures var r := OnStreamUpdate(e, to[0].id, to[0].inc); Ordered(r.e, f, from + r.out, to[1..])
  {
    hide Ordered, Retire;
    var s, inc := to[0].id, to[0].inc;
    assert from + [] == from;
    DropOrder(e, f, from, to);
    if s in e.streams {
      var w := e.streams[s];
      if inc == 0 {
        SendResetOrder(e, f, from, to[1..], s, ProtocolError);
      } else if w.peer + inc > MAX_WINDOW {
        SendResetOrder(e, f, from, to[1..], s, FlowControlError);
      } else {
        FlagsOrder(e, e.(streams := e.streams[s := w.(peer := w.peer + inc)]), f, from, to[1..]);
      }
    }
  }

  lemma TakeResetOrder(e: Endpoint, f: Endpoint, from: seq<Frame>, to: seq<Frame>)
    requires Ordered(e, f, from, to) && to != [] && to[0].Reset? && WellPlaced(e, to[0])
    requires OnReset(e, to[0].id).Ok?
    ensures var r := OnReset(e, to[0].id); Ordered(r.e, f, from + r.out, to[1..])
  {
    hide Ordered;
    assert from + [] == from;
    DropOrder(e, f, from, to);
    if to[0].id in e.streams {
      TakeOrder(e, Retire(e, to[0].id, ResetReceived), f, from, to);
    }
  }

  lemma TakeControlOrder(e: Endpoint, f: Endpoint, from: seq<Frame>, to: seq<Frame>, a: Arrival)
    requires Ordered(e, f, from, to) && to != [] && !HasStream(to[0]) && Receive(e, to[0], a).Ok?
    ensures var r := Receive(e, to[0], a); Ordered(r.e, f, from + r.out, to[1..])
  {
    hide Ordered, ApplyPeer, ApplySelf;
    var r := Receive(e, to[0], a);
    assert from + [] == from;
    DropOrder(e, f, from, to);
    match to[0] {
      case ConnUpdate(_) => FlagsOrder(e, r.e, f, from, to[1..]);
      case Settings(values) =>
        ApplyPeerFlags(e, values);
        FlagsOrder(e, r.e, f, from, to[1..]);
        SendPlain(r.e, f, from, to[1..], SettingsAck);
      case SettingsAck =>
        var e1 := e.(pending := e.pending[1..]);
        FlagsOrder(e, e1, f, from, to[1..]);
        ApplySelfFlags(e1, e.pending[0]);
        FlagsOrder(e1, r.e, f, from, to[1..]);
    }
  }

  /** Whatever an endpoint does, the frames of each stream stay in order both ways. */
  lemma ActOrder(e: Endpoint, f: Endpoint, from: seq<Frame>, to: seq<Frame>, a: Action)
    requires Both(e, f, from, to) && Ordered(e, f, from, to) && Enabled(e, to, a)
    requires Act(e, to, a).Ok? && (a.Take? ==> WellPlaced(e, to[0]))
    ensures var r := Act(e, to, a); Ordered(r.e, f, from + r.out, Rest(to, a))
  {
    hide Both, Ordered, OnHeaders, OnData, OnStreamUpdate, OnReset, OnSettings, OnSettingsAck, OnConnUpdate, Known,
         MaxPayload, WellPlaced, SendData, Respond;
    match a {
      case Open(s, end) => OpenOrder(e, f, from, to, s, end);
      case Answering(s, end) =>
        AnswerOrder(e, f, from, to, s, end);
        SentFrames(e, s, 0, end);
      case Send(s, len, end, space) =>
        SendDataOrder(e, f, from, to, s, len, end);
        SentFrames(e, s, len, end);
      case Change(values) =>
        FlagsOrder(e, ChangeSettings(e, values).0, f, from, to);
        SendPlain(ChangeSettings(e, values).0, f, from, to, Settings(values));
      case Abandon(s) => SendResetOrder(e, f, from, to, s, ProtocolError);
      case Take(arrival) =>
        match to[0] {
          case Headers(_, _) => TakeHeadersOrder(e, f, from, to, arrival);
          case Data(_, _, _) => TakeDataOrder(e, f, from, to, arrival);
          case StreamUpdate(_, _) => TakeStreamUpdateOrder(e, f, from, to);
          case Reset(_, _) => TakeResetOrder(e, f, from, to);
          case _ => TakeControlOrder(e, f, from, to, arrival);
        }
    }
  }

  lemma SentFrames(e: Endpoint, s: nat, len: nat, end: bool)
    requires s in e.streams
    ensures Respond(e, s, end).1 == [Headers(s, end)] && SendData(e, s, len, end).1 == [Data(s, len, end)]
  {
  }

  // ----- what is remembered

  /** The streams remembered are closed ones, none twice, and all of them until there are too many. */
  ghost predicate Kept(e: Endpoint) {
    && e.streams.Keys !! e.closed.Keys
    && |e.recent| <= e.memory && Distinct(e.recent)
    && (forall k | 0 <= k < |e.recent| :: e.recent[k] in e.closed)
    && (|e.recent| < e.memory ==> forall s | s in e.closed :: s in e.recent)
  }

  lemma RetireKept(e: Endpoint, s: nat, when: When)
    requires Kept(e) && s in e.streams
    ensures Kept(Retire(e, s, when))
  {
    var e', all := Retire(e, s, when), e.recent + [s];
    assert s !in e.recent;
    assert Distinct(all);
    if |all| > e.memory {
      assert forall k | 0 <= k < |all[1..]| :: all[1..][k] == all[k + 1];
    } else {
      forall t | t in e'.closed ensures t in e'.recent {
        if t == s {
          assert all[|e.recent|] == s;
        } else {
          var k :| 0 <= k < |e.recent| && e.recent[k] == t;
          assert all[k] == t;
        }
      }
    }
  }

  lemma SettleKept(e: Endpoint, s: nat)
    requires Kept(e) && s in e.streams
    ensures Kept(Settle(e, s))
  {
    hide Kept, Retire;
    if e.streams[s].sentEnd && e.streams[s].gotEnd {
      RetireKept(e, s, BothEnded);
    }
  }

  /** A stream updated, or opened where there was none. */
  lemma UpdateKept(e: Endpoint, s: nat, w: Win)
    requires Kept(e) && s !in e.closed
    ensures Kept(e.(streams := e.streams[s := w]))
  {
  }

  lemma ActiveIsOpen(e: Endpoint, s: nat)
    requires Kept(e) && s in e.streams
    ensures s !in e.closed
  {
  }

  lemma EndKept(e: Endpoint, s: nat, short: bool)
    requires Kept(e)
    ensures Kept(OnEnd(e, s, short).0)
  {
    hide Kept, Retire, Settle;
    if s in e.streams {
      ActiveIsOpen(e, s);
      RetireKept(e, s, ResetSent);
      var w := e.streams[s].(gotEnd := true);
      UpdateKept(e, s, w);
      SettleKept(e.(streams := e.streams[s := w]), s);
    }
  }

  lemma HeadersKept(e: Endpoint, s: nat, end: bool, a: Arrival)
    requires Kept(e) && OnHeaders(e, s, end, a).Ok?
    ensures Kept(OnHeaders(e, s, end, a).e)
  {
    hide Kept, Retire, OnEnd;
    if s in e.streams {
      RetireKept(e, s, ResetSent);
      EndKept(e, s, a.short);
    } else if s !in e.closed {
      UpdateKept(e, s, Win(e.peerInit, e.selfInit, false, end));
    }
  }

  lemma DataKept(e: Endpoint, s: nat, len: nat, end: bool, a: Arrival)
    requires Kept(e) && OnData(e, s, len, end, a).Ok?
    ensures Kept(OnData(e, s, len, end, a).e)
  {
    hide Kept, Retire, OnEnd;
    if s in e.streams {
      ActiveIsOpen(e, s);
      RetireKept(e, s, ResetSent);
      UpdateKept(e, s, e.streams[s].(self := e.streams[s].self - len));
      EndKept(OnStreamData(e, s, len, end, a.malformed).0, s, a.short);
    }
  }

  lemma FlagsKept(e: Endpoint, e': Endpoint)
    requires Kept(e) && SameFlags(e, e')
    ensures Kept(e')
  {
  }

  lemma ReceiveKept(e: Endpoint, g: Frame, a: Arrival)
    requires Kept(e) && Receive(e, g, a).Ok?
    ensures Kept(Receive(e, g, a).e)
  {
    hide Kept, Retire, ApplyPeer, ApplySelf, OnHeaders, OnData;
    match g {
      case Headers(s, end) => HeadersKept(e, s, end, a);
      case Data(s, len, end) => DataKept(e, s, len, end, a);
      case ConnUpdate(inc) => FlagsKept(e, e.(connPeer := e.connPeer + inc));
      case StreamUpdate(s, inc) =>
        if s in e.streams {
          ActiveIsOpen(e, s);
          RetireKept(e, s, ResetSent);
          UpdateKept(e, s, e.streams[s].(peer := e.streams[s].peer + inc));
        }
      case Settings(values) =>
        ApplyPeerFlags(e, values);
        FlagsKept(e, ApplyPeer(e, values).e);
      case SettingsAck =>
        var e1 := e.(pending := e.pending[1..]);
        FlagsKept(e, e1);
        ApplySelfFlags(e1, e.pending[0]);
        FlagsKept(e1, ApplySelf(e1, e.pending[0]).e);
      case Reset(s, _) =>
        if s in e.streams {
          RetireKept(e, s, ResetReceived);
        }
    }
  }

  lemma ActKept(e: Endpoint, to: seq<Frame>, a: Action)
    requires Kept(e) && Enabled(e, to, a) && Act(e, to, a).Ok?
    ensures Kept(Act(e, to, a).e)
  {
    hide Kept, Retire, Receive, Settle;
    match a {
      case Open(s, end) => UpdateKept(e, s, Win(e.peerInit, e.selfInit, end, false));
      case Answering(s, end) =>
        var w := e.streams[s].(sentEnd := end);
        ActiveIsOpen(e, s);
        UpdateKept(e, s, w);
        SettleKept(e.(streams := e.streams[s := w]), s);
      case Send(s, len, end, _) =>
        var w, e1 := e.streams[s], e.(connPeer := e.connPeer - len);
        ActiveIsOpen(e, s);
        FlagsKept(e, e1);
        UpdateKept(e1, s, w.(peer := w.peer - len, sentEnd := end));
        SettleKept(e1.(streams := e1.streams[s := w.(peer := w.peer - len, sentEnd := end)]), s);
      case Change(values) => FlagsKept(e, ChangeSettings(e, values).0);
      case Abandon(s) => RetireKept(e, s, ResetSent);
      case Take(arrival) => ReceiveKept(e, to[0], arrival);
    }
  }

  /** Nothing is forgotten before more streams were closed than are remembered. */
  lemma ForgotAfterMany(e: Endpoint, g: Frame)
    requires Kept(e) && Forgot(e, g)
    ensures |e.closed| > e.memory
  {
    var keys := SetOf(e.recent);
    DistinctSet(e.recent);
    assert keys + {g.id} <= e.closed.Keys;
    SubsetSize(keys + {g.id}, e.closed.Keys);
    assert |keys + {g.id}| == |keys| + 1;
    assert |e.closed.Keys| == |e.closed|;
  }

  // ----- what an action makes known

  /** The stream that an action opens, if it does. */
  ghost function Opened(e: Endpoint, to: seq<Frame>, a: Action): set<nat>
    requires a.Take? ==> to != []
  {
    if a.Open? then {a.s}
    else if a.Take? && to[0].Headers? && Find(e, to[0].id).Nowhere? then {to[0].id}
    else {}
  }

  lemma RetireKnown(e: Endpoint, s: nat, when: When)
    requires s in e.streams
    ensures Known(Retire(e, s, when)) == Known(e)
  {
  }

  lemma EndKnown(e: Endpoint, s: nat, short: bool)
    ensures var e' := OnEnd(e, s, short).0; e'.client == e.client && Known(e') == Known(e)
  {
  }

  lemma DataKnown(e: Endpoint, s: nat, len: nat, end: bool, a: Arrival)
    requires OnData(e, s, len, end, a).Ok?
    ensures var e' := OnData(e, s, len, end, a).e; e'.client == e.client && Known(e') == Known(e)
  {
    hide OnEnd;
    if s in e.streams {
      EndKnown(OnStreamData(e, s, len, end, a.malformed).0, s, a.short);
    }
  }

  lemma HeadersMakeKnown(e: Endpoint, s: nat, end: bool, a: Arrival)
    requires OnHeaders(e, s, end, a).Ok?
    ensures var e' := OnHeaders(e, s, end, a).e;
            e'.client == e.client && Known(e') == Known(e) + if Find(e, s).Nowhere? then {s} else {}
  {
    hide OnEnd;
    if s in e.streams {
      EndKnown(e, s, a.short);
    }
  }

  lemma ReceiveKnown(e: Endpoint, to: seq<Frame>, a: Arrival)
    requires to != [] && Receive(e, to[0], a).Ok?
    ensures var r := Receive(e, to[0], a);
            r.e.client == e.client && Known(r.e) == Known(e) + Opened(e, to, Take(a))
  {
    hide ApplyPeer, ApplySelf, OnHeaders, OnData;
    match to[0] {
      case Headers(s, end) => HeadersMakeKnown(e, s, end, a);
      case Data(s, len, end) => DataKnown(e, s, len, end, a);
      case Settings(values) => ApplyPeerFlags(e, values);
      case SettingsAck => ApplySelfFlags(e.(pending := e.pending[1..]), e.pending[0]);
      case _ =>
    }
  }

  lemma ActKnown(e: Endpoint, to: seq<Frame>, a: Action)
    requires Enabled(e, to, a) && Act(e, to, a).Ok?
    ensures var r := Act(e, to, a); r.e.client == e.client && Known(r.e) == Known(e) + Opened(e, to, a)
  {
    hide Receive;
    if a.Take? {
      ReceiveKnown(e, to, a.arrival);
    }
  }
}
