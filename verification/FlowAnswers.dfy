/**
 * What an HTTP/2 endpoint answers to a frame, from any peer: which streams it resets and with which code, which credit
 * it gives back, and what becomes of the stream.
 */
module FlowAnswers {
  import opened Octets
  import opened Sequences
  import opened FlowControl
  import opened FlowBalance
  import opened FlowOrder
  import opened FlowConduct
  import FlowRuns
  import opened FlowEndpoint

  predicate CarriesBody(f: Frame) {
    f.Headers? || f.Data?
  }

  /** The stream is open to what the peer sends. */
  predicate Listens(e: Endpoint, t: nat) {
    t in e.streams && !e.streams[t].gotEnd
  }

  /** It was reset by the peer, and that is remembered. */
  predicate ResetByPeer(e: Endpoint, t: nat) {
    t !in e.streams && t in e.recent && t in e.closed && e.closed[t] == ResetReceived
  }

  /** Contents that fail a check: they are looked at only if the stream takes any. */
  predicate Refused(e: Endpoint, f: Frame, a: Arrival) {
    CarriesBody(f) && Listens(e, f.id) && a.malformed
  }

  predicate TooMuch(e: Endpoint, f: Frame, a: Arrival) {
    || (f.Data? && Listens(e, f.id) && !a.malformed && f.len > 0 && f.len > e.streams[f.id].self)
    || (f.StreamUpdate? && f.id in e.streams && f.inc > 0 && e.streams[f.id].peer + f.inc > MAX_WINDOW)
  }

  predicate EndsShort(e: Endpoint, f: Frame, a: Arrival) {
    CarriesBody(f) && Listens(e, f.id) && !a.malformed && !TooMuch(e, f, a) && f.end && a.short
  }

  /** The code of the reset that the frame calls for, if it calls for one. */
  predicate CallsForReset(e: Endpoint, f: Frame, a: Arrival, error: Error) {
    match error
    case StreamClosedError =>
      || (CarriesBody(f) && f.id in e.streams && e.streams[f.id].gotEnd)
      || (HasStream(f) && ResetByPeer(e, f.id))
    case FlowControlError => TooMuch(e, f, a)
    case ProtocolError =>
      || Refused(e, f, a) || EndsShort(e, f, a)
      || (f.StreamUpdate? && f.id in e.streams && f.inc == 0)
  }

  lemma AnswerHolds(s: nat, n: nat, g: Frame)
    ensures g in Answer(s, n) <==> n > 0 && g == Reset(s, StreamClosedError)
  {
    if n > 0 {
      assert Answer(s, n)[0] == Reset(s, StreamClosedError);
    }
  }

  /** DATA on an active stream. */
  lemma ActiveDataResets(e: Endpoint, f: Frame, a: Arrival, g: Frame)
    requires f.Data? && f.id in e.streams && Receive(e, f, a).Ok? && g.Reset?
    ensures g in Receive(e, f, a).out <==> f.id == g.id && CallsForReset(e, f, a, g.error)
  {
    hide Remember;
    var (e1, out) := OnStreamData(e, f.id, f.len, f.end, a.malformed);
    var more := if f.end then OnEnd(e1, f.id, a.short).1 else [];
    var credit := if f.len != 0 then [ConnUpdate(f.len)] else [];
    assert Receive(e, f, a).out == out + credit + more;
    assert g !in credit;
  }

  lemma DataResets(e: Endpoint, f: Frame, a: Arrival, t: nat, error: Error)
    requires f.Data? && Receive(e, f, a).Ok?
    ensures Reset(t, error) in Receive(e, f, a).out <==> f.id == t && CallsForReset(e, f, a, error)
  {
    hide Answer, OnStreamData, OnEnd;
    var g := Reset(t, error);
    AnswerHolds(f.id, 1, g);
    AnswerHolds(f.id, a.calls, g);
    if f.id in e.streams {
      ActiveDataResets(e, f, a, g);
    }
  }

  lemma HeadersResets(e: Endpoint, f: Frame, a: Arrival, t: nat, error: Error)
    requires f.Headers? && Receive(e, f, a).Ok?
    ensures Reset(t, error) in Receive(e, f, a).out <==> f.id == t && CallsForReset(e, f, a, error)
  {
    hide Retire, Settle, Answer;
    AnswerHolds(f.id, 1 + a.calls, Reset(t, error));
  }

  lemma OtherResets(e: Endpoint, f: Frame, a: Arrival, t: nat, error: Error)
    requires (f.StreamUpdate? || f.Reset?) && Receive(e, f, a).Ok?
    ensures Reset(t, error) in Receive(e, f, a).out <==> f.id == t && CallsForReset(e, f, a, error)
  {
    hide Retire, Settle, Answer;
    AnswerHolds(f.id, 1, Reset(t, error));
  }

  /**
   * Whatever the peer sends, unless it is a connection error: a stream is reset, and with this code, if and only if the
   * frame is of this stream and calls for it.
   */
  lemma ResetsExactly(e: Endpoint, f: Frame, a: Arrival, t: nat, error: Error)
    requires Receive(e, f, a).Ok?
    ensures Reset(t, error) in Receive(e, f, a).out <==> HasStream(f) && f.id == t && CallsForReset(e, f, a, error)
  {
    hide ApplyPeer, ApplySelf, OnData, OnHeaders, OnStreamUpdate, OnReset, CallsForReset;
    SettingsSendNone(e, f);
    if f.Data? {
      DataResets(e, f, a, t, error);
    } else if f.Headers? {
      HeadersResets(e, f, a, t, error);
    } else if HasStream(f) {
      OtherResets(e, f, a, t, error);
    }
  }

  lemma SettingsSendNone(e: Endpoint, f: Frame)
    ensures f.Settings? && ApplyPeer(e, f.values).Ok? ==> ApplyPeer(e, f.values).out == []
    ensures f.SettingsAck? && e.pending != [] ==>
              var r := ApplySelf(e.(pending := e.pending[1..]), e.pending[0]); r.Ok? ==> r.out == []
  {
    if f.SettingsAck? && e.pending != [] {
      OwnSettingsSendNone(e.(pending := e.pending[1..]), e.pending[0]);
    }
    if f.Settings? {
      PeerSettingsSendNone(e, f.values);
    }
  }

  lemma {:induction false} PeerSettingsSendNone(e: Endpoint, values: seq<nat>)
    ensures ApplyPeer(e, values).Ok? ==> ApplyPeer(e, values).out == []
    decreases |values|
  {
    if values != [] {
      PeerSettingsSendNone(e, values[1..]);
      PeerSettingsSendNone(e.(peerInit := values[0], streams := ShiftPeer(e.streams, values[0] - e.peerInit)),
                           values[1..]);
    }
  }

  lemma {:induction false} OwnSettingsSendNone(e: Endpoint, values: seq<nat>)
    ensures ApplySelf(e, values).Ok? ==> ApplySelf(e, values).out == []
    decreases |values|
  {
    if values != [] {
      OwnSettingsSendNone(e, values[1..]);
      OwnSettingsSendNone(e.(selfInit := values[0], streams := ShiftSelf(e.streams, values[0] - e.selfInit)),
                          values[1..]);
    }
  }

  /** Every frame of a stream that the peer has reset is answered at each of its callbacks. */
  lemma AnsweredEachTime(e: Endpoint, f: Frame, a: Arrival)
    requires HasStream(f) && ResetByPeer(e, f.id) && Receive(e, f, a).Ok?
    ensures multiset(Receive(e, f, a).out)[Reset(f.id, StreamClosedError)] == if CarriesBody(f) then 1 + a.calls else 1
    ensures Receive(e, f, a).e == e
  {
    var s := f.id;
    AnswerCounts(s, 1);
    AnswerCounts(s, 1 + a.calls);
    AnswerCounts(s, a.calls);
  }

  lemma {:induction false} AnswerCounts(s: nat, n: nat)
    ensures multiset(Answer(s, n))[Reset(s, StreamClosedError)] == n
    decreases n
  {
    if n > 0 {
      AnswerCounts(s, n - 1);
      assert Answer(s, n) == Answer(s, n - 1) + [Reset(s, StreamClosedError)];
    }
  }

  /** The DATA is taken by its stream. */
  predicate Absorbed(e: Endpoint, f: Frame, a: Arrival) {
    f.Data? && Listens(e, f.id) && !a.malformed && !TooMuch(e, f, a)
  }

  /** How often a frame other than a reset is sent in answer. */
  function Given(e: Endpoint, f: Frame, a: Arrival, g: Frame): nat {
    match g
    case ConnUpdate(n) => if f.Data? && f.len == n && n > 0 then 1 else 0
    case StreamUpdate(t, n) => if Absorbed(e, f, a) && !f.end && f.id == t && f.len == n && n > 0 then 1 else 0
    case SettingsAck => if f.Settings? then 1 else 0
    case _ => 0
  }

  lemma StreamCredit(e: Endpoint, f: Frame, a: Arrival, g: Frame)
    requires f.Data? && f.id in e.streams && !g.Reset?
    ensures multiset(OnStreamData(e, f.id, f.len, f.end, a.malformed).1)[g] ==
            if g.StreamUpdate? then Given(e, f, a, g) else 0
  {
    hide Retire;
  }

  lemma EndGivesNone(e: Endpoint, s: nat, short: bool, g: Frame)
    requires !g.Reset?
    ensures multiset(OnEnd(e, s, short).1)[g] == 0
  {
    hide Retire, Settle;
  }

  lemma ActiveDataCredit(e: Endpoint, f: Frame, a: Arrival, g: Frame)
    requires f.Data? && f.id in e.streams && Receive(e, f, a).Ok? && !g.Reset?
    ensures multiset(Receive(e, f, a).out)[g] == Given(e, f, a, g)
  {
    var (e1, out) := OnStreamData(e, f.id, f.len, f.end, a.malformed);
    var more := if f.end then OnEnd(e1, f.id, a.short).1 else [];
    var credit := if f.len != 0 then [ConnUpdate(f.len)] else [];
    assert Receive(e, f, a).out == out + credit + more;
    hide OnStreamData, OnEnd, Receive, Absorbed;
    StreamCredit(e, f, a, g);
    EndGivesNone(e1, f.id, a.short, g);
    assert multiset(out + credit + more)[g] == multiset(out)[g] + multiset(credit)[g] + multiset(more)[g];
  }

  lemma DataCredit(e: Endpoint, f: Frame, a: Arrival, g: Frame)
    requires f.Data? && Receive(e, f, a).Ok? && !g.Reset?
    ensures multiset(Receive(e, f, a).out)[g] == Given(e, f, a, g)
  {
    hide OnStreamData, OnEnd, Answer;
    OnlyResets(f.id, 1, g);
    OnlyResets(f.id, a.calls, g);
    if f.id in e.streams {
      ActiveDataCredit(e, f, a, g);
    }
  }

  lemma OtherCredit(e: Endpoint, f: Frame, a: Arrival, g: Frame)
    requires HasStream(f) && !f.Data? && Receive(e, f, a).Ok? && !g.Reset?
    ensures multiset(Receive(e, f, a).out)[g] == Given(e, f, a, g)
  {
    hide Retire, Settle, Answer;
    OnlyResets(f.id, 1, g);
    OnlyResets(f.id, 1 + a.calls, g);
  }

  /**
   * The credit given back: the connection's for every byte of DATA that is not an error, whatever becomes of its
   * stream; the stream's if the stream takes the DATA and goes on. Nothing else is sent but resets and the
   * acknowledgement of settings.
   */
  lemma CreditExactly(e: Endpoint, f: Frame, a: Arrival, g: Frame)
    requires Receive(e, f, a).Ok? && !g.Reset?
    ensures multiset(Receive(e, f, a).out)[g] == Given(e, f, a, g)
  {
    hide ApplyPeer, ApplySelf, OnData, OnHeaders, OnStreamUpdate, OnReset;
    SettingsSendNone(e, f);
    if f.Data? {
      DataCredit(e, f, a, g);
    } else if HasStream(f) {
      OtherCredit(e, f, a, g);
    }
  }

  lemma {:induction false} OnlyResets(s: nat, n: nat, g: Frame)
    requires !g.Reset?
    ensures multiset(Answer(s, n))[g] == 0
    decreases n
  {
    if n > 0 {
      OnlyResets(s, n - 1, g);
      assert Answer(s, n) == Answer(s, n - 1) + [Reset(s, StreamClosedError)];
    }
  }

  /** What becomes of an active stream on which a frame arrives. */
  lemma StreamExactly(e: Endpoint, f: Frame, a: Arrival)
    requires HasStream(f) && f.id in e.streams && Receive(e, f, a).Ok?
    ensures var s, w, e' := f.id, e.streams[f.id], Receive(e, f, a).e;
            if exists error :: CallsForReset(e, f, a, error) then s !in e'.streams &&
                e'.closed == e.closed[s := ResetSent]
            else if f.Reset? then s !in e'.streams && e'.closed == e.closed[s := ResetReceived]
            else if CarriesBody(f) && f.end && w.sentEnd then
              s !in e'.streams && e'.closed == e.closed[s := BothEnded]
            else
              && s in e'.streams && e'.closed == e.closed
              && e'.streams[s].peer == w.peer + (if f.StreamUpdate? then f.inc else 0)
              && e'.streams[s].self == w.self - (if f.Data? && f.end then f.len else 0)
              && e'.streams[s].sentEnd == w.sentEnd && e'.streams[s].gotEnd == (w.gotEnd || (CarriesBody(f) && f.end))
    ensures var e' := Receive(e, f, a).e;
            && e'.streams - {f.id} == e.streams - {f.id}
            && e' == e.(streams := e'.streams, closed := e'.closed, recent := e'.recent)
  {
    hide ApplyPeer, ApplySelf, Remember;
    if CallsForReset(e, f, a, StreamClosedError) || CallsForReset(e, f, a, FlowControlError) ||
       CallsForReset(e, f, a, ProtocolError) {
      assert exists error :: CallsForReset(e, f, a, error);
    } else {
      forall error ensures !CallsForReset(e, f, a, error) {
        match error {
          case StreamClosedError =>
          case FlowControlError =>
          case ProtocolError =>
        }
      }
    }
  }

  /** A frame on a stream that is not active opens it, at a server, or leaves everything as it was. */
  lemma OthersStay(e: Endpoint, f: Frame, a: Arrival)
    requires HasStream(f) && f.id !in e.streams && Receive(e, f, a).Ok?
    ensures var e' := Receive(e, f, a).e;
            if f.Headers? && f.id !in e.closed then
              !e.client && e' == e.(streams := e.streams[f.id := Win(e.peerInit, e.selfInit, false, f.end)])
            else e' == e
  {
  }

  // ----- which closed streams are remembered

  /** One more stream is closed: it is remembered, and the one closed longest ago is not, if there are too many. */
  ghost predicate ClosesAs(e: Endpoint, e': Endpoint, s: nat) {
    && s in e.streams && e'.closed.Keys == e.closed.Keys + {s}
    && e'.recent == if |e.recent| < e.memory then e.recent + [s] else (e.recent + [s])[1..]
  }

  ghost predicate ClosesOne(e: Endpoint, e': Endpoint) {
    e'.memory == e.memory && ((e'.closed.Keys == e.closed.Keys && e'.recent == e.recent) || exists s ::
                              ClosesAs(e, e', s))
  }

  lemma RetireCloses(e: Endpoint, e1: Endpoint, s: nat, when: When)
    requires s in e.streams && e1.closed == e.closed && e1.recent == e.recent && e1.memory == e.memory
    ensures ClosesOne(e, Retire(e1, s, when))
  {
    assert ClosesAs(e, Retire(e1, s, when), s);
  }

  lemma SettleCloses(e: Endpoint, e1: Endpoint, s: nat)
    requires s in e.streams && s in e1.streams
    requires e1.closed == e.closed && e1.recent == e.recent && e1.memory == e.memory
    ensures ClosesOne(e, Settle(e1, s))
  {
    hide Retire;
    RetireCloses(e, e1, s, BothEnded);
  }

  lemma EndCloses(e: Endpoint, e1: Endpoint, s: nat, short: bool)
    requires s in e.streams && e1.closed == e.closed && e1.recent == e.recent && e1.memory == e.memory
    ensures ClosesOne(e, OnEnd(e1, s, short).0)
  {
    hide Retire, Settle;
    if s in e1.streams {
      RetireCloses(e, e1, s, ResetSent);
      SettleCloses(e, e1.(streams := e1.streams[s := e1.streams[s].(gotEnd := true)]), s);
    }
  }

  lemma DataCloses(e: Endpoint, s: nat, len: nat, end: bool, a: Arrival)
    requires OnData(e, s, len, end, a).Ok?
    ensures ClosesOne(e, OnData(e, s, len, end, a).e)
  {
    hide Retire, Settle, ClosesOne, OnEnd;
    if s in e.streams {
      RetireCloses(e, e, s, ResetSent);
      var e1 := OnStreamData(e, s, len, end, a.malformed).0;
      var w := e.streams[s];
      if !w.gotEnd && !a.malformed && (len <= w.self || len == 0) {
        EndCloses(e, e1, s, a.short);
      }
      RetiredEnds(e, s, a.short);
      NothingCloses(e, e1);
    } else {
      NothingCloses(e, e);
    }
  }

  lemma RetiredEnds(e: Endpoint, s: nat, short: bool)
    ensures OnEnd(Retire(e, s, ResetSent), s, short).0 == Retire(e, s, ResetSent)
  {
  }

  lemma NothingCloses(e: Endpoint, e1: Endpoint)
    ensures e1.closed == e.closed && e1.recent == e.recent && e1.memory == e.memory ==> ClosesOne(e, e1)
  {
  }

  lemma {:induction false} PeerSettingsClose(e: Endpoint, values: seq<nat>)
    ensures ApplyPeer(e, values).Ok? ==>
              var e' := ApplyPeer(e, values).e; e'.closed == e.closed && e'.recent == e.recent && e'.memory == e.memory
    decreases |values|
  {
    if values != [] {
      PeerSettingsClose(e, values[1..]);
      PeerSettingsClose(e.(peerInit := values[0], streams := ShiftPeer(e.streams, values[0] - e.peerInit)),
                        values[1..]);
    }
  }

  lemma {:induction false} OwnSettingsClose(e: Endpoint, values: seq<nat>)
    ensures ApplySelf(e, values).Ok? ==>
              var e' := ApplySelf(e, values).e; e'.closed == e.closed && e'.recent == e.recent && e'.memory == e.memory
    decreases |values|
  {
    if values != [] {
      OwnSettingsClose(e, values[1..]);
      OwnSettingsClose(e.(selfInit := values[0], streams := ShiftSelf(e.streams, values[0] - e.selfInit)), values[1..]);
    }
  }

  lemma ReceiveCloses(e: Endpoint, f: Frame, a: Arrival)
    requires Receive(e, f, a).Ok?
    ensures ClosesOne(e, Receive(e, f, a).e)
  {
    hide Retire, Settle, ClosesOne, OnEnd, OnData, ApplyPeer, ApplySelf;
    NothingCloses(e, Receive(e, f, a).e);
    match f {
      case Headers(s, end) =>
        if s in e.streams {
          RetireCloses(e, e, s, ResetSent);
          EndCloses(e, e, s, a.short);
        }
      case Data(s, len, end) => DataCloses(e, s, len, end, a);
      case StreamUpdate(s, _) =>
        if s in e.streams {
          RetireCloses(e, e, s, ResetSent);
        }
      case Reset(s, _) =>
        if s in e.streams {
          RetireCloses(e, e, s, ResetReceived);
        }
      case ConnUpdate(_) =>
      case Settings(values) => PeerSettingsClose(e, values);
      case SettingsAck => OwnSettingsClose(e.(pending := e.pending[1..]), e.pending[0]);
    }
  }

  lemma ActCloses(e: Endpoint, to: seq<Frame>, a: Action)
    requires Enabled(e, to, a) && Act(e, to, a).Ok?
    ensures ClosesOne(e, Act(e, to, a).e)
  {
    hide Retire, Settle, ClosesOne, Receive;
    NothingCloses(e, Act(e, to, a).e);
    match a {
      case Answering(s, end) => SettleCloses(e, e.(streams := e.streams[s := e.streams[s].(sentEnd := end)]), s);
      case Send(s, len, end, _) =>
        var w := e.streams[s];
        SettleCloses(e, e.(connPeer := e.connPeer - len,
                           streams := e.streams[s := w.(peer := w.peer - len, sentEnd := end)]), s);
      case Abandon(s) => RetireCloses(e, e, s, ResetSent);
      case Take(arrival) => ReceiveCloses(e, to[0], arrival);
      case Open(_, _) =>
      case Change(_) =>
    }
  }

  /** The stream that was closed between two states, if one was. */
  ghost function ClosedBetween(e: Endpoint, e': Endpoint): seq<nat> {
    var more := e'.closed.Keys - e.closed.Keys;
    if more != {} then var s :| s in more; [s] else []
  }

  /** The streams closed so far, in the order in which they were. */
  ghost function Order(states: seq<Endpoint>, n: nat): seq<nat>
    requires n < |states|
  {
    if n == 0 then [] else Order(states, n - 1) + ClosedBetween(states[n - 1], states[n])
  }

  /** The streams remembered are the last of these, as many as there is room for. */
  ghost predicate RemembersLast(e: Endpoint, order: seq<nat>) {
    && SetOf(order) == e.closed.Keys
    && |e.recent| == Min(e.memory, |order|) && e.recent == order[|order| - |e.recent|..]
  }

  lemma OneMoreClosed(e: Endpoint, e': Endpoint, order: seq<nat>)
    requires ClosesOne(e, e') && Kept(e) && RemembersLast(e, order)
    ensures RemembersLast(e', order + ClosedBetween(e, e'))
  {
    hide ClosesOne, Kept, SetOf, Min;
    if e'.closed.Keys != e.closed.Keys {
      var s := ClosedNow(e, e');
      assert e'.closed.Keys - e.closed.Keys == {s};
      assert ClosedBetween(e, e') == [s];
      SetPush(order, s);
      LastOnes(order, s, e.recent, e.memory);
    } else {
      assert e'.closed.Keys - e.closed.Keys == {};
      assert order + [] == order;
      SameRecent(e, e');
    }
  }

  /**
   * In every run, with any peer, the streams remembered are those closed last, in order, as many as there is
   * room for.
   */
  lemma {:induction false} RecentIsLast(states: seq<Endpoint>, turns: seq<FlowRuns.Turn>, n: nat)
    requires IsRun(states, turns) && n < |states|
    ensures RemembersLast(states[n], Order(states, n))
  {
    hide IsRun, ClosesOne, Kept, RemembersLast, ClosedBetween, InBounds;
    RunLength(states, turns);
    if n == 0 {
      NothingYet(states, turns);
    } else {
      RecentIsLast(states, turns, n - 1);
      RunInBounds(states, turns, n - 1);
      TurnCloses(states, turns, n - 1);
      OneMoreClosed(states[n - 1], states[n], Order(states, n - 1));
    }
  }

  lemma RunLength(states: seq<Endpoint>, turns: seq<FlowRuns.Turn>)
    requires IsRun(states, turns)
    ensures |states| == |turns| + 1
  {
  }

  lemma NothingYet(states: seq<Endpoint>, turns: seq<FlowRuns.Turn>)
    requires IsRun(states, turns)
    ensures RemembersLast(states[0], [])
  {
  }

  lemma TurnCloses(states: seq<Endpoint>, turns: seq<FlowRuns.Turn>, n: nat)
    requires IsRun(states, turns) && n < |turns|
    ensures ClosesOne(states[n], states[n + 1])
  {
    hide Act, Enabled, ClosesOne;
    assert CanDo(states[n], turns[n]);
    ActCloses(states[n], turns[n].to, turns[n].action);
  }

  lemma ClosedNow(e: Endpoint, e': Endpoint) returns (s: nat)
    requires ClosesOne(e, e') && Kept(e) && e'.closed.Keys != e.closed.Keys
    ensures ClosesAs(e, e', s) && s !in e.closed && e'.memory == e.memory
  {
    hide Kept;
    s :| ClosesAs(e, e', s);
    StillOpen(e, s);
  }

  lemma LastOnes(order: seq<nat>, s: nat, recent: seq<nat>, memory: nat)
    requires |recent| == Min(memory, |order|) && recent == order[|order| - |recent|..]
    ensures var all, recent' := order + [s], if |recent| < memory then recent + [s] else (recent + [s])[1..];
            |recent'| == Min(memory, |all|) && recent' == all[|all| - |recent'|..]
  {
  }

  lemma StillOpen(e: Endpoint, s: nat)
    requires Kept(e) && s in e.streams
    ensures s !in e.closed
  {
    assert s in e.streams.Keys;
  }

  lemma SameRecent(e: Endpoint, e': Endpoint)
    requires ClosesOne(e, e') && e'.closed.Keys == e.closed.Keys && Kept(e)
    ensures e'.recent == e.recent && e'.memory == e.memory
  {
    hide Kept;
    forall s ensures !ClosesAs(e, e', s) {
      if s in e.streams {
        StillOpen(e, s);
        assert s in e.closed.Keys + {s};
      }
    }
  }

  lemma SetPush(ids: seq<nat>, s: nat)
    ensures SetOf(ids + [s]) == SetOf(ids) + {s}
  {
    var all := ids + [s];
    assert all[|ids|] == s && forall k | 0 <= k < |ids| :: all[k] == ids[k];
  }

  // ----- what may be sent

  /** DATA is sent exactly if there is room in both windows for more than the least that is worth a frame. */
  lemma RoomExactly(e: Endpoint, s: nat)
    requires s in e.streams && !e.streams[s].sentEnd
    ensures MaySend(e, s) <==> MaxPayload(e, s, MIN_WINDOW + 1) > MIN_WINDOW
    ensures MaySend(e, s) ==>
              forall space: nat {:trigger MaxPayload(e, s, space)} ::
                MaxPayload(e, s, space) <= space && (space <= MIN_WINDOW + 1 ==> MaxPayload(e, s, space) == space)
  {
  }
}
