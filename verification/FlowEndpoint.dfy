/**
 * One endpoint and any peer: whatever frames arrive, as long as no connection
 * error has been raised, the windows stay in range, a stream's send window is what
 * its history says, and every sum fits the integer it is computed in.
 */
module FlowEndpoint {
  import opened FlowControl
  import opened FlowCredit
  import opened FlowOrder
  import opened FlowBalance
  import opened FlowConduct
  import opened FlowRuns

  /** Increments have 31 bits; nothing else is asked of the peer. */
  ghost predicate Encodable(f: Frame) {
    (f.ConnUpdate? || f.StreamUpdate?) ==> f.inc <= MAX_WINDOW
  }

  /** The endpoint does something of its own accord, or takes the frame that has arrived. */
  ghost predicate CanDo(e: Endpoint, turn: Turn) {
    Enabled(e, turn.to, turn.action) && (turn.action.Take? ==> Encodable(turn.to[0]))
  }

  function Do(e: Endpoint, turn: Turn): Outcome
    requires Enabled(e, turn.to, turn.action)
  {
    Act(e, turn.to, turn.action)
  }

  // ----- the invariant

  const LOWEST: int := -0x7FFF_FFFF

  ghost predicate WinOk(e: Endpoint, w: Win) {
    && LOWEST <= w.peer - e.peerInit && w.peer <= MAX_WINDOW
    && LOWEST <= w.self - e.selfInit <= 0
  }

  ghost predicate InBounds(e: Endpoint) {
    && 0 <= e.connPeer <= MAX_WINDOW && e.connSelf == MAX_WINDOW
    && e.peerInit <= MAX_WINDOW && e.selfInit <= MAX_WINDOW
    && (forall k | 0 <= k < |e.pending| :: ValidValues(e.pending[k]))
    && e.streams.Keys !! e.closed.Keys
    && forall s | s in e.streams :: WinOk(e, e.streams[s])
  }

  lemma ShiftPeerKeeps(e: Endpoint, v: nat)
    requires InBounds(e) && v <= MAX_WINDOW
    requires !exists s | s in e.streams :: e.streams[s].peer + (v - e.peerInit) > MAX_WINDOW
    ensures InBounds(e.(peerInit := v, streams := ShiftPeer(e.streams, v - e.peerInit)))
  {
    var e' := e.(peerInit := v, streams := ShiftPeer(e.streams, v - e.peerInit));
    forall s | s in e'.streams ensures WinOk(e', e'.streams[s]) {
      assert WinOk(e, e.streams[s]);
      assert !(e.streams[s].peer + (v - e.peerInit) > MAX_WINDOW);
    }
  }

  lemma ShiftSelfKeeps(e: Endpoint, v: nat)
    requires InBounds(e) && v <= MAX_WINDOW
    ensures InBounds(e.(selfInit := v, streams := ShiftSelf(e.streams, v - e.selfInit)))
    ensures !exists s | s in e.streams :: e.streams[s].self + (v - e.selfInit) > MAX_WINDOW
  {
    var e' := e.(selfInit := v, streams := ShiftSelf(e.streams, v - e.selfInit));
    forall s | s in e'.streams ensures WinOk(e', e'.streams[s]) {
      assert WinOk(e, e.streams[s]);
    }
    forall s | s in e.streams ensures e.streams[s].self + (v - e.selfInit) <= MAX_WINDOW {
      assert WinOk(e, e.streams[s]);
    }
  }

  lemma {:induction false} ApplyPeerKeeps(e: Endpoint, values: seq<nat>)
    requires InBounds(e) && ApplyPeer(e, values).Ok?
    ensures InBounds(ApplyPeer(e, values).e) && ApplyPeer(e, values).e.streams.Keys == e.streams.Keys
    decreases |values|
  {
    hide InBounds, ShiftPeer;
    if values != [] {
      var v := values[0];
      var e' := if v == e.peerInit then e else e.(peerInit := v, streams := ShiftPeer(e.streams, v - e.peerInit));
      if v != e.peerInit {
        ShiftPeerKeeps(e, v);
        ShiftPeerViews(e, v);
      }
      ApplyPeerKeeps(e', values[1..]);
    }
  }

  /** The endpoint's own settings never make a window exceed the maximum, whoever the peer is. */
  lemma {:induction false} ApplySelfKeeps(e: Endpoint, values: seq<nat>)
    requires InBounds(e) && ValidValues(values)
    ensures ApplySelf(e, values).Ok? && InBounds(ApplySelf(e, values).e)
    decreases |values|
  {
    hide InBounds, ShiftSelf;
    if values != [] {
      var v := values[0];
      var e' := if v == e.selfInit then e else e.(selfInit := v, streams := ShiftSelf(e.streams, v - e.selfInit));
      ShiftSelfKeeps(e, v);
      ApplySelfKeeps(e', values[1..]);
    }
  }

  lemma TakeSettingsKeeps(e: Endpoint, values: seq<nat>)
    requires InBounds(e) && OnSettings(e, values).Ok?
    ensures InBounds(OnSettings(e, values).e)
  {
    hide InBounds, ApplyPeer;
    ApplyPeerKeeps(e, values);
  }

  lemma TakeAckKeeps(e: Endpoint)
    requires InBounds(e) && e.pending != []
    ensures OnSettingsAck(e).Ok? && InBounds(OnSettingsAck(e).e)
  {
    hide ApplySelf;
    var e1 := e.(pending := e.pending[1..]);
    forall s | s in e1.streams ensures WinOk(e1, e1.streams[s]) {
      assert WinOk(e, e.streams[s]);
    }
    ApplySelfKeeps(e1, e.pending[0]);
  }

  lemma RetireInBounds(e: Endpoint, s: nat, when: When)
    requires InBounds(e)
    ensures InBounds(Retire(e, s, when))
  {
    var e' := Retire(e, s, when);
    forall t | t in e'.streams ensures WinOk(e', e'.streams[t]) {
      assert WinOk(e, e.streams[t]);
    }
  }

  lemma SettleInBounds(e: Endpoint, s: nat)
    requires InBounds(e) && s in e.streams
    ensures InBounds(Settle(e, s))
  {
    hide InBounds, Retire;
    RetireInBounds(e, s, BothEnded);
  }

  lemma UpdateInBounds(e: Endpoint, s: nat, w: Win)
    requires InBounds(e) && s !in e.closed && WinOk(e, w)
    ensures InBounds(e.(streams := e.streams[s := w]))
  {
    var e' := e.(streams := e.streams[s := w]);
    forall t | t in e'.streams ensures WinOk(e', e'.streams[t]) {
      assert t != s ==> WinOk(e, e.streams[t]);
    }
  }

  lemma ConnInBounds(e: Endpoint, conn: int)
    requires InBounds(e) && 0 <= conn <= MAX_WINDOW
    ensures InBounds(e.(connPeer := conn))
  {
    var e' := e.(connPeer := conn);
    forall t | t in e'.streams ensures WinOk(e', e'.streams[t]) {
      assert WinOk(e, e.streams[t]);
    }
  }

  lemma StreamInBounds(e: Endpoint, s: nat)
    requires InBounds(e)
    ensures s in e.streams ==> WinOk(e, e.streams[s]) && s !in e.closed
  {
  }

  lemma EndInBounds(e: Endpoint, s: nat, short: bool)
    requires InBounds(e)
    ensures InBounds(OnEnd(e, s, short).0)
  {
    hide InBounds, Settle, Retire;
    StreamInBounds(e, s);
    RetireInBounds(e, s, ResetSent);
    if s in e.streams {
      UpdateInBounds(e, s, e.streams[s].(gotEnd := true));
      SettleInBounds(e.(streams := e.streams[s := e.streams[s].(gotEnd := true)]), s);
    }
  }

  lemma HeadersInBounds(e: Endpoint, s: nat, end: bool, a: Arrival)
    requires InBounds(e) && OnHeaders(e, s, end, a).Ok?
    ensures InBounds(OnHeaders(e, s, end, a).e)
  {
    hide InBounds, OnEnd, Retire;
    RetireInBounds(e, s, ResetSent);
    EndInBounds(e, s, a.short);
    if s !in e.streams && s !in e.closed {
      NewInBounds(e, s, Win(e.peerInit, e.selfInit, false, end));
    }
  }

  lemma NewInBounds(e: Endpoint, s: nat, w: Win)
    requires InBounds(e) && s !in e.closed && w.peer == e.peerInit && w.self == e.selfInit
    ensures InBounds(e.(streams := e.streams[s := w]))
  {
    UpdateInBounds(e, s, w);
  }

  lemma DataInBounds(e: Endpoint, s: nat, len: nat, end: bool, a: Arrival)
    requires InBounds(e) && OnData(e, s, len, end, a).Ok?
    ensures InBounds(OnData(e, s, len, end, a).e)
  {
    hide InBounds, OnEnd, Retire;
    StreamInBounds(e, s);
    SelfBound(e);
    RetireInBounds(e, s, ResetSent);
    if s in e.streams {
      var w := e.streams[s];
      if !(len > w.self && len != 0) {
        UpdateInBounds(e, s, w.(self := w.self - len));
      }
      EndInBounds(OnStreamData(e, s, len, end, a.malformed).0, s, a.short);
    }
  }

  lemma SelfBound(e: Endpoint)
    requires InBounds(e)
    ensures e.selfInit <= MAX_WINDOW && e.peerInit <= MAX_WINDOW && 0 <= e.connPeer <= MAX_WINDOW
  {
  }

  lemma StreamUpdateInBounds(e: Endpoint, s: nat, inc: nat)
    requires InBounds(e) && OnStreamUpdate(e, s, inc).Ok?
    ensures InBounds(OnStreamUpdate(e, s, inc).e)
  {
    hide InBounds, Retire;
    StreamInBounds(e, s);
    RetireInBounds(e, s, ResetSent);
    if s in e.streams && e.streams[s].peer + inc <= MAX_WINDOW {
      UpdateInBounds(e, s, e.streams[s].(peer := e.streams[s].peer + inc));
    }
  }

  lemma ReceiveKeeps(e: Endpoint, f: Frame, a: Arrival)
    requires InBounds(e) && Receive(e, f, a).Ok?
    ensures InBounds(Receive(e, f, a).e)
  {
    hide InBounds, ApplyPeer, ApplySelf, OnHeaders, OnData, Retire;
    SelfBound(e);
    match f {
      case Headers(s, end) => HeadersInBounds(e, s, end, a);
      case Data(s, len, end) => DataInBounds(e, s, len, end, a);
      case ConnUpdate(inc) => ConnInBounds(e, e.connPeer + inc);
      case StreamUpdate(s, inc) => StreamUpdateInBounds(e, s, inc);
      case Settings(values) => TakeSettingsKeeps(e, values);
      case SettingsAck => TakeAckKeeps(e);
      case Reset(s, _) => RetireInBounds(e, s, ResetReceived);
    }
  }

  lemma SendInBounds(e: Endpoint, s: nat, len: nat, end: bool, space: nat)
    requires InBounds(e) && MaySend(e, s) && len <= MaxPayload(e, s, space)
    ensures InBounds(SendData(e, s, len, end).0)
  {
    hide InBounds, Settle;
    StreamInBounds(e, s);
    SelfBound(e);
    var w := e.streams[s];
    var e1 := e.(connPeer := e.connPeer - len);
    ConnInBounds(e, e.connPeer - len);
    UpdateInBounds(e1, s, w.(peer := w.peer - len, sentEnd := end));
    SettleInBounds(e1.(streams := e1.streams[s := w.(peer := w.peer - len, sentEnd := end)]), s);
  }

  lemma ChangeInBounds(e: Endpoint, values: seq<nat>)
    requires InBounds(e) && ValidValues(values)
    ensures InBounds(ChangeSettings(e, values).0)
  {
    var e' := ChangeSettings(e, values).0;
    forall t | t in e'.streams ensures WinOk(e', e'.streams[t]) {
      assert WinOk(e, e.streams[t]);
    }
  }

  lemma AnswerInBounds(e: Endpoint, s: nat, end: bool)
    requires InBounds(e) && s in e.streams
    ensures InBounds(Respond(e, s, end).0)
  {
    hide InBounds, Settle;
    StreamInBounds(e, s);
    UpdateInBounds(e, s, e.streams[s].(sentEnd := end));
    SettleInBounds(e.(streams := e.streams[s := e.streams[s].(sentEnd := end)]), s);
  }

  /** Whatever the endpoint does and whatever arrives, the windows stay in bounds unless an error is raised. */
  lemma StepKeeps(e: Endpoint, turn: Turn)
    requires InBounds(e) && CanDo(e, turn) && Do(e, turn).Ok?
    ensures InBounds(Do(e, turn).e)
  {
    hide InBounds, Receive, SendData, ChangeSettings, Retire, Respond;
    match turn.action {
      case Open(s, end) => NewInBounds(e, s, Win(e.peerInit, e.selfInit, end, false));
      case Answering(s, end) => AnswerInBounds(e, s, end);
      case Send(s, len, end, space) => SendInBounds(e, s, len, end, space);
      case Change(values) => ChangeInBounds(e, values);
      case Abandon(s) => RetireInBounds(e, s, ResetSent);
      case Take(arrival) => ReceiveKeeps(e, turn.to[0], arrival);
    }
  }

  // ----- runs, up to the first error

  /** From a new endpoint, in either role and with any memory for closed streams. */
  ghost predicate IsRun(states: seq<Endpoint>, turns: seq<Turn>) {
    && |states| == |turns| + 1
    && states[0] == NewEndpoint(states[0].client, states[0].memory)
    && forall k | 0 <= k < |turns| ::
         CanDo(states[k], turns[k]) && Do(states[k], turns[k]).Ok? && states[k + 1] == Do(states[k], turns[k]).e
  }

  lemma {:induction false} RunInBounds(states: seq<Endpoint>, turns: seq<Turn>, n: nat)
    requires IsRun(states, turns) && n < |states|
    ensures InBounds(states[n]) && Kept(states[n])
  {
    hide CanDo, Do;
    if n > 0 {
      RunInBounds(states, turns, n - 1);
      assert CanDo(states[n - 1], turns[n - 1]);
      StepKeeps(states[n - 1], turns[n - 1]);
      TurnKept(states[n - 1], turns[n - 1]);
    }
  }

  lemma TurnKept(e: Endpoint, turn: Turn)
    requires Kept(e) && CanDo(e, turn) && Do(e, turn).Ok?
    ensures Kept(Do(e, turn).e)
  {
    hide Kept, Act;
    ActKept(e, turn.to, turn.action);
  }

  lemma {:induction false} RelativeWindow(states: seq<Endpoint>, turns: seq<Turn>, n: nat, s: nat)
    requires IsRun(states, turns) && n <= |turns|
    ensures s !in states[n].closed ==>
              Rel(Sending(states[n]).rel, s) == Accepted(turns[..n], s) - Sent(turns[..n], s)
  {
    hide Act, Sending, Accepted, Sent;
    if n == 0 {
      assert turns[..0] == [];
      NoStreams(states[0], s);
    } else {
      RelativeWindow(states, turns, n - 1, s);
      var turn := turns[n - 1];
      assert CanDo(states[n - 1], turn);
      ActMoves(states[n - 1], turn.to, turn.action, s);
      assert turns[..n] == turns[..n - 1] + [turn];
      HistoryPush(turns[..n - 1], turn, s);
    }
  }

  /**
   * Against any peer, at every point before an error: the connection's send window is within 0 and
   * the maximum; an active stream's is the current initial size plus the increments accepted less
   * the bytes sent, and within the maximum either way.
   */
  lemma WindowsAreInRange(states: seq<Endpoint>, turns: seq<Turn>, n: nat, s: nat)
    requires IsRun(states, turns) && n < |states|
    ensures var e := states[n];
            && 0 <= e.connPeer <= MAX_WINDOW
            && (s in e.streams ==>
                  && e.streams[s].peer == e.peerInit + Accepted(turns[..n], s) - Sent(turns[..n], s)
                  && LOWEST <= e.streams[s].peer <= MAX_WINDOW)
  {
    hide CanDo, Do, Accepted, Sent, Kept;
    RunInBounds(states, turns, n);
    RelativeWindow(states, turns, n, s);
    StreamInBounds(states[n], s);
  }

  predicate Int32(n: int) {
    -0x8000_0000 <= n <= 0x7FFF_FFFF
  }

  /** The sums a change of the peer's initial size is made of: the difference, and each send window shifted by it. */
  ghost predicate PeerShiftFits(e: Endpoint, v: nat) {
    Int32(v - e.peerInit) &&
    forall s | s in e.streams :: -0x8000_0000 <= e.streams[s].peer + (v - e.peerInit) <= 2 * MAX_WINDOW
  }

  /** The same for the endpoint's own initial size; these sums are formed in 32 bits. */
  ghost predicate SelfShiftFits(e: Endpoint, v: nat) {
    Int32(v - e.selfInit) && forall s | s in e.streams :: Int32(e.streams[s].self + (v - e.selfInit))
  }

  /**
   * Every sum of the next step: 64 bits are needed for one only, that of a send window with an increment
   * or a change, and what is stored after it was compared with the maximum fits 32 bits again.
   */
  ghost predicate SumsFit(e: Endpoint, f: Frame) {
    match f
    case ConnUpdate(inc) => e.connPeer + inc < 0x1_0000_0000
    case StreamUpdate(s, inc) => s in e.streams ==> -0x8000_0000 <= e.streams[s].peer + inc <= 2 * MAX_WINDOW
    case Data(s, len, _) =>
      s in e.streams && len <= e.streams[s].self ==> Int32(len) && Int32(e.streams[s].self - len)
    case Settings(values) =>
      forall k | 0 <= k < |values| && values[k] <= MAX_WINDOW ::
        ApplyPeer(e, values[..k]).Ok? ==> PeerShiftFits(ApplyPeer(e, values[..k]).e, values[k])
    case SettingsAck =>
      e.pending != [] ==>
        var e1, values := e.(pending := e.pending[1..]), e.pending[0];
        forall k | 0 <= k < |values| ::
          ApplySelf(e1, values[..k]).Ok? && SelfShiftFits(ApplySelf(e1, values[..k]).e, values[k])
    case _ => true
  }

  lemma ShiftInBounds(e: Endpoint, v: nat)
    requires InBounds(e) && v <= MAX_WINDOW
    ensures PeerShiftFits(e, v) && SelfShiftFits(e, v)
  {
    forall s | s in e.streams
      ensures -0x8000_0000 <= e.streams[s].peer + (v - e.peerInit) <= 2 * MAX_WINDOW
      ensures Int32(e.streams[s].self + (v - e.selfInit))
    {
      assert WinOk(e, e.streams[s]);
    }
  }

  lemma PeerSumsFit(e: Endpoint, values: seq<nat>, k: nat)
    requires InBounds(e) && k < |values| && values[k] <= MAX_WINDOW && ApplyPeer(e, values[..k]).Ok?
    ensures PeerShiftFits(ApplyPeer(e, values[..k]).e, values[k])
  {
    hide InBounds, PeerShiftFits, SelfShiftFits, ApplyPeer;
    ApplyPeerKeeps(e, values[..k]);
    ShiftInBounds(ApplyPeer(e, values[..k]).e, values[k]);
  }

  lemma SelfSumsFit(e: Endpoint, values: seq<nat>, k: nat)
    requires InBounds(e) && ValidValues(values) && k < |values|
    ensures ApplySelf(e, values[..k]).Ok? && SelfShiftFits(ApplySelf(e, values[..k]).e, values[k])
  {
    hide InBounds, PeerShiftFits, SelfShiftFits, ApplySelf;
    ApplySelfKeeps(e, values[..k]);
    ShiftInBounds(ApplySelf(e, values[..k]).e, values[k]);
  }

  /** Settings that are no longer pending. */
  lemma PoppedInBounds(e: Endpoint)
    requires InBounds(e) && e.pending != []
    ensures InBounds(e.(pending := e.pending[1..])) && ValidValues(e.pending[0])
  {
    var e1 := e.(pending := e.pending[1..]);
    forall s | s in e1.streams ensures WinOk(e1, e1.streams[s]) {
      assert WinOk(e, e.streams[s]);
    }
  }

  /** Against any peer, no sum overflows, in any run up to and including the step that raises an error. */
  lemma SumsNeverOverflow(states: seq<Endpoint>, turns: seq<Turn>, n: nat, f: Frame)
    requires IsRun(states, turns) && n < |states| && Encodable(f)
    ensures SumsFit(states[n], f)
    ensures forall s | s in states[n].streams :: Int32(states[n].streams[s].peer) && Int32(states[n].streams[s].self)
  {
    hide IsRun, PeerShiftFits, SelfShiftFits, ApplyPeer, ApplySelf, Kept;
    RunInBounds(states, turns, n);
    var e := states[n];
    forall s | s in e.streams
      ensures Int32(e.streams[s].peer) && Int32(e.streams[s].self) && e.streams[s].self <= MAX_WINDOW
    {
      assert WinOk(e, e.streams[s]);
    }
    if f.Settings? {
      forall k | 0 <= k < |f.values| && f.values[k] <= MAX_WINDOW && ApplyPeer(e, f.values[..k]).Ok?
        ensures PeerShiftFits(ApplyPeer(e, f.values[..k]).e, f.values[k])
      {
        PeerSumsFit(e, f.values, k);
      }
    } else if f.SettingsAck? && e.pending != [] {
      var e1, values := e.(pending := e.pending[1..]), e.pending[0];
      PoppedInBounds(e);
      forall k | 0 <= k < |values|
        ensures ApplySelf(e1, values[..k]).Ok? && SelfShiftFits(ApplySelf(e1, values[..k]).e, values[k])
      {
        SelfSumsFit(e1, values, k);
      }
    }
  }

  /**
   * Against any peer, exactly which frames raise which connection error. FLOW_CONTROL_ERROR: DATA beyond the
   * connection's receive window, connection credit beyond the maximum, a size beyond the maximum or one that lifts a
   * stream's window beyond it. STREAM_CLOSED: DATA or HEADERS on a stream that both ends have ended. PROTOCOL_ERROR:
   * a frame on a stream found nowhere, unless it opens it at a server; an increment of zero; an acknowledgement of
   * nothing.
   */
  lemma RefusedExactly(states: seq<Endpoint>, turns: seq<Turn>, n: nat, f: Frame, a: Arrival)
    requires IsRun(states, turns) && n < |states|
    ensures var e, r := states[n], Receive(states[n], f, a);
            && (r == Err(FlowControlError) <==>
                  || (f.Data? && f.len > MAX_WINDOW)
                  || (f.ConnUpdate? && f.inc > 0 && e.connPeer + f.inc > MAX_WINDOW)
                  || (f.Settings? && exists k | 0 <= k < |f.values| :: Lifts(e, f.values[k])))
            && (r == Err(StreamClosedError) <==>
                  || (f.Data? && f.len <= MAX_WINDOW && Over(e, f.id))
                  || (f.Headers? && Over(e, f.id)))
            && (r == Err(ProtocolError) <==>
                  || (f.Data? && f.len <= MAX_WINDOW && Lost(e, f.id))
                  || (f.Headers? && Lost(e, f.id) && (e.client || f.id in e.closed))
                  || ((f.StreamUpdate? || f.Reset?) && Lost(e, f.id))
                  || (f.ConnUpdate? && f.inc == 0)
                  || (f.SettingsAck? && e.pending == []))
  {
    hide IsRun, InBounds, ApplyPeer, ApplySelf, Lifts, OnStreamData, OnEnd, OnStreamHeaders;
    RunInBounds(states, turns, n);
    var e := states[n];
    assert e.connSelf == MAX_WINDOW by { ConnSelfIsMax(e); }
    RememberedIsClosed(e);
    if f.Settings? {
      SettingsRefused(e, f.values);
      PeerErrors(e, f.values);
    }
    if f.SettingsAck? && e.pending != [] {
      TakeAckKeeps(e);
    }
  }

  /** Both ends have ended the stream, and it is one of the last that were closed. */
  predicate Over(e: Endpoint, s: nat) {
    s in e.recent && s in e.closed && e.closed[s] == BothEnded
  }

  /** Neither active nor one of the last that were closed. */
  predicate Lost(e: Endpoint, s: nat) {
    s !in e.streams && s !in e.recent
  }

  // ----- what it means that a stream is over

  predicate SendsEnd(turn: Turn, s: nat) {
    (turn.action.Open? || turn.action.Answering? || turn.action.Send?) && turn.action.s == s && turn.action.end
  }

  predicate GetsEnd(turn: Turn, s: nat) {
    turn.action.Take? && turn.to != [] && Ends(turn.to[0], s)
  }

  /** The endpoint has ended the stream, as far as it knows. */
  predicate SentAll(e: Endpoint, s: nat) {
    (s in e.streams && e.streams[s].sentEnd) || (s in e.closed && e.closed[s] == BothEnded)
  }

  ghost predicate EndsBy(e: Endpoint, e': Endpoint, s: nat, sends: bool, gets: bool) {
    (SentAll(e', s) ==> SentAll(e, s) || sends) && (Finished(e', s) ==> Finished(e, s) || gets)
  }

  lemma SettleEnds(e: Endpoint, t: nat, s: nat)
    requires t in e.streams
    ensures EndsBy(e, Settle(e, t), s, false, false)
  {
  }

  lemma FlagEnds(e: Endpoint, t: nat, w: Win, s: nat)
    ensures EndsBy(e, e.(streams := e.streams[t := w]), s,
                   t == s && w.sentEnd && !(t in e.streams && e.streams[t].sentEnd),
                   t == s && w.gotEnd && !(t in e.streams && e.streams[t].gotEnd))
  {
  }

  lemma GoneEnds(e: Endpoint, t: nat, when: When, s: nat)
    requires when != BothEnded
    ensures EndsBy(e, Retire(e, t, when), s, false, false)
  {
  }

  lemma OnEndEnds(e: Endpoint, t: nat, short: bool, s: nat)
    ensures EndsBy(e, OnEnd(e, t, short).0, s, false, t == s)
  {
    hide Retire, Settle;
    GoneEnds(e, t, ResetSent, s);
    if t in e.streams {
      var w := e.streams[t].(gotEnd := true);
      FlagEnds(e, t, w, s);
      SettleEnds(e.(streams := e.streams[t := w]), t, s);
    }
  }

  lemma HeadersEnds(e: Endpoint, t: nat, end: bool, a: Arrival, s: nat)
    requires OnHeaders(e, t, end, a).Ok?
    ensures EndsBy(e, OnHeaders(e, t, end, a).e, s, false, end && t == s)
  {
    hide Retire, OnEnd;
    GoneEnds(e, t, ResetSent, s);
    OnEndEnds(e, t, a.short, s);
    FlagEnds(e, t, Win(e.peerInit, e.selfInit, false, end), s);
  }

  lemma DataEnds(e: Endpoint, t: nat, len: nat, end: bool, a: Arrival, s: nat)
    requires OnData(e, t, len, end, a).Ok?
    ensures EndsBy(e, OnData(e, t, len, end, a).e, s, false, end && t == s)
  {
    hide Retire, OnEnd;
    GoneEnds(e, t, ResetSent, s);
    if t in e.streams {
      FlagEnds(e, t, e.streams[t].(self := e.streams[t].self - len), s);
      OnEndEnds(OnStreamData(e, t, len, end, a.malformed).0, t, a.short, s);
    }
  }

  lemma ReceiveEnds(e: Endpoint, g: Frame, a: Arrival, s: nat)
    requires Receive(e, g, a).Ok?
    ensures EndsBy(e, Receive(e, g, a).e, s, false, Ends(g, s))
  {
    hide ApplyPeer, ApplySelf, OnHeaders, OnData, Retire;
    match g {
      case Headers(t, end) => HeadersEnds(e, t, end, a, s);
      case Data(t, len, end) => DataEnds(e, t, len, end, a, s);
      case StreamUpdate(t, inc) => GoneEnds(e, t, ResetSent, s);
      case Settings(values) => ApplyPeerFlags(e, values);
      case SettingsAck => ApplySelfFlags(e.(pending := e.pending[1..]), e.pending[0]);
      case Reset(t, _) => GoneEnds(e, t, ResetReceived, s);
      case _ =>
    }
  }

  lemma TurnEnds(e: Endpoint, turn: Turn, s: nat)
    requires CanDo(e, turn) && Do(e, turn).Ok?
    ensures EndsBy(e, Do(e, turn).e, s, SendsEnd(turn, s), GetsEnd(turn, s))
  {
    hide Receive, Retire, Settle;
    match turn.action {
      case Open(t, end) => FlagEnds(e, t, Win(e.peerInit, e.selfInit, end, false), s);
      case Answering(t, end) =>
        var w := e.streams[t].(sentEnd := end);
        FlagEnds(e, t, w, s);
        SettleEnds(e.(streams := e.streams[t := w]), t, s);
      case Send(t, len, end, _) =>
        var w := e.streams[t].(peer := e.streams[t].peer - len, sentEnd := end);
        var e1 := e.(connPeer := e.connPeer - len);
        FlagEnds(e1, t, w, s);
        SettleEnds(e1.(streams := e1.streams[t := w]), t, s);
      case Change(_) =>
      case Abandon(t) => GoneEnds(e, t, ResetSent, s);
      case Take(a) => ReceiveEnds(e, turn.to[0], a, s);
    }
  }

  /** A stream is taken for ended, by either side, only if a turn of the run ended it. */
  lemma {:induction false} EndsAreHistory(states: seq<Endpoint>, turns: seq<Turn>, n: nat, s: nat)
    requires IsRun(states, turns) && n < |states|
    ensures SentAll(states[n], s) ==> exists k | 0 <= k < n :: SendsEnd(turns[k], s)
    ensures Finished(states[n], s) ==> exists k | 0 <= k < n :: GetsEnd(turns[k], s)
    ensures Over(states[n], s) ==> SentAll(states[n], s) && Finished(states[n], s)
  {
    hide CanDo, Do, SendsEnd, GetsEnd;
    if n > 0 {
      EndsAreHistory(states, turns, n - 1, s);
      assert CanDo(states[n - 1], turns[n - 1]);
      TurnEnds(states[n - 1], turns[n - 1], s);
    }
  }

  lemma RememberedIsClosed(e: Endpoint)
    requires Kept(e)
    ensures forall s | s in e.recent :: s in e.closed && s !in e.streams
  {
  }

  lemma {:induction false} PeerErrors(e: Endpoint, values: seq<nat>)
    ensures ApplyPeer(e, values).Err? ==> ApplyPeer(e, values).error == FlowControlError
    decreases |values|
  {
    if values != [] {
      PeerErrors(e, values[1..]);
      PeerErrors(e.(peerInit := values[0], streams := ShiftPeer(e.streams, values[0] - e.peerInit)), values[1..]);
    }
  }

  lemma ConnSelfIsMax(e: Endpoint)
    requires InBounds(e)
    ensures e.connSelf == MAX_WINDOW
  {
  }

  /** An initial size that would lift some stream's send window above the maximum, or is above it itself. */
  ghost predicate Lifts(e: Endpoint, v: nat) {
    v > MAX_WINDOW || exists s | s in e.streams :: e.streams[s].peer + (v - e.peerInit) > MAX_WINDOW
  }

  lemma LiftsShifted(e: Endpoint, v: nat, w: nat)
    ensures Lifts(e.(peerInit := v, streams := ShiftPeer(e.streams, v - e.peerInit)), w) <==> Lifts(e, w)
  {
    var e' := e.(peerInit := v, streams := ShiftPeer(e.streams, v - e.peerInit));
    forall s | s in e.streams
      ensures s in e'.streams && e'.streams[s].peer + (w - e'.peerInit) == e.streams[s].peer + (w - e.peerInit)
    {
    }
    if Lifts(e, w) && w <= MAX_WINDOW {
      var s :| s in e.streams && e.streams[s].peer + (w - e.peerInit) > MAX_WINDOW;
      assert s in e'.streams && e'.streams[s].peer + (w - e'.peerInit) > MAX_WINDOW;
    }
  }

  lemma {:induction false} SettingsRefused(e: Endpoint, values: seq<nat>)
    requires InBounds(e)
    ensures ApplyPeer(e, values).Err? <==> exists k | 0 <= k < |values| :: Lifts(e, values[k])
    decreases |values|
  {
    hide InBounds, ShiftPeer;
    if values != [] {
      var v := values[0];
      assert forall k | 1 <= k < |values| :: values[k] == values[1..][k - 1];
      if v == e.peerInit {
        assert !Lifts(e, v) by { CurrentNeverLifts(e); }
        SettingsRefused(e, values[1..]);
        RefusedLater(e, e, values);
      } else if !Lifts(e, v) {
        var e' := e.(peerInit := v, streams := ShiftPeer(e.streams, v - e.peerInit));
        ShiftPeerKeeps(e, v);
        SettingsRefused(e', values[1..]);
        forall w ensures Lifts(e', w) <==> Lifts(e, w) {
          LiftsShifted(e, v, w);
        }
        RefusedLater(e, e', values);
      } else {
        assert values[0] == v;
      }
    }
  }

  lemma CurrentNeverLifts(e: Endpoint)
    requires InBounds(e)
    ensures !Lifts(e, e.peerInit)
  {
    forall s | s in e.streams ensures e.streams[s].peer <= MAX_WINDOW {
      assert WinOk(e, e.streams[s]);
    }
  }

  lemma RefusedLater(e: Endpoint, e': Endpoint, values: seq<nat>)
    requires values != [] && !Lifts(e, values[0]) && forall w: nat :: Lifts(e', w) <==> Lifts(e, w)
    ensures (exists k | 0 <= k < |values[1..]| :: Lifts(e', values[1..][k])) <==>
            exists k | 0 <= k < |values| :: Lifts(e, values[k])
  {
    hide Lifts;
    if exists k | 0 <= k < |values[1..]| :: Lifts(e', values[1..][k]) {
      var k :| 0 <= k < |values[1..]| && Lifts(e', values[1..][k]);
      assert Lifts(e, values[k + 1]);
    }
    if exists k | 0 <= k < |values| :: Lifts(e, values[k]) {
      var k :| 0 <= k < |values| && Lifts(e, values[k]);
      assert Lifts(e', values[1..][k - 1]);
    }
  }
}
