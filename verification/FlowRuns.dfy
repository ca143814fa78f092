/**
 * A client and a server that exchange frames over a FIFO channel each way. Data flows
 * in both directions; each direction is balanced and in order at every point of every
 * run, so no frame ever causes a flow-control error, and the only connection error
 * there is comes from a stream that its end no longer remembers.
 */
module FlowRuns {
  import opened FlowControl
  import opened FlowCredit
  import opened FlowOrder
  import opened FlowBalance
  import opened FlowConduct

  /** `up` leads to the server and `down` to the client. */
  datatype Pair = Pair(client: Endpoint, server: Endpoint, up: seq<Frame>, down: seq<Frame>)

  datatype Event = Event(byClient: bool, action: Action)

  /** Both connection windows have just been raised to the maximum; the updates are on their way. */
  ghost predicate Start(p: Pair) {
    var raise := [ConnUpdate(MAX_WINDOW - FIRST_WINDOW)];
    p == Pair(NewEndpoint(true, p.client.memory), NewEndpoint(false, p.server.memory), raise, raise)
  }

  ghost predicate CanStep(p: Pair, ev: Event) {
    if ev.byClient then Enabled(p.client, p.down, ev.action) else Enabled(p.server, p.up, ev.action)
  }

  function Outcomes(p: Pair, ev: Event): Outcome
    requires CanStep(p, ev)
  {
    if ev.byClient then Act(p.client, p.down, ev.action) else Act(p.server, p.up, ev.action)
  }

  function Next(p: Pair, ev: Event): Pair
    requires CanStep(p, ev) && Outcomes(p, ev).Ok?
  {
    var r := Outcomes(p, ev);
    if ev.byClient then Pair(r.e, p.server, p.up + r.out, Rest(p.down, ev.action))
    else Pair(p.client, r.e, Rest(p.up, ev.action), p.down + r.out)
  }

  // ----- runs

  /** The client opens streams; the server knows none but those. */
  ghost predicate Roles(e: Endpoint, f: Endpoint) {
    && e.client != f.client
    && (e.client ==> Known(f) <= Known(e)) && (f.client ==> Known(e) <= Known(f))
  }

  ghost predicate Linked(e: Endpoint, f: Endpoint, from: seq<Frame>, to: seq<Frame>) {
    Both(e, f, from, to) && Ordered(e, f, from, to) && Roles(e, f) && Kept(e) && Kept(f)
  }

  lemma FrontWellPlaced(e: Endpoint, f: Endpoint, from: seq<Frame>, to: seq<Frame>)
    requires Linked(e, f, from, to) && to != [] && !Forgot(e, to[0])
    ensures WellPlaced(e, to[0]) && (to[0].Headers? ==> to[0].id in Known(f))
    ensures to[0].Headers? && to[0].id !in Known(e) ==> !e.client
  {
    hide Balanced, Orderly, Known;
    if HasStream(to[0]) {
      FrontIsClean(f, e, to, to[0].id);
    }
  }

  /** A frame on a stream that is no longer remembered is an error. */
  lemma ForgottenFails(e: Endpoint, f: Endpoint, from: seq<Frame>, to: seq<Frame>, a: Arrival)
    requires Both(e, f, from, to) && to != [] && Forgot(e, to[0])
    ensures Receive(e, to[0], a) == Err(ProtocolError)
  {
    hide Both;
    if to[0].Data? {
      DataAccepted(e, f, from, to);
    }
  }

  lemma RolesKept(e: Endpoint, f: Endpoint, from: seq<Frame>, to: seq<Frame>, a: Action)
    requires Linked(e, f, from, to) && Enabled(e, to, a) && Act(e, to, a).Ok?
    requires a.Take? ==> !Forgot(e, to[0])
    ensures Roles(Act(e, to, a).e, f)
  {
    hide Both, Ordered, Act, Known, Kept;
    ActKnown(e, to, a);
    if a.Take? {
      FrontWellPlaced(e, f, from, to);
      NowhereIsNew(e, to[0]);
    }
  }

  lemma NowhereIsNew(e: Endpoint, g: Frame)
    requires !Forgot(e, g)
    ensures HasStream(g) && Find(e, g.id).Nowhere? ==> g.id !in Known(e)
  {
  }

  /** Whatever an endpoint does: an error exactly on a stream no longer remembered, and otherwise all is kept. */
  lemma LinkedKeeps(e: Endpoint, f: Endpoint, from: seq<Frame>, to: seq<Frame>, a: Action)
    requires Linked(e, f, from, to) && Enabled(e, to, a)
    ensures var r := Act(e, to, a);
            if a.Take? && Forgot(e, to[0]) then r == Err(ProtocolError)
            else r.Ok? && Linked(r.e, f, from + r.out, Rest(to, a)) && Harmless(r.out)
  {
    hide Both, Ordered, Receive, Forgot, WellPlaced, Roles, Kept, Known;
    if a.Take? && Forgot(e, to[0]) {
      ForgottenFails(e, f, from, to, a.arrival);
    } else {
      if a.Take? {
        FrontWellPlaced(e, f, from, to);
      }
      ActKeeps(e, f, from, to, a);
      ActOrder(e, f, from, to, a);
      RolesKept(e, f, from, to, a);
      ActKept(e, to, a);
    }
  }

  ghost predicate Inv(p: Pair) {
    Linked(p.client, p.server, p.up, p.down) && p.client.client
  }

  lemma StartBalanced(c: Endpoint, s: Endpoint, raise: seq<Frame>)
    requires raise == [ConnUpdate(MAX_WINDOW - FIRST_WINDOW)]
    requires c == NewEndpoint(c.client, c.memory) && s == NewEndpoint(s.client, s.memory)
    ensures Balanced(Sending(c), Receiving(s), raise, raise)
  {
    assert raise[1..] == [];
    var o, i := Sending(c), Receiving(s);
    assert o.rel == map[] && i.rel == map[] && i.ended == {};
    assert ConnOk(o, i, raise, raise);
    var h := Facing(i);
    assert Advance(raise[0], h) == h && Arrived(raise[1..], h) == h && AllAcceptable(raise[1..], h);
    assert SettingsIn(raise) == [] + SettingsIn(raise[1..]) == [];
    assert AllAcceptable(raise, h) && Arrived(raise, h) == h;
    assert AheadOk(o, i, raise, raise);
    forall s: nat ensures StreamOk(o, i, raise, raise, s) {
    }
  }

  lemma StartInv(p: Pair)
    requires Start(p)
    ensures Inv(p)
  {
    hide Balanced;
    var raise := [ConnUpdate(MAX_WINDOW - FIRST_WINDOW)];
    StartBalanced(p.client, p.server, raise);
    StartBalanced(p.server, p.client, raise);
  }

  lemma Swap(e: Endpoint, f: Endpoint, from: seq<Frame>, to: seq<Frame>)
    requires Linked(e, f, from, to)
    ensures Linked(f, e, to, from)
  {
    hide Balanced, Orderly, Kept;
  }

  function Actor(p: Pair, ev: Event): Endpoint {
    if ev.byClient then p.client else p.server
  }

  /** The event takes a frame on a stream that its end has closed and forgotten. */
  ghost predicate Forgets(p: Pair, ev: Event)
    requires CanStep(p, ev)
  {
    ev.action.Take? && Forgot(Actor(p, ev), if ev.byClient then p.down[0] else p.up[0])
  }

  lemma StepKeeps(p: Pair, ev: Event)
    requires Inv(p) && CanStep(p, ev)
    ensures var r := Outcomes(p, ev);
            if Forgets(p, ev) then r == Err(ProtocolError) else r.Ok? && Harmless(r.out) && Inv(Next(p, ev))
  {
    hide Linked, Act, Forgot;
    if ev.byClient {
      LinkedKeeps(p.client, p.server, p.up, p.down, ev.action);
      if Outcomes(p, ev).Ok? {
        ClientStays(p, ev);
      }
    } else {
      Swap(p.client, p.server, p.up, p.down);
      LinkedKeeps(p.server, p.client, p.down, p.up, ev.action);
      var r := Outcomes(p, ev);
      if r.Ok? {
        Swap(r.e, p.client, p.down + r.out, Rest(p.up, ev.action));
      }
    }
  }

  lemma ClientStays(p: Pair, ev: Event)
    requires CanStep(p, ev) && Outcomes(p, ev).Ok? && ev.byClient && p.client.client
    ensures Outcomes(p, ev).e.client
  {
    hide Act;
    ActKnown(p.client, p.down, ev.action);
  }

  ghost predicate StepTo(p: Pair, ev: Event, p': Pair) {
    CanStep(p, ev) && Outcomes(p, ev).Ok? && p' == Next(p, ev)
  }

  ghost predicate IsRun(states: seq<Pair>, events: seq<Event>) {
    && |states| == |events| + 1
    && Start(states[0])
    && forall k | 0 <= k < |events| :: StepTo(states[k], events[k], states[k + 1])
  }

  lemma {:induction false} RunInv(states: seq<Pair>, events: seq<Event>, n: nat)
    requires IsRun(states, events) && n < |states|
    ensures Inv(states[n])
  {
    hide Inv, CanStep, Outcomes, Next;
    if n == 0 {
      StartInv(states[0]);
    } else {
      RunInv(states, events, n - 1);
      assert StepTo(states[n - 1], events[n - 1], states[n]);
      StepKeeps(states[n - 1], events[n - 1]);
    }
  }

  /**
   * In no run does either end raise a flow-control error, or reset a stream for flow control or for frames after
   * its end. The only connection error there is comes, exactly, from a frame on a stream closed and forgotten,
   * and that takes more closed streams than the end remembers.
   */
  lemma NoFlowControlErrors(states: seq<Pair>, events: seq<Event>, n: nat, ev: Event)
    requires IsRun(states, events) && n < |states| && CanStep(states[n], ev)
    ensures var r := Outcomes(states[n], ev);
            && (r.Err? <==> Forgets(states[n], ev))
            && (r.Err? ==> r.error == ProtocolError && |Actor(states[n], ev).closed| > Actor(states[n], ev).memory)
            && (r.Ok? ==> Harmless(r.out))
  {
    hide Both, Ordered, Act, Next, Forgot, Roles, Kept;
    var p := states[n];
    RunInv(states, events, n);
    StepKeeps(p, ev);
    if Forgets(p, ev) {
      ForgotAfterMany(Actor(p, ev), if ev.byClient then p.down[0] else p.up[0]);
    }
  }

  /** Credit from `e` to `f`: what `e` may send, data on its way and credit on its way back make up what `f` accepts. */
  ghost predicate Conserved(e: Endpoint, f: Endpoint, there: seq<Frame>, back: seq<Frame>) {
    && e.connPeer + DataIn(there) + CreditIn(back) == f.connSelf
    && forall s | s in e.streams && s in f.streams ::
         (e.streams[s].peer - e.peerInit) + DataOn(there, s) + CreditOn(back, s) == f.streams[s].self - f.selfInit
  }

  /** Connection windows stay within 0 and the maximum, stream windows within the maximum either way. */
  ghost predicate InRange(e: Endpoint) {
    && 0 <= e.connPeer <= MAX_WINDOW && e.connSelf == MAX_WINDOW
    && forall s | s in e.streams ::
         && e.streams[s].peer + MAX_WINDOW >= 0 && e.streams[s].peer <= e.peerInit <= MAX_WINDOW
         && e.streams[s].self <= e.selfInit <= MAX_WINDOW
         && (!e.streams[s].gotEnd ==> e.streams[s].self == e.selfInit)
  }

  lemma BalancedConserves(e: Endpoint, f: Endpoint, there: seq<Frame>, back: seq<Frame>)
    requires Balanced(Sending(e), Receiving(f), there, back)
    ensures Conserved(e, f, there, back)
  {
    hide AheadOk, DataOn, CreditOn;
    forall s | s in e.streams && s in f.streams
      ensures (e.streams[s].peer - e.peerInit) + DataOn(there, s) + CreditOn(back, s) == f.streams[s].self - f.selfInit
    {
      assert StreamOk(Sending(e), Receiving(f), there, back, s);
    }
  }

  lemma BalancedInRange(e: Endpoint, f: Endpoint, from: seq<Frame>, to: seq<Frame>)
    requires Linked(e, f, from, to)
    ensures InRange(e)
  {
    hide Orderly, Kept, Roles, AllAcceptable, Arrived, DataOn, CreditOn, DataIn, CreditIn;
    forall s | s in e.streams
      ensures e.streams[s].peer + MAX_WINDOW >= 0 && e.streams[s].peer <= e.peerInit
      ensures e.streams[s].self <= e.selfInit && (!e.streams[s].gotEnd ==> e.streams[s].self == e.selfInit)
    {
      assert StreamOk(Sending(e), Receiving(f), from, to, s);
      assert StreamOk(Sending(f), Receiving(e), to, from, s);
    }
  }

  /** At every point of every run, credit is conserved in both directions and every window is in range. */
  lemma CreditIsConserved(states: seq<Pair>, events: seq<Event>, n: nat)
    requires IsRun(states, events) && n < |states|
    ensures var p := states[n];
            && Conserved(p.client, p.server, p.up, p.down) && Conserved(p.server, p.client, p.down, p.up)
            && InRange(p.client) && InRange(p.server)
  {
    hide Balanced, Conserved, InRange, Orderly, Kept, Roles;
    RunInv(states, events, n);
    var p := states[n];
    BalancedConserves(p.client, p.server, p.up, p.down);
    BalancedConserves(p.server, p.client, p.down, p.up);
    BalancedInRange(p.client, p.server, p.up, p.down);
    Swap(p.client, p.server, p.up, p.down);
    BalancedInRange(p.server, p.client, p.down, p.up);
  }

  /** Every DATA payload fits both windows when it is sent, and leaves neither negative. */
  lemma PayloadFits(e: Endpoint, s: nat, len: nat, end: bool, space: nat)
    requires MaySend(e, s) && len <= MaxPayload(e, s, space)
    ensures len <= e.connPeer && len <= e.streams[s].peer && len <= space
    ensures var e' := SendData(e, s, len, end).0;
            e'.connPeer >= 0 && (s in e'.streams ==> e'.streams[s].peer >= 0)
  {
  }

  // ----- a stream's window is the current initial size, plus the increments accepted, less the bytes sent

  function SentOf(a: Action, s: nat): nat {
    if a.Send? && a.s == s then a.len else 0
  }

  function AcceptedOf(to: seq<Frame>, a: Action, s: nat): nat {
    if a.Take? && to != [] then CreditOnOf(to[0], s) else 0
  }

  lemma {:induction false} ApplyPeerRel(e: Endpoint, values: seq<nat>)
    requires ApplyPeer(e, values).Ok?
    ensures Sending(ApplyPeer(e, values).e).rel == Sending(e).rel && ApplyPeer(e, values).e.closed == e.closed
    decreases |values|
  {
    hide ShiftPeer;
    if values != [] {
      ShiftPeerViews(e, values[0]);
      var e' := if values[0] == e.peerInit then e
                else e.(peerInit := values[0], streams := ShiftPeer(e.streams, values[0] - e.peerInit));
      ApplyPeerRel(e', values[1..]);
    }
  }

  lemma {:induction false} ApplySelfRel(e: Endpoint, values: seq<nat>)
    requires ApplySelf(e, values).Ok?
    ensures Sending(ApplySelf(e, values).e).rel == Sending(e).rel && ApplySelf(e, values).e.closed == e.closed
    decreases |values|
  {
    hide ShiftSelf;
    if values != [] {
      ShiftSelfViews(e, values[0]);
      var e' := if values[0] == e.selfInit then e
                else e.(selfInit := values[0], streams := ShiftSelf(e.streams, values[0] - e.selfInit));
      ApplySelfRel(e', values[1..]);
    }
  }

  /** Only sending data and accepting an increment move a stream's window against the initial size. */
  ghost predicate Moves(e: Endpoint, e': Endpoint, s: nat, sent: nat, accepted: nat) {
    s !in e'.closed ==> s !in e.closed && Rel(Sending(e').rel, s) == Rel(Sending(e).rel, s) - sent + accepted
  }

  /** A stream replaced by one with the same send window, or closed. */
  lemma RetireMoves(e: Endpoint, t: nat, when: When, s: nat)
    ensures Moves(e, Retire(e, t, when), s, 0, 0)
  {
  }

  lemma SameMoves(e: Endpoint, t: nat, w: Win, s: nat)
    requires if t in e.streams then w.peer == e.streams[t].peer else w.peer == e.peerInit
    ensures Moves(e, e.(streams := e.streams[t := w]), s, 0, 0)
  {
  }

  lemma MovesChain(e: Endpoint, e1: Endpoint, e2: Endpoint, s: nat)
    requires Moves(e, e1, s, 0, 0) && Moves(e1, e2, s, 0, 0)
    ensures Moves(e, e2, s, 0, 0)
  {
  }

  lemma EndMoves(e: Endpoint, t: nat, short: bool, s: nat)
    ensures Moves(e, OnEnd(e, t, short).0, s, 0, 0)
  {
    hide Moves, Retire;
    RetireMoves(e, t, ResetSent, s);
    if t in e.streams {
      var w := e.streams[t].(gotEnd := true);
      var e1 := e.(streams := e.streams[t := w]);
      SameMoves(e, t, w, s);
      RetireMoves(e1, t, BothEnded, s);
      MovesChain(e, e1, Retire(e1, t, BothEnded), s);
    } else {
      StillMoves(e, s);
    }
  }

  lemma StillMoves(e: Endpoint, s: nat)
    ensures Moves(e, e, s, 0, 0)
  {
  }

  lemma HeadersMove(e: Endpoint, t: nat, end: bool, a: Arrival, s: nat)
    requires OnHeaders(e, t, end, a).Ok?
    ensures Moves(e, OnHeaders(e, t, end, a).e, s, 0, 0)
  {
    hide Moves, Retire, OnEnd;
    StillMoves(e, s);
    RetireMoves(e, t, ResetSent, s);
    if t in e.streams {
      EndMoves(e, t, a.short, s);
    } else {
      SameMoves(e, t, Win(e.peerInit, e.selfInit, false, end), s);
    }
  }

  lemma DataMoves(e: Endpoint, t: nat, len: nat, end: bool, a: Arrival, s: nat)
    requires OnData(e, t, len, end, a).Ok?
    ensures Moves(e, OnData(e, t, len, end, a).e, s, 0, 0)
  {
    hide Moves, Retire, OnEnd;
    StillMoves(e, s);
    RetireMoves(e, t, ResetSent, s);
    if t in e.streams {
      SameMoves(e, t, e.streams[t].(self := e.streams[t].self - len), s);
      var e1 := OnStreamData(e, t, len, end, a.malformed).0;
      EndMoves(e1, t, a.short, s);
      MovesChain(e, e1, OnEnd(e1, t, a.short).0, s);
    }
  }

  lemma UpdateMoves(e: Endpoint, t: nat, inc: nat, s: nat)
    requires OnStreamUpdate(e, t, inc).Ok?
    ensures Moves(e, OnStreamUpdate(e, t, inc).e, s, 0, if t == s then inc else 0)
  {
  }

  lemma TakeMoves(e: Endpoint, f: Frame, a: Arrival, s: nat)
    requires Receive(e, f, a).Ok?
    ensures Moves(e, Receive(e, f, a).e, s, 0, CreditOnOf(f, s))
  {
    hide ApplyPeer, ApplySelf, OnHeaders, OnData, OnStreamUpdate;
    match f {
      case Headers(t, end) => HeadersMove(e, t, end, a, s);
      case Data(t, len, end) => DataMoves(e, t, len, end, a, s);
      case StreamUpdate(t, inc) => UpdateMoves(e, t, inc, s);
      case Settings(values) => ApplyPeerRel(e, values);
      case SettingsAck => ApplySelfRel(e.(pending := e.pending[1..]), e.pending[0]);
      case _ =>
    }
  }

  lemma ActMoves(e: Endpoint, to: seq<Frame>, a: Action, s: nat)
    requires Enabled(e, to, a) && Act(e, to, a).Ok?
    ensures Moves(e, Act(e, to, a).e, s, SentOf(a, s), AcceptedOf(to, a, s))
  {
    hide Receive;
    if a.Take? {
      TakeMoves(e, to[0], a.arrival, s);
    }
  }

  function End(p: Pair, client: bool): Endpoint {
    if client then p.client else p.server
  }

  function Towards(p: Pair, client: bool): seq<Frame> {
    if client then p.down else p.up
  }

  /** An action and the channel it was taken on. */
  datatype Turn = Turn(action: Action, to: seq<Frame>)

  /** Bytes of a stream sent, and increments for it accepted, in some turns. */
  function Sent(turns: seq<Turn>, s: nat): nat
    decreases |turns|
  {
    if turns == [] then 0 else Sent(turns[..|turns| - 1], s) + SentOf(turns[|turns| - 1].action, s)
  }

  function Accepted(turns: seq<Turn>, s: nat): nat
    decreases |turns|
  {
    if turns == [] then 0
    else Accepted(turns[..|turns| - 1], s) + AcceptedOf(turns[|turns| - 1].to, turns[|turns| - 1].action, s)
  }

  lemma HistoryPush(turns: seq<Turn>, turn: Turn, s: nat)
    ensures Sent(turns + [turn], s) == Sent(turns, s) + SentOf(turn.action, s)
    ensures Accepted(turns + [turn], s) == Accepted(turns, s) + AcceptedOf(turn.to, turn.action, s)
  {
    assert (turns + [turn])[..|turns|] == turns;
  }

  /** The turns of one end in the first `n` events of a run. */
  function TurnsOf(states: seq<Pair>, events: seq<Event>, n: nat, client: bool): seq<Turn>
    requires n <= |events| <= |states|
  {
    if n == 0 then []
    else
      TurnsOf(states, events, n - 1, client) +
      if events[n - 1].byClient == client then [Turn(events[n - 1].action, Towards(states[n - 1], client))] else []
  }

  lemma {:induction false} WindowByHistory(states: seq<Pair>, events: seq<Event>, n: nat, client: bool, s: nat)
    requires IsRun(states, events) && n <= |events|
    ensures var turns := TurnsOf(states, events, n, client);
            s !in End(states[n], client).closed ==>
              Rel(Sending(End(states[n], client)).rel, s) == Accepted(turns, s) - Sent(turns, s)
  {
    hide Act, Sending, Sent, Accepted;
    if n == 0 {
      NoStreams(End(states[0], client), s);
    } else {
      WindowByHistory(states, events, n - 1, client, s);
      var p, ev := states[n - 1], events[n - 1];
      var turns := TurnsOf(states, events, n - 1, client);
      assert StepTo(p, ev, states[n]);
      assert turns + [] == turns;
      if ev.byClient == client {
        HistoryPush(turns, Turn(ev.action, Towards(p, client)), s);
        ActMoves(End(p, client), Towards(p, client), ev.action, s);
      }
    }
  }

  lemma NoStreams(e: Endpoint, s: nat)
    requires e.streams == map[]
    ensures Rel(Sending(e).rel, s) == 0 && Accepted([], s) == 0 && Sent([], s) == 0
  {
  }

  /** For every active stream of every run, at either end. */
  lemma WindowIsHistory(states: seq<Pair>, events: seq<Event>, n: nat, client: bool, s: nat)
    requires IsRun(states, events) && n <= |events| && s in End(states[n], client).streams
    ensures var e, turns := End(states[n], client), TurnsOf(states, events, n, client);
            e.streams[s].peer == e.peerInit + Accepted(turns, s) - Sent(turns, s)
  {
    hide Accepted, Sent, Both, Ordered, Roles, TurnsOf;
    RunInv(states, events, n);
    WindowByHistory(states, events, n, client, s);
  }

  // ----- a stream forgotten

  const PLAIN := Take(Arrival(false, false, 0))

  /** Two streams opened; DATA on the first under way when the client, which remembers one stream, abandons both. */
  const FORGETTING: seq<Event> := [
    Event(true, Open(1, false)), Event(true, Open(3, false)), Event(false, PLAIN), Event(false, PLAIN),
    Event(false, Send(1, 1, false, 1)), Event(true, Abandon(1)), Event(true, Abandon(3)), Event(true, PLAIN)]

  const RAISE := ConnUpdate(MAX_WINDOW - FIRST_WINDOW)
  const FULL := Win(FIRST_WINDOW, FIRST_WINDOW, false, false)

  function Forgetful(streams: map<nat, Win>): Endpoint {
    NewEndpoint(true, 1).(streams := streams)
  }

  function Serving(memory: nat): Endpoint {
    NewEndpoint(false, memory).(connPeer := MAX_WINDOW, streams := map[1 := FULL])
  }

  /** The pair before each of these events and after the last. */
  function Stage(memory: nat, k: nat): Pair {
    var idle := NewEndpoint(false, memory);
    var sent := Serving(memory).(connPeer := MAX_WINDOW - 1, streams := map[1 := FULL.(peer := FIRST_WINDOW - 1)]);
    var h1, h3, data := Headers(1, false), Headers(3, false), Data(1, 1, false);
    var two := Forgetful(map[1 := FULL, 3 := FULL]);
    match k
    case 0 => Pair(Forgetful(map[]), idle, [RAISE], [RAISE])
    case 1 => Pair(Forgetful(map[1 := FULL]), idle, [RAISE, h1], [RAISE])
    case 2 => Pair(two, idle, [RAISE, h1, h3], [RAISE])
    case 3 => Pair(two, idle.(connPeer := MAX_WINDOW), [h1, h3], [RAISE])
    case 4 => Pair(two, Serving(memory), [h3], [RAISE])
    case 5 => Pair(two, sent, [h3], [RAISE, data])
    case 6 => Pair(Forgetful(map[3 := FULL]).(closed := map[1 := ResetSent], recent := [1]), sent,
                   [h3, Reset(1, ProtocolError)], [RAISE, data])
    case 7 => Pair(Forgetful(map[]).(closed := map[1 := ResetSent, 3 := ResetSent], recent := [3]), sent,
                   [h3, Reset(1, ProtocolError), Reset(3, ProtocolError)], [RAISE, data])
    case _ => Pair(Forgetful(map[]).(connPeer := MAX_WINDOW, closed := map[1 := ResetSent, 3 := ResetSent],
                                     recent := [3]),
                   sent, [h3, Reset(1, ProtocolError), Reset(3, ProtocolError)], [data])
  }

  lemma StagesOpen(memory: nat)
    ensures StepTo(Stage(memory, 0), FORGETTING[0], Stage(memory, 1))
    ensures StepTo(Stage(memory, 1), FORGETTING[1], Stage(memory, 2))
  {
  }

  lemma StagesServe(memory: nat)
    ensures StepTo(Stage(memory, 2), FORGETTING[2], Stage(memory, 3))
    ensures StepTo(Stage(memory, 3), FORGETTING[3], Stage(memory, 4))
  {
  }

  lemma StageSends(memory: nat)
    ensures StepTo(Stage(memory, 4), FORGETTING[4], Stage(memory, 5))
  {
  }

  lemma StageAbandons(memory: nat)
    ensures StepTo(Stage(memory, 5), FORGETTING[5], Stage(memory, 6))
  {
    assert map[1 := FULL, 3 := FULL] - {1} == map[3 := FULL];
  }

  lemma StageForgets(memory: nat)
    ensures StepTo(Stage(memory, 6), FORGETTING[6], Stage(memory, 7))
  {
    var none: map<nat, Win> := map[];
    assert map[3 := FULL] - {3} == none && [1, 3][1..] == [3];
  }

  lemma StageTakes(memory: nat)
    ensures StepTo(Stage(memory, 7), FORGETTING[7], Stage(memory, 8))
    ensures var last, ev := Stage(memory, 8), Event(true, PLAIN);
            CanStep(last, ev) && Outcomes(last, ev) == Err(ProtocolError)
  {
  }

  /** A run after which the DATA under way is a connection error. */
  lemma ForgettingIsReachable(memory: nat) returns (states: seq<Pair>)
    ensures IsRun(states, FORGETTING)
    ensures var last, ev := states[|FORGETTING|], Event(true, PLAIN);
            CanStep(last, ev) && Outcomes(last, ev) == Err(ProtocolError)
  {
    hide Stage, StepTo, CanStep, Outcomes;
    states := seq(9, k requires 0 <= k < 9 => Stage(memory, k));
    assert Start(states[0]) by { StageStarts(memory); }
    StagesOpen(memory);
    StagesServe(memory);
    StageSends(memory);
    StageAbandons(memory);
    StageForgets(memory);
    StageTakes(memory);
  }

  lemma StageStarts(memory: nat)
    ensures Start(Stage(memory, 0))
  {
  }
}
