/**
 * The connection manager's critical sections, as functions from the state under
 * the lock to the new state and the transaction built for execution after it.
 */
module ConnectionManager {
  import opened Octets

  datatype Idle = Idle(conn: nat, cullAt: nat)

  /** An acquisition that has left the queue, with a connection or with an error. */
  datatype Completion = Success(id: nat, conn: nat) | Failure(id: nat)

  /** `maxConnections` is at least 1; the idle time is in the clock's unit. */
  datatype Config = Config(maxConnections: nat, idleTime: nat)

  datatype Manager = Manager(
    ready: bool,
    idle: seq<Idle>,
    waiting: seq<nat>,
    vended: nat,
    connecting: nat,
    open: nat,
    settings: nat,
    external: nat,
    refs: nat,
    culling: bool)

  /**
   * A transaction: completions to dispatch, connections to release, connects still to issue, connects that
   * failed at once.
   */
  datatype Work = Work(completions: seq<Completion>, releases: seq<nat>, toConnect: nat, failed: nat)

  function Ids(cs: seq<Completion>): (ids: seq<nat>)
    ensures |ids| == |cs|
  {
    if cs == [] then [] else Ids(cs[..|cs| - 1]) + [cs[|cs| - 1].id]
  }

  function Failures(ids: seq<nat>): (cs: seq<Completion>)
    ensures |cs| == |ids|
  {
    if ids == [] then [] else Failures(ids[..|ids| - 1]) + [Failure(ids[|ids| - 1])]
  }

  /** Acquisitions, oldest first, paired with idle connections, newest first. */
  function Successes(ids: seq<nat>, idle: seq<Idle>): (cs: seq<Completion>)
    requires |ids| == |idle|
    ensures |cs| == |ids|
  {
    if ids == [] then [] else Successes(ids[..|ids| - 1], idle[1..]) + [Success(ids[|ids| - 1], idle[0].conn)]
  }

  lemma {:induction false} IdsConcat(cs: seq<Completion>, more: seq<Completion>)
    ensures Ids(cs + more) == Ids(cs) + Ids(more)
    decreases |more|
  {
    if more == [] {
      assert cs + more == cs;
    } else {
      var all := cs + more;
      assert all[..|all| - 1] == cs + more[..|more| - 1];
      IdsConcat(cs, more[..|more| - 1]);
    }
  }

  lemma {:induction false} IdsOfFailures(ids: seq<nat>)
    ensures Ids(Failures(ids)) == ids && AllFailures(Failures(ids))
    decreases |ids|
  {
    if ids != [] {
      var cs := Failures(ids);
      assert cs[..|cs| - 1] == Failures(ids[..|ids| - 1]);
      IdsOfFailures(ids[..|ids| - 1]);
    }
  }

  // ----- pieces shared by the critical sections

  /** The `n` oldest waiting acquisitions get the `n` newest idle connections. */
  function VendFirst(m: Manager, cs: seq<Completion>, n: nat): (Manager, seq<Completion>)
    requires n <= |m.idle| && n <= |m.waiting|
  {
    var left := |m.idle| - n;
    (m.(idle := m.idle[..left], waiting := m.waiting[n..], vended := m.vended + n, refs := m.refs + n),
     cs + Successes(m.waiting[..n], m.idle[left..]))
  }

  /** Hands idle connections, newest first, to waiting acquisitions, oldest first, until either runs out. */
  function VendAll(m: Manager, cs: seq<Completion>): (Manager, seq<Completion>) {
    VendFirst(m, cs, Min(|m.idle|, |m.waiting|))
  }

  /** What is asserted before more connections are asked for. */
  predicate HasRoom(cfg: Config, m: Manager) {
    |m.waiting| > m.connecting + m.settings ==> m.vended + m.connecting + m.settings <= cfg.maxConnections
  }

  /** How many new connections to ask for: the excess of waiting acquisitions, as far as there is room. */
  function Needed(cfg: Config, m: Manager): nat
    requires HasRoom(cfg, m)
  {
    var coming := m.connecting + m.settings;
    if |m.waiting| <= coming then 0
    else Min(|m.waiting| - coming, cfg.maxConnections - (m.vended + coming))
  }

  /** Fails the oldest waiting acquisitions until no more than `limit` are left. */
  function FailAll(m: Manager, limit: nat, cs: seq<Completion>): (Manager, seq<Completion>) {
    (m.(waiting := m.waiting[|Failing(m, limit)|..]), cs + Failures(Failing(m, limit)))
  }

  function Conns(idle: seq<Idle>): seq<nat> {
    seq(|idle|, i requires 0 <= i < |idle| => idle[i].conn)
  }

  /** The assertion at the point where it is made: when everything that can be handed over has been. */
  predicate BuildAsserts(cfg: Config, m: Manager) {
    m.ready ==> HasRoom(cfg, VendAll(m, []).0)
  }

  /** The bound on connections that every critical section relies on. */
  predicate WithinMax(cfg: Config, m: Manager) {
    |m.idle| + m.vended + m.connecting + m.settings <= cfg.maxConnections
  }

  /** Within the bound on connections, the assertion made before asking for more holds. */
  lemma BoundGivesRoom(cfg: Config, m: Manager)
    requires WithinMax(cfg, m)
    ensures BuildAsserts(cfg, m)
  {
  }

  /** The transaction for a changed state; `cs` and `rs` are the completions and releases it already holds. */
  function Build(cfg: Config, m: Manager, cs: seq<Completion>, rs: seq<nat>): (Manager, Work)
    requires BuildAsserts(cfg, m)
  {
    if m.ready then
      var (m1, cs1) := VendAll(m, cs);
      var n := Needed(cfg, m1);
      (m1.(connecting := m1.connecting + n, refs := m1.refs + n), Work(cs1, rs, n, 0))
    else
      var (m1, cs1) := FailAll(m, 0, cs);
      (m1.(idle := []), Work(cs1, rs + Conns(m.idle), 0, 0))
  }

  function PushIdle(cfg: Config, m: Manager, conn: nat, now: nat): Manager {
    m.(idle := m.idle + [Idle(conn, now + cfg.idleTime)])
  }

  /** The idle list without its first entry for this connection, if it has one. */
  function Remove(idle: seq<Idle>, conn: nat): (seq<Idle>, bool) {
    if idle == [] then ([], false)
    else if idle[0].conn == conn then (idle[1..], true)
    else var (rest, found) := Remove(idle[1..], conn); ([idle[0]] + rest, found)
  }

  // ----- the critical sections; every one opens a transaction, which holds a reference

  function Open(m: Manager): Manager {
    m.(refs := m.refs + 1)
  }

  function AcquireConnection(cfg: Config, m: Manager, id: nat): (Manager, Work)
    requires WithinMax(cfg, m)
  {
    Build(cfg, Open(m).(waiting := m.waiting + [id]), [], [])
  }

  function ReleaseManager(cfg: Config, m: Manager): (Manager, Work)
    requires WithinMax(cfg, m)
  {
    var idleWork := Work([], [], 0, 0);
    if m.external == 0 then (Open(m), idleWork)
    else if m.external > 1 then (Open(m).(external := m.external - 1), idleWork)
    else
      var (m1, w) := Build(cfg, Open(m).(external := 0, ready := false), [], []);
      (m1.(refs := m1.refs - 1), w)
  }

  /** `usable` is false when the connection no longer takes requests or the clock could not be read. */
  function ReleaseConnection(cfg: Config, m: Manager, conn: nat, usable: bool, now: nat): (Manager, Work)
    requires WithinMax(cfg, m)
  {
    if m.vended == 0 then (Open(m), Work([], [], 0, 0))
    else
      var m1 := Open(m).(vended := m.vended - 1, refs := m.refs);
      if usable then BecomeIdle(cfg, m1, conn, now) else Build(cfg, m1, [], [conn])
  }

  function Goaway(cfg: Config, m: Manager, conn: nat): (Manager, Work)
    requires WithinMax(cfg, m)
  {
    var (idle, found) := Remove(m.idle, conn);
    RemoveShrinks(m.idle, conn);
    Build(cfg, Open(m).(idle := idle), [], if found then [conn] else [])
  }

  function BecomeIdle(cfg: Config, m: Manager, conn: nat, now: nat): (Manager, Work)
    requires |m.idle| + 1 + m.vended + m.connecting + m.settings <= cfg.maxConnections
  {
    Build(cfg, PushIdle(cfg, m, conn, now), [], [])
  }

  /** One connection cannot be used any more: the acquisitions that nothing on its way can serve fail too. */
  function FailUnserved(cfg: Config, m: Manager, conn: seq<nat>): (Manager, Work)
    requires WithinMax(cfg, m)
  {
    var (m1, cs) := FailAll(m, m.connecting + m.settings, []);
    Build(cfg, m1, cs, conn)
  }

  /** A connection became usable, or failed. */
  function ReadyOrFailed(cfg: Config, m: Manager, error: bool, conn: seq<nat>, usable: bool, now: nat): (Manager, Work)
    requires |m.idle| + 1 + m.vended + m.connecting + m.settings <= cfg.maxConnections && |conn| <= 1 &&
             (!error ==> |conn| == 1)
  {
    if error then FailUnserved(cfg, m, conn)
    else if m.ready && usable then BecomeIdle(cfg, m, conn[0], now)
    else Build(cfg, m, [], conn)
  }

  datatype Setup = Failed | Http1(conn: nat) | Http2(conn: nat)

  function ConnectionSetup(cfg: Config, m: Manager, r: Setup, usable: bool, now: nat): (Manager, Work)
    requires WithinMax(cfg, m) && m.connecting > 0
  {
    var m1 := Open(m).(connecting := m.connecting - 1, refs := m.refs);
    var m2 := if r.Failed? then m1 else m1.(open := m1.open + 1, refs := m1.refs + 1);
    match r
    case Failed => ReadyOrFailed(cfg, m2, true, [], usable, now)
    case Http1(conn) => ReadyOrFailed(cfg, m2, false, [conn], usable, now)
    case Http2(_) => Build(cfg, m2.(settings := m2.settings + 1), [], [])
  }

  function SettingsCompleted(cfg: Config, m: Manager, conn: nat, error: bool, usable: bool, now: nat): (Manager, Work)
    requires WithinMax(cfg, m) && m.settings > 0
  {
    ReadyOrFailed(cfg, Open(m).(settings := m.settings - 1), error, [conn], usable, now)
  }

  function ConnectionShutdown(cfg: Config, m: Manager, conn: nat): (Manager, Work)
    requires WithinMax(cfg, m) && m.open > 0
  {
    var (idle, found) := Remove(m.idle, conn);
    RemoveShrinks(m.idle, conn);
    Build(cfg, Open(m).(idle := idle, open := m.open - 1, refs := m.refs), [], if found then [conn] else [])
  }

  /** The number of leading idle connections whose time has come; the scan stops at the first that has not. */
  function Expired(idle: seq<Idle>, now: nat): (n: nat)
    ensures n <= |idle|
  {
    if idle == [] || idle[0].cullAt > now then 0 else 1 + Expired(idle[1..], now)
  }

  function Cull(m: Manager, now: nat): (Manager, Work) {
    var n := if m.ready then Expired(m.idle, now) else 0;
    (Open(m).(idle := m.idle[n..]), Work([], Conns(m.idle[..n]), 0, 0))
  }

  /** Some connects of a transaction failed at once: the lock is taken again and every excess acquisition fails. */
  function Relock(m: Manager, w: Work): (Manager, Work)
    requires m.connecting >= w.failed && m.refs >= w.failed
  {
    var left := m.connecting - w.failed;
    var m1 := m.(connecting := left, refs := m.refs - w.failed);
    var (m2, cs) := FailAll(m1, left, w.completions);
    (m2, w.(completions := cs, failed := 0))
  }

  // ----- dispatch

  /**
   * The dispatch loop. A success whose connection belongs to another thread is
   * handed over to it and ends the loop; the second component is what is left behind.
   */
  function Dispatch(cs: seq<Completion>, onThread: nat -> bool): (seq<Completion>, seq<Completion>) {
    if cs == [] then ([], [])
    else if cs[0].Success? && !onThread(cs[0].conn) then ([cs[0]], cs[1..])
    else var (done, left) := Dispatch(cs[1..], onThread); ([cs[0]] + done, left)
  }

  // ----- what the lock protects

  ghost predicate SortedIdle(idle: seq<Idle>) {
    forall i, j | 0 <= i < j < |idle| :: idle[i].cullAt <= idle[j].cullAt
  }

  /** A waiting acquisition means no idle connection, and either enough on the way or no room for more. */
  predicate NotStranded(cfg: Config, m: Manager) {
    m.waiting != [] ==>
      && m.idle == []
      && (|m.waiting| <= m.connecting + m.settings || m.vended + m.connecting + m.settings == cfg.maxConnections)
  }

  /** At most one success, and then nothing else: no other completion and no connection to ask for. */
  predicate WorkOk(w: Work) {
    AllFailures(w.completions) || (|w.completions| == 1 && w.toConnect == 0 && w.failed == 0)
  }

  /** Before a transaction is built: at most one connection can be handed over, and then nothing is missing. */
  predicate Buildable(cfg: Config, m: Manager) {
    && WithinMax(cfg, m)
    && (m.ready && m.idle != [] && m.waiting != [] ==>
          && (|m.idle| == 1 || |m.waiting| == 1)
          && (|m.waiting| - 1 <= m.connecting + m.settings ||
              m.vended + 1 + m.connecting + m.settings == cfg.maxConnections))
  }

  /** The part of the state that building a transaction leaves alone. */
  predicate SameBase(m: Manager, m': Manager) {
    m'.ready == m.ready && m'.open == m.open && m'.settings == m.settings && m'.external == m.external &&
        m'.culling == m.culling
  }

  /** The acquisitions that `FailAll` fails. */
  function Failing(m: Manager, limit: nat): seq<nat> {
    if |m.waiting| > limit then m.waiting[..|m.waiting| - limit] else []
  }

  lemma FailAllEffect(m: Manager, limit: nat, cs: seq<Completion>)
    requires AllFailures(cs)
    ensures var (m', cs') := FailAll(m, limit, cs);
            && m' == m.(waiting := m'.waiting)
            && |m'.waiting| == Min(|m.waiting|, limit)
            && AllFailures(cs')
  {
    hide Ids, Failures;
    IdsOfFailures(Failing(m, limit));
  }

  /** Failing moves acquisitions from the front of the queue to the end of the list, in order. */
  lemma FailAllMoves(m: Manager, limit: nat, cs: seq<Completion>)
    ensures var (m', cs') := FailAll(m, limit, cs);
            Ids(cs') == Ids(cs) + Failing(m, limit) && m.waiting == Failing(m, limit) + m'.waiting
  {
    hide Ids, Failures;
    IdsConcat(cs, Failures(Failing(m, limit)));
    IdsOfFailures(Failing(m, limit));
  }

  /** Handing over one connection. */
  lemma VendOne(m: Manager)
    requires m.idle != [] && m.waiting != [] && (|m.idle| == 1 || |m.waiting| == 1)
    ensures var last := |m.idle| - 1;
            VendAll(m, []) == (m.(idle := m.idle[..last], waiting := m.waiting[1..], vended := m.vended + 1,
                                  refs := m.refs + 1),
                               [Success(m.waiting[0], m.idle[last].conn)])
  {
    hide Successes;
    var last := |m.idle| - 1;
    assert Min(|m.idle|, |m.waiting|) == 1;
    SuccessesOne(m.waiting[..1], m.idle[last..]);
    var cs := Successes(m.waiting[..1], m.idle[last..]);
    assert [] + cs == cs;
  }

  lemma SuccessesOne(ids: seq<nat>, idle: seq<Idle>)
    requires |ids| == |idle| == 1
    ensures Successes(ids, idle) == [Success(ids[0], idle[0].conn)]
  {
    assert Successes(ids[..0], idle[1..]) == [];
  }

  lemma VendNone(m: Manager, cs: seq<Completion>)
    requires m.idle == [] || m.waiting == []
    ensures VendAll(m, cs) == (m, cs)
  {
    assert m.waiting[..0] == [] && m.waiting[0..] == m.waiting && m.idle[..|m.idle|] == m.idle;
    assert cs + [] == cs;
  }

  /** What every transaction guarantees, given what its critical section prepared. */
  ghost predicate Built(cfg: Config, m: Manager, cs: seq<Completion>, m': Manager, w: Work) {
    && SameBase(m, m')
    && WithinMax(cfg, m')
    && (m.ready ==> NotStranded(cfg, m'))
    && (!m.ready ==> m'.waiting == [] && m'.idle == [])
    && w.failed == 0 && m'.connecting == m.connecting + w.toConnect
    && m'.refs - (m'.vended + m'.connecting) == m.refs - (m.vended + m.connecting)
    && WorkOk(w)
  }

  predicate AllFailures(cs: seq<Completion>) {
    forall c | c in cs :: c.Failure?
  }

  /** Asking for connections after everything that could be handed over has been. */
  lemma NeededSuffices(cfg: Config, m: Manager)
    requires WithinMax(cfg, m) && (m.idle == [] || m.waiting == [])
    ensures var m' := m.(connecting := m.connecting + Needed(cfg, m), refs := m.refs + Needed(cfg, m));
            WithinMax(cfg, m') && NotStranded(cfg, m')
  {
  }

  /** Nothing to hand over: the transaction only asks for connections. */
  lemma BuildAsking(cfg: Config, m: Manager, cs: seq<Completion>, rs: seq<nat>)
    requires m.ready && WithinMax(cfg, m) && AllFailures(cs) && (m.idle == [] || m.waiting == [])
    ensures var (m', w) := Build(cfg, m, cs, rs); Built(cfg, m, cs, m', w)
  {
    VendNone(m, cs);
    NeededSuffices(cfg, m);
  }

  /** One connection to hand over: the transaction is that success alone. */
  lemma BuildVending(cfg: Config, m: Manager, rs: seq<nat>)
    requires m.ready && Buildable(cfg, m) && m.idle != [] && m.waiting != []
    ensures var (m', w) := Build(cfg, m, [], rs); Built(cfg, m, [], m', w)
  {
    VendOne(m);
    var m1 := VendAll(m, []).0;
    assert Needed(cfg, m1) == 0 && NotStranded(cfg, m1);
  }

  lemma BuildReady(cfg: Config, m: Manager, cs: seq<Completion>, rs: seq<nat>)
    requires m.ready && Buildable(cfg, m) && AllFailures(cs)
    requires m.idle != [] && m.waiting != [] ==> cs == []
    ensures var (m', w) := Build(cfg, m, cs, rs); Built(cfg, m, cs, m', w)
  {
    if m.idle != [] && m.waiting != [] {
      BuildVending(cfg, m, rs);
    } else {
      BuildAsking(cfg, m, cs, rs);
    }
  }

  lemma BuildClosing(cfg: Config, m: Manager, cs: seq<Completion>, rs: seq<nat>)
    requires !m.ready && WithinMax(cfg, m) && AllFailures(cs)
    ensures var (m', w) := Build(cfg, m, cs, rs); Built(cfg, m, cs, m', w)
  {
    FailAllEffect(m, 0, cs);
  }

  lemma BuildKeeps(cfg: Config, m: Manager, cs: seq<Completion>, rs: seq<nat>)
    requires Buildable(cfg, m) && AllFailures(cs)
    requires m.ready && m.idle != [] && m.waiting != [] ==> cs == []
    ensures var (m', w) := Build(cfg, m, cs, rs); Built(cfg, m, cs, m', w)
  {
    if m.ready {
      BuildReady(cfg, m, cs, rs);
    } else {
      BuildClosing(cfg, m, cs, rs);
    }
  }

  lemma {:induction false} IdsOfSuccesses(ids: seq<nat>, idle: seq<Idle>)
    requires |ids| == |idle|
    ensures Ids(Successes(ids, idle)) == ids
    decreases |ids|
  {
    if ids != [] {
      var cs := Successes(ids, idle);
      assert cs[..|cs| - 1] == Successes(ids[..|ids| - 1], idle[1..]);
      IdsOfSuccesses(ids[..|ids| - 1], idle[1..]);
    }
  }

  lemma VendMoves(m: Manager, cs: seq<Completion>)
    ensures var (m', cs') := VendAll(m, cs);
            Ids(cs) + m.waiting == Ids(cs') + m'.waiting
  {
    hide Ids, Successes;
    var n := Min(|m.idle|, |m.waiting|);
    var oldest, newest := m.waiting[..n], m.idle[|m.idle| - n..];
    IdsConcat(cs, Successes(oldest, newest));
    IdsOfSuccesses(oldest, newest);
    Rejoin(Ids(cs), m.waiting, n);
  }

  lemma Rejoin(done: seq<nat>, waiting: seq<nat>, n: nat)
    requires n <= |waiting|
    ensures (done + waiting[..n]) + waiting[n..] == done + waiting
  {
  }

  /** Building a transaction moves acquisitions from the front of the queue to its list, in order, and loses none. */
  lemma BuildMoves(cfg: Config, m: Manager, cs: seq<Completion>, rs: seq<nat>)
    requires BuildAsserts(cfg, m)
    ensures var (m', w) := Build(cfg, m, cs, rs);
            Ids(cs) + m.waiting == Ids(w.completions) + m'.waiting
  {
    hide Ids, VendAll, FailAll;
    if m.ready {
      VendMoves(m, cs);
    } else {
      FailAllMoves(m, 0, cs);
      assert (Ids(cs) + Failing(m, 0)) + FailAll(m, 0, cs).0.waiting ==
             Ids(cs) + (Failing(m, 0) + FailAll(m, 0, cs).0.waiting);
    }
  }

  /** Building a transaction only takes idle connections from the end. */
  lemma BuildTakesNewest(cfg: Config, m: Manager, cs: seq<Completion>, rs: seq<nat>)
    requires BuildAsserts(cfg, m)
    ensures Build(cfg, m, cs, rs).0.idle <= m.idle
  {
  }

  // ----- dispatch never leaves a completion behind

  /** The early end of the dispatch loop loses nothing: every completion of a transaction is dispatched, in order. */
  lemma DispatchIsComplete(w: Work, onThread: nat -> bool)
    requires WorkOk(w)
    ensures Dispatch(w.completions, onThread) == (w.completions, [])
  {
    if !AllFailures(w.completions) {
      var c := w.completions[0];
      assert w.completions == [c] && w.completions[1..] == [];
      assert Dispatch(w.completions[1..], onThread) == ([], []);
      assert [c] + [] == [c];
    } else {
      DispatchFailures(w.completions, onThread);
    }
  }

  lemma {:induction false} DispatchFailures(cs: seq<Completion>, onThread: nat -> bool)
    requires AllFailures(cs)
    ensures Dispatch(cs, onThread) == (cs, [])
    decreases |cs|
  {
    if cs != [] {
      assert forall c | c in cs[1..] :: c in cs;
      DispatchFailures(cs[1..], onThread);
      assert cs[0] in cs;
      assert [cs[0]] + cs[1..] == cs;
    }
  }

  // ----- culling is exact

  /** On a sorted list the early stop misses nothing: what is culled is exactly what has expired. */
  lemma {:induction false} CullExact(idle: seq<Idle>, now: nat)
    requires SortedIdle(idle)
    ensures forall i | 0 <= i < |idle| :: i < Expired(idle, now) <==> idle[i].cullAt <= now
    decreases |idle|
  {
    if idle != [] && idle[0].cullAt <= now {
      CullExact(idle[1..], now);
      forall i | 0 <= i < |idle| ensures i < Expired(idle, now) <==> idle[i].cullAt <= now {
        if i > 0 {
          assert idle[i] == idle[1..][i - 1];
        }
      }
    }
  }

  lemma {:induction false} RemoveShrinks(idle: seq<Idle>, conn: nat)
    ensures |Remove(idle, conn).0| == |idle| - (if Remove(idle, conn).1 then 1 else 0)
    decreases |idle|
  {
    if idle != [] {
      RemoveShrinks(idle[1..], conn);
    }
  }

  lemma {:induction false} RemoveKeepsSorted(idle: seq<Idle>, conn: nat)
    requires SortedIdle(idle)
    ensures var (rest, found) := Remove(idle, conn);
            && SortedIdle(rest)
            && (forall e | e in rest :: e in idle)
    decreases |idle|
  {
    if idle != [] && idle[0].conn != conn {
      RemoveKeepsSorted(idle[1..], conn);
      var rest := Remove(idle[1..], conn).0;
      forall e | e in rest ensures idle[0].cullAt <= e.cullAt {
        assert e in idle[1..];
        var i :| 0 <= i < |idle[1..]| && idle[1..][i] == e;
        assert e == idle[i + 1];
      }
    }
  }

  /** A removal is reported exactly when the connection was idle. */
  lemma {:induction false} RemoveFinds(idle: seq<Idle>, conn: nat)
    ensures Remove(idle, conn).1 <==> exists e | e in idle :: e.conn == conn
    decreases |idle|
  {
    if idle != [] {
      RemoveFinds(idle[1..], conn);
      assert forall e :: e in idle <==> e == idle[0] || e in idle[1..];
    }
  }
}
