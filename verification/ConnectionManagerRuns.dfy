/**
 * The connection manager in its environment: critical sections and the
 * execution of their transactions interleave freely, the HTTP layer answers
 * each connect once and shuts each connection down once, and the clock is monotone.
 */
module ConnectionManagerRuns {
  import opened Octets
  import opened ConnectionManager
  import opened Sequences

  /**
   * `works` are the live transactions and `inflight` the connects issued but not
   * answered. `arrivals`, `taken` and `dispatched` record acquisitions as they
   * are requested, as they leave the queue, and as their callbacks are made.
   */
  datatype System = System(
    m: Manager,
    works: seq<Work>,
    inflight: nat,
    clock: nat,
    arrivals: seq<nat>,
    taken: seq<nat>,
    dispatched: multiset<nat>)

  /** What a thread can enter the manager's lock for. */
  datatype Call =
    | Acquire(id: nat)
    | ReleaseReference
    | Release(conn: nat, usable: bool)
    | OnGoaway(conn: nat)
    | OnSetup(result: Setup, usable: bool)
    | OnSettings(conn: nat, error: bool, usable: bool)
    | OnShutdown(conn: nat)
    | CullIdle(now: nat)

  datatype Event =
    | Enter(call: Call)
    | AcquireReference
    | CullTaskCancelled
    | Tick(now: nat)
    | IssueConnect(k: nat, ok: bool)
    | RetakeLock(k: nat)
    | Execute(k: nat, onThread: nat -> bool)

  ghost predicate Start(cfg: Config, s: System) {
    && cfg.maxConnections > 0
    && s.m.ready && s.m.idle == [] && s.m.waiting == [] && s.m.external == 1
    && s.m.vended == s.m.connecting == s.m.open == s.m.settings == 0
    && s.m.refs == 1 + Bit(s.m.culling)
    && s.works == [] && s.inflight == 0
    && s.arrivals == [] && s.taken == [] && s.dispatched == multiset{}
  }

  // ----- critical sections

  /** When the user or the HTTP layer may make a call. */
  predicate Allowed(s: System, c: Call) {
    match c
    case Acquire(id) => s.m.ready && id !in s.arrivals
    case ReleaseReference => s.m.external > 0
    case Release(_, _) => s.m.vended > 0
    case OnGoaway(_) => s.m.open > 0
    case OnSetup(_, _) => s.inflight > 0
    case OnSettings(_, _, _) => s.m.settings > 0
    case OnShutdown(_) => s.m.open > s.m.settings
    case CullIdle(now) => s.m.culling && now <= s.clock
  }

  /** What the counters must allow for a call not to abort, here or where its transaction is built. */
  predicate Defined(cfg: Config, m: Manager, c: Call) {
    && WithinMax(cfg, m)
    && match c
       case OnSetup(_, _) => m.connecting > 0
       case OnSettings(_, _, _) => m.settings > 0
       case OnShutdown(_) => m.open > 0
       case _ => true
  }

  function Answer(cfg: Config, m: Manager, clock: nat, c: Call): (Manager, Work)
    requires Defined(cfg, m, c)
  {
    match c
    case Acquire(id) => AcquireConnection(cfg, m, id)
    case ReleaseReference => ReleaseManager(cfg, m)
    case Release(conn, usable) => ReleaseConnection(cfg, m, conn, usable, clock)
    case OnGoaway(conn) => Goaway(cfg, m, conn)
    case OnSetup(r, usable) => ConnectionSetup(cfg, m, r, usable, clock)
    case OnSettings(conn, error, usable) => SettingsCompleted(cfg, m, conn, error, usable, clock)
    case OnShutdown(conn) => ConnectionShutdown(cfg, m, conn)
    case CullIdle(now) => Cull(m, now)
  }

  function Arriving(c: Call): seq<nat> {
    if c.Acquire? then [c.id] else []
  }

  function Used(c: Call): nat {
    Bit(c.OnSetup?)
  }

  /** The system after a call whose critical section left state `r.0` and built transaction `r.1`. */
  function Entered(s: System, c: Call, r: (Manager, Work)): System
    requires Used(c) <= s.inflight
  {
    s.(m := r.0, works := s.works + [r.1], inflight := s.inflight - Used(c),
       arrivals := s.arrivals + Arriving(c), taken := s.taken + Ids(r.1.completions))
  }

  // ----- steps

  predicate Enabled(s: System, e: Event) {
    match e
    case Enter(c) => Allowed(s, c)
    case AcquireReference => s.m.external > 0
    case CullTaskCancelled => s.m.culling && !s.m.ready
    case Tick(now) => now >= s.clock
    case IssueConnect(k, _) => k < |s.works| && s.works[k].toConnect > 0
    case RetakeLock(k) => k < |s.works| && s.works[k].toConnect == 0 && s.works[k].failed > 0
    case Execute(k, _) => k < |s.works| && s.works[k].toConnect == 0 && s.works[k].failed == 0
  }

  predicate StepDefined(cfg: Config, s: System, e: Event)
    requires Enabled(s, e)
  {
    match e
    case Enter(c) => Defined(cfg, s.m, c)
    case CullTaskCancelled => s.m.refs > 0
    case RetakeLock(k) => s.m.connecting >= s.works[k].failed && s.m.refs > s.works[k].failed
    case Execute(k, onThread) => s.m.refs > 0 && Dispatch(s.works[k].completions, onThread).1 == []
    case _ => true
  }

  function Issued(s: System, k: nat, ok: bool): System
    requires k < |s.works| && s.works[k].toConnect > 0
  {
    var w := s.works[k];
    if ok then s.(works := s.works[k := w.(toConnect := w.toConnect - 1)], inflight := s.inflight + 1)
    else s.(works := s.works[k := w.(toConnect := w.toConnect - 1, failed := w.failed + 1)])
  }

  /** The acquisitions that fail when the lock is taken again. */
  function Retried(m: Manager, w: Work): seq<nat>
    requires m.connecting >= w.failed
  {
    Failing(m, m.connecting - w.failed)
  }

  function Retaken(s: System, k: nat): System
    requires k < |s.works| && s.m.connecting >= s.works[k].failed && s.m.refs >= s.works[k].failed
  {
    var (m', w') := Relock(s.m, s.works[k]);
    s.(m := m', works := s.works[k := w'], taken := s.taken + Retried(s.m, s.works[k]))
  }

  /** A transaction's completions are dispatched and its reference is released. */
  function Executed(s: System, k: nat, onThread: nat -> bool): System
    requires k < |s.works| && s.m.refs > 0
  {
    var done := Dispatch(s.works[k].completions, onThread).0;
    s.(m := s.m.(refs := s.m.refs - 1),
       works := s.works[..k] + s.works[k + 1..], dispatched := s.dispatched + multiset(Ids(done)))
  }

  function Next(cfg: Config, s: System, e: Event): System
    requires Enabled(s, e) && StepDefined(cfg, s, e)
  {
    match e
    case Enter(c) => Entered(s, c, Answer(cfg, s.m, s.clock, c))
    case AcquireReference => s.(m := s.m.(external := s.m.external + 1))
    case CullTaskCancelled => s.(m := s.m.(culling := false, refs := s.m.refs - 1))
    case Tick(now) => s.(clock := now)
    case IssueConnect(k, ok) => Issued(s, k, ok)
    case RetakeLock(k) => Retaken(s, k)
    case Execute(k, onThread) => Executed(s, k, onThread)
  }

  // ----- sums over the live transactions

  function Unissued(ws: seq<Work>): nat {
    if ws == [] then 0 else ws[0].toConnect + ws[0].failed + Unissued(ws[1..])
  }

  function Held(ws: seq<Work>): multiset<nat> {
    if ws == [] then multiset{} else multiset(Ids(ws[0].completions)) + Held(ws[1..])
  }

  lemma {:induction false} SumsConcat(a: seq<Work>, b: seq<Work>)
    ensures Unissued(a + b) == Unissued(a) + Unissued(b)
    ensures Held(a + b) == Held(a) + Held(b)
    decreases |a|
  {
    if a == [] {
      assert a + b == b;
    } else {
      assert (a + b)[1..] == a[1..] + b;
      SumsConcat(a[1..], b);
    }
  }

  /** The sums with transaction `k` taken apart from the others. */
  lemma SumsAt(ws: seq<Work>, k: nat)
    requires k < |ws|
    ensures var others := ws[..k] + ws[k + 1..];
            && Unissued(ws) == Unissued(others) + ws[k].toConnect + ws[k].failed
            && Held(ws) == Held(others) + multiset(Ids(ws[k].completions))
  {
    var w := ws[k];
    assert ws == ws[..k] + ([w] + ws[k + 1..]);
    SumsConcat(ws[..k], [w] + ws[k + 1..]);
    SumsConcat(ws[..k], ws[k + 1..]);
    assert ([w] + ws[k + 1..])[1..] == ws[k + 1..];
  }

  lemma SumsUpdate(ws: seq<Work>, k: nat, w: Work)
    requires k < |ws|
    ensures Unissued(ws[k := w]) + ws[k].toConnect + ws[k].failed == Unissued(ws) + w.toConnect + w.failed
    ensures Held(ws[k := w]) + multiset(Ids(ws[k].completions)) == Held(ws) + multiset(Ids(w.completions))
  {
    SumsAt(ws, k);
    SumsAt(ws[k := w], k);
    assert ws[k := w][..k] + ws[k := w][k + 1..] == ws[..k] + ws[k + 1..];
  }

  lemma SumsPush(ws: seq<Work>, w: Work)
    ensures Unissued(ws + [w]) == Unissued(ws) + w.toConnect + w.failed
    ensures Held(ws + [w]) == Held(ws) + multiset(Ids(w.completions))
  {
    SumsConcat(ws, [w]);
    assert Unissued([w]) == w.toConnect + w.failed;
    assert Held([w]) == multiset(Ids(w.completions));
  }

  // ----- invariants

  /** What holds of the counters and lists at every unlock. */
  predicate Unlocked(cfg: Config, m: Manager) {
    && WithinMax(cfg, m)
    && (m.ready ==> NotStranded(cfg, m))
    && (!m.ready ==> m.waiting == [] && m.idle == [])
    && (m.ready <==> m.external > 0)
    && m.settings <= m.open
  }

  /** The references that the counters account for. */
  function Counted(m: Manager): nat {
    m.vended + m.connecting + m.open + Bit(m.external > 0) + Bit(m.culling)
  }

  ghost predicate AllOk(ws: seq<Work>) {
    forall k | 0 <= k < |ws| :: WorkOk(ws[k])
  }

  ghost predicate Inv(cfg: Config, s: System) {
    && Unlocked(cfg, s.m)
    && s.m.connecting == s.inflight + Unissued(s.works)
    && s.m.refs == Counted(s.m) + |s.works|
    && AllOk(s.works)
    && s.arrivals == s.taken + s.m.waiting
    && multiset(s.taken) == s.dispatched + Held(s.works)
    && Distinct(s.arrivals)
  }

  lemma StartInv(cfg: Config, s: System)
    requires Start(cfg, s)
    ensures Inv(cfg, s)
  {
  }

  // ----- what a critical section owes the invariant

  ghost predicate SectionOk(cfg: Config, m: Manager, used: nat, r: (Manager, Work)) {
    && Unlocked(cfg, r.0)
    && WorkOk(r.1) && r.1.failed == 0
    && r.0.connecting + used == m.connecting + r.1.toConnect
    && r.0.refs - Counted(r.0) == m.refs - Counted(m) + 1
  }

  /** Acquisitions leave the queue from the front, in order, into the section's transaction, and none is lost. */
  ghost predicate TakesFront(m: Manager, arriving: seq<nat>, r: (Manager, Work)) {
    m.waiting + arriving == Ids(r.1.completions) + r.0.waiting
  }

  /** The state a section has prepared when it comes to build its transaction. */
  ghost predicate Prepared(cfg: Config, m: Manager, used: nat, m1: Manager, cs: seq<Completion>) {
    && Buildable(cfg, m1) && AllFailures(cs)
    && (m1.ready && m1.idle != [] && m1.waiting != [] ==> cs == [])
    && (m1.ready <==> m1.external > 0) && m1.settings <= m1.open
    && m1.connecting + used == m.connecting
    && m1.refs - Counted(m1) == m.refs - Counted(m) + 1
  }

  lemma SectionByBuild(cfg: Config, m: Manager, used: nat, m1: Manager, cs: seq<Completion>, rs: seq<nat>)
    requires Prepared(cfg, m, used, m1, cs)
    ensures SectionOk(cfg, m, used, Build(cfg, m1, cs, rs))
  {
    BuildKeeps(cfg, m1, cs, rs);
  }

  lemma AcquireOk(cfg: Config, m: Manager, id: nat)
    requires Unlocked(cfg, m) && m.ready
    ensures SectionOk(cfg, m, 0, AcquireConnection(cfg, m, id))
  {
    hide Build;
    SectionByBuild(cfg, m, 0, Open(m).(waiting := m.waiting + [id]), [], []);
  }

  lemma ReleaseOk(cfg: Config, clock: nat, m: Manager, conn: nat, usable: bool)
    requires Unlocked(cfg, m) && m.vended > 0
    ensures SectionOk(cfg, m, 0, ReleaseConnection(cfg, m, conn, usable, clock))
  {
    hide Build;
    var m1 := Open(m).(vended := m.vended - 1, refs := m.refs);
    if usable {
      SectionByBuild(cfg, m, 0, PushIdle(cfg, m1, conn, clock), [], []);
    } else {
      SectionByBuild(cfg, m, 0, m1, [], [conn]);
    }
  }

  lemma GoawayOk(cfg: Config, m: Manager, conn: nat)
    requires Unlocked(cfg, m)
    ensures SectionOk(cfg, m, 0, Goaway(cfg, m, conn))
  {
    hide Build;
    RemoveShrinks(m.idle, conn);
    var (idle, found) := Remove(m.idle, conn);
    SectionByBuild(cfg, m, 0, Open(m).(idle := idle), [], if found then [conn] else []);
  }

  lemma ShutdownOk(cfg: Config, m: Manager, conn: nat)
    requires Unlocked(cfg, m) && m.open > m.settings
    ensures SectionOk(cfg, m, 0, ConnectionShutdown(cfg, m, conn))
  {
    hide Build;
    RemoveShrinks(m.idle, conn);
    var (idle, found) := Remove(m.idle, conn);
    SectionByBuild(cfg, m, 0, Open(m).(idle := idle, open := m.open - 1, refs := m.refs), [],
                   if found then [conn] else []);
  }

  lemma ReleaseReferenceOk(cfg: Config, m: Manager)
    requires Unlocked(cfg, m) && m.external > 0 && m.refs >= Counted(m)
    ensures SectionOk(cfg, m, 0, ReleaseManager(cfg, m))
  {
    if m.external == 1 {
      BuildKeeps(cfg, Open(m).(external := 0, ready := false), [], []);
    }
  }

  /** The state in which the setup and settings callbacks decide: one connection fewer is on its way. */
  ghost predicate OneArrived(cfg: Config, m: Manager, used: nat, m1: Manager) {
    && Unlocked(cfg, m)
    && m1.waiting == m.waiting && m1.idle == m.idle && m1.vended == m.vended
    && m1.ready == m.ready && m1.external == m.external && m1.culling == m.culling
    && m1.settings <= m1.open && m1.connecting + used == m.connecting
    && m1.connecting + m1.settings == m.connecting + m.settings - 1
    && m1.refs - Counted(m1) == m.refs - Counted(m) + 1
  }

  lemma BecomeIdleOk(cfg: Config, clock: nat, m: Manager, used: nat, m1: Manager, conn: nat)
    requires OneArrived(cfg, m, used, m1)
    ensures SectionOk(cfg, m, used, BecomeIdle(cfg, m1, conn, clock))
  {
    hide Build;
    SectionByBuild(cfg, m, used, PushIdle(cfg, m1, conn, clock), [], []);
  }

  lemma UnservedPrepared(cfg: Config, m: Manager, used: nat, m1: Manager, m2: Manager, cs: seq<Completion>)
    requires OneArrived(cfg, m, used, m1) && m2 == m1.(waiting := m2.waiting)
    requires |m2.waiting| == Min(|m1.waiting|, m1.connecting + m1.settings) && AllFailures(cs)
    ensures Prepared(cfg, m, used, m2, cs)
  {
  }

  lemma FailUnservedOk(cfg: Config, m: Manager, used: nat, m1: Manager, conn: seq<nat>)
    requires OneArrived(cfg, m, used, m1)
    ensures SectionOk(cfg, m, used, FailUnserved(cfg, m1, conn))
  {
    hide Build, FailAll;
    var limit := m1.connecting + m1.settings;
    FailAllEffect(m1, limit, []);
    var (m2, cs) := FailAll(m1, limit, []);
    UnservedPrepared(cfg, m, used, m1, m2, cs);
    SectionByBuild(cfg, m, used, m2, cs, conn);
  }

  /** The shared tail of the setup and settings callbacks. */
  lemma ReadyOrFailedOk(cfg: Config, clock: nat, m: Manager, used: nat, m1: Manager, error: bool, conn: seq<nat>,
                        usable: bool)
    requires |conn| <= 1 && (!error ==> |conn| == 1) && OneArrived(cfg, m, used, m1)
    ensures SectionOk(cfg, m, used, ReadyOrFailed(cfg, m1, error, conn, usable, clock))
  {
    hide Build;
    if error {
      FailUnservedOk(cfg, m, used, m1, conn);
    } else if m1.ready && usable {
      BecomeIdleOk(cfg, clock, m, used, m1, conn[0]);
    } else {
      SectionByBuild(cfg, m, used, m1, [], conn);
    }
  }

  lemma AwaitSettingsOk(cfg: Config, m: Manager, m1: Manager)
    requires Unlocked(cfg, m) && m.connecting > 0
    requires m1 == m.(connecting := m.connecting - 1, open := m.open + 1, settings := m.settings + 1,
                      refs := m.refs + 1)
    ensures SectionOk(cfg, m, 1, Build(cfg, m1, [], []))
  {
    hide Build;
    SectionByBuild(cfg, m, 1, m1, [], []);
  }

  lemma SetupFailedOk(cfg: Config, clock: nat, m: Manager, usable: bool)
    requires Unlocked(cfg, m) && m.connecting > 0
    ensures SectionOk(cfg, m, 1, ConnectionSetup(cfg, m, Failed, usable, clock))
  {
    hide Build;
    FailUnservedOk(cfg, m, 1, m.(connecting := m.connecting - 1), []);
  }

  lemma SetupHttp1Ok(cfg: Config, clock: nat, m: Manager, conn: nat, usable: bool)
    requires Unlocked(cfg, m) && m.connecting > 0
    ensures SectionOk(cfg, m, 1, ConnectionSetup(cfg, m, Http1(conn), usable, clock))
  {
    hide Build;
    var m2 := m.(connecting := m.connecting - 1, open := m.open + 1, refs := m.refs + 1);
    if m.ready && usable {
      BecomeIdleOk(cfg, clock, m, 1, m2, conn);
    } else {
      SectionByBuild(cfg, m, 1, m2, [], [conn]);
    }
  }

  lemma SetupOk(cfg: Config, clock: nat, m: Manager, r: Setup, usable: bool)
    requires Unlocked(cfg, m) && m.connecting > 0
    ensures SectionOk(cfg, m, 1, ConnectionSetup(cfg, m, r, usable, clock))
  {
    hide Build;
    match r {
      case Failed => SetupFailedOk(cfg, clock, m, usable);
      case Http1(conn) => SetupHttp1Ok(cfg, clock, m, conn, usable);
      case Http2(_) =>
        AwaitSettingsOk(cfg, m, m.(connecting := m.connecting - 1, open := m.open + 1, settings := m.settings + 1,
                                   refs := m.refs + 1));
    }
  }

  lemma SettingsOk(cfg: Config, clock: nat, m: Manager, conn: nat, error: bool, usable: bool)
    requires Unlocked(cfg, m) && m.settings > 0
    ensures SectionOk(cfg, m, 0, SettingsCompleted(cfg, m, conn, error, usable, clock))
  {
    hide Build;
    ReadyOrFailedOk(cfg, clock, m, 0, Open(m).(settings := m.settings - 1), error, [conn], usable);
  }

  lemma CullOk(cfg: Config, m: Manager, now: nat)
    requires Unlocked(cfg, m)
    ensures SectionOk(cfg, m, 0, Cull(m, now))
  {
  }

  lemma AnswerOk(cfg: Config, s: System, c: Call)
    requires Inv(cfg, s) && Allowed(s, c)
    ensures Defined(cfg, s.m, c) && Used(c) <= s.inflight
    ensures SectionOk(cfg, s.m, Used(c), Answer(cfg, s.m, s.clock, c))
  {
    hide AcquireConnection, ReleaseManager, ReleaseConnection, Goaway, ConnectionSetup, SettingsCompleted,
         ConnectionShutdown, Cull;
    match c {
      case Acquire(id) => AcquireOk(cfg, s.m, id);
      case ReleaseReference => ReleaseReferenceOk(cfg, s.m);
      case Release(conn, usable) => ReleaseOk(cfg, s.clock, s.m, conn, usable);
      case OnGoaway(conn) => GoawayOk(cfg, s.m, conn);
      case OnSetup(r, usable) => SetupOk(cfg, s.clock, s.m, r, usable);
      case OnSettings(conn, error, usable) => SettingsOk(cfg, s.clock, s.m, conn, error, usable);
      case OnShutdown(conn) => ShutdownOk(cfg, s.m, conn);
      case CullIdle(now) => CullOk(cfg, s.m, now);
    }
  }

  lemma BuildTakes(cfg: Config, m: Manager, arriving: seq<nat>, m1: Manager, cs: seq<Completion>, rs: seq<nat>)
    requires BuildAsserts(cfg, m1) && m.waiting + arriving == Ids(cs) + m1.waiting
    ensures TakesFront(m, arriving, Build(cfg, m1, cs, rs))
  {
    hide Build, FailAll;
    BuildMoves(cfg, m1, cs, rs);
  }

  lemma FailUnservedTakes(cfg: Config, m: Manager, m1: Manager, conn: seq<nat>)
    requires m1.waiting == m.waiting && WithinMax(cfg, m1)
    ensures TakesFront(m, [], FailUnserved(cfg, m1, conn))
  {
    hide Build, FailAll, BuildAsserts, Ids, Failing;
    var limit := m1.connecting + m1.settings;
    FailAllMoves(m1, limit, []);
    FailAllEffect(m1, limit, []);
    var (m2, cs) := FailAll(m1, limit, []);
    BoundGivesRoom(cfg, m2);
    assert Ids([]) == [] by { NoIds(); }
    assert m.waiting + [] == m.waiting && [] + Failing(m1, limit) == Failing(m1, limit);
    BuildTakes(cfg, m, [], m2, cs, conn);
  }

  lemma NoIds()
    ensures Ids([]) == []
  {
  }

  lemma ReadyOrFailedTakes(cfg: Config, m: Manager, m1: Manager, error: bool, conn: seq<nat>, usable: bool, now: nat)
    requires |conn| <= 1 && (!error ==> |conn| == 1) && m1.waiting == m.waiting
    requires |m1.idle| + 1 + m1.vended + m1.connecting + m1.settings <= cfg.maxConnections
    ensures TakesFront(m, [], ReadyOrFailed(cfg, m1, error, conn, usable, now))
  {
    hide Build, FailUnserved, BuildAsserts, Ids;
    assert m.waiting + [] == Ids([]) + m.waiting by { NoIds(); }
    if error {
      FailUnservedTakes(cfg, m, m1, conn);
    } else if m1.ready && usable {
      BoundGivesRoom(cfg, PushIdle(cfg, m1, conn[0], now));
      BuildTakes(cfg, m, [], PushIdle(cfg, m1, conn[0], now), [], []);
    } else {
      BoundGivesRoom(cfg, m1);
      BuildTakes(cfg, m, [], m1, [], conn);
    }
  }

  lemma SetupTakes(cfg: Config, m: Manager, r: Setup, usable: bool, now: nat)
    requires WithinMax(cfg, m) && m.connecting > 0
    ensures TakesFront(m, [], ConnectionSetup(cfg, m, r, usable, now))
  {
    hide Build;
    var m1 := m.(connecting := m.connecting - 1);
    var m2 := m1.(open := m1.open + 1, refs := m.refs + 1);
    match r {
      case Failed => ReadyOrFailedTakes(cfg, m, m1, true, [], usable, now);
      case Http1(conn) => ReadyOrFailedTakes(cfg, m, m2, false, [conn], usable, now);
      case Http2(_) =>
        assert m.waiting + [] == Ids([]) + m.waiting;
        BuildTakes(cfg, m, [], m2.(settings := m.settings + 1), [], []);
    }
  }

  lemma ReleaseTakes(cfg: Config, m: Manager, conn: nat, usable: bool, now: nat)
    requires WithinMax(cfg, m)
    ensures TakesFront(m, [], ReleaseConnection(cfg, m, conn, usable, now))
  {
    hide Build;
    assert m.waiting + [] == Ids([]) + m.waiting;
    if m.vended > 0 {
      var m1 := Open(m).(vended := m.vended - 1, refs := m.refs);
      if usable {
        BuildTakes(cfg, m, [], PushIdle(cfg, m1, conn, now), [], []);
      } else {
        BuildTakes(cfg, m, [], m1, [], [conn]);
      }
    }
  }

  lemma RemovalTakes(cfg: Config, m: Manager, conn: nat)
    requires WithinMax(cfg, m)
    ensures TakesFront(m, [], Goaway(cfg, m, conn))
    ensures m.open > 0 ==> TakesFront(m, [], ConnectionShutdown(cfg, m, conn))
  {
    hide Build;
    assert m.waiting + [] == Ids([]) + m.waiting;
    RemoveShrinks(m.idle, conn);
    var (idle, found) := Remove(m.idle, conn);
    BuildTakes(cfg, m, [], Open(m).(idle := idle), [], if found then [conn] else []);
    if m.open > 0 {
      BuildTakes(cfg, m, [], Open(m).(idle := idle, open := m.open - 1, refs := m.refs), [], if found then [conn]
                 else []);
    }
  }

  lemma ReleaseReferenceTakes(cfg: Config, m: Manager)
    requires WithinMax(cfg, m)
    ensures TakesFront(m, [], ReleaseManager(cfg, m))
  {
    hide Build;
    assert m.waiting + [] == Ids([]) + m.waiting;
    BuildTakes(cfg, m, [], Open(m).(external := 0, ready := false), [], []);
  }

  lemma AnswerTakes(cfg: Config, m: Manager, clock: nat, c: Call)
    requires Defined(cfg, m, c)
    ensures TakesFront(m, Arriving(c), Answer(cfg, m, clock, c))
  {
    hide Build, ReleaseManager, ReleaseConnection, Goaway, ConnectionSetup, ReadyOrFailed, ConnectionShutdown, Expired;
    match c {
      case Acquire(id) =>
        assert Ids([]) + (m.waiting + [id]) == m.waiting + [id];
        BuildTakes(cfg, m, [id], Open(m).(waiting := m.waiting + [id]), [], []);
      case ReleaseReference => ReleaseReferenceTakes(cfg, m);
      case Release(conn, usable) => ReleaseTakes(cfg, m, conn, usable, clock);
      case OnGoaway(conn) => RemovalTakes(cfg, m, conn);
      case OnSetup(r, usable) => SetupTakes(cfg, m, r, usable, clock);
      case OnSettings(conn, error, usable) =>
        ReadyOrFailedTakes(cfg, m, Open(m).(settings := m.settings - 1), error, [conn], usable, clock);
      case OnShutdown(conn) => RemovalTakes(cfg, m, conn);
      case CullIdle(now) =>
        assert m.waiting + [] == Ids([]) + m.waiting;
    }
  }

  // ----- every step keeps the invariant

  lemma ArrivalsSplit(taken: seq<nat>, waiting: seq<nat>, arriving: seq<nat>, ids: seq<nat>, left: seq<nat>)
    requires waiting + arriving == ids + left
    ensures (taken + waiting) + arriving == (taken + ids) + left
    ensures multiset(taken + ids) == multiset(taken) + multiset(ids)
  {
    calc {
      (taken + waiting) + arriving;
      taken + (waiting + arriving);
      taken + (ids + left);
      (taken + ids) + left;
    }
  }

  lemma EnterKeeps(cfg: Config, s: System, c: Call, r: (Manager, Work))
    requires Inv(cfg, s) && Allowed(s, c) && Used(c) <= s.inflight
    requires SectionOk(cfg, s.m, Used(c), r) && TakesFront(s.m, Arriving(c), r)
    ensures Inv(cfg, Entered(s, c, r))
  {
    hide Ids, WorkOk, NotStranded;
    SumsPush(s.works, r.1);
    DistinctPush(s.arrivals, Arriving(c));
    ArrivalsSplit(s.taken, s.m.waiting, Arriving(c), Ids(r.1.completions), r.0.waiting);
  }

  /** What taking the lock again owes the invariant. */
  lemma RelockOk(cfg: Config, m: Manager, w: Work)
    requires Unlocked(cfg, m) && m.connecting >= w.failed && m.refs >= Counted(m) && AllFailures(w.completions)
    ensures var (m', w') := Relock(m, w);
            && Unlocked(cfg, m') && WorkOk(w') && w' == w.(completions := w'.completions, failed := 0)
            && m'.connecting + w.failed == m.connecting
            && m'.refs - Counted(m') == m.refs - Counted(m)
  {
    hide Build, FailAll;
    var left := m.connecting - w.failed;
    FailAllEffect(m.(connecting := left, refs := m.refs - w.failed), left, w.completions);
  }

  lemma FailingSame(m: Manager, m1: Manager, limit: nat)
    requires m1.waiting == m.waiting
    ensures Failing(m1, limit) == Failing(m, limit)
  {
  }

  lemma RelockTakes(m: Manager, w: Work)
    requires m.connecting >= w.failed && m.refs >= w.failed
    ensures var (m', w') := Relock(m, w);
            Ids(w'.completions) == Ids(w.completions) + Retried(m, w) && m.waiting == Retried(m, w) + m'.waiting
  {
    hide Build, FailAll, Failing, Ids;
    var left := m.connecting - w.failed;
    assert Failing(m.(connecting := left, refs := m.refs - w.failed), left) == Failing(m, left) by {
      FailingSame(m, m.(connecting := left, refs := m.refs - w.failed), left);
    }
    FailAllMoves(m.(connecting := left, refs := m.refs - w.failed), left, w.completions);
  }

  lemma MultisetCancel(t': multiset<nat>, t: multiset<nat>, d: multiset<nat>, h: multiset<nat>, h': multiset<nat>,
                       c: multiset<nat>, c': multiset<nat>)
    requires t == d + h && t' + c == t + c' && h' + c == h + c'
    ensures t' == d + h'
  {
    forall x ensures t'[x] == (d + h')[x] {
      assert (t' + c)[x] == (t + c')[x];
      assert (h' + c)[x] == (h + c')[x];
    }
  }

  /** A step that changes one live transaction, reduced to its effect on the counts and the logs. */
  lemma UpdateKeeps(cfg: Config, s: System, k: nat, m': Manager, w': Work, inflight': nat, taken': seq<nat>)
    requires Inv(cfg, s) && k < |s.works| && Unlocked(cfg, m') && WorkOk(w')
    requires m'.connecting - inflight' - w'.toConnect - w'.failed ==
             s.m.connecting - s.inflight - s.works[k].toConnect - s.works[k].failed
    requires m'.refs - Counted(m') == s.m.refs - Counted(s.m)
    requires taken' + m'.waiting == s.arrivals
    requires multiset(taken') + multiset(Ids(s.works[k].completions)) ==
             multiset(s.taken) + multiset(Ids(w'.completions))
    ensures Inv(cfg, s.(m := m', works := s.works[k := w'], inflight := inflight', taken := taken'))
  {
    hide Ids;
    SumsUpdate(s.works, k, w');
    MultisetCancel(multiset(taken'), multiset(s.taken), s.dispatched, Held(s.works), Held(s.works[k := w']),
                   multiset(Ids(s.works[k].completions)), multiset(Ids(w'.completions)));
  }

  lemma RetakeConserves(taken: seq<nat>, waiting: seq<nat>, held: seq<nat>, more: seq<nat>, left: seq<nat>)
    requires waiting == more + left
    ensures taken + waiting == (taken + more) + left
    ensures multiset(taken + more) + multiset(held) == multiset(taken) + multiset(held + more)
  {
  }

  lemma RetakeKeeps(cfg: Config, s: System, k: nat)
    requires Inv(cfg, s) && k < |s.works| && s.works[k].failed > 0 && s.m.connecting >= s.works[k].failed
    ensures Inv(cfg, Retaken(s, k))
  {
    hide Ids;
    var w := s.works[k];
    RelockOk(cfg, s.m, w);
    RelockTakes(s.m, w);
    var (m', w') := Relock(s.m, w);
    var more := Retried(s.m, w);
    RetakeConserves(s.taken, s.m.waiting, Ids(w.completions), more, m'.waiting);
    UpdateKeeps(cfg, s, k, m', w', s.inflight, s.taken + more);
  }

  /** A step that only moves connects along, from a transaction to the HTTP layer or to its failures. */
  lemma ConnectKeeps(cfg: Config, s: System, k: nat, w': Work, inflight': nat)
    requires Inv(cfg, s) && k < |s.works| && s.works[k].toConnect > 0
    requires w' == s.works[k].(toConnect := w'.toConnect, failed := w'.failed)
    requires inflight' + w'.toConnect + w'.failed == s.inflight + s.works[k].toConnect + s.works[k].failed
    ensures Inv(cfg, s.(works := s.works[k := w'], inflight := inflight'))
  {
    hide Ids;
    assert AllFailures(w'.completions);
    UpdateKeeps(cfg, s, k, s.m, w', inflight', s.taken);
  }

  lemma IssueKeeps(cfg: Config, s: System, k: nat, ok: bool)
    requires Inv(cfg, s) && k < |s.works| && s.works[k].toConnect > 0
    ensures Inv(cfg, Issued(s, k, ok))
  {
    var w := s.works[k];
    if ok {
      ConnectKeeps(cfg, s, k, w.(toConnect := w.toConnect - 1), s.inflight + 1);
    } else {
      ConnectKeeps(cfg, s, k, w.(toConnect := w.toConnect - 1, failed := w.failed + 1), s.inflight);
    }
  }

  lemma RemoveWork(ws: seq<Work>, k: nat, taken: multiset<nat>, dispatched: multiset<nat>)
    requires k < |ws| && AllOk(ws) && ws[k].toConnect == ws[k].failed == 0
    requires taken == dispatched + Held(ws)
    ensures var others := ws[..k] + ws[k + 1..];
            && Unissued(others) == Unissued(ws) && AllOk(others)
            && taken == dispatched + multiset(Ids(ws[k].completions)) + Held(others)
  {
    hide Ids, Held, Unissued, WorkOk;
    SumsAt(ws, k);
  }

  lemma RemoveKeeps(cfg: Config, s: System, k: nat)
    requires Inv(cfg, s) && k < |s.works| && s.works[k].toConnect == s.works[k].failed == 0
    ensures s.m.refs > 0
    ensures Inv(cfg, s.(m := s.m.(refs := s.m.refs - 1), works := s.works[..k] + s.works[k + 1..],
                        dispatched := s.dispatched + multiset(Ids(s.works[k].completions))))
  {
    hide Ids;
    var others := s.works[..k] + s.works[k + 1..];
    RemoveWork(s.works, k, multiset(s.taken), s.dispatched);
    assert |others| == |s.works| - 1;
  }

  lemma ExecuteKeeps(cfg: Config, s: System, k: nat, onThread: nat -> bool)
    requires Inv(cfg, s) && k < |s.works| && s.works[k].toConnect == s.works[k].failed == 0
    ensures s.m.refs > 0 && Inv(cfg, Executed(s, k, onThread))
  {
    DispatchIsComplete(s.works[k], onThread);
    RemoveKeeps(cfg, s, k);
  }

  lemma FailedWithin(cfg: Config, s: System, k: nat)
    requires Inv(cfg, s) && k < |s.works|
    ensures s.works[k].failed <= s.m.connecting && s.works[k].failed < s.m.refs
  {
    SumsAt(s.works, k);
  }

  /**
   * Every step of the manager and of its environment keeps the invariant, and
   * none is stopped by an assertion on a counter.
   */
  lemma StepKeeps(cfg: Config, s: System, e: Event)
    requires Inv(cfg, s) && Enabled(s, e)
    ensures StepDefined(cfg, s, e) && Inv(cfg, Next(cfg, s, e))
  {
    hide Answer, Retaken, Executed, Issued;
    match e {
      case Enter(c) =>
        AnswerOk(cfg, s, c);
        AnswerTakes(cfg, s.m, s.clock, c);
        EnterKeeps(cfg, s, c, Answer(cfg, s.m, s.clock, c));
      case IssueConnect(k, ok) => IssueKeeps(cfg, s, k, ok);
      case RetakeLock(k) =>
        FailedWithin(cfg, s, k);
        RetakeKeeps(cfg, s, k);
      case Execute(k, onThread) =>
        DispatchIsComplete(s.works[k], onThread);
        ExecuteKeeps(cfg, s, k, onThread);
      case AcquireReference =>
      case CullTaskCancelled =>
      case Tick(_) =>
    }
  }

  // ----- the idle list stays sorted

  ghost predicate IdleTimes(cfg: Config, idle: seq<Idle>, clock: nat) {
    SortedIdle(idle) && forall i | 0 <= i < |idle| :: idle[i].cullAt <= clock + cfg.idleTime
  }

  lemma PushKeepsTimes(cfg: Config, idle: seq<Idle>, conn: nat, clock: nat)
    requires IdleTimes(cfg, idle, clock)
    ensures IdleTimes(cfg, idle + [Idle(conn, clock + cfg.idleTime)], clock)
  {
  }

  lemma RemoveKeepsTimes(cfg: Config, idle: seq<Idle>, conn: nat, clock: nat)
    requires IdleTimes(cfg, idle, clock)
    ensures IdleTimes(cfg, Remove(idle, conn).0, clock)
  {
    RemoveKeepsSorted(idle, conn);
    var rest := Remove(idle, conn).0;
    forall i | 0 <= i < |rest| ensures rest[i].cullAt <= clock + cfg.idleTime {
      assert rest[i] in idle;
    }
  }

  lemma BuildKeepsTimes(cfg: Config, m: Manager, cs: seq<Completion>, rs: seq<nat>, clock: nat)
    requires Buildable(cfg, m) && IdleTimes(cfg, m.idle, clock)
    ensures IdleTimes(cfg, Build(cfg, m, cs, rs).0.idle, clock)
  {
    BuildTakesNewest(cfg, m, cs, rs);
  }

  lemma BecomeIdleKeepsTimes(cfg: Config, m: Manager, conn: nat, clock: nat)
    requires Buildable(cfg, PushIdle(cfg, m, conn, clock)) && IdleTimes(cfg, m.idle, clock)
    ensures IdleTimes(cfg, BecomeIdle(cfg, m, conn, clock).0.idle, clock)
  {
    hide Build;
    PushKeepsTimes(cfg, m.idle, conn, clock);
    BuildKeepsTimes(cfg, PushIdle(cfg, m, conn, clock), [], [], clock);
  }

  lemma FailUnservedKeepsTimes(cfg: Config, m: Manager, used: nat, m1: Manager, conn: seq<nat>, clock: nat)
    requires OneArrived(cfg, m, used, m1) && IdleTimes(cfg, m.idle, clock)
    ensures IdleTimes(cfg, FailUnserved(cfg, m1, conn).0.idle, clock)
  {
    hide Build, FailAll;
    var limit := m1.connecting + m1.settings;
    FailAllEffect(m1, limit, []);
    var (m2, cs) := FailAll(m1, limit, []);
    BuildKeepsTimes(cfg, m2, cs, conn, clock);
  }

  lemma ReadyOrFailedKeepsTimes(cfg: Config, m: Manager, used: nat, m1: Manager, error: bool, conn: seq<nat>,
                                usable: bool, clock: nat)
    requires |conn| <= 1 && (!error ==> |conn| == 1) && OneArrived(cfg, m, used, m1) && IdleTimes(cfg, m.idle, clock)
    ensures IdleTimes(cfg, ReadyOrFailed(cfg, m1, error, conn, usable, clock).0.idle, clock)
  {
    hide Build, FailAll;
    if error {
      FailUnservedKeepsTimes(cfg, m, used, m1, conn, clock);
    } else if m1.ready && usable {
      BecomeIdleKeepsTimes(cfg, m1, conn[0], clock);
    } else {
      BuildKeepsTimes(cfg, m1, [], conn, clock);
    }
  }

  lemma SetupKeepsTimes(cfg: Config, m: Manager, r: Setup, usable: bool, clock: nat)
    requires Unlocked(cfg, m) && m.connecting > 0 && IdleTimes(cfg, m.idle, clock)
    ensures IdleTimes(cfg, ConnectionSetup(cfg, m, r, usable, clock).0.idle, clock)
  {
    hide Build;
    var m1 := m.(connecting := m.connecting - 1);
    var m2 := m1.(open := m1.open + 1, refs := m.refs + 1);
    match r {
      case Failed => ReadyOrFailedKeepsTimes(cfg, m, 1, m1, true, [], usable, clock);
      case Http1(conn) => ReadyOrFailedKeepsTimes(cfg, m, 1, m2, false, [conn], usable, clock);
      case Http2(_) => BuildKeepsTimes(cfg, m2.(settings := m2.settings + 1), [], [], clock);
    }
  }

  lemma ReleaseKeepsTimes(cfg: Config, m: Manager, conn: nat, usable: bool, clock: nat)
    requires Unlocked(cfg, m) && m.vended > 0 && IdleTimes(cfg, m.idle, clock)
    ensures IdleTimes(cfg, ReleaseConnection(cfg, m, conn, usable, clock).0.idle, clock)
  {
    hide Build;
    var m1 := Open(m).(vended := m.vended - 1, refs := m.refs);
    if usable {
      BecomeIdleKeepsTimes(cfg, m1, conn, clock);
    } else {
      BuildKeepsTimes(cfg, m1, [], [conn], clock);
    }
  }

  lemma GoawayKeepsTimes(cfg: Config, m: Manager, conn: nat, clock: nat)
    requires Unlocked(cfg, m) && IdleTimes(cfg, m.idle, clock)
    ensures IdleTimes(cfg, Goaway(cfg, m, conn).0.idle, clock)
  {
    hide Build;
    RemoveShrinks(m.idle, conn);
    RemoveKeepsTimes(cfg, m.idle, conn, clock);
    var (idle, found) := Remove(m.idle, conn);
    BuildKeepsTimes(cfg, Open(m).(idle := idle), [], if found then [conn] else [], clock);
  }

  lemma ShutdownKeepsTimes(cfg: Config, m: Manager, conn: nat, clock: nat)
    requires Unlocked(cfg, m) && m.open > m.settings && IdleTimes(cfg, m.idle, clock)
    ensures IdleTimes(cfg, ConnectionShutdown(cfg, m, conn).0.idle, clock)
  {
    hide Build;
    RemoveShrinks(m.idle, conn);
    RemoveKeepsTimes(cfg, m.idle, conn, clock);
    var (idle, found) := Remove(m.idle, conn);
    BuildKeepsTimes(cfg, Open(m).(idle := idle, open := m.open - 1, refs := m.refs), [], if found then [conn]
                    else [], clock);
  }

  lemma ReleaseReferenceKeepsTimes(cfg: Config, m: Manager, clock: nat)
    requires Unlocked(cfg, m) && IdleTimes(cfg, m.idle, clock)
    ensures IdleTimes(cfg, ReleaseManager(cfg, m).0.idle, clock)
  {
    hide Build;
    if m.external == 1 {
      BuildKeepsTimes(cfg, Open(m).(external := 0, ready := false), [], [], clock);
    }
  }

  lemma AnswerKeepsTimes(cfg: Config, s: System, c: Call)
    requires Inv(cfg, s) && Allowed(s, c) && Defined(cfg, s.m, c) && IdleTimes(cfg, s.m.idle, s.clock)
    ensures IdleTimes(cfg, Answer(cfg, s.m, s.clock, c).0.idle, s.clock)
  {
    hide Build, ReleaseManager, ReleaseConnection, Goaway, ConnectionSetup, ReadyOrFailed, ConnectionShutdown, Remove;
    match c {
      case Acquire(id) => BuildKeepsTimes(cfg, Open(s.m).(waiting := s.m.waiting + [id]), [], [], s.clock);
      case ReleaseReference => ReleaseReferenceKeepsTimes(cfg, s.m, s.clock);
      case Release(conn, usable) => ReleaseKeepsTimes(cfg, s.m, conn, usable, s.clock);
      case OnGoaway(conn) => GoawayKeepsTimes(cfg, s.m, conn, s.clock);
      case OnSetup(r, usable) => SetupKeepsTimes(cfg, s.m, r, usable, s.clock);
      case OnSettings(conn, error, usable) =>
        ReadyOrFailedKeepsTimes(cfg, s.m, 0, Open(s.m).(settings := s.m.settings - 1), error, [conn], usable, s.clock);
      case OnShutdown(conn) => ShutdownKeepsTimes(cfg, s.m, conn, s.clock);
      case CullIdle(now) =>
    }
  }

  /** Push at the back, pop at the back and removal anywhere keep the idle list sorted by expiry, in every step. */
  lemma StepKeepsTimes(cfg: Config, s: System, e: Event)
    requires Inv(cfg, s) && Enabled(s, e) && StepDefined(cfg, s, e) && IdleTimes(cfg, s.m.idle, s.clock)
    ensures IdleTimes(cfg, Next(cfg, s, e).m.idle, Next(cfg, s, e).clock)
  {
    hide Answer;
    match e {
      case Enter(c) =>
        AnswerOk(cfg, s, c);
        AnswerKeepsTimes(cfg, s, c);
      case _ =>
    }
  }

  // ----- runs

  ghost predicate StepTo(cfg: Config, s: System, e: Event, s': System) {
    Enabled(s, e) && StepDefined(cfg, s, e) && s' == Next(cfg, s, e)
  }

  ghost predicate IsRun(cfg: Config, states: seq<System>, events: seq<Event>) {
    && |states| == |events| + 1
    && Start(cfg, states[0])
    && forall i | 0 <= i < |events| :: StepTo(cfg, states[i], events[i], states[i + 1])
  }

  lemma {:induction false} RunInv(cfg: Config, states: seq<System>, events: seq<Event>, n: nat)
    requires IsRun(cfg, states, events) && n < |states|
    ensures Inv(cfg, states[n]) && IdleTimes(cfg, states[n].m.idle, states[n].clock)
  {
    if n == 0 {
      StartInv(cfg, states[0]);
    } else {
      RunInv(cfg, states, events, n - 1);
      assert StepTo(cfg, states[n - 1], events[n - 1], states[n]);
      StepKeeps(cfg, states[n - 1], events[n - 1]);
      StepKeepsTimes(cfg, states[n - 1], events[n - 1]);
    }
  }

  /** At every point of every run: no work is stranded, and the pool is within its bound. */
  lemma NeverStrands(cfg: Config, states: seq<System>, events: seq<Event>, n: nat)
    requires IsRun(cfg, states, events) && n < |states|
    ensures var m := states[n].m;
            && WithinMax(cfg, m)
            && (m.ready ==> NotStranded(cfg, m))
            && (m.ready && m.waiting != [] && m.connecting + m.settings == 0 ==> m.vended == cfg.maxConnections)
  {
    RunInv(cfg, states, events, n);
  }

  /** Every live transaction has at most one success and nothing beside it, so dispatching it leaves nothing behind. */
  lemma TransactionsWhole(cfg: Config, states: seq<System>, events: seq<Event>, n: nat, k: nat, onThread: nat -> bool)
    requires IsRun(cfg, states, events) && n < |states| && k < |states[n].works|
    ensures WorkOk(states[n].works[k])
    ensures Dispatch(states[n].works[k].completions, onThread) == (states[n].works[k].completions, [])
  {
    RunInv(cfg, states, events, n);
    DispatchIsComplete(states[n].works[k], onThread);
  }

  /**
   * Each acquisition is dispatched at most once, only after it was requested,
   * in no state both waiting and dispatched, and exactly once when nothing is left to do.
   */
  lemma DispatchedOnce(cfg: Config, states: seq<System>, events: seq<Event>, n: nat, id: nat)
    requires IsRun(cfg, states, events) && n < |states|
    ensures var s := states[n];
            && s.dispatched[id] + multiset(s.m.waiting)[id] + Held(s.works)[id] == Bit(id in s.arrivals)
            && (s.works == [] && s.m.waiting == [] ==> s.dispatched[id] == Bit(id in s.arrivals))
  {
    RunInv(cfg, states, events, n);
    var s := states[n];
    MultisetOfDistinct(s.arrivals, id);
    assert multiset(s.taken + s.m.waiting) == multiset(s.taken) + multiset(s.m.waiting);
  }

  /**
   * The reference count equals what it accounts for, so a live transaction keeps
   * the manager alive; when the count is zero everything asserted before
   * destruction holds, and no event but the clock can follow.
   */
  lemma SafeDestruction(cfg: Config, states: seq<System>, events: seq<Event>, n: nat)
    requires IsRun(cfg, states, events) && n < |states|
    ensures var s := states[n];
            && s.m.refs == s.m.vended + s.m.connecting + s.m.open + |s.works| + Bit(s.m.external > 0) + Bit(s.m.culling)
            && (s.m.refs == 0 ==>
                  && s.m.connecting == 0 && s.m.settings == 0 && s.m.vended == 0 && s.m.open == 0
                  && s.m.waiting == [] && s.m.idle == [] && s.inflight == 0
                  && forall e :: Enabled(s, e) ==> e.Tick?)
  {
    RunInv(cfg, states, events, n);
  }

  // ----- the count inside a critical section

  /** How a call changes the count before it builds its transaction, in order. */
  function Before(m: Manager, c: Call): seq<int> {
    match c
    case Release(_, _) => if m.vended > 0 then [1, -1] else [1]
    case OnSetup(r, _) => if r.Failed? then [1, -1] else [1, -1, 1]
    case OnShutdown(_) => [1, -1]
    case _ => [1]
  }

  /** And afterwards: the last external reference is given up at the end. */
  function After(m: Manager, c: Call): seq<int> {
    if c.ReleaseReference? && m.external == 1 then [-1] else []
  }

  function Sum(ds: seq<int>): int {
    if ds == [] then 0 else Sum(ds[..|ds| - 1]) + ds[|ds| - 1]
  }

  lemma BuildGrows(cfg: Config, m: Manager, cs: seq<Completion>, rs: seq<nat>)
    requires BuildAsserts(cfg, m)
    ensures Build(cfg, m, cs, rs).0.refs >= m.refs
  {
  }

  lemma ReadyOrFailedGrows(cfg: Config, m: Manager, error: bool, conn: seq<nat>, usable: bool, now: nat)
    requires |m.idle| + 1 + m.vended + m.connecting + m.settings <= cfg.maxConnections
    requires |conn| <= 1 && (!error ==> |conn| == 1)
    ensures ReadyOrFailed(cfg, m, error, conn, usable, now).0.refs >= m.refs
  {
    hide Build, FailAll;
    if error {
      FailAllEffect(m, m.connecting + m.settings, []);
      var (m1, cs) := FailAll(m, m.connecting + m.settings, []);
      BuildGrows(cfg, m1, cs, conn);
    } else if m.ready && usable {
      BuildGrows(cfg, PushIdle(cfg, m, conn[0], now), [], []);
    } else {
      BuildGrows(cfg, m, [], conn);
    }
  }

  lemma SetupGrows(cfg: Config, m: Manager, r: Setup, usable: bool, now: nat)
    requires WithinMax(cfg, m) && m.connecting > 0
    ensures ConnectionSetup(cfg, m, r, usable, now).0.refs >= m.refs + (if r.Failed? then 0 else 1)
  {
    hide Build, ReadyOrFailed;
    var m1 := m.(connecting := m.connecting - 1);
    var m2 := m1.(open := m1.open + 1, refs := m.refs + 1);
    match r {
      case Failed => ReadyOrFailedGrows(cfg, m1, true, [], usable, now);
      case Http1(conn) => ReadyOrFailedGrows(cfg, m2, false, [conn], usable, now);
      case Http2(_) => BuildGrows(cfg, m2.(settings := m2.settings + 1), [], []);
    }
  }

  lemma RemovalGrows(cfg: Config, m: Manager, conn: nat)
    requires WithinMax(cfg, m)
    ensures Goaway(cfg, m, conn).0.refs >= m.refs + 1
    ensures m.open > 0 ==> ConnectionShutdown(cfg, m, conn).0.refs >= m.refs
  {
    hide Build;
    RemoveShrinks(m.idle, conn);
    var (idle, found) := Remove(m.idle, conn);
    BuildGrows(cfg, Open(m).(idle := idle), [], if found then [conn] else []);
    if m.open > 0 {
      BuildGrows(cfg, Open(m).(idle := idle, open := m.open - 1, refs := m.refs), [], if found then [conn] else []);
    }
  }

  lemma ReleaseGrows(cfg: Config, m: Manager, conn: nat, usable: bool, now: nat)
    requires WithinMax(cfg, m)
    ensures ReleaseConnection(cfg, m, conn, usable, now).0.refs >= m.refs + (if m.vended > 0 then 0 else 1)
  {
    hide Build;
    if m.vended > 0 {
      var m1 := Open(m).(vended := m.vended - 1, refs := m.refs);
      if usable {
        BuildGrows(cfg, PushIdle(cfg, m1, conn, now), [], []);
      } else {
        BuildGrows(cfg, m1, [], [conn]);
      }
    }
  }

  /** Building a transaction only adds to the count. */
  lemma AnswerGrows(cfg: Config, m: Manager, clock: nat, c: Call)
    requires Defined(cfg, m, c)
    ensures Answer(cfg, m, clock, c).0.refs >= m.refs + Sum(Before(m, c)) + Sum(After(m, c))
    ensures forall j | 0 < j <= |Before(m, c)| :: Sum(Before(m, c)[..j]) >= 0
  {
    hide Build, ReleaseConnection, Goaway, ConnectionSetup, ReadyOrFailed, ConnectionShutdown, Expired;
    Sums();
    match c {
      case Acquire(id) => BuildGrows(cfg, Open(m).(waiting := m.waiting + [id]), [], []);
      case ReleaseReference => BuildGrows(cfg, Open(m).(external := 0, ready := false), [], []);
      case Release(conn, usable) => ReleaseGrows(cfg, m, conn, usable, clock);
      case OnGoaway(conn) => RemovalGrows(cfg, m, conn);
      case OnSetup(r, usable) => SetupGrows(cfg, m, r, usable, clock);
      case OnSettings(conn, error, usable) =>
        ReadyOrFailedGrows(cfg, Open(m).(settings := m.settings - 1), error, [conn], usable, clock);
      case OnShutdown(conn) => RemovalGrows(cfg, m, conn);
      case CullIdle(now) =>
    }
    var ds := Before(m, c);
    forall j | 0 < j <= |ds| ensures Sum(ds[..j]) >= 0 {
      assert ds[..j] == [1] || ds[..j] == [1, -1] || ds[..j] == [1, -1, 1];
    }
  }

  lemma Sums()
    ensures Sum([]) == 0 && Sum([1]) == 1 && Sum([-1]) == -1 && Sum([1, -1]) == 0 && Sum([1, -1, 1]) == 1
  {
    assert [1, -1][..1] == [1] && [1, -1, 1][..2] == [1, -1];
  }

  /**
   * In every run the count is never zero under the lock: not before a call builds its transaction, not
   * while it does, which only adds to the count, not at the unlock, and not while the references of
   * connects that failed are given up one by one.
   */
  lemma NeverZeroUnderLock(cfg: Config, states: seq<System>, events: seq<Event>, n: nat, e: Event)
    requires IsRun(cfg, states, events) && n < |states| && Enabled(states[n], e)
    ensures StepDefined(cfg, states[n], e)
    ensures e.Enter? ==>
              var m, c := states[n].m, e.call;
              var unlocked := Answer(cfg, m, states[n].clock, c).0.refs;
              && (forall j | 0 < j <= |Before(m, c)| :: m.refs + Sum(Before(m, c)[..j]) > 0)
              && m.refs + Sum(Before(m, c)) <= unlocked - Sum(After(m, c))
              && unlocked > 0
    ensures e.RetakeLock? ==> states[n].m.refs - states[n].works[e.k].failed > 0
  {
    hide Answer, Next, Sum, IsRun;
    RunInv(cfg, states, events, n);
    StepKeeps(cfg, states[n], e);
    if e.Enter? {
      AnswerOk(cfg, states[n], e.call);
      AnswerGrows(cfg, states[n].m, states[n].clock, e.call);
      assert states[n].m.refs > 0 by { AllowedHolds(cfg, states[n], e.call); }
    }
  }

  /** Whoever may call holds the manager alive. */
  lemma AllowedHolds(cfg: Config, s: System, c: Call)
    requires Inv(cfg, s) && Allowed(s, c)
    ensures s.m.refs > 0
  {
    hide AllOk;
  }

  /** In every run, culling removes exactly the idle connections that have expired. */
  lemma CullingIsExact(cfg: Config, states: seq<System>, events: seq<Event>, n: nat, now: nat)
    requires IsRun(cfg, states, events) && n < |states| && states[n].m.ready
    ensures var m := states[n].m;
            var (m', w) := Cull(m, now);
            var k := |w.releases|;
            && k <= |m.idle| && w.releases == Conns(m.idle[..k]) && m'.idle == m.idle[k..]
            && forall i | 0 <= i < |m.idle| :: i < k <==> m.idle[i].cullAt <= now
  {
    RunInv(cfg, states, events, n);
    CullExact(states[n].m.idle, now);
  }

  /** No run is ever stuck on an assertion: whatever the environment may do, the counters allow. */
  lemma RunNeverAborts(cfg: Config, states: seq<System>, events: seq<Event>, n: nat, e: Event)
    requires IsRun(cfg, states, events) && n < |states| && Enabled(states[n], e)
    ensures exists s' :: StepTo(cfg, states[n], e, s')
  {
    RunInv(cfg, states, events, n);
    StepKeeps(cfg, states[n], e);
    assert StepTo(cfg, states[n], e, Next(cfg, states[n], e));
  }
}
