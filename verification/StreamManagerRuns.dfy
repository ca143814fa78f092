/**
 * The stream manager in its environment: critical sections, request tasks,
 * callbacks and the execution of transactions interleave freely. Each
 * connection asked for is answered once, each stream finishes once, and a
 * connection found unavailable stays unavailable.
 */
module StreamManagerRuns {
  import opened Octets
  import opened Sequences
  import opened StreamManager
  import opened StreamPlacement

  /**
   * `requests` are assigned but not yet made; `streams` holds a connection once
   * per stream on it; `outstanding` counts connections asked for but not
   * answered; `works` are the live transactions, each with the acquisitions it
   * still has to fail; `task` is the finishing task, which fails what is pending at shutdown.
   * `arrivals`, `taken` and `answered` follow acquisitions to their callbacks.
   * `destroys` counts how often the references have reached zero, which begins
   * the destruction; `dipped` says that they did so in a request task, and
   * `outlived` that they did so with the finishing task still to come.
   */
  datatype System = System(
    m: Manager,
    requests: seq<Request>,
    streams: multiset<nat>,
    gone: set<nat>,
    outstanding: nat,
    works: seq<seq<nat>>,
    task: bool,
    arrivals: seq<nat>,
    taken: seq<nat>,
    answered: multiset<nat>,
    destroys: nat,
    dipped: bool,
    outlived: bool)

  datatype Call =
    | Acquire(id: nat)
    | ReleaseLast
    | Acquired(answer: Answer)
    | Finished(conn: nat, available: bool)
    | FinishTask

  datatype Event =
    | Enter(call: Call, draw: Draws)
    | RequestTask(k: nat)
    | FailCallback(k: nat)
    | CloseTransaction(k: nat)

  ghost predicate Start(cfg: Config, s: System) {
    && ValidConfig(cfg)
    && s.m == Manager(true, map[], {}, {}, 0, [], 0, 0, 0, 1, false)
    && s.requests == [] && s.streams == multiset{} && s.gone == {}
    && s.outstanding == 0 && s.works == [] && !s.task
    && s.arrivals == [] && s.taken == [] && s.answered == multiset{}
    && s.destroys == 0 && !s.dipped && !s.outlived
  }

  // ----- critical sections

  /** When the user, the connection manager or the HTTP layer may make a call. */
  predicate Allowed(s: System, c: Call) {
    match c
    case Acquire(id) => s.m.ready && id !in s.arrivals
    case ReleaseLast => s.m.ready
    case Acquired(a) => s.outstanding > 0 && (a.Got? ==> a.conn !in s.m.conns)
    case Finished(conn, available) => conn in s.streams && (available ==> conn !in s.gone)
    case FinishTask => s.task
  }

  /** What the state must satisfy for a section to run without breaking an assertion or a counter. */
  predicate Defined(cfg: Config, m: Manager, c: Call) {
    && Buildable(cfg, m)
    && match c
       case Acquire(_) => true
       case ReleaseLast => m.refs > 0
       case Acquired(_) => m.acquiring > 0 && m.refs >= |m.pending| + 1
       case Finished(conn, _) => conn in m.conns && m.conns[conn].load > 0 && m.opening > 0 && m.holding > 0
       case FinishTask => !m.ready && m.refs >= |m.pending|
  }

  function Section(cfg: Config, m: Manager, c: Call, draw: Draws): (Manager, Work, seq<nat>)
    requires Defined(cfg, m, c) && Fair(draw)
  {
    match c
    case Acquire(id) => var (m', w) := AcquireStream(cfg, m, id, draw); (m', w, [])
    case ReleaseLast => var (m', w) := ReleaseManager(cfg, m, draw); (m', w, [])
    case Acquired(a) => var (m', w, failing, _) := ConnectionAcquired(cfg, m, a, draw); (m', w, failing)
    case Finished(conn, available) => var (m', w) := StreamFinished(cfg, m, conn, available, draw); (m', w, [])
    case FinishTask => FinishPending(cfg, m, draw)
  }

  function Arriving(c: Call): seq<nat> {
    if c.Acquire? then [c.id] else []
  }

  function Ended(c: Call): multiset<nat> {
    if c.Finished? then multiset{c.conn} else multiset{}
  }

  function GoneAfter(gone: set<nat>, c: Call, release: Option<nat>): set<nat> {
    var seen := if c.Finished? && !c.available then gone + {c.conn} else gone;
    if release.Some? then seen - {release.value} else seen
  }

  function Entered(s: System, c: Call, r: (Manager, Work, seq<nat>)): System
    requires Bit(c.Acquired?) <= s.outstanding
  {
    s.(m := r.0,
       requests := s.requests + r.1.made,
       streams := s.streams - Ended(c),
       gone := GoneAfter(s.gone, c, r.1.release),
       outstanding := s.outstanding - Bit(c.Acquired?) + r.1.connects,
       works := s.works + [r.2],
       task := if c.FinishTask? then false else s.task || (!s.m.scheduled && r.0.scheduled),
       arrivals := s.arrivals + Arriving(c),
       taken := s.taken + (r.2 + Ids(r.1.made)))
  }

  // ----- steps

  ghost predicate Enabled(s: System, e: Event) {
    match e
    case Enter(c, draw) => Allowed(s, c) && Fair(draw)
    case RequestTask(k) => k < |s.requests|
    case FailCallback(k) => k < |s.works| && s.works[k] != []
    case CloseTransaction(k) => k < |s.works| && s.works[k] == []
  }

  predicate StepDefined(cfg: Config, s: System, e: Event) {
    match e
    case Enter(c, _) => Defined(cfg, s.m, c)
    case RequestTask(_) => s.m.making > 0
    case FailCallback(_) => true
    case CloseTransaction(_) => s.m.refs > 0
  }

  /** The request task gives up the request's reference before it takes the stream's. */
  function Requested(s: System, k: nat): System
    requires k < |s.requests| && s.m.making > 0
  {
    var r := s.requests[k];
    s.(m := MakeRequest(s.m), requests := s.requests[..k] + s.requests[k + 1..],
       streams := s.streams + multiset{r.conn}, answered := s.answered + multiset{r.id},
       destroys := s.destroys + Bit(s.m.refs == 1), dipped := s.dipped || s.m.refs == 1)
  }

  function Called(s: System, k: nat): System
    requires k < |s.works| && s.works[k] != []
  {
    s.(works := s.works[k := s.works[k][1..]], answered := s.answered + multiset{s.works[k][0]})
  }

  function Closed(s: System, k: nat): System
    requires k < |s.works| && s.m.refs > 0
  {
    s.(m := s.m.(refs := s.m.refs - 1), works := s.works[..k] + s.works[k + 1..],
       destroys := s.destroys + Bit(s.m.refs == 1), outlived := s.outlived || (s.m.refs == 1 && s.task))
  }

  ghost function Next(cfg: Config, s: System, e: Event): System
    requires Enabled(s, e) && StepDefined(cfg, s, e)
  {
    match e
    case Enter(c, draw) => Entered(s, c, Section(cfg, s.m, c, draw))
    case RequestTask(k) => Requested(s, k)
    case FailCallback(k) => Called(s, k)
    case CloseTransaction(k) => Closed(s, k)
  }

  // ----- the acquisitions that live transactions still have to fail

  function Failing(ws: seq<seq<nat>>): multiset<nat> {
    if ws == [] then multiset{} else Failing(ws[..|ws| - 1]) + multiset(ws[|ws| - 1])
  }

  lemma PushFailing(ws: seq<seq<nat>>, w: seq<nat>)
    ensures Failing(ws + [w]) == Failing(ws) + multiset(w)
  {
    assert (ws + [w])[..|ws|] == ws;
  }

  lemma {:induction false} FailingConcat(a: seq<seq<nat>>, b: seq<seq<nat>>)
    ensures Failing(a + b) == Failing(a) + Failing(b)
    decreases |b|
  {
    if b == [] {
      assert a + b == a;
    } else {
      var front := b[..|b| - 1];
      assert a + b == (a + front) + [b[|b| - 1]];
      FailingConcat(a, front);
      PushFailing(a + front, b[|b| - 1]);
    }
  }

  lemma FailingAt(ws: seq<seq<nat>>, k: nat, w: seq<nat>)
    requires k < |ws|
    ensures Failing(ws) == Failing(ws[..k] + ws[k + 1..]) + multiset(ws[k])
    ensures Failing(ws[k := w]) == Failing(ws[..k] + ws[k + 1..]) + multiset(w)
  {
    hide Failing;
    var a, b := ws[..k], ws[k + 1..];
    assert ws == (a + [ws[k]]) + b && ws[k := w] == (a + [w]) + b;
    FailingConcat(a + [ws[k]], b);
    FailingConcat(a + [w], b);
    FailingConcat(a, b);
    PushFailing(a, ws[k]);
    PushFailing(a, w);
  }

  // ----- invariants

  ghost predicate Busy(m: Manager) {
    forall c | c in m.conns :: m.conns[c].load > 0
  }

  ghost predicate BusyExcept(m: Manager, c: nat) {
    forall d | d in m.conns && d != c :: m.conns[d].load > 0
  }

  /** What holds of the connections and the queue at every unlock. */
  ghost predicate Unlocked(cfg: Config, m: Manager, gone: set<nat>, loads: multiset<nat>) {
    && ValidConfig(cfg) && Placed(cfg, m, gone) && Loaded(m, loads) && Busy(m)
    && m.holding == |m.conns| && WithinMax(cfg, m)
    && (m.ready ==> NotStranded(cfg, m))
  }

  /** The references that the counters account for. */
  function Counted(m: Manager): nat {
    |m.pending| + m.acquiring + m.making + m.opening + Bit(m.ready)
  }

  ghost predicate Inv(cfg: Config, s: System) {
    && Unlocked(cfg, s.m, s.gone, Targets(s.requests) + s.streams)
    && Tallied(s)
    && Followed(s)
  }

  /** The counters agree with what is in the environment. */
  ghost predicate Tallied(s: System) {
    && s.m.acquiring == s.outstanding && s.m.making == |s.requests| && s.m.opening == |s.streams|
    && s.m.refs == Counted(s.m) + |s.works|
    && (s.task ==> !s.m.ready && s.m.scheduled)
    && (!s.m.ready && s.m.pending != [] ==> s.task)
    && (s.m.ready ==> !s.m.scheduled)
  }

  /** Acquisitions leave the queue in order, and each is on its way to one callback. */
  ghost predicate Followed(s: System) {
    && s.arrivals == s.taken + s.m.pending
    && multiset(s.taken) == Failing(s.works) + multiset(Ids(s.requests)) + s.answered
    && Distinct(s.arrivals)
  }

  lemma StartInv(cfg: Config, s: System)
    requires Start(cfg, s)
    ensures Inv(cfg, s)
  {
  }

  // ----- what the sections keep of the connections

  lemma BuildUnlocks(cfg: Config, m: Manager, gone: set<nat>, loads: multiset<nat>, draw: Draws)
    requires ValidConfig(cfg) && WithinMax(cfg, m) && Fair(draw) && Placed(cfg, m, gone) && Loaded(m, loads)
    requires Busy(m) && m.holding == |m.conns|
    ensures Buildable(cfg, m)
    ensures var (m', w) := Build(cfg, m, draw);
            Unlocked(cfg, m', gone, loads + Targets(w.made)) && w.release == None
  {
    hide Build, Placed, Loaded, NotStranded;
    BuildPlaces(cfg, m, gone, loads, draw);
    BuildFrame(cfg, m, draw);
    var m' := Build(cfg, m, draw).0;
    assert |m'.conns| == |m'.conns.Keys|;
  }

  /** As above for a state in which connection `c` may have no stream yet. */
  lemma BuildUnlocksOthers(cfg: Config, m: Manager, gone: set<nat>, loads: multiset<nat>, draw: Draws, c: nat)
    requires ValidConfig(cfg) && WithinMax(cfg, m) && Fair(draw) && Placed(cfg, m, gone) && Loaded(m, loads)
    requires BusyExcept(m, c) && m.holding == |m.conns| && c in m.conns
    ensures Buildable(cfg, m)
    ensures var (m', w) := Build(cfg, m, draw);
            && Placed(cfg, m', gone) && Loaded(m', loads + Targets(w.made)) && BusyExcept(m', c)
            && m'.holding == |m'.conns| && WithinMax(cfg, m') && w.release == None && c in m'.conns
            && (m'.ready ==> NotStranded(cfg, m'))
            && (m'.conns[c].load > 0 ==> Unlocked(cfg, m', gone, loads + Targets(w.made)))
  {
    hide Build, Placed, Loaded, NotStranded;
    BuildPlaces(cfg, m, gone, loads, draw);
    BuildFrame(cfg, m, draw);
    var m' := Build(cfg, m, draw).0;
    assert |m'.conns| == |m'.conns.Keys|;
  }

  /** A change that leaves the connections, the sets and the number held alone. */
  lemma StillUnlocked(cfg: Config, m: Manager, m': Manager, gone: set<nat>, loads: multiset<nat>)
    requires Unlocked(cfg, m, gone, loads)
    requires m'.conns == m.conns && m'.ideal == m.ideal && m'.nonideal == m.nonideal && m'.holding == m.holding
    requires m'.acquiring <= m.acquiring
    ensures Placed(cfg, m', gone) && Loaded(m', loads) && Busy(m') && m'.holding == |m'.conns| && WithinMax(cfg, m')
    ensures Drawable(m)
  {
    SameConnections(cfg, m, m', gone, loads);
  }

  lemma PlainUnlocks(cfg: Config, m: Manager, m1: Manager, gone: set<nat>, loads: multiset<nat>, draw: Draws)
    requires Unlocked(cfg, m, gone, loads) && Fair(draw)
    requires m1.conns == m.conns && m1.ideal == m.ideal && m1.nonideal == m.nonideal && m1.holding == m.holding
    requires m1.acquiring <= m.acquiring
    ensures Buildable(cfg, m) && Buildable(cfg, m1)
    ensures var (m', w) := Build(cfg, m1, draw);
            Unlocked(cfg, m', gone, loads + Targets(w.made)) && w.release == None
  {
    hide Build, Unlocked;
    assert ValidConfig(cfg) && WithinMax(cfg, m) by { UnlockedBasics(cfg, m, gone, loads); }
    StillUnlocked(cfg, m, m1, gone, loads);
    BuildUnlocks(cfg, m1, gone, loads, draw);
  }

  lemma UnlockedBasics(cfg: Config, m: Manager, gone: set<nat>, loads: multiset<nat>)
    requires Unlocked(cfg, m, gone, loads)
    ensures ValidConfig(cfg) && WithinMax(cfg, m) && Drawable(m) && Buildable(cfg, m)
  {
  }

  lemma ReleaseUnlocks(cfg: Config, m: Manager, gone: set<nat>, loads: multiset<nat>, draw: Draws)
    requires Unlocked(cfg, m, gone, loads) && Fair(draw) && m.refs > 0
    ensures Buildable(cfg, m)
    ensures var (m', w) := ReleaseManager(cfg, m, draw);
            Unlocked(cfg, m', gone, loads + Targets(w.made)) && w.release == None
  {
    hide Build, Unlocked;
    var m1 := Open(m).(ready := false);
    PlainUnlocks(cfg, m, m1, gone, loads, draw);
    BuildFrame(cfg, m1, draw);
    var (m2, w) := Build(cfg, m1, draw);
    RefsDoNotMatter(cfg, m2, m2.(refs := m2.refs - 1), gone, loads + Targets(w.made));
  }

  lemma RefsDoNotMatter(cfg: Config, m: Manager, m': Manager, gone: set<nat>, loads: multiset<nat>)
    requires Unlocked(cfg, m, gone, loads) && m' == m.(refs := m'.refs, making := m'.making, opening := m'.opening)
    ensures Unlocked(cfg, m', gone, loads)
  {
    SameConnections(cfg, m, m', gone, loads);
  }

  lemma FreshConnOk(cfg: Config, remote: nat)
    requires ValidConfig(cfg)
    ensures ConnOk(cfg, Conn(0, Min(cfg.maxStreams, remote), Ideal), false, true, false)
  {
  }

  lemma HoldKeepsPlaced(cfg: Config, m: Manager, gone: set<nat>, c: nat, remote: nat)
    requires ValidConfig(cfg) && Placed(cfg, m, gone) && c !in m.conns
    ensures Placed(cfg, Hold(cfg, m, c, remote), gone)
  {
    hide ConnOk, Min;
    FreshConnOk(cfg, remote);
    var m1 := Hold(cfg, m, c, remote);
    forall d | d in m1.conns ensures ConnOk(cfg, m1.conns[d], d in gone, d in m1.ideal, d in m1.nonideal) {
      if d != c {
        assert ConnOk(cfg, m.conns[d], d in gone, d in m.ideal, d in m.nonideal);
      }
    }
  }

  lemma HoldPlaces(cfg: Config, m: Manager, gone: set<nat>, loads: multiset<nat>, c: nat, remote: nat)
    requires Unlocked(cfg, m, gone, loads) && c !in m.conns && m.acquiring > 0
    ensures var m1 := Hold(cfg, m.(acquiring := m.acquiring - 1), c, remote);
            && Placed(cfg, m1, gone) && Loaded(m1, loads) && BusyExcept(m1, c) && WithinMax(cfg, m1)
            && m1.holding == |m1.conns| && c in m1.conns
  {
    hide NotStranded, Placed, Min;
    var m0 := m.(acquiring := m.acquiring - 1);
    SameConnections(cfg, m, m0, gone, loads);
    HoldKeepsPlaced(cfg, m0, gone, c, remote);
    assert loads[c] == 0;
    var m1 := Hold(cfg, m0, c, remote);
    assert m1.conns.Keys == m.conns.Keys + {c} && |m1.conns| == |m1.conns.Keys| && |m.conns| == |m.conns.Keys|;
  }

  lemma HoldUnlocks(cfg: Config, m: Manager, m1: Manager, gone: set<nat>, loads: multiset<nat>, c: nat, remote: nat,
                    draw: Draws)
    requires Unlocked(cfg, m, gone, loads) && Fair(draw) && c !in m.conns && m.acquiring > 0
    requires m.ready && m.pending != []
    requires m1 == Hold(cfg, m.(acquiring := m.acquiring - 1, refs := m1.refs), c, remote)
    ensures Buildable(cfg, m) && Buildable(cfg, m1)
    ensures var (m', w) := Build(cfg, m1, draw);
            Unlocked(cfg, m', gone, loads + Targets(w.made)) && w.release == None
  {
    hide Build, Placed, Loaded;
    UnlockedBasics(cfg, m, gone, loads);
    HoldPlaces(cfg, m, gone, loads, c, remote);
    SameConnections(cfg, Hold(cfg, m.(acquiring := m.acquiring - 1), c, remote), m1, gone, loads);
    assert m1.ideal == {c};
    BuildUnlocksOthers(cfg, m1, gone, loads, draw, c);
    BuildUsesFresh(cfg, m1, gone, loads, draw, c);
  }

  lemma AcquiredUnlocks(cfg: Config, m: Manager, gone: set<nat>, loads: multiset<nat>, a: Answer, draw: Draws)
    requires Unlocked(cfg, m, gone, loads) && Fair(draw) && m.acquiring > 0 && m.refs >= |m.pending| + 1
    requires a.Got? ==> a.conn !in m.conns
    ensures Buildable(cfg, m)
    ensures var (m', w, _, _) := ConnectionAcquired(cfg, m, a, draw);
            Unlocked(cfg, m', gone, loads + Targets(w.made)) && w.release == None
  {
    hide Build, Unlocked, Unfit;
    UnlockedBasics(cfg, m, gone, loads);
    var m1 := Open(m).(acquiring := m.acquiring - 1, refs := m.refs);
    if !a.Got? {
      PlainUnlocks(cfg, m, FailUnfit(cfg, m1).0, gone, loads, draw);
    } else if !m.ready || m.pending == [] {
      PlainUnlocks(cfg, m, m1, gone, loads, draw);
    } else {
      HoldUnlocks(cfg, m, Hold(cfg, m1, a.conn, a.remoteLimit), gone, loads, a.conn, a.remoteLimit, draw);
    }
  }

  // ----- a finished stream

  lemma UnassignConn(cfg: Config, m: Manager, gone: set<nat>, c: nat, available: bool)
    requires ValidConfig(cfg) && Placed(cfg, m, gone) && c in m.conns && m.conns[c].load > 0 &&
             (available ==> c !in gone)
    ensures var m1 := Unassign(cfg, m, c, available);
            && m1.conns.Keys == m.conns.Keys && m1.conns[c].load == m.conns[c].load - 1
            && ConnOk(cfg, m1.conns[c], !available, c in m1.ideal, c in m1.nonideal)
  {
    assert ConnOk(cfg, m.conns[c], c in gone, c in m.ideal, c in m.nonideal);
  }

  lemma UnassignFrame(cfg: Config, m: Manager, c: nat, available: bool, d: nat)
    requires c in m.conns && m.conns[c].load > 0 && d in m.conns && d != c
    ensures var m1 := Unassign(cfg, m, c, available);
            && m1.conns[d] == m.conns[d] && (d in m1.ideal <==> d in m.ideal) && (d in m1.nonideal <==> d in m.nonideal)
  {
  }

  lemma UnassignSets(cfg: Config, m: Manager, c: nat, available: bool)
    requires c in m.conns && m.conns[c].load > 0
    ensures var m1 := Unassign(cfg, m, c, available);
            && m1.ideal <= m.ideal + {c} && m1.nonideal <= m.nonideal + {c}
            && m1 == m.(conns := m1.conns, ideal := m1.ideal, nonideal := m1.nonideal)
  {
  }

  function GoneOnce(gone: set<nat>, c: nat, available: bool): set<nat> {
    if available then gone else gone + {c}
  }

  lemma UnassignPlaces(cfg: Config, m: Manager, gone: set<nat>, c: nat, available: bool)
    requires ValidConfig(cfg) && Placed(cfg, m, gone) && c in m.conns && m.conns[c].load > 0 &&
             (available ==> c !in gone)
    ensures var m1 := Unassign(cfg, m, c, available);
            Placed(cfg, m1, GoneOnce(gone, c, available)) && m1.conns.Keys == m.conns.Keys
  {
    hide Unassign, ConnOk;
    UnassignConn(cfg, m, gone, c, available);
    UnassignSets(cfg, m, c, available);
    var m1 := Unassign(cfg, m, c, available);
    forall d | d in m1.conns
      ensures ConnOk(cfg, m1.conns[d], d in GoneOnce(gone, c, available), d in m1.ideal, d in m1.nonideal)
    {
      if d != c {
        UnassignFrame(cfg, m, c, available, d);
        assert ConnOk(cfg, m.conns[d], d in gone, d in m.ideal, d in m.nonideal);
      }
    }
  }

  lemma UnassignLoads(cfg: Config, m: Manager, gone: set<nat>, loads: multiset<nat>, c: nat, available: bool)
    requires ValidConfig(cfg) && Placed(cfg, m, gone) && Loaded(m, loads) && Busy(m)
    requires c in m.conns && m.conns[c].load > 0 && (available ==> c !in gone)
    ensures var m1 := Unassign(cfg, m, c, available);
            Loaded(m1, loads - multiset{c}) && BusyExcept(m1, c)
  {
    hide Unassign, ConnOk;
    UnassignConn(cfg, m, gone, c, available);
    var m1 := Unassign(cfg, m, c, available);
    forall d | d in m1.conns ensures m1.conns[d].load == (loads - multiset{c})[d] && (d != c ==> m1.conns[d].load > 0) {
      if d != c {
        UnassignFrame(cfg, m, c, available, d);
      }
    }
  }

  /** Giving back a connection that has no stream. */
  lemma GiveBackUnlocks(cfg: Config, m: Manager, gone: set<nat>, loads: multiset<nat>, w: Work, c: nat)
    requires ValidConfig(cfg) && WithinMax(cfg, m) && Placed(cfg, m, gone) && Loaded(m, loads) && BusyExcept(m, c)
    requires c in m.conns && m.conns[c].load == 0 && m.holding == |m.conns| && m.holding > 0
    requires m.ready ==> NotStranded(cfg, m)
    ensures var (m', w') := GiveBack(cfg, m, w, c);
            Unlocked(cfg, m', gone - {c}, loads) && w'.made == w.made && w'.release == Some(c)
  {
    hide Ceil, Needed, Placed, Loaded;
    assert c !in m.nonideal by { UnusedIsIdeal(cfg, m, gone, c); }
    var m1 := m.(conns := m.conns - {c}, ideal := m.ideal - {c}, holding := m.holding - 1);
    assert m1.conns.Keys == m.conns.Keys - {c} && |m1.conns| == |m1.conns.Keys| && |m.conns| == |m.conns.Keys|;
    RemovePlaces(cfg, m, gone, loads, c);
    if m.ready {
      AskSuffices(cfg, m1);
      SameConnections(cfg, m1, Ask(cfg, m1).0, gone - {c}, loads);
    }
  }

  lemma UnusedIsIdeal(cfg: Config, m: Manager, gone: set<nat>, c: nat)
    requires ValidConfig(cfg) && Placed(cfg, m, gone) && c in m.conns && m.conns[c].load == 0
    ensures c !in m.nonideal
  {
    assert ConnOk(cfg, m.conns[c], c in gone, c in m.ideal, c in m.nonideal);
  }

  lemma RemovePlaces(cfg: Config, m: Manager, gone: set<nat>, loads: multiset<nat>, c: nat)
    requires Placed(cfg, m, gone) && Loaded(m, loads) && BusyExcept(m, c)
    requires c in m.conns && m.conns[c].load == 0 && c !in m.nonideal
    ensures var m1 := m.(conns := m.conns - {c}, ideal := m.ideal - {c},
                         holding := if m.holding > 0 then m.holding - 1 else 0);
            Placed(cfg, m1, gone - {c}) && Loaded(m1, loads) && Busy(m1)
  {
    hide ConnOk;
    assert loads[c] == 0;
    var m1 := m.(conns := m.conns - {c}, ideal := m.ideal - {c}, holding := if m.holding > 0 then m.holding - 1 else 0);
    forall d | d in m1.conns ensures ConnOk(cfg, m1.conns[d], d in gone - {c}, d in m1.ideal, d in m1.nonideal) {
      assert d in m.conns && d != c;
      assert ConnOk(cfg, m.conns[d], d in gone, d in m.ideal, d in m.nonideal);
    }
  }

  /** The state in which a finished stream's transaction is built. */
  function AfterStream(cfg: Config, m: Manager, c: nat, available: bool): Manager
    requires c in m.conns && m.conns[c].load > 0 && m.opening > 0
  {
    Unassign(cfg, Open(m).(opening := m.opening - 1, refs := m.refs), c, available)
  }

  lemma AfterStreamOk(cfg: Config, m: Manager, gone: set<nat>, loads: multiset<nat>, c: nat, available: bool)
    requires Unlocked(cfg, m, gone, loads) && c in m.conns && m.opening > 0 && (available ==> c !in gone)
    ensures m.conns[c].load > 0
    ensures var m1 := AfterStream(cfg, m, c, available);
            && Placed(cfg, m1, GoneOnce(gone, c, available)) && Loaded(m1, loads - multiset{c}) && BusyExcept(m1, c)
            && WithinMax(cfg, m1) && m1.holding == |m1.conns| && c in m1.conns && m1.holding > 0
            && m1.ready == m.ready && m1.pending == m.pending && m1.acquiring == m.acquiring && m1.holding == m.holding
            && m1.making == m.making && m1.opening == m.opening - 1 && m1.refs == m.refs && m1.scheduled == m.scheduled
  {
    hide Unassign, ConnOk, NotStranded;
    var m0 := Open(m).(opening := m.opening - 1, refs := m.refs);
    SameConnections(cfg, m, m0, gone, loads);
    UnassignPlaces(cfg, m0, gone, c, available);
    UnassignLoads(cfg, m0, gone, loads, c, available);
    UnassignSets(cfg, m0, c, available);
    var m1 := AfterStream(cfg, m, c, available);
    assert |m1.conns| == |m1.conns.Keys| && |m.conns| == |m.conns.Keys| && c in m.conns.Keys;
  }

  /**
   * When a finished stream leads to a transaction, its first check for new
   * connections asks for none: so the second check overwrites nothing.
   */
  lemma FirstCheckAsksNothing(cfg: Config, m: Manager, gone: set<nat>, loads: multiset<nat>, c: nat, available: bool,
                              draw: Draws)
    requires Unlocked(cfg, m, gone, loads) && c in m.conns && m.opening > 0 && (available ==> c !in gone) && Fair(draw)
    ensures m.conns[c].load > 0 && Buildable(cfg, AfterStream(cfg, m, c, available))
    ensures Build(cfg, AfterStream(cfg, m, c, available), draw).1.connects == 0
  {
    hide AfterStream, PlaceAll, Ask, Placed, Loaded, NotStranded;
    AfterStreamOk(cfg, m, gone, loads, c, available);
    var m1 := AfterStream(cfg, m, c, available);
    assert Drawable(m1) by { PlacedDrawable(cfg, m1, GoneOnce(gone, c, available)); }
    if m.ready {
      PlaceAllFrame(cfg, m1, draw, []);
      var m2 := PlaceAll(cfg, m1, draw, []).0;
      assert |m2.pending| <= |m1.pending| by {
        PlaceAllTakesFront(cfg, m1, draw, []);
      }
      AskNothing(cfg, m, m2);
    }
  }

  lemma FinishedUnlocks(cfg: Config, m: Manager, gone: set<nat>, loads: multiset<nat>, c: nat, available: bool,
                        draw: Draws)
    requires Unlocked(cfg, m, gone, loads) && c in m.conns && m.opening > 0 && (available ==> c !in gone) && Fair(draw)
    ensures Defined(cfg, m, Finished(c, available))
    ensures var (m', w) := StreamFinished(cfg, m, c, available, draw);
            Unlocked(cfg, m', GoneAfter(gone, Finished(c, available), w.release), loads - multiset{c} + Targets(w.made))
  {
    hide Build, GiveBack, Unassign, Placed, Loaded, NotStranded, Targets;
    AfterStreamOk(cfg, m, gone, loads, c, available);
    UnlockedBasics(cfg, m, gone, loads);
    var m1, gone1 := AfterStream(cfg, m, c, available), GoneOnce(gone, c, available);
    BuildUnlocksOthers(cfg, m1, gone1, loads - multiset{c}, draw, c);
    BuildFrame(cfg, m1, draw);
    var (m2, w) := Build(cfg, m1, draw);
    if m2.conns[c].load == 0 {
      GiveBackUnlocks(cfg, m2, gone1, loads - multiset{c} + Targets(w.made), w, c);
    }
  }

  // ----- what the sections keep of the counters and the queue

  /** What a section does to the counters and the queue, whatever happens to the connections. */
  ghost predicate Moves(m: Manager, c: Call, r: (Manager, Work, seq<nat>)) {
    && r.0.ready == (m.ready && !c.ReleaseLast?)
    && r.0.acquiring + Bit(c.Acquired?) == m.acquiring + r.1.connects
    && r.0.making == m.making + |r.1.made|
    && r.0.opening + Bit(c.Finished?) == m.opening
    && r.0.refs - Counted(r.0) == m.refs - Counted(m) + 1
    && m.pending + Arriving(c) == (r.2 + Ids(r.1.made)) + r.0.pending
    && r.0.scheduled == (m.scheduled || (!r.0.ready && !c.FinishTask? && r.0.pending != []))
    && (c.FinishTask? ==> r.0.pending == [])
  }

  /** A section that prepares state `m1`, takes `failing` out of the queue and builds its transaction. */
  ghost predicate Prepares(m: Manager, c: Call, m1: Manager, failing: seq<nat>) {
    && m1.ready == (m.ready && !c.ReleaseLast?) && m1.scheduled == m.scheduled
    && m1.acquiring + Bit(c.Acquired?) == m.acquiring && m1.making == m.making
    && m1.opening + Bit(c.Finished?) == m.opening
    && m1.refs - Counted(m1) == m.refs - Counted(m) + 1
    && m.pending + Arriving(c) == failing + m1.pending
    && (c.FinishTask? ==> m1.pending == [] && !m1.ready)
  }

  lemma BuildMoves(cfg: Config, m: Manager, c: Call, m1: Manager, failing: seq<nat>, draw: Draws)
    requires Buildable(cfg, m1) && Fair(draw) && Prepares(m, c, m1, failing) && (m.ready ==> !m.scheduled)
    ensures var (m', w) := Build(cfg, m1, draw);
            Moves(m, c, (m', w, failing))
  {
    hide Build, Ids;
    BuildFrame(cfg, m1, draw);
    BuildTakesFront(cfg, m1, draw);
    var (m', w) := Build(cfg, m1, draw);
    Regroup(failing, Ids(w.made), m'.pending);
    if m1.ready {
      BuildKeepsScheduled(cfg, m1, draw);
    } else {
      NoIds();
    }
  }

  lemma NoIds()
    ensures Ids([]) == []
  {
  }

  lemma BuildKeepsScheduled(cfg: Config, m: Manager, draw: Draws)
    requires Buildable(cfg, m) && Fair(draw) && m.ready
    ensures Build(cfg, m, draw).0.scheduled == m.scheduled
  {
    hide PlaceAll;
    PlaceAllFrame(cfg, m, draw, []);
  }

  lemma AcquireMoves(cfg: Config, m: Manager, id: nat, draw: Draws)
    requires Buildable(cfg, m) && Fair(draw) && (m.ready ==> !m.scheduled)
    ensures var (m', w) := AcquireStream(cfg, m, id, draw); Moves(m, Acquire(id), (m', w, []))
  {
    hide Build, Moves;
    var m1 := Open(m).(pending := m.pending + [id], refs := m.refs + 2);
    assert m.pending + [id] == [] + (m.pending + [id]);
    BuildMoves(cfg, m, Acquire(id), m1, [], draw);
  }

  lemma ReleaseMoves(cfg: Config, m: Manager, draw: Draws)
    requires Buildable(cfg, m) && Fair(draw) && m.ready && !m.scheduled && m.refs > 0
    ensures var (m', w) := ReleaseManager(cfg, m, draw); Moves(m, ReleaseLast, (m', w, []))
  {
    hide Build;
    var m1 := Open(m).(ready := false);
    BuildFrame(cfg, m1, draw);
    assert m.pending + [] == ([] + []) + m.pending;
    NoIds();
  }

  lemma FinishTaskMoves(cfg: Config, m: Manager, draw: Draws)
    requires Buildable(cfg, m) && Fair(draw) && !m.ready && m.refs >= |m.pending|
    ensures Moves(m, FinishTask, FinishPending(cfg, m, draw))
  {
    hide Build, Moves;
    var m1 := Open(m).(pending := [], refs := m.refs + 1 - |m.pending|);
    assert m.pending + [] == m.pending + m1.pending;
    BuildMoves(cfg, m, FinishTask, m1, m.pending, draw);
  }

  lemma FailUnfitPrepares(cfg: Config, m: Manager, m1: Manager, a: Answer)
    requires m.acquiring > 0 && m.refs >= |m.pending| + 1 &&
             m1 == Open(m).(acquiring := m.acquiring - 1, refs := m.refs)
    ensures var (m2, failing) := FailUnfit(cfg, m1);
            Prepares(m, Acquired(a), m2, failing)
  {
    hide Unfit;
    var n := Unfit(cfg, m1);
    assert m.pending + [] == m.pending[..n] + m.pending[n..];
  }

  lemma AcquiredMoves(cfg: Config, m: Manager, a: Answer, draw: Draws)
    requires Buildable(cfg, m) && Fair(draw) && m.acquiring > 0 && m.refs >= |m.pending| + 1 &&
             (m.ready ==> !m.scheduled)
    ensures var (m', w, failing, _) := ConnectionAcquired(cfg, m, a, draw);
            Moves(m, Acquired(a), (m', w, failing))
  {
    hide Build, Moves, FailUnfit;
    var m1 := Open(m).(acquiring := m.acquiring - 1, refs := m.refs);
    assert m.pending + [] == [] + m.pending;
    if !a.Got? {
      FailUnfitPrepares(cfg, m, m1, a);
      var (m2, failing) := FailUnfit(cfg, m1);
      FailUnfitBuildable(cfg, m1);
      BuildMoves(cfg, m, Acquired(a), m2, failing, draw);
    } else if !m.ready || m.pending == [] {
      BuildMoves(cfg, m, Acquired(a), m1, [], draw);
    } else {
      HoldBuildable(cfg, m, m1, a.conn, a.remoteLimit);
      BuildMoves(cfg, m, Acquired(a), Hold(cfg, m1, a.conn, a.remoteLimit), [], draw);
    }
  }

  lemma HoldBuildable(cfg: Config, m: Manager, m1: Manager, c: nat, remote: nat)
    requires Buildable(cfg, m) && m.acquiring > 0 && m1 == Open(m).(acquiring := m.acquiring - 1, refs := m.refs)
    ensures Buildable(cfg, Hold(cfg, m1, c, remote))
  {
    assert Hold(cfg, m1, c, remote).conns.Keys == m.conns.Keys + {c};
  }

  lemma GiveBackMoves(cfg: Config, m: Manager, c: Call, m2: Manager, w: Work, conn: nat)
    requires ValidConfig(cfg) && WithinMax(cfg, m2) && m2.holding > 0
    requires Moves(m, c, (m2, w, [])) && w.connects == 0
    ensures var (m', w') := GiveBack(cfg, m2, w, conn); Moves(m, c, (m', w', []))
  {
    hide Needed, Ids;
  }

  lemma FinishedMoves(cfg: Config, m: Manager, gone: set<nat>, loads: multiset<nat>, c: nat, available: bool,
                      draw: Draws)
    requires Unlocked(cfg, m, gone, loads) && c in m.conns && m.opening > 0 && (available ==> c !in gone) && Fair(draw)
    requires m.ready ==> !m.scheduled
    ensures Defined(cfg, m, Finished(c, available))
    ensures var (m', w) := StreamFinished(cfg, m, c, available, draw);
            Moves(m, Finished(c, available), (m', w, []))
  {
    hide Build, GiveBack, Unassign, Placed, Loaded, NotStranded, Moves;
    AfterStreamOk(cfg, m, gone, loads, c, available);
    UnlockedBasics(cfg, m, gone, loads);
    FirstCheckAsksNothing(cfg, m, gone, loads, c, available, draw);
    var m1 := AfterStream(cfg, m, c, available);
    assert m.pending + [] == [] + m.pending;
    BuildMoves(cfg, m, Finished(c, available), m1, [], draw);
    BuildFrame(cfg, m1, draw);
    var (m2, w) := Build(cfg, m1, draw);
    if m2.conns[c].load == 0 {
      GiveBackMoves(cfg, m, Finished(c, available), m2, w, c);
    }
  }

  // ----- every step keeps the invariant

  lemma LoadedStreams(s: System, c: nat)
    requires Loaded(s.m, Targets(s.requests) + s.streams) && Busy(s.m) && c in s.streams
    requires s.m.opening == |s.streams|
    ensures c in s.m.conns && s.m.conns[c].load > 0 && s.m.opening > 0
  {
    assert c in Targets(s.requests) + s.streams;
    assert multiset{c} <= s.streams && |s.streams - multiset{c}| == |s.streams| - 1;
  }

  lemma SectionOk(cfg: Config, s: System, c: Call, draw: Draws)
    requires Inv(cfg, s) && Allowed(s, c) && Fair(draw)
    ensures Defined(cfg, s.m, c)
    ensures var r := Section(cfg, s.m, c, draw);
            && Moves(s.m, c, r)
            && Unlocked(cfg, r.0, GoneAfter(s.gone, c, r.1.release),
                        (Targets(s.requests) + s.streams) - Ended(c) + Targets(r.1.made))
  {
    hide Unlocked, Moves, Targets, Followed, AcquireStream, ReleaseManager, ConnectionAcquired, StreamFinished,
         FinishPending;
    var loads := Targets(s.requests) + s.streams;
    UnlockedBasics(cfg, s.m, s.gone, loads);
    assert loads - multiset{} == loads;
    match c {
      case Acquire(id) =>
        AcquireMoves(cfg, s.m, id, draw);
        AcquireUnlocks(cfg, s.m, s.gone, loads, id, draw);
      case ReleaseLast =>
        ReleaseMoves(cfg, s.m, draw);
        ReleaseUnlocks(cfg, s.m, s.gone, loads, draw);
      case Acquired(a) =>
        AcquiredMoves(cfg, s.m, a, draw);
        AcquiredUnlocks(cfg, s.m, s.gone, loads, a, draw);
      case Finished(conn, available) =>
        assert Loaded(s.m, loads) && Busy(s.m) by { UnlockedLoads(cfg, s.m, s.gone, loads); }
        LoadedStreams(s, conn);
        FinishedMoves(cfg, s.m, s.gone, loads, conn, available, draw);
        FinishedUnlocks(cfg, s.m, s.gone, loads, conn, available, draw);
      case FinishTask =>
        FinishTaskMoves(cfg, s.m, draw);
        FinishTaskUnlocks(cfg, s.m, s.gone, loads, draw);
    }
  }

  lemma UnlockedLoads(cfg: Config, m: Manager, gone: set<nat>, loads: multiset<nat>)
    requires Unlocked(cfg, m, gone, loads)
    ensures Loaded(m, loads) && Busy(m)
  {
  }

  lemma AcquireUnlocks(cfg: Config, m: Manager, gone: set<nat>, loads: multiset<nat>, id: nat, draw: Draws)
    requires Unlocked(cfg, m, gone, loads) && Fair(draw)
    ensures Buildable(cfg, m)
    ensures var (m', w) := AcquireStream(cfg, m, id, draw);
            Unlocked(cfg, m', gone, loads + Targets(w.made)) && w.release == None
  {
    hide Build, Unlocked;
    PlainUnlocks(cfg, m, Open(m).(pending := m.pending + [id], refs := m.refs + 2), gone, loads, draw);
  }

  lemma FinishTaskUnlocks(cfg: Config, m: Manager, gone: set<nat>, loads: multiset<nat>, draw: Draws)
    requires Unlocked(cfg, m, gone, loads) && Fair(draw) && m.refs >= |m.pending|
    ensures Buildable(cfg, m)
    ensures var (m', w, _) := FinishPending(cfg, m, draw);
            Unlocked(cfg, m', gone, loads + Targets(w.made)) && w.release == None
  {
    hide Build, Unlocked;
    PlainUnlocks(cfg, m, Open(m).(pending := [], refs := m.refs + 1 - |m.pending|), gone, loads, draw);
  }

  lemma EnterTallied(cfg: Config, s: System, c: Call, r: (Manager, Work, seq<nat>))
    requires Tallied(s) && Allowed(s, c) && Moves(s.m, c, r)
    ensures Bit(c.Acquired?) <= s.outstanding && Tallied(Entered(s, c, r))
  {
    hide Ids;
    if c.Finished? {
      assert multiset{c.conn} <= s.streams && |s.streams - multiset{c.conn}| == |s.streams| - 1;
    } else {
      assert s.streams - multiset{} == s.streams;
    }
    assert !r.0.ready && r.0.pending != [] && !c.FinishTask? && !s.m.ready ==> s.m.pending != [];
  }

  lemma Leave(taken: seq<nat>, pending: seq<nat>, arriving: seq<nat>, ids: seq<nat>, left: seq<nat>)
    requires pending + arriving == ids + left
    ensures (taken + pending) + arriving == (taken + ids) + left
    ensures multiset(taken + ids) == multiset(taken) + multiset(ids)
  {
    Regroup(taken, pending, arriving);
    Regroup(taken, ids, left);
  }

  lemma EnterFollowed(s: System, c: Call, r: (Manager, Work, seq<nat>))
    requires Followed(s) && Allowed(s, c) && Moves(s.m, c, r) && Bit(c.Acquired?) <= s.outstanding
    ensures Followed(Entered(s, c, r))
  {
    hide Ids, Failing;
    DistinctPush(s.arrivals, Arriving(c));
    PushFailing(s.works, r.2);
    var ids := Ids(r.1.made);
    Leave(s.taken, s.m.pending, Arriving(c), r.2 + ids, r.0.pending);
    IdsConcat(s.requests, r.1.made);
    assert multiset(Ids(s.requests) + ids) == multiset(Ids(s.requests)) + multiset(ids);
    assert multiset(r.2 + ids) == multiset(r.2) + multiset(ids);
  }

  lemma LoadsAfter(before: multiset<nat>, streams: multiset<nat>, ended: multiset<nat>, made: multiset<nat>)
    requires ended <= streams
    ensures (before + streams) - ended + made == (before + made) + (streams - ended)
  {
  }

  lemma EnterKeeps(cfg: Config, s: System, c: Call, draw: Draws)
    requires Inv(cfg, s) && Allowed(s, c) && Fair(draw)
    ensures Defined(cfg, s.m, c) && Bit(c.Acquired?) <= s.outstanding
    ensures Inv(cfg, Entered(s, c, Section(cfg, s.m, c, draw)))
  {
    hide Section, Unlocked, Moves, Tallied, Followed, Targets;
    SectionOk(cfg, s, c, draw);
    var r := Section(cfg, s.m, c, draw);
    EnterTallied(cfg, s, c, r);
    EnterFollowed(s, c, r);
    TargetsConcat(s.requests, r.1.made);
    LoadsAfter(Targets(s.requests), s.streams, Ended(c), Targets(r.1.made));
  }

  lemma RequestKeeps(cfg: Config, s: System, k: nat)
    requires Inv(cfg, s) && k < |s.requests|
    ensures s.m.making > 0 && Inv(cfg, Requested(s, k))
  {
    hide Unlocked, Targets, Ids;
    RemoveRequest(s.requests, k);
    var r, others := s.requests[k], s.requests[..k] + s.requests[k + 1..];
    var loads := Targets(s.requests) + s.streams;
    assert Targets(others) + (s.streams + multiset{r.conn}) == loads;
    RefsDoNotMatter(cfg, s.m, MakeRequest(s.m), s.gone, loads);
  }

  lemma CallbackKeeps(cfg: Config, s: System, k: nat)
    requires Inv(cfg, s) && k < |s.works| && s.works[k] != []
    ensures Inv(cfg, Called(s, k))
  {
    hide Unlocked, Targets, Ids, Failing;
    var w := s.works[k];
    FailingAt(s.works, k, w[1..]);
    assert w == [w[0]] + w[1..];
    assert multiset(w) == multiset{w[0]} + multiset(w[1..]);
  }

  lemma CloseKeeps(cfg: Config, s: System, k: nat)
    requires Inv(cfg, s) && k < |s.works| && s.works[k] == []
    ensures s.m.refs > 0 && Inv(cfg, Closed(s, k))
  {
    hide Unlocked, Targets, Ids, Failing;
    RefsDoNotMatter(cfg, s.m, s.m.(refs := s.m.refs - 1), s.gone, Targets(s.requests) + s.streams);
    FailingAt(s.works, k, []);
  }

  /** Every step keeps the invariant, and none is stopped by an assertion or a counter. */
  lemma StepKeeps(cfg: Config, s: System, e: Event)
    requires Inv(cfg, s) && Enabled(s, e)
    ensures StepDefined(cfg, s, e) && Inv(cfg, Next(cfg, s, e))
  {
    hide Inv, Section, Entered, Requested, Called, Closed;
    match e {
      case Enter(c, draw) => EnterKeeps(cfg, s, c, draw);
      case RequestTask(k) => RequestKeeps(cfg, s, k);
      case FailCallback(k) => CallbackKeeps(cfg, s, k);
      case CloseTransaction(k) => CloseKeeps(cfg, s, k);
    }
  }

  // ----- runs

  ghost predicate StepTo(cfg: Config, s: System, e: Event, s': System) {
    Enabled(s, e) && StepDefined(cfg, s, e) && s' == Next(cfg, s, e)
  }

  ghost predicate IsRun(cfg: Config, states: seq<System>, events: seq<Event>) {
    && |states| == |events| + 1
    && Start(cfg, states[0])
    && forall i | 0 <= i < |events| :: StepTo(cfg, states[i], events[i], states[i + 1])
  }

  lemma {:induction false} RunInv(cfg: Config, states: seq<System>, events: seq<Event>, n: nat)
    requires IsRun(cfg, states, events) && n < |states|
    ensures Inv(cfg, states[n])
  {
    hide Inv, Next, Enabled;
    if n == 0 {
      StartInv(cfg, states[0]);
    } else {
      RunInv(cfg, states, events, n - 1);
      assert StepTo(cfg, states[n - 1], events[n - 1], states[n]);
      StepKeeps(cfg, states[n - 1], events[n - 1]);
    }
  }

  /** At every unlock of every run while the manager is ready: no pending acquisition is stranded. */
  lemma NeverStrands(cfg: Config, states: seq<System>, events: seq<Event>, n: nat)
    requires IsRun(cfg, states, events) && n < |states|
    ensures ValidConfig(cfg) && WithinMax(cfg, states[n].m)
    ensures states[n].m.ready ==> NotStranded(cfg, states[n].m)
  {
    hide NotStranded, Placed, Loaded;
    RunInv(cfg, states, events, n);
  }

  /** In every run, the second check for new connections overwrites a zero. */
  lemma SecondCheckOverwritesNothing(cfg: Config, states: seq<System>, events: seq<Event>, n: nat, c: nat,
                                     available: bool, draw: Draws)
    requires IsRun(cfg, states, events) && n < |states|
    requires Allowed(states[n], Finished(c, available)) && Fair(draw)
    ensures var m := states[n].m;
            && c in m.conns && m.conns[c].load > 0 && m.opening > 0
            && Buildable(cfg, AfterStream(cfg, m, c, available))
            && Build(cfg, AfterStream(cfg, m, c, available), draw).1.connects == 0
  {
    hide Build, AfterStream, Placed, Loaded, NotStranded, Followed, Targets;
    RunInv(cfg, states, events, n);
    var s := states[n];
    LoadedStreams(s, c);
    FirstCheckAsksNothing(cfg, s.m, s.gone, Targets(s.requests) + s.streams, c, available, draw);
  }

  // ----- placement

  /** The sum of the loads of some connections. */
  ghost function LoadOf(conns: map<nat, Conn>, keys: set<nat>): nat
    requires keys <= conns.Keys
  {
    if keys == {} then 0 else
      var c :| c in keys;
      conns[c].load + LoadOf(conns, keys - {c})
  }

  lemma {:induction false} LoadIsSize(conns: map<nat, Conn>, keys: set<nat>, loads: multiset<nat>)
    requires keys <= conns.Keys
    requires forall c | c in keys :: conns[c].load == loads[c]
    requires forall c | c in loads :: c in keys
    ensures LoadOf(conns, keys) == |loads|
    decreases keys
  {
    if keys == {} {
      assert loads == multiset{};
    } else {
      var c :| c in keys && LoadOf(conns, keys) == conns[c].load + LoadOf(conns, keys - {c});
      var rest := loads[c := 0];
      LoadIsSize(conns, keys - {c}, rest);
      assert loads == rest + multiset{}[c := loads[c]];
    }
  }

  /**
   * At every unlock of every run: a held connection carries at least one stream,
   * and no more than its limit exactly when that limit is not zero; an available
   * one is in the ideal or the non-ideal set exactly when its load says so; and the
   * loads add up to the open streams and the requests not yet made.
   */
  lemma PlacementIsExact(cfg: Config, states: seq<System>, events: seq<Event>, n: nat)
    requires IsRun(cfg, states, events) && n < |states|
    ensures var s := states[n];
            && (forall c | c in s.m.conns ::
                  && s.m.conns[c].load >= 1
                  && (s.m.conns[c].load <= s.m.conns[c].limit <==> s.m.conns[c].limit >= 1))
            && (forall c | c in s.m.conns && c !in s.gone ::
                  && (c in s.m.ideal <==> s.m.conns[c].load < Min(cfg.idealStreams, s.m.conns[c].limit))
                  && (c in s.m.nonideal <==> cfg.idealStreams <= s.m.conns[c].load < s.m.conns[c].limit))
            && s.m.holding == |s.m.conns|
            && LoadOf(s.m.conns, s.m.conns.Keys) == s.m.opening + s.m.making
  {
    hide NotStranded, Targets, Ids;
    RunInv(cfg, states, events, n);
    var s := states[n];
    forall c | c in s.m.conns
      ensures s.m.conns[c].load >= 1
      ensures s.m.conns[c].load <= s.m.conns[c].limit <==> s.m.conns[c].limit >= 1
    {
      assert ConnOk(cfg, s.m.conns[c], c in s.gone, c in s.m.ideal, c in s.m.nonideal);
    }
    TargetsSize(s.requests);
    LoadIsSize(s.m.conns, s.m.conns.Keys, Targets(s.requests) + s.streams);
  }

  /** Each acquisition is, at every point of every run, in exactly one place on its way to its one callback. */
  lemma AnsweredOnce(cfg: Config, states: seq<System>, events: seq<Event>, n: nat, id: nat)
    requires IsRun(cfg, states, events) && n < |states|
    ensures var s := states[n];
            && multiset(s.m.pending)[id] + Failing(s.works)[id] + multiset(Ids(s.requests))[id] + s.answered[id] ==
               Bit(id in s.arrivals)
            && s.taken <= s.arrivals
  {
    hide Unlocked, Targets, Ids, Failing;
    RunInv(cfg, states, events, n);
    var s := states[n];
    MultisetOfDistinct(s.arrivals, id);
    assert multiset(s.taken + s.m.pending) == multiset(s.taken) + multiset(s.m.pending);
  }
}
