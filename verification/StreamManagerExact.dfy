/**
 * What the stream manager's decisions come to, in every run: which acquisitions fail with a connection, how many
 * connections are asked for, which are kept, with which limit, and which of two draws a stream goes to.
 */
module StreamManagerExact {
  import opened Octets
  import opened Sequences
  import opened StreamManager
  import opened StreamPlacement
  import opened StreamManagerRuns

  // ----- which connection

  /**
   * A stream goes to one of two drawn connections, whose load is at most that of both. They are drawn from those below
   * the ideal load; only if there are none and no more may be held, from the others that take streams.
   */
  lemma ChosenIsLeastLoaded(cfg: Config, m: Manager, draw: Draws, k: nat)
    requires Drawable(m) && Candidates(cfg, m) != {} && Fair(draw)
    ensures var from := if m.ideal != {} then m.ideal else m.nonideal;
            var a, b, c := draw(from, 2 * k), draw(from, 2 * k + 1), Choice(cfg, m, draw, k);
            && a in from && b in from && a in m.conns && b in m.conns
            && (c == a || c == b) && m.conns[c].load <= m.conns[a].load && m.conns[c].load <= m.conns[b].load
            && (c != a ==> m.conns[b].load < m.conns[a].load)
    ensures m.ideal == {} ==> m.holding == cfg.maxConnections
  {
  }

  // ----- which acquisitions fail

  /** What a failed acquisition of a connection takes with it. */
  ghost predicate FailsExcess(cfg: Config, m: Manager, failing: seq<nat>)
    requires m.acquiring > 0
  {
    var fit := cfg.idealStreams * (m.acquiring - 1);
    && failing <= m.pending
    && (failing != [] ==> |m.pending| - |failing| == fit)
    && (|m.pending| <= fit ==> failing == [])
    && (|m.pending| > fit ==> failing != [])
  }

  /** What an answer to the request for a connection comes to. */
  ghost predicate AnswerOk(cfg: Config, m: Manager, a: Answer, r: (Manager, Work, seq<nat>, bool))
    requires m.acquiring > 0
  {
    && (!a.Got? ==> FailsExcess(cfg, m, r.2) && r.0.conns.Keys == m.conns.Keys && (r.3 <==> a.WrongVersion?))
    && (a.Got? ==>
          && r.2 == []
          && (a.conn in r.0.conns <==> m.ready && m.pending != [])
          && (r.3 <==> a.conn !in r.0.conns)
          && r.0.conns.Keys - {a.conn} == m.conns.Keys)
    && r.1.release == None
  }

  lemma BuildReleasesNone(cfg: Config, m: Manager, draw: Draws)
    requires Buildable(cfg, m) && Fair(draw)
    ensures Build(cfg, m, draw).1.release == None
  {
    hide PlaceAll;
    if m.ready {
      PlaceAllFrame(cfg, m, draw, []);
    }
  }

  lemma AcquiredIs(cfg: Config, m: Manager, a: Answer, draw: Draws)
    requires Buildable(cfg, m) && Fair(draw) && m.acquiring > 0 && m.refs >= |m.pending| + 1
    requires a.Got? ==> a.conn !in m.conns
    ensures AnswerOk(cfg, m, a, ConnectionAcquired(cfg, m, a, draw))
  {
    hide Build;
    var m1 := Open(m).(acquiring := m.acquiring - 1, refs := m.refs);
    if !a.Got? {
      FailUnfitBuildable(cfg, m1);
      var m2 := FailUnfit(cfg, m1).0;
      BuildFrame(cfg, m2, draw);
      BuildReleasesNone(cfg, m2, draw);
    } else if !m.ready || m.pending == [] {
      BuildFrame(cfg, m1, draw);
      BuildReleasesNone(cfg, m1, draw);
    } else {
      HoldBuildable(cfg, m, m1, a.conn, a.remoteLimit);
      var m2 := Hold(cfg, m1, a.conn, a.remoteLimit);
      BuildFrame(cfg, m2, draw);
      BuildReleasesNone(cfg, m2, draw);
      assert m2.conns.Keys == m.conns.Keys + {a.conn};
    }
  }

  /**
   * In every run, whatever the answer to a request for a connection: if none came, exactly those of the oldest pending
   * acquisitions fail that the connections still on their way cannot carry at the ideal load; one that came is kept
   * exactly if the manager is not shutting down and something is pending, and given back at once if not.
   */
  lemma AnsweredExactly(cfg: Config, states: seq<System>, events: seq<Event>, n: nat, a: Answer, draw: Draws)
    requires IsRun(cfg, states, events) && n < |states| && Enabled(states[n], Enter(Acquired(a), draw))
    ensures StepDefined(cfg, states[n], Enter(Acquired(a), draw))
    ensures AnswerOk(cfg, states[n].m, a, ConnectionAcquired(cfg, states[n].m, a, draw))
  {
    hide Inv, AnswerOk, ConnectionAcquired, IsRun;
    RunInv(cfg, states, events, n);
    StepKeeps(cfg, states[n], Enter(Acquired(a), draw));
    AcquiredIs(cfg, states[n].m, a, draw);
  }

  // ----- how many connections are asked for

  /** No more than are needed: with one less, what is pending would not fit at the ideal load. */
  ghost predicate AsksEnough(cfg: Config, m': Manager, w: Work) {
    w.connects > 0 ==> m'.ready && m'.acquiring >= w.connects && (m'.acquiring - 1) * cfg.idealStreams < |m'.pending|
  }

  lemma CeilTight(n: nat, ideal: nat, k: nat)
    requires ideal >= 1 && k < Ceil(n, ideal)
    ensures k * ideal < n
  {
    assert n == ideal * (n / ideal) + n % ideal;
    if n % ideal == 0 {
      Product(ideal, k + 1, n / ideal);
      assert ideal * (k + 1) == k * ideal + ideal;
    } else {
      Product(ideal, k, n / ideal);
    }
  }

  lemma AskTight(cfg: Config, m: Manager)
    requires ValidConfig(cfg) && WithinMax(cfg, m)
    ensures var (m', n) := Ask(cfg, m);
            && m' == m.(acquiring := m.acquiring + n, refs := m.refs + n)
            && (n > 0 ==> (m'.acquiring - 1) * cfg.idealStreams < |m.pending|)
  {
    hide Ceil;
    var n := Ask(cfg, m).1;
    if n > 0 {
      CeilTight(|m.pending|, cfg.idealStreams, m.acquiring + n - 1);
    }
  }

  lemma BuildAsks(cfg: Config, m: Manager, draw: Draws)
    requires Buildable(cfg, m) && Fair(draw)
    ensures var (m', w) := Build(cfg, m, draw); AsksEnough(cfg, m', w)
  {
    hide PlaceAll, Ask;
    if m.ready {
      PlaceAllFrame(cfg, m, draw, []);
      AskTight(cfg, PlaceAll(cfg, m, draw, []).0);
    }
  }

  lemma GiveBackAsks(cfg: Config, m: Manager, w: Work, c: nat)
    requires ValidConfig(cfg) && WithinMax(cfg, m) && m.holding > 0 && w.connects == 0
    ensures var (m', w') := GiveBack(cfg, m, w, c); AsksEnough(cfg, m', w')
  {
    hide Ask;
    AskTight(cfg, m.(conns := m.conns - {c}, ideal := m.ideal - {c}, holding := m.holding - 1));
  }

  lemma FinishedAsks(cfg: Config, m: Manager, gone: set<nat>, loads: multiset<nat>, c: nat, available: bool,
                     draw: Draws)
    requires Unlocked(cfg, m, gone, loads) && c in m.conns && m.opening > 0 && (available ==> c !in gone) && Fair(draw)
    requires Defined(cfg, m, Finished(c, available))
    ensures var (m', w) := StreamFinished(cfg, m, c, available, draw); AsksEnough(cfg, m', w)
  {
    hide Build, GiveBack, Unassign, Unlocked, AsksEnough;
    AfterStreamOk(cfg, m, gone, loads, c, available);
    FirstCheckAsksNothing(cfg, m, gone, loads, c, available, draw);
    var m1 := AfterStream(cfg, m, c, available);
    BuildAsks(cfg, m1, draw);
    BuildFrame(cfg, m1, draw);
    var (m2, w) := Build(cfg, m1, draw);
    if m2.conns[c].load == 0 {
      GiveBackAsks(cfg, m2, w, c);
    }
  }

  /**
   * In every run, whatever call comes: connections are asked for only while the manager is not shutting down and only
   * as many as what stays pending needs at the ideal load. `NeverStrands` has that they are enough.
   */
  lemma AskedExactly(cfg: Config, states: seq<System>, events: seq<Event>, n: nat, c: Call, draw: Draws)
    requires IsRun(cfg, states, events) && n < |states| && Enabled(states[n], Enter(c, draw))
    ensures Defined(cfg, states[n].m, c)
    ensures var r := Section(cfg, states[n].m, c, draw); AsksEnough(cfg, r.0, r.1)
  {
    hide Inv, AsksEnough, Build, IsRun;
    RunInv(cfg, states, events, n);
    StepKeeps(cfg, states[n], Enter(c, draw));
    SectionAsks(cfg, states[n], c, draw);
  }

  lemma SectionAsks(cfg: Config, s: System, c: Call, draw: Draws)
    requires Inv(cfg, s) && Allowed(s, c) && Fair(draw) && Defined(cfg, s.m, c)
    ensures var r := Section(cfg, s.m, c, draw); AsksEnough(cfg, r.0, r.1)
  {
    hide Build, FailUnfit, StreamFinished, Placed, Loaded, NotStranded, Followed, Targets;
    match c {
      case Acquire(id) => BuildAsks(cfg, Open(s.m).(pending := s.m.pending + [id], refs := s.m.refs + 2), draw);
      case ReleaseLast => BuildAsks(cfg, Open(s.m).(ready := false), draw);
      case Acquired(a) => AcquiredAsks(cfg, s.m, a, draw);
      case Finished(conn, available) =>
        LoadedStreams(s, conn);
        FinishedAsks(cfg, s.m, s.gone, Targets(s.requests) + s.streams, conn, available, draw);
      case FinishTask =>
        BuildAsks(cfg, Open(s.m).(pending := [], refs := s.m.refs + 1 - |s.m.pending|), draw);
    }
  }

  lemma AcquiredAsks(cfg: Config, m: Manager, a: Answer, draw: Draws)
    requires Buildable(cfg, m) && Fair(draw) && m.acquiring > 0 && m.refs >= |m.pending| + 1
    ensures var (m', w, _, _) := ConnectionAcquired(cfg, m, a, draw); AsksEnough(cfg, m', w)
  {
    hide Build, AsksEnough;
    var m1 := Open(m).(acquiring := m.acquiring - 1, refs := m.refs);
    if !a.Got? {
      FailUnfitBuildable(cfg, m1);
      BuildAsks(cfg, FailUnfit(cfg, m1).0, draw);
    } else if !m.ready || m.pending == [] {
      BuildAsks(cfg, m1, draw);
    } else {
      HoldBuildable(cfg, m, m1, a.conn, a.remoteLimit);
      BuildAsks(cfg, Hold(cfg, m1, a.conn, a.remoteLimit), draw);
    }
  }

  // ----- which connections are held

  /** At every unlock of every run, a connection is held exactly while a stream or a request is on it. */
  lemma HeldExactly(cfg: Config, states: seq<System>, events: seq<Event>, n: nat, c: nat)
    requires IsRun(cfg, states, events) && n < |states|
    ensures c in states[n].m.conns <==> c in Targets(states[n].requests) + states[n].streams
  {
    hide Placed, NotStranded, Targets, IsRun, Followed;
    RunInv(cfg, states, events, n);
  }

  /** The end of a stream gives its connection back exactly if it is then no longer held, and touches no other. */
  lemma GivenBackExactly(cfg: Config, states: seq<System>, events: seq<Event>, n: nat, c: nat, available: bool,
                         draw: Draws)
    requires IsRun(cfg, states, events) && n < |states| && Enabled(states[n], Enter(Finished(c, available), draw))
    ensures Defined(cfg, states[n].m, Finished(c, available))
    ensures var m := states[n].m;
            var (m', w) := StreamFinished(cfg, m, c, available, draw);
            && (w.release == Some(c) <==> c !in m'.conns) && (w.release == None <==> c in m'.conns)
            && m'.conns.Keys - {c} == m.conns.Keys - {c}
  {
    hide Inv, IsRun, StreamFinished;
    RunInv(cfg, states, events, n);
    StepKeeps(cfg, states[n], Enter(Finished(c, available), draw));
    FinishedReleases(cfg, states[n].m, c, available, draw);
  }

  lemma FinishedReleases(cfg: Config, m: Manager, c: nat, available: bool, draw: Draws)
    requires Defined(cfg, m, Finished(c, available)) && Fair(draw)
    ensures var (m', w) := StreamFinished(cfg, m, c, available, draw);
            && (w.release == Some(c) <==> c !in m'.conns) && (w.release == None <==> c in m'.conns)
            && m'.conns.Keys - {c} == m.conns.Keys - {c}
  {
    hide Build, Ask;
    var m1 := Unassign(cfg, Open(m).(opening := m.opening - 1, refs := m.refs), c, available);
    UnassignDrawable(cfg, Open(m).(opening := m.opening - 1, refs := m.refs), c, available);
    BuildFrame(cfg, m1, draw);
    BuildReleasesNone(cfg, m1, draw);
    assert m1.conns.Keys == m.conns.Keys;
    var m2 := Build(cfg, m1, draw).0;
    AskTight(cfg, m2.(conns := m2.conns - {c}, ideal := m2.ideal - {c}, holding := m2.holding - 1));
  }

  // ----- a connection out of reach

  predicate OutOfReach(m: Manager, c: nat) {
    c in m.conns && c !in m.ideal && c !in m.nonideal
  }

  /** Placement leaves a connection out of reach as it is. */
  lemma {:induction false} PlaceAllSkips(cfg: Config, m: Manager, draw: Draws, made: seq<Request>, c: nat)
    requires Drawable(m) && Fair(draw) && OutOfReach(m, c)
    ensures var m' := PlaceAll(cfg, m, draw, made).0; OutOfReach(m', c) && m'.conns[c] == m.conns[c]
    decreases |m.pending|
  {
    hide Choice;
    if m.pending != [] && Candidates(cfg, m) != {} {
      var k := Choice(cfg, m, draw, |made|);
      ChoiceIsCandidate(cfg, m, draw, |made|);
      PlaceFrame(cfg, m, k);
      PlaceAllSkips(cfg, Place(cfg, m, k), draw, made + [Request(m.pending[0], k)], c);
    }
  }

  lemma BuildSkips(cfg: Config, m: Manager, draw: Draws, c: nat)
    requires Buildable(cfg, m) && Fair(draw) && OutOfReach(m, c)
    ensures var m' := Build(cfg, m, draw).0; OutOfReach(m', c) && m'.conns[c] == m.conns[c]
  {
    hide PlaceAll, Needed;
    if m.ready {
      PlaceAllFrame(cfg, m, draw, []);
      PlaceAllSkips(cfg, m, draw, [], c);
    }
  }

  lemma ZeroIsFull(cfg: Config, m: Manager, gone: set<nat>, c: nat, available: bool)
    requires ValidConfig(cfg) && Placed(cfg, m, gone) && c in m.conns && m.conns[c].limit == 0 && m.conns[c].load > 0
    requires available ==> c !in gone
    ensures var m' := Unassign(cfg, m, c, available); OutOfReach(m', c) && m'.conns[c].load == 0
  {
    assert ConnOk(cfg, m.conns[c], c in gone, c in m.ideal, c in m.nonideal);
  }

  /**
   * In every run, a connection whose limit is zero, which gets one stream all the same, gets no second: it is given
   * back at the end of the first.
   */
  lemma ZeroLimitOnce(cfg: Config, states: seq<System>, events: seq<Event>, n: nat, c: nat, available: bool,
                      draw: Draws)
    requires IsRun(cfg, states, events) && n < |states| && Enabled(states[n], Enter(Finished(c, available), draw))
    requires c in states[n].m.conns && states[n].m.conns[c].limit == 0
    ensures Defined(cfg, states[n].m, Finished(c, available))
    ensures StreamFinished(cfg, states[n].m, c, available, draw).1.release == Some(c)
  {
    hide IsRun, Inv, Build, Ask, Placed, Unassign;
    RunInv(cfg, states, events, n);
    StepKeeps(cfg, states[n], Enter(Finished(c, available), draw));
    var m := states[n].m;
    var m0 := Open(m).(opening := m.opening - 1, refs := m.refs);
    PlacedInRun(cfg, states[n], m0);
    ZeroIsFull(cfg, m0, states[n].gone, c, available);
    UnassignDrawable(cfg, m0, c, available);
    var m1 := Unassign(cfg, m0, c, available);
    BuildFrame(cfg, m1, draw);
    BuildSkips(cfg, m1, draw, c);
  }

  lemma PlacedInRun(cfg: Config, s: System, m: Manager)
    requires Inv(cfg, s) && m.conns == s.m.conns && m.ideal == s.m.ideal && m.nonideal == s.m.nonideal
    ensures ValidConfig(cfg) && Placed(cfg, m, s.gone)
  {
  }

  // ----- the limit of a connection

  ghost predicate SameLimits(m: Manager, m': Manager) {
    forall c | c in m.conns && c in m'.conns :: m'.conns[c].limit == m.conns[c].limit
  }

  lemma PlaceLimits(cfg: Config, m: Manager, c: nat)
    requires c in m.conns && m.pending != []
    ensures SameLimits(m, Place(cfg, m, c))
  {
  }

  lemma {:induction false} PlaceAllLimits(cfg: Config, m: Manager, draw: Draws, made: seq<Request>)
    requires Drawable(m) && Fair(draw)
    ensures SameLimits(m, PlaceAll(cfg, m, draw, made).0)
    decreases |m.pending|
  {
    hide Place, Choice;
    if m.pending != [] && Candidates(cfg, m) != {} {
      var c := Choice(cfg, m, draw, |made|);
      ChoiceIsCandidate(cfg, m, draw, |made|);
      PlaceFrame(cfg, m, c);
      PlaceLimits(cfg, m, c);
      PlaceAllLimits(cfg, Place(cfg, m, c), draw, made + [Request(m.pending[0], c)]);
    }
  }

  lemma BuildLimits(cfg: Config, m: Manager, draw: Draws)
    requires Buildable(cfg, m) && Fair(draw)
    ensures SameLimits(m, Build(cfg, m, draw).0)
  {
    hide PlaceAll, Needed;
    if m.ready {
      PlaceAllFrame(cfg, m, draw, []);
      PlaceAllLimits(cfg, m, draw, []);
    }
  }

  lemma FinishedLimits(cfg: Config, m: Manager, c: nat, available: bool, draw: Draws)
    requires Defined(cfg, m, Finished(c, available)) && Fair(draw)
    ensures SameLimits(m, StreamFinished(cfg, m, c, available, draw).0)
  {
    hide Build, Ask;
    var m0 := Open(m).(opening := m.opening - 1, refs := m.refs);
    var m1 := Unassign(cfg, m0, c, available);
    UnassignDrawable(cfg, m0, c, available);
    BuildFrame(cfg, m1, draw);
    BuildLimits(cfg, m1, draw);
    assert m1.conns.Keys == m.conns.Keys && SameLimits(m, m1);
    var m2 := Build(cfg, m1, draw).0;
    AskTight(cfg, m2.(conns := m2.conns - {c}, ideal := m2.ideal - {c}, holding := m2.holding - 1));
  }

  /** A critical section changes no limit, and gives a new connection the smaller of its two. */
  lemma SectionLimits(cfg: Config, m: Manager, c: Call, draw: Draws)
    requires Defined(cfg, m, c) && Fair(draw) && (c.Acquired? && c.answer.Got? ==> c.answer.conn !in m.conns)
    ensures var m' := Section(cfg, m, c, draw).0;
            && SameLimits(m, m')
            && forall k | k in m'.conns && k !in m.conns ::
                 && c.Acquired? && c.answer.Got? && c.answer.conn == k
                 && m'.conns[k].limit == Min(cfg.maxStreams, c.answer.remoteLimit)
  {
    hide Build, StreamFinished;
    match c {
      case Acquire(id) =>
        BuildLimits(cfg, Open(m).(pending := m.pending + [id], refs := m.refs + 2), draw);
        BuildFrame(cfg, Open(m).(pending := m.pending + [id], refs := m.refs + 2), draw);
      case ReleaseLast =>
        BuildLimits(cfg, Open(m).(ready := false), draw);
        BuildFrame(cfg, Open(m).(ready := false), draw);
      case Acquired(a) => AcquiredLimits(cfg, m, a, draw);
      case Finished(conn, available) =>
        FinishedLimits(cfg, m, conn, available, draw);
        FinishedReleases(cfg, m, conn, available, draw);
        var m' := StreamFinished(cfg, m, conn, available, draw).0;
        assert forall k | k in m'.conns :: k == conn || k in m'.conns.Keys - {conn};
      case FinishTask =>
        BuildLimits(cfg, Open(m).(pending := [], refs := m.refs + 1 - |m.pending|), draw);
        BuildFrame(cfg, Open(m).(pending := [], refs := m.refs + 1 - |m.pending|), draw);
    }
  }

  lemma AcquiredLimits(cfg: Config, m: Manager, a: Answer, draw: Draws)
    requires Buildable(cfg, m) && Fair(draw) && m.acquiring > 0 && m.refs >= |m.pending| + 1
    requires a.Got? ==> a.conn !in m.conns
    ensures var m' := ConnectionAcquired(cfg, m, a, draw).0;
            && SameLimits(m, m')
            && forall k | k in m'.conns && k !in m.conns ::
                 a.Got? && a.conn == k && m'.conns[k].limit == Min(cfg.maxStreams, a.remoteLimit)
  {
    hide Build, Unfit;
    var m1 := Open(m).(acquiring := m.acquiring - 1, refs := m.refs);
    if !a.Got? {
      FailUnfitBuildable(cfg, m1);
      BuildLimits(cfg, FailUnfit(cfg, m1).0, draw);
      BuildFrame(cfg, FailUnfit(cfg, m1).0, draw);
    } else if !m.ready || m.pending == [] {
      BuildLimits(cfg, m1, draw);
      BuildFrame(cfg, m1, draw);
    } else {
      HoldBuildable(cfg, m, m1, a.conn, a.remoteLimit);
      BuildLimits(cfg, Hold(cfg, m1, a.conn, a.remoteLimit), draw);
      BuildFrame(cfg, Hold(cfg, m1, a.conn, a.remoteLimit), draw);
    }
  }

  /** Connection `c` came with this remote limit at step `k` and has been held since. */
  ghost predicate HeldSince(states: seq<System>, events: seq<Event>, n: nat, k: nat, c: nat, remote: nat)
    requires |states| == |events| + 1 && n < |states|
  {
    && k < n && events[k].Enter? && events[k].call == Acquired(Got(c, remote))
    && forall j | k < j <= n :: c in states[j].m.conns
  }

  /** In every run, the limit of a held connection is the smaller of the manager's and the one it came with. */
  lemma {:induction false} LimitIsHistory(cfg: Config, states: seq<System>, events: seq<Event>, n: nat, c: nat)
    returns (k: nat, remote: nat)
    requires IsRun(cfg, states, events) && n < |states| && c in states[n].m.conns
    ensures HeldSince(states, events, n, k, c, remote)
    ensures states[n].m.conns[c].limit == Min(cfg.maxStreams, remote)
  {
    hide Section, Inv, Defined;
    assert n > 0;
    assert StepTo(cfg, states[n - 1], events[n - 1], states[n]);
    var e, m := events[n - 1], states[n - 1].m;
    if e.Enter? {
      SectionLimits(cfg, m, e.call, e.draw);
    }
    if c in m.conns {
      k, remote := LimitIsHistory(cfg, states, events, n - 1, c);
    } else {
      k, remote := n - 1, e.call.answer.remoteLimit;
    }
  }
}
