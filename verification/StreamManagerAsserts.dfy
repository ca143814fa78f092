/**
 * What the stream manager asserts on its way: set operations that must succeed, the
 * limit of concurrent streams when a request is made, and the empty state when
 * destruction begins. Which of these hold in every run, and exactly when the others do.
 */
module StreamManagerAsserts {
  import opened Octets
  import opened Sequences
  import opened StreamManager
  import opened StreamPlacement
  import opened StreamManagerRuns
  import opened StreamManagerShutdown

  // ----- set operations

  /** The connection is in the set it was drawn from, and joins the other set only if it is not there yet. */
  predicate AssignAsserts(cfg: Config, m: Manager, c: nat)
    requires c in m.conns
  {
    var load := m.conns[c].load + 1;
    && c in Candidates(cfg, m)
    && (m.ideal != {} && load < m.conns[c].limit && load >= cfg.idealStreams ==> c !in m.nonideal)
  }

  predicate PlaceAllAsserts(cfg: Config, m: Manager, draw: Draws, k: nat)
    requires Drawable(m) && Fair(draw)
    decreases |m.pending|
  {
    if m.pending == [] || Candidates(cfg, m) == {} then true
    else
      var c := Choice(cfg, m, draw, k);
      AssignAsserts(cfg, m, c) && PlaceAllAsserts(cfg, Place(cfg, m, c), draw, k + 1)
  }

  predicate BuildAsserts(cfg: Config, m: Manager, draw: Draws)
    requires Drawable(m) && Fair(draw)
  {
    m.ready ==> PlaceAllAsserts(cfg, m, draw, 0)
  }

  /** A connection that comes back into reach is in the set it leaves and not in the one it joins. */
  predicate ReclassifyAsserts(cfg: Config, m: Manager, c: nat)
    requires c in m.conns
  {
    var conn := m.conns[c];
    && (conn.tier == NearlyFull && conn.load < cfg.idealStreams ==> c in m.nonideal && c !in m.ideal)
    && (conn.tier == Full && conn.load < conn.limit ==>
          if conn.load >= cfg.idealStreams then c !in m.nonideal else c !in m.ideal)
  }

  /** The state in which a section builds its transaction. */
  function Prepared(cfg: Config, m: Manager, c: Call): Manager
    requires Defined(cfg, m, c)
  {
    match c
    case Acquire(id) => Open(m).(pending := m.pending + [id], refs := m.refs + 2)
    case ReleaseLast => Open(m).(ready := false)
    case Acquired(a) =>
      var m1 := Open(m).(acquiring := m.acquiring - 1, refs := m.refs);
      if !a.Got? then FailUnfit(cfg, m1).0
      else if !m.ready || m.pending == [] then m1
      else Hold(cfg, m1, a.conn, a.remoteLimit)
    case Finished(conn, available) => AfterStream(cfg, m, conn, available)
    case FinishTask => Open(m).(pending := [], refs := m.refs + 1 - |m.pending|)
  }

  /** That is the state a section places acquisitions in. */
  lemma SectionBuildsPrepared(cfg: Config, m: Manager, c: Call, draw: Draws)
    requires Defined(cfg, m, c) && Fair(draw)
    ensures Buildable(cfg, Prepared(cfg, m, c))
    ensures Section(cfg, m, c, draw).1.made == Build(cfg, Prepared(cfg, m, c), draw).1.made
  {
    hide Build, Unassign, Unfit, Ask;
    match c {
      case Acquired(a) =>
        var m1 := Open(m).(acquiring := m.acquiring - 1, refs := m.refs);
        FailUnfitBuildable(cfg, m1);
        if a.Got? {
          HoldBuildable(cfg, m, m1, a.conn, a.remoteLimit);
        }
      case Finished(conn, available) =>
        UnassignDrawable(cfg, Open(m).(opening := m.opening - 1, refs := m.refs), conn, available);
        BuildFrame(cfg, Prepared(cfg, m, c), draw);
      case _ =>
    }
  }

  predicate SectionAsserts(cfg: Config, m: Manager, c: Call, draw: Draws)
    requires Defined(cfg, m, c) && Fair(draw)
  {
    && (c.Acquired? && c.answer.Got? ==> c.answer.conn !in m.ideal)
    && (c.Finished? && c.available ==>
          ReclassifyAsserts(cfg, m.(conns := m.conns[c.conn := m.conns[c.conn].(load := m.conns[c.conn].load - 1)]),
                            c.conn))
    && Drawable(Prepared(cfg, m, c)) && BuildAsserts(cfg, Prepared(cfg, m, c), draw)
  }

  /** What is asserted when destruction begins; the connection manager is still there only the first time. */
  predicate DestroyAsserts(m: Manager, destroys: nat) {
    m.ideal == {} && m.nonideal == {} && m.acquiring == m.opening == m.making == 0 && m.pending == [] && destroys == 0
  }

  ghost predicate Asserted(cfg: Config, s: System, e: Event)
    requires Enabled(s, e) && StepDefined(cfg, s, e)
  {
    match e
    case Enter(c, draw) => SectionAsserts(cfg, s.m, c, draw)
    case RequestTask(k) =>
      var c := s.requests[k].conn;
      && c in s.m.conns && s.m.conns[c].load <= s.m.conns[c].limit
      && (s.m.refs == 1 ==> DestroyAsserts(s.m.(making := s.m.making - 1), s.destroys))
    case FailCallback(_) => true
    case CloseTransaction(_) => s.m.refs == 1 ==> DestroyAsserts(s.m, s.destroys)
  }

  // ----- sections

  lemma AssignAssertsHold(cfg: Config, m: Manager, gone: set<nat>, c: nat)
    requires Placed(cfg, m, gone) && c in Candidates(cfg, m)
    ensures c in m.conns && AssignAsserts(cfg, m, c)
  {
    assert ConnOk(cfg, m.conns[c], c in gone, c in m.ideal, c in m.nonideal);
  }

  lemma {:induction false} PlaceAllAssertsHold(cfg: Config, m: Manager, gone: set<nat>, draw: Draws, k: nat)
    requires ValidConfig(cfg) && Placed(cfg, m, gone) && Fair(draw)
    ensures PlaceAllAsserts(cfg, m, draw, k)
    decreases |m.pending|
  {
    hide AssignAsserts, Placed, Place;
    PlacedDrawable(cfg, m, gone);
    if m.pending != [] && Candidates(cfg, m) != {} {
      ChoiceIsCandidate(cfg, m, draw, k);
      var c := Choice(cfg, m, draw, k);
      AssignAssertsHold(cfg, m, gone, c);
      PlaceKeepsPlaced(cfg, m, gone, c);
      PlaceFrame(cfg, m, c);
      PlaceAllAssertsHold(cfg, Place(cfg, m, c), gone, draw, k + 1);
    }
  }

  lemma ReclassifyAssertsHold(cfg: Config, m: Manager, gone: set<nat>, c: nat)
    requires Placed(cfg, m, gone) && c in m.conns && c !in gone && m.conns[c].load > 0
    ensures ReclassifyAsserts(cfg, m.(conns := m.conns[c := m.conns[c].(load := m.conns[c].load - 1)]), c)
  {
    assert ConnOk(cfg, m.conns[c], c in gone, c in m.ideal, c in m.nonideal);
  }

  /** The connections are as the sets say when a section builds its transaction. */
  lemma PreparedPlaced(cfg: Config, s: System, c: Call)
    requires Inv(cfg, s) && Allowed(s, c) && Defined(cfg, s.m, c)
    ensures exists gone :: Placed(cfg, Prepared(cfg, s.m, c), gone)
  {
    hide Placed, Loaded, NotStranded, Followed, AfterStream, Targets;
    var loads := Targets(s.requests) + s.streams;
    var m1 := Prepared(cfg, s.m, c);
    match c {
      case Acquired(a) =>
        if a.Got? && s.m.ready && s.m.pending != [] {
          HoldPlaces(cfg, s.m, s.gone, loads, a.conn, a.remoteLimit);
          var m2 := Hold(cfg, s.m.(acquiring := s.m.acquiring - 1), a.conn, a.remoteLimit);
          SameConnections(cfg, m2, m1, s.gone, loads);
        } else {
          SameConnections(cfg, s.m, m1, s.gone, loads);
        }
        assert Placed(cfg, m1, s.gone);
      case Finished(conn, available) =>
        LoadedStreams(s, conn);
        AfterStreamOk(cfg, s.m, s.gone, loads, conn, available);
        assert Placed(cfg, m1, if available then s.gone else s.gone + {conn});
      case _ =>
        SameConnections(cfg, s.m, m1, s.gone, loads);
        assert Placed(cfg, m1, s.gone);
    }
  }

  lemma SectionAssertsHold(cfg: Config, s: System, c: Call, draw: Draws)
    requires Inv(cfg, s) && Allowed(s, c) && Defined(cfg, s.m, c) && Fair(draw)
    ensures SectionAsserts(cfg, s.m, c, draw)
  {
    hide Prepared, PlaceAllAsserts, ReclassifyAsserts, Loaded, NotStranded, Followed, Targets;
    PreparedPlaced(cfg, s, c);
    var m1 := Prepared(cfg, s.m, c);
    var gone :| Placed(cfg, m1, gone);
    PlaceAllAssertsHold(cfg, m1, gone, draw, 0);
    if c.Finished? && c.available {
      ReclassifyAssertsHold(cfg, s.m, s.gone, c.conn);
    }
  }

  // ----- the request task and the end

  lemma LimitAssert(cfg: Config, s: System, k: nat)
    requires Inv(cfg, s) && k < |s.requests|
    ensures var c := s.requests[k].conn;
            c in s.m.conns && (s.m.conns[c].load <= s.m.conns[c].limit <==> s.m.conns[c].limit >= 1)
  {
    hide NotStranded, Followed;
    var c := s.requests[k].conn;
    RemoveRequest(s.requests, k);
    assert c in Targets(s.requests) + s.streams;
    assert ConnOk(cfg, s.m.conns[c], c in s.gone, c in s.m.ideal, c in s.m.nonideal);
  }

  /** When the last request's count is all there is, its connection is the only one. */
  lemma OnlyConnection(cfg: Config, s: System, k: nat)
    requires Inv(cfg, s) && k < |s.requests| && s.m.refs == 1
    ensures s.m.conns.Keys == {s.requests[k].conn} && s.m.making == 1
    ensures s.m.acquiring == 0 && s.m.opening == 0 && s.m.pending == []
  {
    hide NotStranded, Followed;
    assert Tallied(s);
    var c := s.requests[k].conn;
    assert |s.requests| == 1 && s.streams == multiset{};
    assert s.requests[..0] == [] && s.requests[0] == s.requests[k];
    assert Targets(s.requests) == Targets(s.requests[..0]) + multiset{c} == multiset{c};
    assert Targets(s.requests) + s.streams == multiset{c};
    forall d ensures d in s.m.conns <==> d == c {
      if d in s.m.conns {
        assert s.m.conns[d].load > 0 && s.m.conns[d].load == multiset{c}[d];
      }
    }
  }

  lemma RequestAsserts(cfg: Config, s: System, k: nat)
    requires Inv(cfg, s) && Ending(s) && Enabled(s, RequestTask(k)) && StepDefined(cfg, s, RequestTask(k))
    ensures var c := s.requests[k].conn;
            && c in s.m.conns
            && (Asserted(cfg, s, RequestTask(k)) <==>
                  s.m.conns[c].limit >= 1 && !(s.m.refs == 1 && c in s.m.ideal + s.m.nonideal))
  {
    LimitAssert(cfg, s, k);
    if s.m.refs == 1 {
      OnlyConnection(cfg, s, k);
      assert s.m.ideal <= s.m.conns.Keys && s.m.nonideal <= s.m.conns.Keys;
    }
  }

  lemma CloseAsserts(cfg: Config, s: System, k: nat)
    requires Inv(cfg, s) && Ending(s) && Enabled(s, CloseTransaction(k)) && StepDefined(cfg, s, CloseTransaction(k))
    ensures Asserted(cfg, s, CloseTransaction(k)) <==> !(s.m.refs == 1 && (s.dipped || s.outlived))
  {
    hide NotStranded, Followed;
    assert Tallied(s);
    if s.m.refs == 1 {
      assert s.requests == [] && s.streams == multiset{};
      assert Targets(s.requests) + s.streams == multiset{};
      assert forall c :: c !in s.m.conns;
    }
  }

  /**
   * In every run, whatever may happen next: no critical section but the request task's breaks an
   * assertion. That one keeps its assertions exactly when the connection's limit is not zero and the count
   * does not dip to zero with the connection still in one of the sets. The end of a transaction that takes
   * away the last count keeps those of the destruction it begins exactly when no request task took away the
   * last count before, and the counts were never gone with the finishing task still to come.
   */
  lemma AssertedExactly(cfg: Config, states: seq<System>, events: seq<Event>, n: nat, e: Event)
    requires IsRun(cfg, states, events) && n < |states| && Enabled(states[n], e)
    ensures StepDefined(cfg, states[n], e)
    ensures var s := states[n];
            Asserted(cfg, s, e) <==>
            && (e.RequestTask? ==>
                  var c := s.requests[e.k].conn;
                  c in s.m.conns && s.m.conns[c].limit >= 1 && !(s.m.refs == 1 && c in s.m.ideal + s.m.nonideal))
            && (e.CloseTransaction? && s.m.refs == 1 ==> !Dipped(states, events, n) && !Outlived(states, n))
  {
    hide Inv, Ending, IsRun, SectionAsserts, Next, Enabled, Defined, Dipped, Outlived;
    FlagsAreHistory(cfg, states, events, n);
    RunEnding(cfg, states, events, n);
    StepKeeps(cfg, states[n], e);
    match e {
      case Enter(c, draw) => EnterAsserts(cfg, states[n], c, draw);
      case RequestTask(k) => RequestAsserts(cfg, states[n], k);
      case FailCallback(_) =>
      case CloseTransaction(k) => CloseAsserts(cfg, states[n], k);
    }
  }

  lemma EnterAsserts(cfg: Config, s: System, c: Call, draw: Draws)
    requires Inv(cfg, s) && Enabled(s, Enter(c, draw)) && StepDefined(cfg, s, Enter(c, draw))
    ensures Asserted(cfg, s, Enter(c, draw))
  {
    hide Inv, SectionAsserts, Defined, Allowed;
    SectionAssertsHold(cfg, s, c, draw);
  }

  // ----- a run that breaks the limit

  const OVERLOADED := Manager(true, map[7 := Conn(1, 0, Full)], {}, {}, 1, [], 0, 1, 0, 3, false)

  lemma ZeroLimitArrives(draw: Draws)
    requires Fair(draw)
    ensures Defined(ONE_STREAM, ASKING, Acquired(Got(7, 0)))
    ensures Section(ONE_STREAM, ASKING, Acquired(Got(7, 0)), draw) == (OVERLOADED, Work([Request(5, 7)], 0, None), [])
  {
    var m1 := Hold(ONE_STREAM, Open(ASKING).(acquiring := 0, refs := 3), 7, 0);
    assert m1.ideal == {7} && Drawable(m1);
    assert Choice(ONE_STREAM, m1, draw, 0) == 7 by { ChoiceIsCandidate(ONE_STREAM, m1, draw, 0); }
    var m2 := Place(ONE_STREAM, m1, 7);
    assert m2.conns == OVERLOADED.conns && m2.ideal == {} && m2.nonideal == {};
    assert m2 == OVERLOADED;
    assert PlaceAll(ONE_STREAM, m2, draw, [Request(5, 7)]) == (m2, [Request(5, 7)]);
    assert [] + [Request(5, 7)] == [Request(5, 7)];
    assert PlaceAll(ONE_STREAM, m1, draw, []) == (m2, [Request(5, 7)]) by { PlaceAllStep(ONE_STREAM, m1, draw, []); }
  }

  /** A peer that allows no streams is given one all the same, and the assertion on its limit fails when it is made. */
  lemma OverloadIsReachable(s: System) returns (states: seq<System>, events: seq<Event>)
    requires Start(ONE_STREAM, s)
    ensures IsRun(ONE_STREAM, states, events)
    ensures var last := states[|events|];
            && Enabled(last, RequestTask(0)) && StepDefined(ONE_STREAM, last, RequestTask(0))
            && last.requests[0].conn in last.m.conns && last.m.conns[last.requests[0].conn].limit == 0
            && !Asserted(ONE_STREAM, last, RequestTask(0))
  {
    hide Section, StepTo, Defined;
    var cfg, draw := ONE_STREAM, SomeDraws();
    SomeDrawsAreFair();
    var s1, s2 := FirstAcquisition(s);
    ZeroLimitArrives(draw);
    var s3 := EnterAlone(cfg, s2, Acquired(Got(7, 0)), (OVERLOADED, Work([Request(5, 7)], 0, None), []));
    states := [s, s1, s2, s3];
    events := [Enter(Acquire(5), draw), CloseTransaction(0), Enter(Acquired(Got(7, 0)), draw)];
  }
}
