/**
 * The end of a stream manager: what the references count, when they reach zero,
 * what is asserted then, and the two ways in which they reach it more than once.
 */
module StreamManagerShutdown {
  import opened Octets
  import opened Sequences
  import opened StreamManager
  import opened StreamPlacement
  import opened StreamManagerRuns

  /**
   * The reference count is what the counters, the live transactions and external
   * use add up to. When it is zero, every counter is zero, both sets are empty,
   * and nothing can happen any more but the shutdown task, had it been scheduled.
   */
  lemma SafeDestruction(cfg: Config, states: seq<System>, events: seq<Event>, n: nat)
    requires IsRun(cfg, states, events) && n < |states|
    ensures var s := states[n];
            && s.m.refs == |s.m.pending| + s.m.acquiring + s.m.making + s.m.opening + |s.works| + Bit(s.m.ready)
            && (s.m.refs == 0 ==>
                  && s.m.conns == map[] && s.m.ideal == {} && s.m.nonideal == {} && s.m.holding == 0
                  && forall e :: Enabled(s, e) ==> e.Enter? && e.call.FinishTask? && s.m.scheduled)
  {
    hide NotStranded, Ids, Failing;
    RunInv(cfg, states, events, n);
    var s := states[n];
    if s.m.refs == 0 {
      assert s.requests == [] && s.streams == multiset{};
      assert Targets(s.requests) + s.streams == multiset{};
      assert forall c :: c !in s.m.conns;
    }
  }

  // ----- the exchange of counts in the request task

  /**
   * The request task gives up a request's reference before it takes the stream's.
   * Between the two the count is zero exactly when the manager is shutting down
   * and this request is all that is left.
   */
  lemma ExchangeDips(cfg: Config, states: seq<System>, events: seq<Event>, n: nat, k: nat)
    requires IsRun(cfg, states, events) && n < |states| && k < |states[n].requests|
    ensures var s := states[n];
            && s.m.refs > 0
            && (s.m.refs - 1 == 0 <==>
                  !s.m.ready && s.m.pending == [] && s.m.acquiring == 0 && s.m.opening == 0 && s.m.making == 1 &&
                      s.works == [])
  {
    hide Unlocked, Targets, Ids, Failing;
    RunInv(cfg, states, events, n);
  }

  // ----- two short runs

  ghost function AnyOf(s: set<nat>): nat {
    if s == {} then 0 else var c :| c in s; c
  }

  ghost function SomeDraws(): Draws {
    (s: set<nat>, i: nat) => AnyOf(s)
  }

  lemma CloseOnly(cfg: Config, s: System) returns (s': System)
    requires s.works == [[]] && s.m.refs > 0
    ensures StepTo(cfg, s, CloseTransaction(0), s') && s'.works == [] && s' == Closed(s, 0)
  {
    s' := Closed(s, 0);
  }

  lemma EnterAlone(cfg: Config, s: System, c: Call, r: (Manager, Work, seq<nat>)) returns (s': System)
    requires s.works == [] && Allowed(s, c) && Defined(cfg, s.m, c) && Section(cfg, s.m, c, SomeDraws()) == r
    requires Bit(c.Acquired?) <= s.outstanding
    ensures StepTo(cfg, s, Enter(c, SomeDraws()), s') && s' == Entered(s, c, r) && s'.works == [r.2]
  {
    hide Section, Defined;
    s' := Entered(s, c, r);
  }

  const ONE_STREAM := Config(1, 1, 1)
  const ASKING := Manager(true, map[], {}, {}, 0, [5], 1, 0, 0, 3, false)

  lemma AskingSection(m: Manager)
    requires m == Manager(true, map[], {}, {}, 0, [], 0, 0, 0, 1, false)
    ensures Section(ONE_STREAM, m, Acquire(5), SomeDraws()) == (ASKING.(refs := 4), Work([], 1, None), [])
  {
    var m1 := Open(m).(pending := [5], refs := 3);
    assert m.pending + [5] == [5];
    assert PlaceAll(ONE_STREAM, m1, SomeDraws(), []) == (m1, []);
    assert Ceil(1, 1) == 1;
    assert Ask(ONE_STREAM, m1) == (ASKING.(refs := 4), 1);
  }

  /** The common start of both runs: with room for one connection, one acquisition asks for it. */
  lemma FirstAcquisition(s: System) returns (s1: System, s2: System)
    requires Start(ONE_STREAM, s)
    ensures StepTo(ONE_STREAM, s, Enter(Acquire(5), SomeDraws()), s1) && StepTo(ONE_STREAM, s1, CloseTransaction(0), s2)
    ensures s2 == System(ASKING, [], multiset{}, {}, 1, [], false, [5], [], multiset{}, 0, false, false)
  {
    hide Section, StepTo;
    AskingSection(s.m);
    s1 := EnterAlone(ONE_STREAM, s, Acquire(5), (ASKING.(refs := 4), Work([], 1, None), []));
    s2 := CloseOnly(ONE_STREAM, s1);
  }

  const PLACED := Manager(true, map[7 := Conn(1, 1, Full)], {}, {}, 1, [], 0, 1, 0, 3, false)

  lemma ConnectionArrives(draw: Draws)
    requires Fair(draw)
    ensures Defined(ONE_STREAM, ASKING, Acquired(Got(7, 10)))
    ensures Section(ONE_STREAM, ASKING, Acquired(Got(7, 10)), draw) == (PLACED, Work([Request(5, 7)], 0, None), [])
  {
    var m1 := Hold(ONE_STREAM, Open(ASKING).(acquiring := 0, refs := 3), 7, 10);
    assert m1.ideal == {7} && Drawable(m1);
    assert Choice(ONE_STREAM, m1, draw, 0) == 7 by { ChoiceIsCandidate(ONE_STREAM, m1, draw, 0); }
    var m2 := Place(ONE_STREAM, m1, 7);
    assert m2.conns == PLACED.conns && m2.ideal == {} && m2.nonideal == {};
    assert m2 == PLACED;
    assert PlaceAll(ONE_STREAM, m2, draw, [Request(5, 7)]) == (m2, [Request(5, 7)]);
    assert [] + [Request(5, 7)] == [Request(5, 7)];
    assert PlaceAll(ONE_STREAM, m1, draw, []) == (m2, [Request(5, 7)]) by { PlaceAllStep(ONE_STREAM, m1, draw, []); }
  }

  lemma ReleaseWhilePlaced(m: Manager, draw: Draws)
    requires m == PLACED.(refs := 2) && Fair(draw)
    ensures Defined(ONE_STREAM, m, ReleaseLast)
    ensures Section(ONE_STREAM, m, ReleaseLast, draw) == (m.(ready := false), Work([], 0, None), [])
  {
  }

  /**
   * The count does dip: a manager released while its one request still waits to
   * be made reaches a state in which that request holds the only reference.
   */
  lemma DipIsReachable(s: System) returns (states: seq<System>, events: seq<Event>)
    requires Start(ONE_STREAM, s)
    ensures IsRun(ONE_STREAM, states, events)
    ensures var last := states[|events|]; |last.requests| == 1 && last.m.refs - 1 == 0
  {
    hide Section, StepTo, Defined;
    var cfg, draw := ONE_STREAM, SomeDraws();
    var s1, s2 := FirstAcquisition(s);
    ConnectionArrives(draw);
    var s3 := EnterAlone(cfg, s2, Acquired(Got(7, 10)), (PLACED, Work([Request(5, 7)], 0, None), []));
    var s4 := CloseOnly(cfg, s3);
    ReleaseWhilePlaced(s4.m, draw);
    var s5 := EnterAlone(cfg, s4, ReleaseLast, (s4.m.(ready := false), Work([], 0, None), []));
    var s6 := CloseOnly(cfg, s5);
    states := [s, s1, s2, s3, s4, s5, s6];
    events := [Enter(Acquire(5), draw), CloseTransaction(0), Enter(Acquired(Got(7, 10)), draw), CloseTransaction(0),
               Enter(ReleaseLast, draw), CloseTransaction(0)];
  }

  lemma ReleaseWhileAsking(draw: Draws)
    requires Fair(draw)
    ensures Defined(ONE_STREAM, ASKING, ReleaseLast)
    ensures Section(ONE_STREAM, ASKING, ReleaseLast, draw) ==
            (ASKING.(ready := false, scheduled := true), Work([], 0, None), [])
  {
  }

  lemma ConnectionFails(m: Manager, draw: Draws)
    requires Fair(draw) && m == ASKING.(ready := false, scheduled := true, refs := 2)
    ensures Defined(ONE_STREAM, m, Acquired(AcquireFailed))
    ensures Section(ONE_STREAM, m, Acquired(AcquireFailed), draw) ==
            (m.(pending := [], acquiring := 0, refs := 1), Work([], 0, None), [5])
  {
    var m1 := Open(m).(acquiring := 0, refs := 2);
    assert Unfit(ONE_STREAM, m1) == 1;
    assert m1.pending[1..] == [] && m1.pending[..1] == [5];
  }

  /**
   * The shutdown task holds no reference of its own: if what was pending fails
   * for want of a connection first, the count reaches zero with that task still to come.
   */
  lemma TaskOutlivesCount(s: System) returns (states: seq<System>, events: seq<Event>)
    requires Start(ONE_STREAM, s)
    ensures IsRun(ONE_STREAM, states, events)
    ensures var last := states[|events|]; last.m.refs == 0 && last.task
  {
    hide Section, StepTo, Defined;
    var cfg, draw := ONE_STREAM, SomeDraws();
    var s1, s2 := FirstAcquisition(s);
    ReleaseWhileAsking(draw);
    var s3 := EnterAlone(cfg, s2, ReleaseLast, (ASKING.(ready := false, scheduled := true), Work([], 0, None), []));
    var s4 := CloseOnly(cfg, s3);
    ConnectionFails(s4.m, draw);
    var s5 := EnterAlone(cfg, s4, Acquired(AcquireFailed),
                         (s4.m.(pending := [], acquiring := 0, refs := 1), Work([], 0, None), [5]));
    var s6 := CallbackOnly(cfg, s5);
    var s7 := CloseOnly(cfg, s6);
    states := [s, s1, s2, s3, s4, s5, s6, s7];
    events := [Enter(Acquire(5), draw), CloseTransaction(0), Enter(ReleaseLast, draw), CloseTransaction(0),
               Enter(Acquired(AcquireFailed), draw), FailCallback(0), CloseTransaction(0)];
  }

  lemma CallbackOnly(cfg: Config, s: System) returns (s': System)
    requires s.works == [[5]]
    ensures StepTo(cfg, s, FailCallback(0), s') && s'.works == [[]] && s'.m == s.m && s'.task == s.task
  {
    assert s.works[0][1..] == [];
    s' := Called(s, 0);
  }

  // ----- how often destruction begins

  ghost predicate Ending(s: System) {
    && s.destroys == Bit(s.dipped) + Bit(s.m.refs == 0) + Bit(s.outlived && !s.task)
    && (s.m.refs == 0 && s.task ==> s.outlived)
    && (s.dipped ==> s.requests == [] && !s.m.ready)
    && (s.outlived ==>
          && !s.m.ready && s.requests == [] && s.streams == multiset{} && s.outstanding == 0 && s.m.pending == []
          && (s.task ==> s.m.refs == 0))
  }

  lemma EnterEnding(cfg: Config, s: System, c: Call, draw: Draws)
    requires Inv(cfg, s) && Ending(s) && Allowed(s, c) && Fair(draw) && Defined(cfg, s.m, c)
    ensures Bit(c.Acquired?) <= s.outstanding && Ending(Entered(s, c, Section(cfg, s.m, c, draw)))
  {
    hide Section, Unlocked, Followed, Targets, Ids;
    SectionOk(cfg, s, c, draw);
    var r := Section(cfg, s.m, c, draw);
    assert Tallied(s);
    EnterTallied(cfg, s, c, r);
    assert Tallied(Entered(s, c, r));
    assert s.streams - multiset{} == s.streams;
    assert !s.m.ready ==> r.1.made == [] && r.1.connects == 0 by {
      if !s.m.ready {
        NoNewWork(cfg, s, c, draw);
      }
    }
    assert s.requests + [] == s.requests;
  }

  /** While shutting down, a section makes no requests and asks for no connections. */
  lemma NoNewWork(cfg: Config, s: System, c: Call, draw: Draws)
    requires Inv(cfg, s) && Allowed(s, c) && Fair(draw) && Defined(cfg, s.m, c) && !s.m.ready
    ensures Section(cfg, s.m, c, draw).1.made == [] && Section(cfg, s.m, c, draw).1.connects == 0
  {
    hide Inv, Unlocked, Placed, Loaded, NotStranded, PlaceAll, Ask, Reclassify;
    match c {
      case Acquired(a) =>
      case Finished(conn, available) =>
        assert !AfterStream(cfg, s.m, conn, available).ready by { hide *; StaysShut(cfg, s.m, conn, available); }
      case FinishTask =>
    }
  }

  lemma StaysShut(cfg: Config, m: Manager, c: nat, available: bool)
    requires c in m.conns && m.conns[c].load > 0 && m.opening > 0 && !m.ready
    ensures !AfterStream(cfg, m, c, available).ready
  {
  }

  lemma RequestEnding(cfg: Config, s: System, k: nat)
    requires Inv(cfg, s) && Ending(s) && k < |s.requests| && s.m.making > 0
    ensures Ending(Requested(s, k))
  {
    hide Unlocked, Followed, Targets;
    assert Tallied(s);
    if s.m.refs == 1 {
      assert |s.requests| == 1;
    }
  }

  lemma CloseEnding(cfg: Config, s: System, k: nat)
    requires Inv(cfg, s) && Ending(s) && k < |s.works| && s.m.refs > 0
    ensures Ending(Closed(s, k))
  {
    hide Unlocked, Followed, Targets;
    assert Tallied(s);
  }

  lemma StepEnding(cfg: Config, s: System, e: Event)
    requires Inv(cfg, s) && Ending(s) && Enabled(s, e) && StepDefined(cfg, s, e)
    ensures Ending(Next(cfg, s, e))
  {
    hide Inv, Section, Entered, Requested, Closed, Ending, Defined;
    match e {
      case Enter(c, draw) => EnterEnding(cfg, s, c, draw);
      case RequestTask(k) => RequestEnding(cfg, s, k);
      case FailCallback(k) => assert Ending(Called(s, k)) by { CallbackEnding(s, k); }
      case CloseTransaction(k) => CloseEnding(cfg, s, k);
    }
  }

  lemma CallbackEnding(s: System, k: nat)
    requires Ending(s) && k < |s.works| && s.works[k] != []
    ensures Ending(Called(s, k))
  {
  }

  lemma {:induction false} RunEnding(cfg: Config, states: seq<System>, events: seq<Event>, n: nat)
    requires IsRun(cfg, states, events) && n < |states|
    ensures Inv(cfg, states[n]) && Ending(states[n])
  {
    hide Inv, Next, Enabled, StepDefined;
    RunInv(cfg, states, events, n);
    if n > 0 {
      RunEnding(cfg, states, events, n - 1);
      assert StepTo(cfg, states[n - 1], events[n - 1], states[n]);
      hide Ending;
      StepEnding(cfg, states[n - 1], events[n - 1]);
    }
  }

  lemma SomeDrawsAreFair()
    ensures Fair(SomeDraws())
  {
  }

  ghost predicate Over(s: System) {
    forall e :: !Enabled(s, e)
  }

  lemma OverIsEmpty(cfg: Config, s: System)
    requires Inv(cfg, s) && Over(s)
    ensures s.m.refs == 0 && !s.task
  {
    hide Unlocked, Followed, Targets;
    SomeDrawsAreFair();
    var draw := SomeDraws();
    assert !Enabled(s, Enter(ReleaseLast, draw));
    assert !Enabled(s, Enter(FinishTask, draw));
    assert !Enabled(s, Enter(Acquired(AcquireFailed), draw));
    assert !Enabled(s, RequestTask(0));
    forall c: nat ensures c !in s.streams {
      assert !Enabled(s, Enter(Finished(c, false), draw));
    }
    assert !Enabled(s, CloseTransaction(0)) && !Enabled(s, FailCallback(0));
  }

  /**
   * A run that has come to its end has begun destruction exactly once if and only if no request task
   * let the count dip and the finishing task did not outlive it; each of the two adds one. No run has
   * begun it more than once otherwise.
   */
  lemma DestroyedOnceExactly(cfg: Config, states: seq<System>, events: seq<Event>, n: nat)
    requires IsRun(cfg, states, events) && n < |states|
    ensures var s := states[n];
            && (s.destroys >= 2 ==> s.dipped || s.outlived)
            && (Over(s) ==> s.destroys == 1 + Bit(s.dipped) + Bit(s.outlived))
            && (Over(s) ==> (s.destroys == 1 <==> !s.dipped && !s.outlived))
  {
    hide Inv, Over, IsRun;
    RunEnding(cfg, states, events, n);
    if Over(states[n]) {
      OverIsEmpty(cfg, states[n]);
    }
  }

  /** A request task has taken away the last count. */
  ghost predicate Dipped(states: seq<System>, events: seq<Event>, n: nat)
    requires n < |states| == |events| + 1
  {
    exists k | 0 <= k < n :: events[k].RequestTask? && states[k].m.refs == 1
  }

  /** No count was left while the finishing task was still to come. */
  ghost predicate Outlived(states: seq<System>, n: nat)
    requires n < |states|
  {
    exists k | 0 <= k <= n :: states[k].m.refs == 0 && states[k].task
  }

  /** The flags say what happened. */
  lemma {:induction false} FlagsAreHistory(cfg: Config, states: seq<System>, events: seq<Event>, n: nat)
    requires IsRun(cfg, states, events) && n < |states|
    ensures states[n].dipped <==> Dipped(states, events, n)
    ensures states[n].outlived <==> Outlived(states, n)
  {
    hide Inv, Section, Defined;
    RunEnding(cfg, states, events, n);
    if n > 0 {
      FlagsAreHistory(cfg, states, events, n - 1);
      RunEnding(cfg, states, events, n - 1);
      assert StepTo(cfg, states[n - 1], events[n - 1], states[n]);
      assert states[n].outlived && !states[n - 1].outlived ==> states[n].m.refs == 0 && states[n].task;
    }
  }

  // ----- when the finishing task outlives the count

  /** Nothing is asked for or becomes pending any more. */
  ghost predicate Shut(s: System) {
    !s.m.ready && s.task && (s.m.pending != [] ==> s.m.acquiring > 0)
  }

  lemma FinishedFailsNone(cfg: Config, m: Manager, c: Call, draw: Draws)
    requires Defined(cfg, m, c) && Fair(draw) && c.Finished?
    ensures Section(cfg, m, c, draw).2 == []
  {
    hide StreamFinished;
  }

  /** What a step of a manager that is shutting down leaves as it is. */
  lemma ShutFrame(cfg: Config, s: System, e: Event)
    requires Inv(cfg, s) && Enabled(s, e) && StepDefined(cfg, s, e) && !s.m.ready
    ensures var s' := Next(cfg, s, e);
            && !s'.m.ready && s'.m.acquiring <= s.m.acquiring
            && (s.m.pending == [] ==> s'.m.pending == [] && s'.m.scheduled == s.m.scheduled)
            && (s'.task && s.m.acquiring == 0 ==> s.task && s'.m.pending == s.m.pending)
  {
    hide Section, Unlocked, Followed, Targets;
    assert Tallied(s);
    if e.Enter? {
      SectionOk(cfg, s, e.call, e.draw);
      NoNewWork(cfg, s, e.call, e.draw);
      var r := Section(cfg, s.m, e.call, e.draw);
      assert s.m.pending + [] == s.m.pending && Ids([]) == [] && r.2 + [] == r.2;
      assert s.m.pending == r.2 + r.0.pending;
      if e.call.Finished? {
        FinishedFailsNone(cfg, s.m, e.call, e.draw);
      }
    }
  }

  ghost predicate Releases(e: Event) {
    e.Enter? && e.call.ReleaseLast?
  }

  lemma ReleaseFrame(cfg: Config, s: System, e: Event)
    requires Inv(cfg, s) && Enabled(s, e) && StepDefined(cfg, s, e) && s.m.ready && !Next(cfg, s, e).m.ready
    ensures var s' := Next(cfg, s, e);
            && Releases(e) && s'.m.pending == s.m.pending && s'.m.acquiring == s.m.acquiring
            && s'.m.scheduled == (s.m.pending != []) && s'.task == (s.m.pending != [])
  {
    hide Section, Unlocked, Followed, Targets;
    assert Tallied(s);
    if e.Enter? {
      SectionOk(cfg, s, e.call, e.draw);
      var r := Section(cfg, s.m, e.call, e.draw);
      assert e.call.ReleaseLast?;
      ReleasedSection(cfg, s.m, e.draw);
    }
  }

  lemma ReleasedSection(cfg: Config, m: Manager, draw: Draws)
    requires Defined(cfg, m, ReleaseLast) && Fair(draw) && m.ready && !m.scheduled
    ensures Section(cfg, m, ReleaseLast, draw) ==
            (m.(ready := false, scheduled := m.pending != []), Work([], 0, None), [])
  {
  }

  /** A manager that is shutting down was released at one step, and what that step left bounds what may still happen. */
  lemma {:induction false} ReleasedBefore(cfg: Config, states: seq<System>, events: seq<Event>, n: nat) returns (k: nat)
    requires IsRun(cfg, states, events) && n < |states| && !states[n].m.ready
    ensures k < n && Releases(events[k]) && states[k].m.ready
    ensures states[k].m.pending == [] ==> !states[n].m.scheduled && states[n].m.pending == []
    ensures states[k].m.acquiring == 0 ==>
              states[n].m.acquiring == 0 && (states[n].task ==> states[n].m.pending == states[k].m.pending)
  {
    hide Inv, Next, Enabled, StepDefined;
    assert n > 0;
    RunInv(cfg, states, events, n - 1);
    assert StepTo(cfg, states[n - 1], events[n - 1], states[n]);
    if states[n - 1].m.ready {
      k := n - 1;
      ReleaseFrame(cfg, states[k], events[k]);
    } else {
      k := ReleasedBefore(cfg, states, events, n - 1);
      ShutFrame(cfg, states[n - 1], events[n - 1]);
    }
  }

  /**
   * If the count is zero with the finishing task still to come, the manager was released with something pending
   * and connections on their way.
   */
  lemma OutlivedOnlyIf(cfg: Config, states: seq<System>, events: seq<Event>, n: nat) returns (k: nat)
    requires IsRun(cfg, states, events) && n < |states| && states[n].m.refs == 0 && states[n].task
    ensures k < n && Releases(events[k]) && states[k].m.pending != [] && states[k].m.acquiring > 0
  {
    hide Unlocked, Followed, Targets, IsRun;
    RunInv(cfg, states, events, n);
    assert Tallied(states[n]);
    k := ReleasedBefore(cfg, states, events, n);
  }

  // ----- and whenever it was, it can happen

  function Lengths(ws: seq<seq<nat>>): nat {
    if ws == [] then 0 else 1 + |ws[|ws| - 1]| + Lengths(ws[..|ws| - 1])
  }

  /** What is still to be done without the finishing task. */
  function Left(s: System): nat {
    2 * |s.m.pending| + 2 * s.outstanding + 3 * |s.requests| + 2 * |s.streams| + Lengths(s.works)
  }

  lemma PushLengths(ws: seq<seq<nat>>, w: seq<nat>)
    ensures Lengths(ws + [w]) == Lengths(ws) + 1 + |w|
  {
    assert (ws + [w])[..|ws|] == ws;
  }

  lemma {:induction false} LengthsConcat(a: seq<seq<nat>>, b: seq<seq<nat>>)
    ensures Lengths(a + b) == Lengths(a) + Lengths(b)
    decreases |b|
  {
    if b == [] {
      assert a + b == a;
    } else {
      var front := b[..|b| - 1];
      assert a + b == (a + front) + [b[|b| - 1]];
      LengthsConcat(a, front);
      PushLengths(a + front, b[|b| - 1]);
    }
  }

  lemma FrontLengths(ws: seq<seq<nat>>, w: seq<nat>)
    requires ws != []
    ensures Lengths(ws) == 1 + |ws[0]| + Lengths(ws[1..])
    ensures Lengths(ws[0 := w]) == 1 + |w| + Lengths(ws[1..])
    ensures ws[..0] + ws[1..] == ws[1..]
  {
    assert ws == [ws[0]] + ws[1..] && ws[0 := w] == [w] + ws[1..];
    LengthsConcat([ws[0]], ws[1..]);
    LengthsConcat([w], ws[1..]);
    PushLengths([], ws[0]);
    PushLengths([], w);
    assert [] + [ws[0]] == [ws[0]] && [] + [w] == [w];
  }

  lemma WorkStep(cfg: Config, s: System) returns (e: Event, s': System)
    requires Inv(cfg, s) && Shut(s) && s.works != []
    ensures StepTo(cfg, s, e, s') && Shut(s') && Left(s') < Left(s)
  {
    hide Unlocked, Followed, Targets, Lengths;
    assert Tallied(s);
    var w := s.works[0];
    FrontLengths(s.works, if w == [] then [] else w[1..]);
    if w == [] {
      e, s' := CloseTransaction(0), Closed(s, 0);
    } else {
      e, s' := FailCallback(0), Called(s, 0);
    }
  }

  lemma RequestStep(cfg: Config, s: System) returns (e: Event, s': System)
    requires Inv(cfg, s) && Shut(s) && s.requests != []
    ensures StepTo(cfg, s, e, s') && Shut(s') && Left(s') < Left(s)
  {
    hide Unlocked, Followed, Targets, Lengths;
    assert Tallied(s);
    e, s' := RequestTask(0), Requested(s, 0);
  }

  lemma FailStep(cfg: Config, s: System) returns (e: Event, s': System)
    requires Inv(cfg, s) && Shut(s) && s.outstanding > 0
    ensures StepTo(cfg, s, e, s') && Shut(s') && Left(s') < Left(s)
  {
    hide Section, Unlocked, Followed, Targets, Lengths;
    SomeDrawsAreFair();
    var c, draw := Acquired(AcquireFailed), SomeDraws();
    SectionOk(cfg, s, c, draw);
    NoNewWork(cfg, s, c, draw);
    var r := Section(cfg, s.m, c, draw);
    e, s' := Enter(c, draw), Entered(s, c, r);
    PushLengths(s.works, r.2);
    assert s.m.pending + [] == (r.2 + []) + r.0.pending && |s.m.pending| == |r.2| + |r.0.pending|;
    assert s.requests + [] == s.requests && s.streams - multiset{} == s.streams;
    FailedFit(cfg, s.m, draw);
  }

  /** When no connection is on its way any more, nothing stays pending. */
  lemma FailedFit(cfg: Config, m: Manager, draw: Draws)
    requires Defined(cfg, m, Acquired(AcquireFailed)) && Fair(draw) && !m.ready
    ensures var m' := Section(cfg, m, Acquired(AcquireFailed), draw).0;
            m'.acquiring == 0 ==> m'.pending == []
  {
    hide PlaceAll, Ask;
  }

  lemma FinishStep(cfg: Config, s: System) returns (e: Event, s': System)
    requires Inv(cfg, s) && Shut(s) && s.streams != multiset{}
    ensures StepTo(cfg, s, e, s') && Shut(s') && Left(s') < Left(s)
  {
    hide Section, Unlocked, Followed, Targets, Lengths;
    SomeDrawsAreFair();
    var conn :| conn in s.streams;
    var c, draw := Finished(conn, false), SomeDraws();
    SectionOk(cfg, s, c, draw);
    NoNewWork(cfg, s, c, draw);
    FinishedFailsNone(cfg, s.m, c, draw);
    var r := Section(cfg, s.m, c, draw);
    e, s' := Enter(c, draw), Entered(s, c, r);
    PushLengths(s.works, r.2);
    assert s.m.pending + [] == s.m.pending && (r.2 + []) + r.0.pending == r.0.pending;
    assert Ids(r.1.made) == [] && r.0.pending == s.m.pending;
    assert s.requests + [] == s.requests;
    assert multiset{conn} <= s.streams && |s.streams - multiset{conn}| == |s.streams| - 1;
  }

  ghost predicate IsPath(cfg: Config, states: seq<System>, events: seq<Event>) {
    |states| == |events| + 1 && forall i | 0 <= i < |events| :: StepTo(cfg, states[i], events[i], states[i + 1])
  }

  /** From there, everything but the finishing task can run out. */
  lemma {:induction false} RunOut(cfg: Config, s: System) returns (states: seq<System>, events: seq<Event>)
    requires Inv(cfg, s) && Shut(s)
    ensures IsPath(cfg, states, events) && states[0] == s
    ensures states[|events|].m.refs == 0 && states[|events|].task
    decreases Left(s)
  {
    hide Inv, Left, StepTo;
    if s.works == [] && s.requests == [] && s.outstanding == 0 && s.streams == multiset{} {
      assert s.m.refs == 0 by { AllDone(cfg, s); }
      states, events := [s], [];
    } else {
      var e, s';
      if s.works != [] {
        e, s' := WorkStep(cfg, s);
      } else if s.requests != [] {
        e, s' := RequestStep(cfg, s);
      } else if s.outstanding > 0 {
        e, s' := FailStep(cfg, s);
      } else {
        e, s' := FinishStep(cfg, s);
      }
      StepToKeeps(cfg, s, e, s');
      var more, later := RunOut(cfg, s');
      states, events := [s] + more, [e] + later;
    }
  }

  lemma StepToKeeps(cfg: Config, s: System, e: Event, s': System)
    requires Inv(cfg, s) && StepTo(cfg, s, e, s')
    ensures Inv(cfg, s')
  {
    hide Inv, Next, Enabled, StepDefined;
    StepKeeps(cfg, s, e);
  }

  lemma AllDone(cfg: Config, s: System)
    requires Inv(cfg, s) && Shut(s) && s.works == [] && s.requests == [] && s.outstanding == 0 &&
             s.streams == multiset{}
    ensures s.m.refs == 0
  {
    hide Unlocked, Followed, Targets;
    assert Tallied(s);
  }

  lemma ReleaseStep(cfg: Config, s: System) returns (e: Event, s': System)
    requires Inv(cfg, s) && s.m.ready && s.m.pending != [] && s.m.acquiring > 0
    ensures Releases(e) && StepTo(cfg, s, e, s') && Inv(cfg, s') && Shut(s')
  {
    hide Section, Unlocked, Followed, Targets;
    SomeDrawsAreFair();
    assert Tallied(s);
    SectionOk(cfg, s, ReleaseLast, SomeDraws());
    ReleasedSection(cfg, s.m, SomeDraws());
    e, s' := Enter(ReleaseLast, SomeDraws()), Entered(s, ReleaseLast, Section(cfg, s.m, ReleaseLast, SomeDraws()));
    EnterKeeps(cfg, s, ReleaseLast, SomeDraws());
  }

  /**
   * Every run that has something pending and connections on their way goes on to one that releases
   * the manager next and ends with the count at zero and the finishing task still to come.
   */
  lemma OutlivedIf(cfg: Config, states: seq<System>, events: seq<Event>) returns (more: seq<System>, later: seq<Event>)
    requires IsRun(cfg, states, events)
    requires var s := states[|events|]; s.m.ready && s.m.pending != [] && s.m.acquiring > 0
    ensures IsRun(cfg, states + more, events + later)
    ensures later != [] && Releases(later[0]) && more != []
    ensures more[|more| - 1].m.refs == 0 && more[|more| - 1].task
  {
    hide Inv, StepTo, Shut;
    RunInv(cfg, states, events, |events|);
    var e, s' := ReleaseStep(cfg, states[|events|]);
    var path, steps := RunOut(cfg, s');
    more, later := path, [e] + steps;
    var ss, es := states + more, events + later;
    forall i | 0 <= i < |es| ensures StepTo(cfg, ss[i], es[i], ss[i + 1]) {
      if i > |events| {
        assert StepTo(cfg, path[i - |events| - 1], steps[i - |events| - 1], path[i - |events|]);
      }
    }
  }
}
