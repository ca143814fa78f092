/**
 * Who has the connections: over every run of the connection manager each connection that was set up is idle, handed
 * to the user, waiting for the peer's settings, in a transaction that will release it, or released, and only one of
 * these.
 */
module ConnectionCustody {
  import opened Octets
  import opened Sequences
  import opened ConnectionManager
  import opened ConnectionManagerRuns

  /**
   * What is known of the connections from outside the manager: those that were set up, those whose settings are
   * awaited, those handed to the user and not given back, and how often each was released.
   */
  datatype Ledger = Ledger(known: set<nat>, awaited: multiset<nat>, lent: multiset<nat>, released: multiset<nat>)

  const NOTHING := Ledger({}, multiset{}, multiset{}, multiset{})

  /** The connections that completions hand to the user. */
  function Handed(cs: seq<Completion>): multiset<nat> {
    if cs == [] then multiset{}
    else Handed(cs[..|cs| - 1]) + (if cs[|cs| - 1].Success? then multiset{cs[|cs| - 1].conn} else multiset{})
  }

  /** The connections that live transactions will release. */
  function Leaving(ws: seq<Work>): multiset<nat> {
    if ws == [] then multiset{} else Leaving(ws[..|ws| - 1]) + multiset(ws[|ws| - 1].releases)
  }

  function Resting(idle: seq<Idle>): multiset<nat> {
    multiset(Conns(idle))
  }

  /**
   * Connections are set up once, settings are those of a connection that awaits them, and what is given back
   * was lent.
   */
  predicate Proper(l: Ledger, e: Event) {
    match e
    case Enter(OnSetup(Http1(conn), _)) => conn !in l.known
    case Enter(OnSetup(Http2(conn), _)) => conn !in l.known
    case Enter(OnSettings(conn, _, _)) => conn in l.awaited
    case Enter(Release(conn, _)) => conn in l.lent
    case _ => true
  }

  /** The ledger after a call whose transaction makes these completions. */
  function Booked(l: Ledger, c: Call, cs: seq<Completion>): Ledger {
    var l1 := l.(lent := l.lent + Handed(cs));
    match c
    case OnSetup(Http1(conn), _) => l1.(known := l.known + {conn})
    case OnSetup(Http2(conn), _) => l1.(known := l.known + {conn}, awaited := l.awaited + multiset{conn})
    case OnSettings(conn, _, _) => l1.(awaited := l.awaited - multiset{conn})
    case Release(conn, _) => l1.(lent := l.lent - multiset{conn} + Handed(cs))
    case _ => l1
  }

  /** What a step does to the ledger, as seen from the transactions before and after it. */
  function Follow(l: Ledger, s: System, e: Event, s': System): Ledger {
    match e
    case Enter(c) => if |s'.works| > |s.works| then Booked(l, c, s'.works[|s.works|].completions) else l
    case Execute(k, _) => if k < |s.works| then l.(released := l.released + multiset(s.works[k].releases)) else l
    case _ => l
  }

  /** In how many places a connection is. */
  function Places(l: Ledger, s: System, conn: nat): nat {
    Resting(s.m.idle)[conn] + l.lent[conn] + l.awaited[conn] + Leaving(s.works)[conn] + l.released[conn]
  }

  ghost predicate Custody(l: Ledger, s: System) {
    && (forall conn: nat :: Places(l, s, conn) == Bit(conn in l.known))
    && |l.lent| == s.m.vended && |l.awaited| == s.m.settings
  }

  // ----- sums

  lemma {:induction false} HandedConcat(cs: seq<Completion>, more: seq<Completion>)
    ensures Handed(cs + more) == Handed(cs) + Handed(more)
    decreases |more|
  {
    var all := cs + more;
    if more == [] {
      assert all == cs;
    } else {
      assert all[..|all| - 1] == cs + more[..|more| - 1];
      HandedConcat(cs, more[..|more| - 1]);
    }
  }

  lemma {:induction false} HandedFailures(cs: seq<Completion>)
    requires AllFailures(cs)
    ensures Handed(cs) == multiset{}
  {
    if cs != [] {
      assert cs[|cs| - 1] in cs;
      HandedFailures(cs[..|cs| - 1]);
    }
  }

  lemma {:induction false} HandedSuccesses(ids: seq<nat>, idle: seq<Idle>)
    requires |ids| == |idle|
    ensures Handed(Successes(ids, idle)) == Resting(idle)
    decreases |ids|
  {
    hide Handed, Resting;
    if ids == [] {
      NoneHanded(idle);
    } else {
      HandedSuccesses(ids[..|ids| - 1], idle[1..]);
      HandedPush(Successes(ids[..|ids| - 1], idle[1..]), Success(ids[|ids| - 1], idle[0].conn));
      RestingFirst(idle);
    }
  }

  lemma NoneHanded(idle: seq<Idle>)
    ensures Handed([]) == multiset{} && (idle == [] ==> Resting(idle) == multiset{})
  {
  }

  lemma HandedPush(cs: seq<Completion>, c: Completion)
    ensures Handed(cs + [c]) == Handed(cs) + if c.Success? then multiset{c.conn} else multiset{}
  {
    assert (cs + [c])[..|cs|] == cs;
  }

  lemma RestingFirst(idle: seq<Idle>)
    requires idle != []
    ensures Resting(idle) == Resting(idle[1..]) + multiset{idle[0].conn}
  {
    assert Conns(idle) == [idle[0].conn] + Conns(idle[1..]);
  }

  lemma RestingConcat(a: seq<Idle>, b: seq<Idle>)
    ensures Resting(a + b) == Resting(a) + Resting(b)
  {
    assert Conns(a + b) == Conns(a) + Conns(b);
  }

  lemma LeavingPush(ws: seq<Work>, w: Work)
    ensures Leaving(ws + [w]) == Leaving(ws) + multiset(w.releases)
  {
    assert (ws + [w])[..|ws|] == ws;
  }

  lemma {:induction false} LeavingUpdate(ws: seq<Work>, k: nat, w: Work)
    requires k < |ws| && w.releases == ws[k].releases
    ensures Leaving(ws[k := w]) == Leaving(ws)
    decreases |ws|
  {
    var n := |ws| - 1;
    if k < n {
      assert ws[k := w][..n] == ws[..n][k := w];
      LeavingUpdate(ws[..n], k, w);
    } else {
      assert ws[k := w][..n] == ws[..n];
    }
  }

  lemma {:induction false} LeavingWithout(ws: seq<Work>, k: nat)
    requires k < |ws|
    ensures Leaving(ws) == Leaving(ws[..k] + ws[k + 1..]) + multiset(ws[k].releases)
    decreases |ws|
  {
    hide Leaving;
    var n := |ws| - 1;
    var front, last := ws[..n], ws[n];
    assert ws == front + [last];
    LeavingPush(front, last);
    if k < n {
      LeavingWithout(front, k);
      LeavingPush(front[..k] + front[k + 1..], last);
      OthersPush(front, last, k);
    } else {
      assert ws[..k] + ws[k + 1..] == front;
    }
  }

  lemma OthersPush(ws: seq<Work>, w: Work, k: nat)
    requires k < |ws|
    ensures (ws + [w])[..k] + (ws + [w])[k + 1..] == (ws[..k] + ws[k + 1..]) + [w]
  {
  }

  // ----- what a critical section does with connections

  /** The connection that a call brings back to the manager, to keep, to hand on or to release. */
  function Coming(c: Call): multiset<nat> {
    match c
    case OnSetup(Http1(conn), _) => multiset{conn}
    case OnSettings(conn, _, _) => multiset{conn}
    case Release(conn, _) => multiset{conn}
    case _ => multiset{}
  }

  /** No connection is lost or doubled: what was idle or came is idle, handed to the user, or to be released. */
  ghost predicate Conserves(m: Manager, coming: multiset<nat>, r: (Manager, Work)) {
    && Resting(m.idle) + coming == Resting(r.0.idle) + Handed(r.1.completions) + multiset(r.1.releases)
    && r.0.vended == m.vended + |Handed(r.1.completions)|
  }

  lemma BuildConserves(cfg: Config, m: Manager, cs: seq<Completion>, rs: seq<nat>)
    requires BuildAsserts(cfg, m) && AllFailures(cs)
    ensures Conserves(m, multiset(rs), Build(cfg, m, cs, rs))
  {
    hide Successes, Failures, Resting, Handed, Conns;
    HandedFailures(cs);
    if m.ready {
      var n := Min(|m.idle|, |m.waiting|);
      var oldest, newest := m.waiting[..n], m.idle[|m.idle| - n..];
      HandedConcat(cs, Successes(oldest, newest));
      HandedSuccesses(oldest, newest);
      assert m.idle[..|m.idle| - n] + newest == m.idle;
      RestingConcat(m.idle[..|m.idle| - n], newest);
      RestingSize(newest);
    } else {
      FailAllEffect(m, 0, cs);
      HandedFailures(FailAll(m, 0, cs).1);
      AllReleased(m.idle, rs);
    }
  }

  lemma RestingSize(idle: seq<Idle>)
    ensures |Resting(idle)| == |idle|
  {
  }

  lemma AllReleased(idle: seq<Idle>, rs: seq<nat>)
    ensures Resting(idle) + multiset(rs) == Resting([]) + multiset(rs + Conns(idle))
  {
    assert multiset(rs + Conns(idle)) == multiset(rs) + multiset(Conns(idle));
  }

  lemma {:induction false} RemoveConserves(idle: seq<Idle>, conn: nat)
    ensures var (rest, found) := Remove(idle, conn);
            Resting(idle) == Resting(rest) + multiset(if found then [conn] else [])
  {
    if idle != [] {
      var rest := Remove(idle[1..], conn).0;
      RestingConcat([idle[0]], idle[1..]);
      assert [idle[0]] + idle[1..] == idle;
      assert Resting([idle[0]]) == multiset{idle[0].conn};
      if idle[0].conn != conn {
        RemoveConserves(idle[1..], conn);
        RestingConcat([idle[0]], rest);
      }
    }
  }

  lemma BecomeIdleConserves(cfg: Config, m: Manager, conn: nat, now: nat)
    requires |m.idle| + 1 + m.vended + m.connecting + m.settings <= cfg.maxConnections
    ensures Conserves(m, multiset{conn}, BecomeIdle(cfg, m, conn, now))
  {
    hide Build, Handed, Conns;
    var m1 := PushIdle(cfg, m, conn, now);
    BoundGivesRoom(cfg, m1);
    BuildConserves(cfg, m1, [], []);
    RestingConcat(m.idle, [Idle(conn, now + cfg.idleTime)]);
    OneResting(Idle(conn, now + cfg.idleTime));
  }

  lemma OneResting(i: Idle)
    ensures Resting([i]) == multiset{i.conn}
  {
  }

  lemma ReadyOrFailedConserves(cfg: Config, m: Manager, error: bool, conn: seq<nat>, usable: bool, now: nat)
    requires |m.idle| + 1 + m.vended + m.connecting + m.settings <= cfg.maxConnections
    requires |conn| <= 1 && (!error ==> |conn| == 1)
    ensures Conserves(m, multiset(conn), ReadyOrFailed(cfg, m, error, conn, usable, now))
  {
    hide Build, FailAll, Handed, Resting;
    BoundGivesRoom(cfg, m);
    if error {
      var limit := m.connecting + m.settings;
      FailAllEffect(m, limit, []);
      var (m1, cs) := FailAll(m, limit, []);
      BoundGivesRoom(cfg, m1);
      BuildConserves(cfg, m1, cs, conn);
    } else if m.ready && usable {
      BecomeIdleConserves(cfg, m, conn[0], now);
      assert conn == [conn[0]];
    } else {
      BuildConserves(cfg, m, [], conn);
    }
  }

  /** Removing an idle connection and releasing it. */
  lemma RemovalConserves(cfg: Config, m: Manager, m1: Manager, conn: nat)
    requires WithinMax(cfg, m)
    requires var (idle, found) := Remove(m.idle, conn); m1 == m.(idle := idle, open := m1.open, refs := m1.refs)
    ensures var rs := if Remove(m.idle, conn).1 then [conn] else [];
            BuildAsserts(cfg, m1) && Conserves(m, multiset{}, Build(cfg, m1, [], rs))
  {
    hide Build, Handed, Resting, BuildAsserts;
    var (idle, found) := Remove(m.idle, conn);
    RemoveShrinks(m.idle, conn);
    RemoveConserves(m.idle, conn);
    BoundGivesRoom(cfg, m1);
    BuildConserves(cfg, m1, [], if found then [conn] else []);
  }

  ghost predicate SectionConserves(m: Manager, c: Call, r: (Manager, Work)) {
    && Resting(m.idle) + Coming(c) == Resting(r.0.idle) + Handed(r.1.completions) + multiset(r.1.releases)
    && r.0.vended + Bit(c.Release?) == m.vended + |Handed(r.1.completions)|
    && r.0.settings + Bit(c.OnSettings?) == m.settings + Bit(c.OnSetup? && c.result.Http2?)
  }

  /** Building a transaction waits for no other settings. */
  lemma BuildSettings(cfg: Config, m: Manager, cs: seq<Completion>, rs: seq<nat>)
    requires BuildAsserts(cfg, m)
    ensures Build(cfg, m, cs, rs).0.settings == m.settings
  {
  }

  lemma ReadyOrFailedSettings(cfg: Config, m: Manager, error: bool, conn: seq<nat>, usable: bool, now: nat)
    requires |m.idle| + 1 + m.vended + m.connecting + m.settings <= cfg.maxConnections
    requires |conn| <= 1 && (!error ==> |conn| == 1)
    ensures ReadyOrFailed(cfg, m, error, conn, usable, now).0.settings == m.settings
  {
  }

  /** A connection whose settings are awaited is nowhere else yet. */
  lemma AwaitConserves(cfg: Config, m: Manager, conn: nat, usable: bool, now: nat)
    requires WithinMax(cfg, m) && m.connecting > 0
    ensures SectionConserves(m, OnSetup(Http2(conn), usable), ConnectionSetup(cfg, m, Http2(conn), usable, now))
  {
    hide Build, ReadyOrFailed, Handed, Resting, BuildAsserts;
    var m1 := Open(m).(connecting := m.connecting - 1, refs := m.refs);
    var m2 := m1.(open := m1.open + 1, refs := m1.refs + 1);
    var m3 := m2.(settings := m2.settings + 1);
    BoundGivesRoom(cfg, m3);
    BuildConserves(cfg, m3, [], []);
    BuildSettings(cfg, m3, [], []);
  }

  lemma SetupConserves(cfg: Config, m: Manager, r: Setup, usable: bool, now: nat)
    requires WithinMax(cfg, m) && m.connecting > 0
    ensures SectionConserves(m, OnSetup(r, usable), ConnectionSetup(cfg, m, r, usable, now))
  {
    hide Build, ReadyOrFailed, Handed, Resting;
    var m1 := Open(m).(connecting := m.connecting - 1, refs := m.refs);
    var m2 := m1.(open := m1.open + 1, refs := m1.refs + 1);
    match r {
      case Failed =>
        ReadyOrFailedConserves(cfg, m1, true, [], usable, now);
        ReadyOrFailedSettings(cfg, m1, true, [], usable, now);
      case Http1(conn) =>
        ReadyOrFailedConserves(cfg, m2, false, [conn], usable, now);
        ReadyOrFailedSettings(cfg, m2, false, [conn], usable, now);
      case Http2(conn) => AwaitConserves(cfg, m, conn, usable, now);
    }
  }

  lemma ReleaseConserves(cfg: Config, m: Manager, conn: nat, usable: bool, now: nat)
    requires WithinMax(cfg, m) && m.vended > 0
    ensures SectionConserves(m, Release(conn, usable), ReleaseConnection(cfg, m, conn, usable, now))
  {
    hide Build, Handed, Resting, BuildAsserts;
    var m1 := Open(m).(vended := m.vended - 1, refs := m.refs);
    BoundGivesRoom(cfg, m1);
    if usable {
      BecomeIdleConserves(cfg, m1, conn, now);
      BoundGivesRoom(cfg, PushIdle(cfg, m1, conn, now));
      BuildSettings(cfg, PushIdle(cfg, m1, conn, now), [], []);
    } else {
      BuildConserves(cfg, m1, [], [conn]);
      BuildSettings(cfg, m1, [], [conn]);
    }
  }

  lemma GoawayConserves(cfg: Config, m: Manager, conn: nat)
    requires WithinMax(cfg, m)
    ensures SectionConserves(m, OnGoaway(conn), Goaway(cfg, m, conn))
    ensures m.open > 0 ==> SectionConserves(m, OnShutdown(conn), ConnectionShutdown(cfg, m, conn))
  {
    hide Build, Handed, Resting, BuildAsserts;
    var (idle, found) := Remove(m.idle, conn);
    var rs := if found then [conn] else [];
    RemovalConserves(cfg, m, Open(m).(idle := idle), conn);
    BuildSettings(cfg, Open(m).(idle := idle), [], rs);
    if m.open > 0 {
      var m1 := Open(m).(idle := idle, open := m.open - 1, refs := m.refs);
      RemovalConserves(cfg, m, m1, conn);
      BuildSettings(cfg, m1, [], rs);
    }
  }

  lemma ReleaseReferenceConserves(cfg: Config, m: Manager)
    requires WithinMax(cfg, m)
    ensures SectionConserves(m, ReleaseReference, ReleaseManager(cfg, m))
  {
    hide Build, Resting, BuildAsserts;
    var m1 := Open(m).(external := 0, ready := false);
    BoundGivesRoom(cfg, m1);
    BuildConserves(cfg, m1, [], []);
    BuildSettings(cfg, m1, [], []);
  }

  lemma CullConserves(m: Manager, now: nat)
    ensures SectionConserves(m, CullIdle(now), Cull(m, now))
  {
    hide Conns;
    var n := if m.ready then Expired(m.idle, now) else 0;
    assert m.idle[..n] + m.idle[n..] == m.idle;
    RestingConcat(m.idle[..n], m.idle[n..]);
  }

  /** In every critical section, no connection is lost or doubled. */
  lemma AnswerConserves(cfg: Config, s: System, c: Call)
    requires Allowed(s, c) && Defined(cfg, s.m, c)
    ensures SectionConserves(s.m, c, Answer(cfg, s.m, s.clock, c))
  {
    hide Build, Handed, Resting, ReleaseManager, ReleaseConnection, Goaway, ConnectionSetup, ReadyOrFailed,
         ConnectionShutdown, Cull;
    match c {
      case Acquire(id) =>
        var m1 := Open(s.m).(waiting := s.m.waiting + [id]);
        BoundGivesRoom(cfg, m1);
        BuildConserves(cfg, m1, [], []);
        BuildSettings(cfg, m1, [], []);
      case ReleaseReference => ReleaseReferenceConserves(cfg, s.m);
      case Release(conn, usable) => ReleaseConserves(cfg, s.m, conn, usable, s.clock);
      case OnGoaway(conn) => GoawayConserves(cfg, s.m, conn);
      case OnSetup(r, usable) => SetupConserves(cfg, s.m, r, usable, s.clock);
      case OnSettings(conn, error, usable) =>
        var m1 := Open(s.m).(settings := s.m.settings - 1);
        ReadyOrFailedConserves(cfg, m1, error, [conn], usable, s.clock);
        ReadyOrFailedSettings(cfg, m1, error, [conn], usable, s.clock);
      case OnShutdown(conn) => GoawayConserves(cfg, s.m, conn);
      case CullIdle(now) => CullConserves(s.m, now);
    }
  }

  // ----- every step

  /** What a call does to the ledger, connection by connection. */
  lemma BookedAt(l: Ledger, c: Call, cs: seq<Completion>, conn: nat)
    requires Proper(l, Enter(c))
    ensures var l' := Booked(l, c, cs);
            && l'.lent[conn] + l'.awaited[conn] + Coming(c)[conn] + Bit(conn in l.known) ==
               l.lent[conn] + l.awaited[conn] + Handed(cs)[conn] + Bit(conn in l'.known)
            && l'.released == l.released
  {
    hide Handed;
  }

  lemma EnterPlaces(l: Ledger, s: System, c: Call, r: (Manager, Work), conn: nat)
    requires Places(l, s, conn) == Bit(conn in l.known) && Proper(l, Enter(c)) && SectionConserves(s.m, c, r)
    requires Used(c) <= s.inflight && Leaving(Entered(s, c, r).works) == Leaving(s.works) + multiset(r.1.releases)
    ensures var l' := Booked(l, c, r.1.completions); Places(l', Entered(s, c, r), conn) == Bit(conn in l'.known)
  {
    hide Handed, Resting, Leaving, Booked, Proper, Coming, Ids, Used;
    BookedAt(l, c, r.1.completions, conn);
    assert (Resting(s.m.idle) + Coming(c))[conn] ==
           (Resting(r.0.idle) + Handed(r.1.completions) + multiset(r.1.releases))[conn];
  }

  lemma EnterCounts(l: Ledger, s: System, c: Call, r: (Manager, Work))
    requires |l.lent| == s.m.vended && |l.awaited| == s.m.settings && Proper(l, Enter(c))
    requires SectionConserves(s.m, c, r)
    ensures var l' := Booked(l, c, r.1.completions); |l'.lent| == r.0.vended && |l'.awaited| == r.0.settings
  {
    hide Handed, Resting;
  }

  lemma EnterKeepsCustody(l: Ledger, s: System, c: Call, r: (Manager, Work))
    requires Custody(l, s) && Allowed(s, c) && Used(c) <= s.inflight && Proper(l, Enter(c))
    requires SectionConserves(s.m, c, r)
    ensures Custody(Booked(l, c, r.1.completions), Entered(s, c, r))
  {
    hide Handed, Resting, Ids, Leaving, SectionConserves, Booked, Places, Allowed, Proper;
    LeavingPush(s.works, r.1);
    EnterCounts(l, s, c, r);
    var l', s' := Booked(l, c, r.1.completions), Entered(s, c, r);
    forall conn: nat ensures Places(l', s', conn) == Bit(conn in l'.known) {
      EnterPlaces(l, s, c, r, conn);
    }
  }

  /** Whatever happens next, each connection stays in one place. */
  lemma StepKeepsCustody(cfg: Config, l: Ledger, s: System, e: Event)
    requires Custody(l, s) && Enabled(s, e) && StepDefined(cfg, s, e) && Proper(l, e)
    ensures Custody(Follow(l, s, e, Next(cfg, s, e)), Next(cfg, s, e))
  {
    hide Answer, Resting, Leaving, Booked;
    match e {
      case Enter(c) =>
        AnswerConserves(cfg, s, c);
        EnterKeepsCustody(l, s, c, Answer(cfg, s.m, s.clock, c));
      case IssueConnect(k, ok) =>
        LeavingUpdate(s.works, k, Next(cfg, s, e).works[k]);
        SamePlaces(l, s, Next(cfg, s, e));
      case RetakeLock(k) =>
        LeavingUpdate(s.works, k, Next(cfg, s, e).works[k]);
        SamePlaces(l, s, Next(cfg, s, e));
      case Execute(k, _) => ExecuteKeepsCustody(cfg, l, s, e);
      case _ => SamePlaces(l, s, Next(cfg, s, e));
    }
  }

  lemma SamePlaces(l: Ledger, s: System, s': System)
    requires Custody(l, s) && Leaving(s'.works) == Leaving(s.works)
    requires s'.m.idle == s.m.idle && s'.m.vended == s.m.vended && s'.m.settings == s.m.settings
    ensures Custody(l, s')
  {
    hide Leaving, Resting;
    forall conn: nat ensures Places(l, s', conn) == Bit(conn in l.known) {
      assert Places(l, s, conn) == Bit(conn in l.known);
    }
  }

  lemma ExecuteKeepsCustody(cfg: Config, l: Ledger, s: System, e: Event)
    requires Custody(l, s) && Enabled(s, e) && e.Execute? && StepDefined(cfg, s, e)
    ensures Custody(Follow(l, s, e, Next(cfg, s, e)), Next(cfg, s, e))
  {
    hide Leaving, Resting, Dispatch;
    var l', s' := Follow(l, s, e, Next(cfg, s, e)), Next(cfg, s, e);
    LeavingWithout(s.works, e.k);
    forall conn: nat ensures Places(l', s', conn) == Bit(conn in l'.known) {
      assert Places(l, s, conn) == Bit(conn in l.known);
    }
  }

  // ----- runs

  /** A run with its ledger. */
  ghost predicate IsKeptRun(cfg: Config, states: seq<System>, events: seq<Event>, ledgers: seq<Ledger>) {
    && IsRun(cfg, states, events) && |ledgers| == |states| && ledgers[0] == NOTHING
    && forall i | 0 <= i < |events| ::
         Proper(ledgers[i], events[i]) && ledgers[i + 1] == Follow(ledgers[i], states[i], events[i], states[i + 1])
  }

  /**
   * At every point of every run each connection that was set up is in exactly one place: idle, lent to the user,
   * awaiting settings, in the releases of a live transaction, or released.
   */
  lemma {:induction false} InOnePlace(cfg: Config, states: seq<System>, events: seq<Event>, ledgers: seq<Ledger>,
                                      n: nat)
    requires IsKeptRun(cfg, states, events, ledgers) && n < |states|
    ensures Custody(ledgers[n], states[n])
  {
    hide Next, Follow, Places;
    if n == 0 {
      NothingKept(cfg, states[0]);
    } else {
      InOnePlace(cfg, states, events, ledgers, n - 1);
      assert StepTo(cfg, states[n - 1], events[n - 1], states[n]);
      StepKeepsCustody(cfg, ledgers[n - 1], states[n - 1], events[n - 1]);
    }
  }

  lemma NothingKept(cfg: Config, s: System)
    requires Start(cfg, s)
    ensures Custody(NOTHING, s)
  {
    assert Conns([]) == [];
  }

  /**
   * Once the manager is shutting down and no transaction is live, every connection that is neither lent nor awaited
   * has been released, exactly once; and when the last count is gone, all of them have.
   */
  lemma AllReleasedOnce(cfg: Config, states: seq<System>, events: seq<Event>, ledgers: seq<Ledger>, n: nat, conn: nat)
    requires IsKeptRun(cfg, states, events, ledgers) && n < |states| && conn in ledgers[n].known
    ensures var l, s := ledgers[n], states[n];
            && (!s.m.ready && s.works == [] && conn !in l.lent && conn !in l.awaited ==> l.released[conn] == 1)
            && (s.m.refs == 0 ==> l.released[conn] == 1)
            && (l.released[conn] > 0 ==> l.released[conn] == 1 && conn !in l.lent && conn !in Conns(s.m.idle))
  {
    var l, s := ledgers[n], states[n];
    InOnePlace(cfg, states, events, ledgers, n);
    RunInv(cfg, states, events, n);
    assert Places(l, s, conn) == 1;
    if !s.m.ready {
      assert Conns(s.m.idle) == [];
    }
  }
}
