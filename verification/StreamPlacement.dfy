/**
 * What the stream manager's placement of streams on connections keeps: the sets
 * agree with the loads, the loads agree with the requests and streams, and
 * nothing pending is stranded.
 */
module StreamPlacement {
  import opened Octets
  import opened StreamManager

  function Max(a: nat, b: nat): nat {
    if a < b then b else a
  }

  // ----- the connections of a list of requests

  function Targets(rs: seq<Request>): multiset<nat> {
    if rs == [] then multiset{} else Targets(rs[..|rs| - 1]) + multiset{rs[|rs| - 1].conn}
  }

  function Ids(rs: seq<Request>): (ids: seq<nat>)
    ensures |ids| == |rs|
  {
    if rs == [] then [] else Ids(rs[..|rs| - 1]) + [rs[|rs| - 1].id]
  }

  lemma PushRequest(rs: seq<Request>, r: Request)
    ensures Targets(rs + [r]) == Targets(rs) + multiset{r.conn}
    ensures Ids(rs + [r]) == Ids(rs) + [r.id]
  {
    assert (rs + [r])[..|rs|] == rs;
  }

  lemma {:induction false} TargetsConcat(a: seq<Request>, b: seq<Request>)
    ensures Targets(a + b) == Targets(a) + Targets(b)
    decreases |b|
  {
    if b == [] {
      assert a + b == a;
    } else {
      var front := b[..|b| - 1];
      assert a + b == (a + front) + [b[|b| - 1]];
      TargetsConcat(a, front);
      PushRequest(a + front, b[|b| - 1]);
    }
  }

  lemma {:induction false} IdsConcat(a: seq<Request>, b: seq<Request>)
    ensures Ids(a + b) == Ids(a) + Ids(b)
    decreases |b|
  {
    if b == [] {
      assert a + b == a;
    } else {
      var front := b[..|b| - 1];
      assert a + b == (a + front) + [b[|b| - 1]];
      IdsConcat(a, front);
      PushRequest(a + front, b[|b| - 1]);
      Regroup(Ids(a), Ids(front), [b[|b| - 1].id]);
    }
  }

  lemma Regroup(a: seq<nat>, b: seq<nat>, c: seq<nat>)
    ensures (a + b) + c == a + (b + c)
  {
  }

  lemma {:induction false} TargetsSize(rs: seq<Request>)
    ensures |Targets(rs)| == |rs|
    decreases |rs|
  {
    if rs != [] {
      TargetsSize(rs[..|rs| - 1]);
    }
  }

  /** One request taken out of a list. */
  lemma RemoveRequest(rs: seq<Request>, k: nat)
    requires k < |rs|
    ensures var others := rs[..k] + rs[k + 1..];
            && Targets(rs) == Targets(others) + multiset{rs[k].conn}
            && multiset(Ids(rs)) == multiset(Ids(others)) + multiset{rs[k].id}
  {
    hide Targets, Ids;
    var a, r, b := rs[..k], rs[k], rs[k + 1..];
    assert rs == (a + [r]) + b;
    TargetsConcat(a + [r], b);
    IdsConcat(a + [r], b);
    PushRequest(a, r);
    TargetsConcat(a, b);
    IdsConcat(a, b);
  }

  // ----- what placement keeps

  /** A tier says how a connection's load stands against its limits. */
  predicate InTier(cfg: Config, k: Conn) {
    match k.tier
    case Ideal => k.load < cfg.idealStreams && k.load < Max(k.limit, 1)
    case NearlyFull => cfg.idealStreams <= k.load < k.limit
    case Full => k.load >= k.limit
  }

  /** An available connection is in the set that its tier names, an unavailable one in neither; none is overloaded. */
  predicate ConnOk(cfg: Config, k: Conn, gone: bool, ideal: bool, nonideal: bool) {
    && k.load <= Max(k.limit, 1)
    && (gone ==> !ideal && !nonideal)
    && (!gone ==> InTier(cfg, k) && (ideal <==> k.tier == Ideal) && (nonideal <==> k.tier == NearlyFull))
  }

  ghost predicate Placed(cfg: Config, m: Manager, gone: set<nat>) {
    && Drawable(m) && gone <= m.conns.Keys
    && forall c | c in m.conns :: ConnOk(cfg, m.conns[c], c in gone, c in m.ideal, c in m.nonideal)
  }

  /** Loads count exactly the requests and streams on each connection held, and there are none on others. */
  ghost predicate Loaded(m: Manager, loads: multiset<nat>) {
    && (forall c | c in m.conns :: m.conns[c].load == loads[c])
    && (forall c | c in loads :: c in m.conns)
  }

  /** A pending acquisition means no connection may take it, and enough are on their way or no more may be asked for. */
  predicate NotStranded(cfg: Config, m: Manager)
    requires ValidConfig(cfg)
  {
    m.pending != [] ==>
      && m.ideal == {}
      && (m.holding == cfg.maxConnections ==> m.nonideal == {})
      && (m.acquiring >= Ceil(|m.pending|, cfg.idealStreams) || m.holding + m.acquiring == cfg.maxConnections)
  }

  ghost predicate LoadsGrow(m: Manager, m': Manager) {
    m'.conns.Keys == m.conns.Keys && forall c | c in m.conns :: m.conns[c].load <= m'.conns[c].load
  }

  // ----- one placement

  lemma ChoiceIsCandidate(cfg: Config, m: Manager, draw: Draws, k: nat)
    requires Drawable(m) && Candidates(cfg, m) != {} && Fair(draw)
    ensures Choice(cfg, m, draw, k) in Candidates(cfg, m)
  {
  }

  lemma AssignKeepsConn(cfg: Config, m: Manager, gone: set<nat>, c: nat)
    requires ValidConfig(cfg) && Placed(cfg, m, gone) && c in Candidates(cfg, m)
    ensures var m' := Assign(cfg, m, c);
            && m'.conns.Keys == m.conns.Keys && m'.conns[c].load == m.conns[c].load + 1
            && c !in gone
            && ConnOk(cfg, m'.conns[c], false, c in m'.ideal, c in m'.nonideal)
  {
    assert ConnOk(cfg, m.conns[c], c in gone, c in m.ideal, c in m.nonideal);
  }

  /** A placement touches no other connection. */
  lemma AssignFrame(cfg: Config, m: Manager, c: nat, d: nat)
    requires c in m.conns && d in m.conns && d != c
    ensures var m' := Assign(cfg, m, c);
            m'.conns[d] == m.conns[d] && (d in m'.ideal <==> d in m.ideal) && (d in m'.nonideal <==> d in m.nonideal)
  {
  }

  lemma PlaceKeepsPlaced(cfg: Config, m: Manager, gone: set<nat>, c: nat)
    requires ValidConfig(cfg) && Placed(cfg, m, gone) && c in Candidates(cfg, m) && m.pending != []
    ensures Placed(cfg, Place(cfg, m, c), gone)
  {
    hide ConnOk, Assign;
    AssignKeepsConn(cfg, m, gone, c);
    var m' := Place(cfg, m, c);
    forall d | d in m'.conns
      ensures ConnOk(cfg, m'.conns[d], d in gone, d in m'.ideal, d in m'.nonideal)
    {
      if d != c {
        AssignFrame(cfg, m, c, d);
        assert ConnOk(cfg, m.conns[d], d in gone, d in m.ideal, d in m.nonideal);
      }
    }
  }

  lemma PlaceKeepsLoaded(cfg: Config, m: Manager, loads: multiset<nat>, c: nat)
    requires Loaded(m, loads) && c in m.conns && m.pending != []
    ensures var m' := Place(cfg, m, c);
            Loaded(m', loads + multiset{c}) && LoadsGrow(m, m') && m'.conns[c].load > 0
  {
    hide Assign;
    var m' := Place(cfg, m, c);
    assert m'.conns[c].load == m.conns[c].load + 1 by { AssignLoad(cfg, m, c); }
    forall d | d in m'.conns ensures m'.conns[d].load == (loads + multiset{c})[d] &&
        m'.conns[d].load >= m.conns[d].load {
      if d != c {
        AssignFrame(cfg, m, c, d);
      }
    }
  }

  lemma AssignLoad(cfg: Config, m: Manager, c: nat)
    requires c in m.conns
    ensures Assign(cfg, m, c).conns.Keys == m.conns.Keys && Assign(cfg, m, c).conns[c].load == m.conns[c].load + 1
  {
  }

  lemma PlaceKeeps(cfg: Config, m: Manager, gone: set<nat>, loads: multiset<nat>, c: nat)
    requires ValidConfig(cfg) && Placed(cfg, m, gone) && Loaded(m, loads) && c in Candidates(cfg, m) && m.pending != []
    ensures var m' := Place(cfg, m, c);
            Placed(cfg, m', gone) && Loaded(m', loads + multiset{c}) && LoadsGrow(m, m') && m'.conns[c].load > 0
  {
    PlaceKeepsPlaced(cfg, m, gone, c);
    PlaceKeepsLoaded(cfg, m, loads, c);
  }

  // ----- the placement loop

  lemma {:induction false} PlaceAllKeeps(cfg: Config, m: Manager, gone: set<nat>, loads: multiset<nat>, draw: Draws,
                                         made: seq<Request>)
    requires ValidConfig(cfg) && Fair(draw) && Placed(cfg, m, gone) && Loaded(m, loads + Targets(made))
    ensures var (m', made') := PlaceAll(cfg, m, draw, made);
            && Placed(cfg, m', gone) && Loaded(m', loads + Targets(made')) && LoadsGrow(m, m')
            && (m'.pending == [] || Candidates(cfg, m') == {})
    decreases |m.pending|
  {
    hide Placed, Loaded, Candidates, Choice, Place, Targets;
    assert Drawable(m) by { PlacedDrawable(cfg, m, gone); }
    if m.pending != [] && Candidates(cfg, m) != {} {
      var c := Choice(cfg, m, draw, |made|);
      ChoiceIsCandidate(cfg, m, draw, |made|);
      PlaceAllStep(cfg, m, draw, made);
      PlaceKeeps(cfg, m, gone, loads + Targets(made), c);
      var m1, made1 := Place(cfg, m, c), made + [Request(m.pending[0], c)];
      PushRequest(made, Request(m.pending[0], c));
      assert loads + Targets(made1) == (loads + Targets(made)) + multiset{c};
      PlaceAllKeeps(cfg, m1, gone, loads, draw, made1);
    }
  }

  lemma PlacedDrawable(cfg: Config, m: Manager, gone: set<nat>)
    requires Placed(cfg, m, gone)
    ensures Drawable(m)
  {
  }

  /** Acquisitions leave the queue from the front, in order, and none is lost. */
  lemma {:induction false} PlaceAllTakesFront(cfg: Config, m: Manager, draw: Draws, made: seq<Request>)
    requires Drawable(m) && Fair(draw)
    ensures var (m', made') := PlaceAll(cfg, m, draw, made);
            Ids(made') + m'.pending == Ids(made) + m.pending
    decreases |m.pending|
  {
    hide Drawable, Candidates, Choice, Place, Ids;
    if m.pending != [] && Candidates(cfg, m) != {} {
      var c := Choice(cfg, m, draw, |made|);
      PlaceAllStep(cfg, m, draw, made);
      var r := Request(m.pending[0], c);
      PlaceAllTakesFront(cfg, Place(cfg, m, c), draw, made + [r]);
      PushRequest(made, r);
      assert (Ids(made) + [r.id]) + m.pending[1..] == Ids(made) + m.pending;
    }
  }

  lemma PlaceAllStep(cfg: Config, m: Manager, draw: Draws, made: seq<Request>)
    requires Drawable(m) && Fair(draw) && m.pending != [] && Candidates(cfg, m) != {}
    ensures var c := Choice(cfg, m, draw, |made|);
            && c in m.conns && Drawable(Place(cfg, m, c)) && Place(cfg, m, c).pending == m.pending[1..]
            && PlaceAll(cfg, m, draw, made) == PlaceAll(cfg, Place(cfg, m, c), draw, made + [Request(m.pending[0], c)])
  {
    ChoiceIsCandidate(cfg, m, draw, |made|);
  }

  // ----- asking for connections

  lemma CeilFits(n: nat, ideal: nat, k: nat)
    requires ideal >= 1
    ensures n <= ideal * k <==> Ceil(n, ideal) <= k
  {
    var q, r := n / ideal, n % ideal;
    assert n == ideal * q + r;
    if q < k {
      assert ideal * q + ideal <= ideal * k by { Product(ideal, q + 1, k); }
    } else if q > k {
      assert ideal * k + ideal <= ideal * q by { Product(ideal, k + 1, q); }
    }
  }

  lemma Product(a: nat, b: nat, c: nat)
    requires b <= c
    ensures a * b <= a * c
  {
  }

  lemma CeilMonotone(n: nat, n': nat, ideal: nat)
    requires ideal >= 1 && n <= n'
    ensures Ceil(n, ideal) <= Ceil(n', ideal)
  {
    var k := Ceil(n', ideal);
    CeilFits(n', ideal, k);
    CeilFits(n, ideal, k);
  }

  lemma AskSuffices(cfg: Config, m: Manager)
    requires ValidConfig(cfg) && WithinMax(cfg, m)
    requires m.pending == [] || (m.ideal == {} && (m.holding == cfg.maxConnections ==> m.nonideal == {}))
    ensures var (m', n) := Ask(cfg, m);
            && NotStranded(cfg, m') && WithinMax(cfg, m') && m' == m.(acquiring := m.acquiring + n, refs := m.refs + n)
  {
    hide Ceil;
  }

  /** Nothing is asked for where nothing was stranded before and no more is pending now. */
  lemma AskNothing(cfg: Config, m: Manager, m': Manager)
    requires ValidConfig(cfg) && WithinMax(cfg, m) && NotStranded(cfg, m)
    requires |m'.pending| <= |m.pending| && m'.acquiring == m.acquiring && m'.holding == m.holding
    ensures Ask(cfg, m').1 == 0
  {
    hide Ceil;
    CeilMonotone(|m'.pending|, |m.pending|, cfg.idealStreams);
  }

  // ----- building a transaction

  lemma BuildPlaces(cfg: Config, m: Manager, gone: set<nat>, loads: multiset<nat>, draw: Draws)
    requires ValidConfig(cfg) && WithinMax(cfg, m) && Fair(draw) && Placed(cfg, m, gone) && Loaded(m, loads)
    ensures Buildable(cfg, m)
    ensures var (m', w) := Build(cfg, m, draw);
            && Placed(cfg, m', gone) && Loaded(m', loads + Targets(w.made)) && LoadsGrow(m, m')
            && (m.ready ==> NotStranded(cfg, m')) && w.release == None
  {
    hide Placed, Loaded, PlaceAll, Ceil;
    PlacedDrawable(cfg, m, gone);
    assert loads + Targets([]) == loads;
    if m.ready {
      PlaceAllKeeps(cfg, m, gone, loads, draw, []);
      PlaceAllFrame(cfg, m, draw, []);
      var (m1, made) := PlaceAll(cfg, m, draw, []);
      AskSuffices(cfg, m1);
      var m2 := Ask(cfg, m1).0;
      SameConnections(cfg, m1, m2, gone, loads + Targets(made));
    } else {
      SameConnections(cfg, m, m.(scheduled := true), gone, loads);
    }
  }

  /** Placement depends only on the connections and the sets. */
  lemma SameConnections(cfg: Config, m: Manager, m': Manager, gone: set<nat>, loads: multiset<nat>)
    requires m'.conns == m.conns && m'.ideal == m.ideal && m'.nonideal == m.nonideal
    ensures Placed(cfg, m, gone) ==> Placed(cfg, m', gone)
    ensures Loaded(m, loads) ==> Loaded(m', loads)
  {
  }

  lemma BuildTakesFront(cfg: Config, m: Manager, draw: Draws)
    requires Buildable(cfg, m) && Fair(draw)
    ensures var (m', w) := Build(cfg, m, draw);
            && Ids(w.made) + m'.pending == m.pending
            && m'.making == m.making + |w.made|
  {
    hide PlaceAll, Ceil;
    if m.ready {
      PlaceAllTakesFront(cfg, m, draw, []);
      PlaceAllFrame(cfg, m, draw, []);
      assert Ids([]) + m.pending == m.pending;
    } else {
      assert Ids([]) + m.pending == m.pending;
    }
  }

  /** A fresh connection that finds the ideal set empty gets the first pending acquisition. */
  lemma BuildUsesFresh(cfg: Config, m: Manager, gone: set<nat>, loads: multiset<nat>, draw: Draws, c: nat)
    requires ValidConfig(cfg) && WithinMax(cfg, m) && Fair(draw) && Placed(cfg, m, gone) && Loaded(m, loads)
    requires m.ready && m.ideal == {c} && m.pending != []
    ensures Buildable(cfg, m) && c in m.conns
    ensures Build(cfg, m, draw).0.conns.Keys == m.conns.Keys && Build(cfg, m, draw).0.conns[c].load > 0
  {
    hide Placed, Loaded, PlaceAll, Place, Ceil;
    PlacedDrawable(cfg, m, gone);
    PlaceAllStep(cfg, m, draw, []);
    assert Choice(cfg, m, draw, 0) == c by { ChoiceIsCandidate(cfg, m, draw, 0); }
    PlaceKeeps(cfg, m, gone, loads, c);
    var m1, made1 := Place(cfg, m, c), [Request(m.pending[0], c)];
    assert [] + made1 == made1;
    assert Targets(made1) == multiset{c} by { PushRequest([], made1[0]); assert [] + [made1[0]] == made1; }
    PlaceAllKeeps(cfg, m1, gone, loads, draw, made1);
    PlaceAllFrame(cfg, m, draw, []);
  }

  lemma FailUnfitBuildable(cfg: Config, m: Manager)
    requires Buildable(cfg, m) && m.refs >= |m.pending|
    ensures Buildable(cfg, FailUnfit(cfg, m).0)
  {
  }

  lemma UnassignDrawable(cfg: Config, m: Manager, c: nat, available: bool)
    requires Buildable(cfg, m) && c in m.conns && m.conns[c].load > 0
    ensures Buildable(cfg, Unassign(cfg, m, c, available))
    ensures Unassign(cfg, m, c, available).conns.Keys == m.conns.Keys
    ensures Unassign(cfg, m, c, available).holding == m.holding
  {
  }
}
