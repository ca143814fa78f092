/**
 * The HTTP/2 stream manager's critical sections, as functions from the state
 * under the lock to the new state and the work left for after the unlock.
 */
module StreamManager {
  import opened Octets

  /** Where a connection believes it stands against the ideal and the hard limit. */
  datatype Tier = Ideal | NearlyFull | Full

  datatype Conn = Conn(load: nat, limit: nat, tier: Tier)

  /** `idealStreams` and `maxStreams` are at least 1: a zero option means no limit. */
  datatype Config = Config(idealStreams: nat, maxStreams: nat, maxConnections: nat)

  /** An acquisition that has been given a connection. */
  datatype Request = Request(id: nat, conn: nat)

  /**
   * `conns` are the connections held, of which `ideal` and `nonideal` take new
   * streams. `making` counts requests not yet made and `opening` streams not yet
   * finished; `scheduled` says whether the finishing task, which fails what is pending, was scheduled.
   */
  datatype Manager = Manager(
    ready: bool,
    conns: map<nat, Conn>,
    ideal: set<nat>,
    nonideal: set<nat>,
    holding: nat,
    pending: seq<nat>,
    acquiring: nat,
    making: nat,
    opening: nat,
    refs: nat,
    scheduled: bool)

  /** Requests to make, connections to ask for, and a connection to give back. */
  datatype Work = Work(made: seq<Request>, connects: nat, release: Option<nat>)

  /** Random draws from a set: `draw(s, i)` is the `i`-th draw while the set is `s`. */
  type Draws = (set<nat>, nat) -> nat

  ghost predicate Fair(draw: Draws) {
    forall s: set<nat>, i: nat :: s != {} ==> draw(s, i) in s
  }

  predicate ValidConfig(cfg: Config) {
    cfg.idealStreams >= 1 && cfg.maxStreams >= 1
  }

  function Minus(a: nat, b: nat): nat {
    if a < b then 0 else a - b
  }

  // ----- choosing a connection

  /** The less loaded of two draws. */
  function Best(conns: map<nat, Conn>, a: nat, b: nat): nat
    requires a in conns && b in conns
  {
    if conns[a].load > conns[b].load then b else a
  }

  /** The set to choose from, if a stream can be placed at all. */
  function Candidates(cfg: Config, m: Manager): set<nat> {
    if m.ideal != {} then m.ideal
    else if m.holding == cfg.maxConnections then m.nonideal
    else {}
  }

  predicate Drawable(m: Manager) {
    m.ideal <= m.conns.Keys && m.nonideal <= m.conns.Keys
  }

  /** One more stream on a connection of the ideal set. */
  function AssignIdeal(cfg: Config, m: Manager, c: nat): Manager
    requires c in m.conns
  {
    var conn := m.conns[c].(load := m.conns[c].load + 1);
    if conn.load >= conn.limit then
      m.(conns := m.conns[c := conn.(tier := Full)], ideal := m.ideal - {c})
    else if conn.load >= cfg.idealStreams then
      m.(conns := m.conns[c := conn.(tier := NearlyFull)], ideal := m.ideal - {c}, nonideal := m.nonideal + {c})
    else
      m.(conns := m.conns[c := conn])
  }

  /** One more stream on a connection of the non-ideal set. */
  function AssignNonideal(m: Manager, c: nat): Manager
    requires c in m.conns
  {
    var conn := m.conns[c].(load := m.conns[c].load + 1);
    if conn.load >= conn.limit then
      m.(conns := m.conns[c := conn.(tier := Full)], nonideal := m.nonideal - {c})
    else
      m.(conns := m.conns[c := conn])
  }

  function Assign(cfg: Config, m: Manager, c: nat): Manager
    requires c in m.conns
  {
    if m.ideal != {} then AssignIdeal(cfg, m, c) else AssignNonideal(m, c)
  }

  /** The choice for the next placement after `k` placements in the same transaction. */
  function Choice(cfg: Config, m: Manager, draw: Draws, k: nat): nat
    requires Drawable(m) && Candidates(cfg, m) != {} && Fair(draw)
  {
    var s := Candidates(cfg, m);
    Best(m.conns, draw(s, 2 * k), draw(s, 2 * k + 1))
  }

  /** The oldest pending acquisition is placed on connection `c`. */
  function Place(cfg: Config, m: Manager, c: nat): (m': Manager)
    requires c in m.conns && m.pending != []
    ensures m'.conns.Keys == m.conns.Keys && m'.ideal <= m.ideal && m'.nonideal <= m.nonideal + {c}
  {
    Assign(cfg, m, c).(pending := m.pending[1..], making := m.making + 1)
  }

  /** Places pending acquisitions, oldest first, until none is left or no connection may take one. */
  function PlaceAll(cfg: Config, m: Manager, draw: Draws, made: seq<Request>): (Manager, seq<Request>)
    requires Drawable(m) && Fair(draw)
    decreases |m.pending|
  {
    if m.pending == [] || Candidates(cfg, m) == {} then (m, made)
    else
      var c := Choice(cfg, m, draw, |made|);
      PlaceAll(cfg, Place(cfg, m, c), draw, made + [Request(m.pending[0], c)])
  }

  // ----- asking for connections

  /** The number of connections that would carry `n` streams at the ideal load. */
  function Ceil(n: nat, ideal: nat): nat
    requires ideal >= 1
  {
    n / ideal + (if n % ideal != 0 then 1 else 0)
  }

  predicate WithinMax(cfg: Config, m: Manager) {
    m.holding + m.acquiring <= cfg.maxConnections
  }

  function Needed(cfg: Config, m: Manager): nat
    requires ValidConfig(cfg) && WithinMax(cfg, m)
  {
    Min(cfg.maxConnections - m.holding - m.acquiring, Minus(Ceil(|m.pending|, cfg.idealStreams), m.acquiring))
  }

  function Ask(cfg: Config, m: Manager): (Manager, nat)
    requires ValidConfig(cfg) && WithinMax(cfg, m)
  {
    if m.pending == [] then (m, 0)
    else
      var n := Needed(cfg, m);
      (m.(acquiring := m.acquiring + n, refs := m.refs + n), n)
  }

  predicate Buildable(cfg: Config, m: Manager) {
    ValidConfig(cfg) && Drawable(m) && WithinMax(cfg, m)
  }

  ghost predicate SameCounts(m: Manager, m': Manager) {
    && m'.ready == m.ready && m'.holding == m.holding && m'.acquiring == m.acquiring && m'.opening == m.opening
    && m'.refs == m.refs && m'.scheduled == m.scheduled && m'.conns.Keys == m.conns.Keys
    && m'.making + |m'.pending| == m.making + |m.pending|
  }

  lemma PlaceFrame(cfg: Config, m: Manager, c: nat)
    requires c in m.conns && m.pending != []
    ensures SameCounts(m, Place(cfg, m, c)) && |Place(cfg, m, c).pending| < |m.pending|
  {
  }

  lemma {:induction false} PlaceAllFrame(cfg: Config, m: Manager, draw: Draws, made: seq<Request>)
    requires Drawable(m) && Fair(draw)
    ensures SameCounts(m, PlaceAll(cfg, m, draw, made).0)
    decreases |m.pending|
  {
    hide Place;
    if m.pending != [] && Candidates(cfg, m) != {} {
      var c := Choice(cfg, m, draw, |made|);
      PlaceFrame(cfg, m, c);
      PlaceAllFrame(cfg, Place(cfg, m, c), draw, made + [Request(m.pending[0], c)]);
    }
  }

  function Build(cfg: Config, m: Manager, draw: Draws): (Manager, Work)
    requires Buildable(cfg, m) && Fair(draw)
  {
    if m.ready then
      PlaceAllFrame(cfg, m, draw, []);
      var (m1, made) := PlaceAll(cfg, m, draw, []);
      var (m2, n) := Ask(cfg, m1);
      (m2, Work(made, n, None))
    else if m.pending != [] && !m.scheduled then (m.(scheduled := true), Work([], 0, None))
    else (m, Work([], 0, None))
  }

  // ----- the critical sections; every one but the last opens a transaction, which holds a reference

  function Open(m: Manager): Manager {
    m.(refs := m.refs + 1)
  }

  function AcquireStream(cfg: Config, m: Manager, id: nat, draw: Draws): (Manager, Work)
    requires Buildable(cfg, m) && Fair(draw)
  {
    Build(cfg, Open(m).(pending := m.pending + [id], refs := m.refs + 2), draw)
  }

  function ReleaseManager(cfg: Config, m: Manager, draw: Draws): (Manager, Work)
    requires Buildable(cfg, m) && Fair(draw) && m.refs > 0
  {
    var (m1, w) := Build(cfg, Open(m).(ready := false), draw);
    (m1.(refs := m1.refs - 1), w)
  }

  /** The finishing task, once the manager is shutting down: everything pending is taken out to fail. */
  function FinishPending(cfg: Config, m: Manager, draw: Draws): (Manager, Work, seq<nat>)
    requires Buildable(cfg, m) && Fair(draw) && m.refs >= |m.pending|
  {
    var (m1, w) := Build(cfg, Open(m).(pending := [], refs := m.refs + 1 - |m.pending|), draw);
    (m1, w, m.pending)
  }

  /** How many of the pending acquisitions the connections still on their way cannot carry. */
  function Unfit(cfg: Config, m: Manager): (n: nat)
    ensures n <= |m.pending|
  {
    Minus(|m.pending|, cfg.idealStreams * m.acquiring)
  }

  function FailUnfit(cfg: Config, m: Manager): (Manager, seq<nat>)
    requires m.refs >= |m.pending|
  {
    var n := Unfit(cfg, m);
    (m.(pending := m.pending[n..], refs := m.refs - n), m.pending[..n])
  }

  /** The connection manager's answer; a connection comes with the remote limit on concurrent streams. */
  datatype Answer = AcquireFailed | WrongVersion | Got(conn: nat, remoteLimit: nat)

  function Hold(cfg: Config, m: Manager, conn: nat, remoteLimit: nat): Manager {
    m.(conns := m.conns[conn := Conn(0, Min(cfg.maxStreams, remoteLimit), Ideal)],
       ideal := m.ideal + {conn}, holding := m.holding + 1)
  }

  /** The last component says whether the connection goes straight back to the connection manager. */
  function ConnectionAcquired(cfg: Config, m: Manager, a: Answer, draw: Draws): (Manager, Work, seq<nat>, bool)
    requires Buildable(cfg, m) && Fair(draw) && m.acquiring > 0 && m.refs >= |m.pending| + 1
  {
    var m1 := Open(m).(acquiring := m.acquiring - 1, refs := m.refs);
    if !a.Got? then
      var (m2, failing) := FailUnfit(cfg, m1);
      var (m3, w) := Build(cfg, m2, draw);
      (m3, w, failing, a.WrongVersion?)
    else if !m.ready || m.pending == [] then
      var (m2, w) := Build(cfg, m1, draw);
      (m2, w, [], true)
    else
      var (m2, w) := Build(cfg, Hold(cfg, m1, a.conn, a.remoteLimit), draw);
      (m2, w, [], false)
  }

  /** A connection that is still available may have come back into reach after losing a stream. */
  function Reclassify(cfg: Config, m: Manager, c: nat): Manager
    requires c in m.conns
  {
    var conn := m.conns[c];
    if conn.tier == NearlyFull && conn.load < cfg.idealStreams then
      m.(conns := m.conns[c := conn.(tier := Ideal)], ideal := m.ideal + {c}, nonideal := m.nonideal - {c})
    else if conn.tier == Full && conn.load < conn.limit then
      if conn.load >= cfg.idealStreams then
        m.(conns := m.conns[c := conn.(tier := NearlyFull)], nonideal := m.nonideal + {c})
      else
        m.(conns := m.conns[c := conn.(tier := Ideal)], ideal := m.ideal + {c})
    else m
  }

  function Unassign(cfg: Config, m: Manager, c: nat, available: bool): Manager
    requires c in m.conns && m.conns[c].load > 0
  {
    var m1 := m.(conns := m.conns[c := m.conns[c].(load := m.conns[c].load - 1)]);
    if available then Reclassify(cfg, m1, c) else m1.(ideal := m.ideal - {c}, nonideal := m.nonideal - {c})
  }

  /** A connection without streams is given back, and its place may be taken by a new one. */
  function GiveBack(cfg: Config, m: Manager, w: Work, c: nat): (Manager, Work)
    requires ValidConfig(cfg) && WithinMax(cfg, m) && m.holding > 0
  {
    var m1 := m.(conns := m.conns - {c}, ideal := m.ideal - {c}, holding := m.holding - 1);
    if m1.ready && m1.pending != [] then
      var (m2, n) := Ask(cfg, m1);
      (m2, w.(connects := n, release := Some(c)))
    else (m1, w.(release := Some(c)))
  }

  function StreamFinished(cfg: Config, m: Manager, c: nat, available: bool, draw: Draws): (Manager, Work)
    requires Buildable(cfg, m) && Fair(draw)
    requires c in m.conns && m.conns[c].load > 0 && m.opening > 0 && m.holding > 0
  {
    var m1 := Unassign(cfg, Open(m).(opening := m.opening - 1, refs := m.refs), c, available);
    BuildFrame(cfg, m1, draw);
    var (m2, w) := Build(cfg, m1, draw);
    if m2.conns[c].load == 0 then GiveBack(cfg, m2, w, c) else (m2, w)
  }

  /** A request is about to be made: what was a request is now a stream. */
  function MakeRequest(m: Manager): Manager
    requires m.making > 0
  {
    m.(making := m.making - 1, opening := m.opening + 1)
  }

  lemma BuildFrame(cfg: Config, m: Manager, draw: Draws)
    requires Buildable(cfg, m) && Fair(draw)
    ensures var (m', w) := Build(cfg, m, draw);
            && m'.ready == m.ready && m'.holding == m.holding && m'.opening == m.opening
            && m'.conns.Keys == m.conns.Keys && WithinMax(cfg, m')
            && m'.acquiring == m.acquiring + w.connects && m'.refs == m.refs + w.connects
            && m'.making + |m'.pending| == m.making + |m.pending|
            && (!m.ready ==> m' == m.(scheduled := m.scheduled || m.pending != []) && w == Work([], 0, None))
  {
    if m.ready {
      PlaceAllFrame(cfg, m, draw, []);
    }
  }
}
