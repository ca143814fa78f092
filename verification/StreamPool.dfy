/**
 * The stream manager as an object: counters, sets and per-connection loads
 * updated in place, proved against the functions in `StreamManager`.
 */
module StreamPool {
  import opened Octets
  import opened StreamManager
  import opened StreamPlacement

  class Pool {
    const cfg: Config
    var ready: bool
    var conns: map<nat, Conn>
    var ideal: set<nat>
    var nonideal: set<nat>
    var holding: nat
    var pending: seq<nat>
    var acquiring: nat
    var making: nat
    var opening: nat
    var refs: nat
    var scheduled: bool

    function View(): Manager
      reads this
    {
      Manager(ready, conns, ideal, nonideal, holding, pending, acquiring, making, opening, refs, scheduled)
    }

    constructor (idealStreams: nat, maxStreams: nat, maxConnections: nat)
      ensures cfg.idealStreams == (if idealStreams == 0 then 0xFFFF_FFFF else idealStreams)
      ensures cfg.maxStreams == (if maxStreams == 0 then 0xFFFF_FFFF else maxStreams)
      ensures cfg.maxConnections == maxConnections && ValidConfig(cfg)
      ensures View() == Manager(true, map[], {}, {}, 0, [], 0, 0, 0, 1, false)
    {
      cfg := Config(if idealStreams == 0 then 0xFFFF_FFFF else idealStreams,
                    if maxStreams == 0 then 0xFFFF_FFFF else maxStreams, maxConnections);
      ready, conns, ideal, nonideal, holding := true, map[], {}, {}, 0;
      pending, acquiring, making, opening, refs, scheduled := [], 0, 0, 0, 1, false;
    }

    method AssignFromIdeal(c: nat)
      requires c in conns
      modifies this`conns, this`ideal, this`nonideal
      ensures View() == AssignIdeal(cfg, old(View()), c)
    {
      var conn := conns[c].(load := conns[c].load + 1);
      if conn.load >= conn.limit {
        conn := conn.(tier := Full);
        ideal := ideal - {c};
      } else if conn.load >= cfg.idealStreams {
        ideal, nonideal := ideal - {c}, nonideal + {c};
        conn := conn.(tier := NearlyFull);
      }
      conns := conns[c := conn];
    }

    method AssignFromNonideal(c: nat)
      requires c in conns
      modifies this`conns, this`nonideal
      ensures View() == AssignNonideal(old(View()), c)
    {
      var conn := conns[c].(load := conns[c].load + 1);
      if conn.load >= conn.limit {
        conn := conn.(tier := Full);
        nonideal := nonideal - {c};
      }
      conns := conns[c := conn];
    }

    /** Chooses a connection for an acquisition, if one may take it, and counts the stream on it. */
    method TryAssign(draw: Draws, k: nat) returns (chosen: Option<nat>)
      requires Drawable(View()) && Fair(draw)
      modifies this`conns, this`ideal, this`nonideal
      ensures chosen.None? <==> Candidates(cfg, old(View())) == {}
      ensures chosen.None? ==> View() == old(View())
      ensures chosen.Some? ==>
                && chosen.value == Choice(cfg, old(View()), draw, k)
                && chosen.value in old(View()).conns && View() == Assign(cfg, old(View()), chosen.value)
    {
      chosen := None;
      if ideal != {} {
        var c := Best(conns, draw(ideal, 2 * k), draw(ideal, 2 * k + 1));
        chosen := Some(c);
        AssignFromIdeal(c);
      } else if holding == cfg.maxConnections {
        if nonideal != {} {
          var c := Best(conns, draw(nonideal, 2 * k), draw(nonideal, 2 * k + 1));
          chosen := Some(c);
          AssignFromNonideal(c);
        }
      }
    }

    method AssignPending(draw: Draws) returns (made: seq<Request>)
      requires Drawable(View()) && Fair(draw)
      modifies this`conns, this`ideal, this`nonideal, this`pending, this`making
      ensures (View(), made) == PlaceAll(cfg, old(View()), draw, [])
    {
      hide Assign, Candidates, Choice;
      made := [];
      while pending != []
        invariant Drawable(View()) && SameRest(View(), old(View()))
        invariant PlaceAll(cfg, old(View()), draw, []) == PlaceAll(cfg, View(), draw, made)
        decreases |pending|
      {
        ghost var m := View();
        var chosen := TryAssign(draw, |made|);
        if chosen.None? {
          return;
        }
        PlaceAllStep(cfg, m, draw, made);
        made := made + [Request(pending[0], chosen.value)];
        pending, making := pending[1..], making + 1;
        assert View() == Place(cfg, m, chosen.value);
      }
    }

    method CheckNewConnections() returns (connects: nat)
      requires ValidConfig(cfg) && WithinMax(cfg, View()) && pending != []
      modifies this`acquiring, this`refs
      ensures (View(), connects) == Ask(cfg, old(View()))
    {
      connects := |pending| / cfg.idealStreams;
      if |pending| % cfg.idealStreams != 0 {
        connects := connects + 1;
      }
      connects := Minus(connects, acquiring);
      var room := cfg.maxConnections - holding - acquiring;
      connects := Min(room, connects);
      acquiring, refs := acquiring + connects, refs + connects;
    }

    method BuildTransaction(draw: Draws) returns (w: Work)
      requires Buildable(cfg, View()) && Fair(draw)
      modifies this`conns, this`ideal, this`nonideal, this`pending, this`making, this`acquiring, this`refs,
          this`scheduled
      ensures (View(), w) == Build(cfg, old(View()), draw)
    {
      hide PlaceAll, Needed;
      if ready {
        PlaceAllFrame(cfg, View(), draw, []);
        var made := AssignPending(draw);
        var connects := 0;
        if pending != [] {
          connects := CheckNewConnections();
        }
        w := Work(made, connects, None);
      } else {
        if pending != [] && !scheduled {
          scheduled := true;
        }
        w := Work([], 0, None);
      }
    }

    method Acquire(id: nat, draw: Draws) returns (w: Work)
      requires Buildable(cfg, View()) && Fair(draw) && ready
      modifies this
      ensures (View(), w) == AcquireStream(cfg, old(View()), id, draw)
    {
      hide Build;
      refs := refs + 1;
      pending, refs := pending + [id], refs + 1;
      w := BuildTransaction(draw);
    }

    method ReleaseLast(draw: Draws) returns (w: Work)
      requires Buildable(cfg, View()) && Fair(draw) && refs > 0
      modifies this
      ensures (View(), w) == ReleaseManager(cfg, old(View()), draw)
    {
      hide Build;
      refs := refs + 1;
      ready := false;
      BuildFrame(cfg, View(), draw);
      w := BuildTransaction(draw);
      refs := refs - 1;
    }

    method RunFinishTask(draw: Draws) returns (w: Work, failing: seq<nat>)
      requires Buildable(cfg, View()) && Fair(draw) && !ready && refs >= |pending|
      modifies this
      ensures (View(), w, failing) == FinishPending(cfg, old(View()), draw)
    {
      hide Build;
      refs := refs + 1;
      failing := pending;
      pending, refs := [], refs - |pending|;
      w := BuildTransaction(draw);
    }

    method TakeUnfit() returns (failing: seq<nat>)
      requires refs >= |pending|
      modifies this`pending, this`refs
      ensures (View(), failing) == FailUnfit(cfg, old(View()))
    {
      hide Unfit;
      var n := Unfit(cfg, View());
      ghost var all := pending;
      failing := [];
      for i := 0 to n
        invariant pending == all[i..] && failing == all[..i]
        modifies this`pending
      {
        failing := failing + [pending[0]];
        pending := pending[1..];
      }
      refs := refs - n;
    }

    method OnConnectionAcquired(a: Answer, draw: Draws) returns (w: Work, failing: seq<nat>, giveBack: bool)
      requires Buildable(cfg, View()) && Fair(draw) && acquiring > 0 && refs >= |pending| + 1
      modifies this
      ensures (View(), w, failing, giveBack) == ConnectionAcquired(cfg, old(View()), a, draw)
    {
      hide Build, FailUnfit;
      refs := refs + 1;
      acquiring, refs := acquiring - 1, refs - 1;
      failing, giveBack := [], false;
      if !a.Got? {
        FailUnfitBuildable(cfg, View());
        failing := TakeUnfit();
        giveBack := a.WrongVersion?;
      } else if !ready || pending == [] {
        giveBack := true;
      } else {
        HoldConnection(a.conn, a.remoteLimit);
      }
      w := BuildTransaction(draw);
    }

    method HoldConnection(c: nat, remoteLimit: nat)
      requires Drawable(View())
      modifies this`conns, this`ideal, this`holding
      ensures View() == Hold(cfg, old(View()), c, remoteLimit) && Drawable(View())
    {
      conns := conns[c := Conn(0, Min(cfg.maxStreams, remoteLimit), Ideal)];
      ideal := ideal + {c};
      holding := holding + 1;
    }

    /** Moves a connection that lost a stream to the set it now belongs to. */
    method UpdateSets(c: nat)
      requires c in conns
      modifies this`conns, this`ideal, this`nonideal
      ensures View() == Reclassify(cfg, old(View()), c)
    {
      var conn := conns[c];
      if conn.tier == NearlyFull && conn.load < cfg.idealStreams {
        nonideal := nonideal - {c};
        ideal := ideal + {c};
        conns := conns[c := conn.(tier := Ideal)];
      } else if conn.tier == Full && conn.load < conn.limit {
        if conn.load >= cfg.idealStreams {
          conns := conns[c := conn.(tier := NearlyFull)];
          nonideal := nonideal + {c};
        } else {
          conns := conns[c := conn.(tier := Ideal)];
          ideal := ideal + {c};
        }
      }
    }

    method LoseStream(c: nat, available: bool)
      requires c in conns && conns[c].load > 0
      modifies this`conns, this`ideal, this`nonideal
      ensures View() == Unassign(cfg, old(View()), c, available)
    {
      conns := conns[c := conns[c].(load := conns[c].load - 1)];
      if !available {
        ideal := ideal - {c};
        nonideal := nonideal - {c};
      } else {
        UpdateSets(c);
      }
    }

    method ReleaseConnection(w: Work, c: nat) returns (w': Work)
      requires ValidConfig(cfg) && WithinMax(cfg, View()) && holding > 0
      modifies this
      ensures (View(), w') == GiveBack(cfg, old(View()), w, c)
    {
      hide Needed;
      conns := conns - {c};
      ideal := ideal - {c};
      w' := w.(release := Some(c));
      holding := holding - 1;
      if ready && pending != [] {
        var connects := CheckNewConnections();
        w' := w'.(connects := connects);
      }
    }

    method OnStreamFinished(c: nat, available: bool, draw: Draws) returns (w: Work)
      requires Buildable(cfg, View()) && Fair(draw)
      requires c in conns && conns[c].load > 0 && opening > 0 && holding > 0
      modifies this
      ensures (View(), w) == StreamFinished(cfg, old(View()), c, available, draw)
    {
      hide Build, Unassign, GiveBack;
      refs := refs + 1;
      opening, refs := opening - 1, refs - 1;
      UnassignDrawable(cfg, View(), c, available);
      LoseStream(c, available);
      BuildFrame(cfg, View(), draw);
      w := BuildTransaction(draw);
      if conns[c].load == 0 {
        w := ReleaseConnection(w, c);
      }
    }

    /**
     * The critical section of the request task for a request on connection `c`: `dips` says that the
     * count was zero on the way, and `within` that what is asserted of the connection's limit holds.
     */
    method RunRequestTask(c: nat) returns (shuttingDown: bool, dips: bool, within: bool)
      requires making > 0 && refs > 0 && c in conns
      modifies this
      ensures View() == MakeRequest(old(View())) && shuttingDown == !old(ready)
      ensures (dips <==> old(refs) == 1) && (within <==> conns[c].load <= conns[c].limit)
    {
      shuttingDown := !ready;
      making, refs := making - 1, refs - 1;
      dips := refs == 0;
      opening, refs := opening + 1, refs + 1;
      within := conns[c].limit >= conns[c].load;
    }
  }

  /** The fields that placing acquisitions leaves alone. */
  ghost predicate SameRest(m: Manager, m': Manager) {
    m' == m.(conns := m'.conns, ideal := m'.ideal, nonideal := m'.nonideal, pending := m'.pending, making := m'.making)
  }
}
