/**
 * The connection manager as an object: counters and lists updated in place by
 * the loops of each critical section, proved against the functions in `ConnectionManager`.
 */
module ConnectionPool {
  import opened ConnectionManager

  class Pool {
    const cfg: Config
    var ready: bool
    var idle: seq<Idle>
    var waiting: seq<nat>
    var vended: nat
    var connecting: nat
    var open: nat
    var settings: nat
    var external: nat
    var refs: nat
    var culling: bool

    function View(): Manager
      reads this
    {
      Manager(ready, idle, waiting, vended, connecting, open, settings, external, refs, culling)
    }

    constructor (cfg: Config)
      ensures this.cfg == cfg
      ensures View() == Manager(true, [], [], 0, 0, 0, 0, 1, 1 + (if cfg.idleTime > 0 then 1 else 0), cfg.idleTime > 0)
    {
      this.cfg := cfg;
      ready, idle, waiting := true, [], [];
      vended, connecting, open, settings, external := 0, 0, 0, 0, 1;
      refs, culling := 1 + (if cfg.idleTime > 0 then 1 else 0), cfg.idleTime > 0;
    }

    /** Moves the oldest waiting acquisition to a transaction's list, with a connection or as a failure. */
    method MoveFront(conn: seq<nat>, output: seq<Completion>) returns (list: seq<Completion>)
      requires waiting != [] && |conn| <= 1
      modifies this`waiting
      ensures waiting == old(waiting)[1..]
      ensures list == output + [if conn != [] then Success(old(waiting)[0], conn[0]) else Failure(old(waiting)[0])]
    {
      var id := waiting[0];
      waiting := waiting[1..];
      list := output + [if conn != [] then Success(id, conn[0]) else Failure(id)];
    }

    method FailExcess(limit: nat, output: seq<Completion>) returns (list: seq<Completion>)
      modifies this`waiting
      ensures (View(), list) == FailAll(old(View()), limit, output)
    {
      list := output;
      ghost var all, n := waiting, 0;
      assert output + Failures([]) == output;
      while |waiting| > limit
        invariant 0 <= n <= |all| && waiting == all[n..] && (n > 0 ==> |waiting| >= limit)
        invariant list == output + Failures(all[..n])
        decreases |waiting|
      {
        assert all[..n + 1][..n] == all[..n];
        assert Failures(all[..n + 1]) == Failures(all[..n]) + [Failure(all[n])];
        list := MoveFront([], list);
        n := n + 1;
      }
    }

    method VendNewest(output: seq<Completion>) returns (list: seq<Completion>)
      requires idle != [] && waiting != []
      modifies this`waiting, this`idle, this`vended, this`refs
      ensures (View(), list) == VendNext(old(View()), output)
    {
      var last := |idle| - 1;
      var conn := idle[last].conn;
      idle := idle[..last];
      list := MoveFront([conn], output);
      vended, refs := vended + 1, refs + 1;
    }

    method VendIdle(output: seq<Completion>) returns (list: seq<Completion>)
      modifies this`waiting, this`idle, this`vended, this`refs
      ensures (View(), list) == VendAll(old(View()), output)
    {
      hide VendFirst;
      list := output;
      ghost var m, n := View(), 0;
      VendFirstNone(m, output);
      while idle != [] && waiting != []
        invariant n <= |m.idle| && n <= |m.waiting| && |idle| == |m.idle| - n && |waiting| == |m.waiting| - n
        invariant (View(), list) == VendFirst(m, output, n)
        decreases |waiting|
      {
        VendFirstNext(m, output, n);
        list := VendNewest(list);
        n := n + 1;
      }
    }

    method BuildTransaction(cs: seq<Completion>, rs: seq<nat>) returns (w: Work)
      requires BuildAsserts(cfg, View())
      modifies this`waiting, this`idle, this`vended, this`connecting, this`refs
      ensures (View(), w) == Build(cfg, old(View()), cs, rs)
    {
      hide VendAll, Failures, Conns;
      if ready {
        VendSame(View(), cs);
        var list := VendIdle(cs);
        var fresh' := 0;
        if |waiting| > connecting + settings {
          assert HasRoom(cfg, View());
          fresh' := |waiting| - connecting - settings;
          var room := cfg.maxConnections - (vended + connecting + settings);
          if fresh' > room {
            fresh' := room;
          }
          connecting, refs := connecting + fresh', refs + fresh';
        }
        w := Work(list, rs, fresh', 0);
      } else {
        var released := rs + Conns(idle);
        idle := [];
        var list := FailExcess(0, cs);
        w := Work(list, released, 0, 0);
      }
    }

    method RemoveIdle(conn: nat) returns (found: bool)
      modifies this`idle
      ensures (idle, found) == Remove(old(idle), conn)
    {
      ghost var spec := Remove(idle, conn);
      var i := 0;
      assert idle[0..] == idle && [] + spec.0 == spec.0;
      while i < |idle| && idle[i].conn != conn
        invariant 0 <= i <= |idle|
        invariant spec.0 == idle[..i] + Remove(idle[i..], conn).0 && spec.1 == Remove(idle[i..], conn).1
      {
        RemoveSkips(idle, conn, i);
        i := i + 1;
      }
      found := i < |idle|;
      if found {
        assert idle[i..][0] == idle[i] && idle[i..][1..] == idle[i + 1..];
        idle := idle[..i] + idle[i + 1..];
      } else {
        assert idle[i..] == [] && idle[..i] + [] == idle;
      }
    }

    method Acquire(id: nat) returns (w: Work)
      requires WithinMax(cfg, View()) && ready
      modifies this
      ensures (View(), w) == AcquireConnection(cfg, old(View()), id)
    {
      hide Build;
      refs := refs + 1;
      waiting := waiting + [id];
      w := BuildTransaction([], []);
    }

    method ReleaseReference() returns (w: Work)
      requires WithinMax(cfg, View())
      modifies this
      ensures (View(), w) == ReleaseManager(cfg, old(View()))
    {
      refs := refs + 1;
      w := Work([], [], 0, 0);
      if external > 0 {
        external := external - 1;
        if external == 0 {
          ready := false;
          w := BuildTransaction([], []);
          refs := refs - 1;
        }
      }
    }

    method Release(conn: nat, usable: bool, now: nat) returns (ok: bool, w: Work)
      requires WithinMax(cfg, View())
      modifies this
      ensures (View(), w) == ReleaseConnection(cfg, old(View()), conn, usable, now)
      ensures ok <==> old(vended) > 0
    {
      hide Build;
      refs := refs + 1;
      if vended == 0 {
        return false, Work([], [], 0, 0);
      }
      ok := true;
      vended, refs := vended - 1, refs - 1;
      if usable {
        idle := idle + [Idle(conn, now + cfg.idleTime)];
        w := BuildTransaction([], []);
      } else {
        w := BuildTransaction([], [conn]);
      }
    }

    method OnGoaway(conn: nat) returns (w: Work)
      requires WithinMax(cfg, View())
      modifies this
      ensures (View(), w) == Goaway(cfg, old(View()), conn)
    {
      hide Build;
      refs := refs + 1;
      RemoveShrinks(idle, conn);
      var found := RemoveIdle(conn);
      w := BuildTransaction([], if found then [conn] else []);
    }

    method OnReadyOrFailed(error: bool, conn: seq<nat>, usable: bool, now: nat) returns (w: Work)
      requires |idle| + 1 + vended + connecting + settings <= cfg.maxConnections && |conn| <= 1 &&
               (!error ==> |conn| == 1)
      modifies this
      ensures (View(), w) == ReadyOrFailed(cfg, old(View()), error, conn, usable, now)
    {
      hide Build, FailAll;
      if !error {
        if ready && usable {
          idle := idle + [Idle(conn[0], now + cfg.idleTime)];
          w := BuildTransaction([], []);
        } else {
          w := BuildTransaction([], conn);
        }
      } else {
        var list := FailExcess(connecting + settings, []);
        w := BuildTransaction(list, conn);
      }
    }

    method OnSetup(r: Setup, usable: bool, now: nat) returns (w: Work)
      requires WithinMax(cfg, View()) && connecting > 0
      modifies this
      ensures (View(), w) == ConnectionSetup(cfg, old(View()), r, usable, now)
    {
      hide Build, ReadyOrFailed, BuildAsserts;
      refs := refs + 1;
      connecting, refs := connecting - 1, refs - 1;
      if !r.Failed? {
        open, refs := open + 1, refs + 1;
      }
      if r.Http2? {
        settings := settings + 1;
        BoundGivesRoom(cfg, View());
        w := BuildTransaction([], []);
      } else {
        w := OnReadyOrFailed(r.Failed?, if r.Failed? then [] else [r.conn], usable, now);
      }
    }

    method OnSettings(conn: nat, error: bool, usable: bool, now: nat) returns (w: Work)
      requires WithinMax(cfg, View()) && settings > 0
      modifies this
      ensures (View(), w) == SettingsCompleted(cfg, old(View()), conn, error, usable, now)
    {
      hide Build, ReadyOrFailed;
      refs := refs + 1;
      settings := settings - 1;
      w := OnReadyOrFailed(error, [conn], usable, now);
    }

    method OnShutdown(conn: nat) returns (w: Work)
      requires WithinMax(cfg, View()) && open > 0
      modifies this
      ensures (View(), w) == ConnectionShutdown(cfg, old(View()), conn)
    {
      hide Build;
      refs := refs + 1;
      open, refs := open - 1, refs - 1;
      RemoveShrinks(idle, conn);
      var found := RemoveIdle(conn);
      w := BuildTransaction([], if found then [conn] else []);
    }

    method CullIdle(now: nat) returns (w: Work)
      modifies this
      ensures (View(), w) == Cull(old(View()), now)
    {
      refs := refs + 1;
      var released: seq<nat> := [];
      ghost var whole := idle;
      ghost var k := 0;
      if ready {
        while idle != [] && idle[0].cullAt <= now
          invariant 0 <= k <= |whole| && idle == whole[k..]
          invariant released == Conns(whole[..k])
          invariant Expired(whole, now) == k + Expired(idle, now)
          modifies this`idle
          decreases |idle|
        {
          assert whole[..k + 1] == whole[..k] + [whole[k]];
          released := released + [idle[0].conn];
          idle := idle[1..];
          k := k + 1;
        }
      }
      assert whole[0..] == whole && Conns(whole[..0]) == [];
      w := Work([], released, 0, 0);
    }

    method RetakeLock(w: Work) returns (w': Work)
      requires refs >= w.failed && connecting >= w.failed
      modifies this
      ensures (View(), w') == Relock(old(View()), w)
    {
      hide FailAll;
      connecting := connecting - w.failed;
      refs := refs - w.failed;
      var list := FailExcess(connecting, w.completions);
      w' := w.(completions := list, failed := 0);
    }
  }

  /** The dispatch loop of a transaction, with its early end. */
  method CompleteAcquisitions(list: seq<Completion>, onThread: nat -> bool)
    returns (done: seq<Completion>, left: seq<Completion>)
    ensures (done, left) == Dispatch(list, onThread)
  {
    done, left := [], list;
    assert [] + Dispatch(list, onThread).0 == Dispatch(list, onThread).0;
    while left != []
      invariant Dispatch(list, onThread) == (done + Dispatch(left, onThread).0, Dispatch(left, onThread).1)
      decreases |left|
    {
      var c := left[0];
      ghost var rest := Dispatch(left[1..], onThread);
      assert (done + [c]) + rest.0 == done + ([c] + rest.0);
      done, left := done + [c], left[1..];
      if c.Success? && !onThread(c.conn) {
        return;
      }
    }
    assert done + [] == done;
  }

  lemma RemoveSkips(idle: seq<Idle>, conn: nat, i: nat)
    requires i < |idle| && idle[i].conn != conn
    ensures idle[..i] + Remove(idle[i..], conn).0 == idle[..i + 1] + Remove(idle[i + 1..], conn).0
    ensures Remove(idle[i..], conn).1 == Remove(idle[i + 1..], conn).1
  {
    assert idle[i..][1..] == idle[i + 1..];
    assert idle[..i] + ([idle[i]] + Remove(idle[i + 1..], conn).0) == idle[..i + 1] + Remove(idle[i + 1..], conn).0;
  }

  /** One turn of the vending loop. */
  ghost function VendNext(m: Manager, cs: seq<Completion>): (Manager, seq<Completion>)
    requires m.idle != [] && m.waiting != []
  {
    var last := |m.idle| - 1;
    (m.(idle := m.idle[..last], waiting := m.waiting[1..], vended := m.vended + 1, refs := m.refs + 1),
     cs + [Success(m.waiting[0], m.idle[last].conn)])
  }

  /** The state after handing over does not depend on what the list already holds. */
  lemma VendSame(m: Manager, cs: seq<Completion>)
    ensures VendAll(m, cs).0 == VendAll(m, []).0
  {
  }

  lemma VendFirstNone(m: Manager, cs: seq<Completion>)
    ensures VendFirst(m, cs, 0) == (m, cs)
  {
    assert m.waiting[0..] == m.waiting && m.idle[..|m.idle|] == m.idle;
    assert cs + Successes(m.waiting[..0], m.idle[|m.idle|..]) == cs;
  }

  lemma VendFirstNext(m: Manager, cs: seq<Completion>, n: nat)
    requires n < |m.idle| && n < |m.waiting|
    ensures var (m1, cs1) := VendFirst(m, cs, n);
            && |m1.idle| == |m.idle| - n && |m1.waiting| == |m.waiting| - n
            && VendNext(m1, cs1) == VendFirst(m, cs, n + 1)
  {
    hide Successes;
    SuccessesPush(m.waiting, m.idle, n);
    var left := |m.idle| - n;
    assert m.idle[..left][..left - 1] == m.idle[..left - 1] && m.waiting[n..][1..] == m.waiting[n + 1..];
    var done, next := Successes(m.waiting[..n], m.idle[left..]), [Success(m.waiting[n], m.idle[left - 1].conn)];
    assert (cs + done) + next == cs + (done + next);
  }

  lemma SuccessesPush(ids: seq<nat>, pool: seq<Idle>, n: nat)
    requires n < |ids| && n < |pool|
    ensures Successes(ids[..n + 1], pool[|pool| - (n + 1)..]) ==
            Successes(ids[..n], pool[|pool| - n..]) + [Success(ids[n], pool[|pool| - 1 - n].conn)]
  {
    assert ids[..n + 1][..n] == ids[..n];
    assert pool[|pool| - (n + 1)..][1..] == pool[|pool| - n..];
  }
}
