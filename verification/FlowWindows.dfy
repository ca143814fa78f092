/**
 * An endpoint's windows as an object, updated in place as frames are sent and
 * received, proved against the functions in `FlowControl`.
 */
module FlowWindows {
  import opened FlowControl

  datatype Status = Success | Failed(error: Error)

  class Windows {
    const client: bool
    const memory: nat
    var connPeer: int
    var connSelf: int
    var peerInit: nat
    var selfInit: nat
    var pending: seq<seq<nat>>
    var streams: map<nat, Win>
    /** How streams were closed; the source keeps this for the `recent` ones only. */
    var closed: map<nat, When>
    var recent: seq<nat>
    /** Frames put in the outgoing queue, oldest first. */
    var out: seq<Frame>

    function View(): Endpoint
      reads this
    {
      Endpoint(client, memory, connPeer, connSelf, peerInit, selfInit, pending, streams, closed, recent)
    }

    /** The method ended as the specification says: same error, or same state and frames. */
    ghost predicate Meets(r: Outcome, status: Status, before: seq<Frame>)
      reads this
    {
      match r
      case Err(error) => status == Failed(error)
      case Ok(e, frames) => status == Success && View() == e && out == before + frames
    }

    /** The connection window starts at its first size and is raised to the maximum at once. */
    constructor (client: bool, memory: nat)
      ensures View() == NewEndpoint(client, memory) && out == [ConnUpdate(MAX_WINDOW - FIRST_WINDOW)]
    {
      this.client, this.memory := client, memory;
      peerInit, selfInit, pending := FIRST_WINDOW, FIRST_WINDOW, [];
      streams, closed, recent := map[], map[], [];
      var raise := MAX_WINDOW - FIRST_WINDOW;
      out := [ConnUpdate(raise)];
      connPeer, connSelf := FIRST_WINDOW, FIRST_WINDOW + raise;
    }

    method Activate(s: nat, end: bool)
      modifies this
      ensures View() == OpenStream(old(View()), s, end).0 && out == old(out) + OpenStream(old(View()), s, end).1
    {
      streams := streams[s := Win(peerInit, selfInit, end, false)];
      out := out + [Headers(s, end)];
    }

    /** Records a closed stream in the cache, from which the oldest is dropped when there are too many. */
    method Close(s: nat, when: When)
      modifies this`streams, this`closed, this`recent
      ensures View() == Retire(old(View()), s, when)
    {
      streams := streams - {s};
      closed := closed[s := when];
      recent := recent + [s];
      if |recent| > memory {
        recent := recent[1..];
      }
    }

    method ResetAndClose(s: nat, error: Error)
      modifies this`streams, this`closed, this`recent, this`out
      ensures View() == ResetStream(old(View()), s, error).0 && out == old(out) + [Reset(s, error)]
    {
      out := out + [Reset(s, error)];
      Close(s, ResetSent);
    }

    method CloseIfDone(s: nat)
      requires s in streams
      modifies this`streams, this`closed, this`recent
      ensures View() == Settle(old(View()), s)
    {
      if streams[s].sentEnd && streams[s].gotEnd {
        Close(s, BothEnded);
      }
    }

    /** What the end finds of a frame's stream; a frame on a stream that the peer has reset is answered at once. */
    method FindActive(s: nat, carries: bool) returns (status: Status, active: bool)
      modifies this`out
      ensures active == Find(View(), s).Active?
      ensures match Find(View(), s)
              case Active => status == Success && out == old(out)
              case Nowhere => status == Failed(ProtocolError) && out == old(out)
              case Ended(BothEnded) =>
                status == (if carries then Failed(StreamClosedError) else Success) && out == old(out)
              case Ended(ResetReceived) => status == Success && out == old(out) + Answer(s, 1)
              case Ended(ResetSent) => status == Success && out == old(out)
    {
      status, active := Success, s in streams;
      if !active {
        if s in recent && s in closed {
          match closed[s] {
            case BothEnded =>
              if carries {
                status := Failed(StreamClosedError);
              }
            case ResetReceived => out := out + [Reset(s, StreamClosedError)];
            case ResetSent =>
          }
        } else {
          status := Failed(ProtocolError);
        }
      }
    }

    /** The callbacks of a frame after its first, on a stream that is not active. */
    method LaterCallbacks(s: nat, calls: nat)
      requires Find(View(), s).Ended?
      modifies this`out
      ensures out == old(out) + if Find(View(), s) == Ended(ResetReceived) then Answer(s, calls) else []
    {
      ghost var before := out;
      assert before + [] == before;
      if closed[s] == ResetReceived {
        for i := 0 to calls
          invariant out == before + Answer(s, i)
        {
          out := out + [Reset(s, StreamClosedError)];
          assert Answer(s, i + 1) == Answer(s, i) + [Reset(s, StreamClosedError)];
        }
      }
    }

    /**
     * Writes a DATA frame with as much of the `available` body bytes as fits `space` and both windows.
     * `finished` says that the body source has no more than these, `ends` that its end is the stream's.
     */
    method EncodeData(s: nat, space: nat, available: nat, finished: bool, ends: bool) returns (sent: bool, len: nat)
      requires MaySend(View(), s)
      modifies this
      ensures sent <==> space > 0 && (available > 0 || finished)
      ensures !sent ==> View() == old(View()) && out == old(out)
      ensures sent ==>
                && len <= MaxPayload(old(View()), s, space)
                && (len == available || len == MaxPayload(old(View()), s, space))
                && var end := finished && ends && len == available;
                   View() == SendData(old(View()), s, len, end).0 && out == old(out) + [Data(s, len, end)]
    {
      hide Settle;
      var window := if streams[s].peer < connPeer then streams[s].peer else connPeer;
      var most := if space < window then space else window;
      sent, len := false, 0;
      if most == 0 {
        return;
      }
      len := if available < most then available else most;
      var end := finished && ends && len == available;
      if len == 0 && !finished {
        return;
      }
      sent := true;
      out := out + [Data(s, len, end)];
      connPeer := connPeer - len;
      streams := streams[s := streams[s].(peer := streams[s].peer - len, sentEnd := end)];
      CloseIfDone(s);
    }

    method Announce(values: seq<nat>)
      modifies this
      ensures View() == ChangeSettings(old(View()), values).0 && out == old(out) + [Settings(values)]
    {
      pending := pending + [values];
      out := out + [Settings(values)];
    }

    // ----- incoming DATA

    method OnStreamDataBegin(s: nat, len: nat, end: bool, malformed: bool)
      requires s in streams
      modifies this
      ensures View() == OnStreamData(old(View()), s, len, end, malformed).0
      ensures out == old(out) + OnStreamData(old(View()), s, len, end, malformed).1
    {
      var w := streams[s];
      if w.gotEnd {
        ResetAndClose(s, StreamClosedError);
      } else if malformed {
        ResetAndClose(s, ProtocolError);
      } else if len > w.self && len != 0 {
        ResetAndClose(s, FlowControlError);
      } else {
        streams := streams[s := w.(self := w.self - len)];
        if !end {
          if len != 0 {
            out := out + [StreamUpdate(s, len)];
          }
          streams := streams[s := w];
          assert streams == old(streams);
        }
      }
    }

    method OnEndStream(s: nat, short: bool)
      modifies this
      ensures View() == OnEnd(old(View()), s, short).0 && out == old(out) + OnEnd(old(View()), s, short).1
    {
      hide Settle;
      if s in streams {
        if short {
          ResetAndClose(s, ProtocolError);
        } else {
          streams := streams[s := streams[s].(gotEnd := true)];
          CloseIfDone(s);
        }
      }
    }

    method GiveCredit(len: nat)
      modifies this`out
      ensures out == old(out) + if len != 0 then [ConnUpdate(len)] else []
    {
      if len != 0 {
        out := out + [ConnUpdate(len)];
      }
    }

    method OnActiveData(s: nat, len: nat, end: bool, a: Arrival)
      requires s in streams && len <= connSelf
      modifies this
      ensures Meets(OnData(old(View()), s, len, end, a), Success, old(out))
    {
      hide OnStreamData, OnEnd;
      ghost var before, credit := out, if len != 0 then [ConnUpdate(len)] else [];
      ghost var (e1, begun) := OnStreamData(View(), s, len, end, a.malformed);
      OnStreamDataBegin(s, len, end, a.malformed);
      GiveCredit(len);
      assert out == before + (begun + credit);
      if end {
        OnEndStream(s, a.short);
        ghost var ended := OnEnd(e1, s, a.short).1;
        assert before + (begun + credit) + ended == before + (begun + credit + ended);
      } else {
        assert begun + credit + [] == begun + credit;
      }
    }

    method OnDataFrame(s: nat, len: nat, end: bool, a: Arrival) returns (status: Status)
      modifies this
      ensures Meets(OnData(old(View()), s, len, end, a), status, old(out))
    {
      hide OnStreamData, OnEnd, Answer;
      ghost var before, credit := out, if len != 0 then [ConnUpdate(len)] else [];
      if len > connSelf {
        return Failed(FlowControlError);
      }
      var active;
      status, active := FindActive(s, true);
      if active {
        OnActiveData(s, len, end, a);
      } else if status.Success? {
        GiveCredit(len);
        LaterCallbacks(s, a.calls);
        assert before + Answer(s, 1) + credit + Answer(s, a.calls) ==
               before + (Answer(s, 1) + credit + Answer(s, a.calls));
      }
    }

    // ----- incoming HEADERS and RST_STREAM

    method OnHeadersFrame(s: nat, end: bool, a: Arrival) returns (status: Status)
      modifies this
      ensures Meets(OnHeaders(old(View()), s, end, a), status, old(out))
    {
      hide OnEnd;
      ghost var e, before := View(), out;
      if !client && s !in streams && s !in closed {
        streams := streams[s := Win(peerInit, selfInit, false, end)];
        return Success;
      }
      var active;
      status, active := FindActive(s, true);
      if status.Failed? {
        return;
      }
      if !active {
        LaterCallbacks(s, a.calls);
        assert Answer(s, 1) + Answer(s, a.calls) == Answer(s, 1 + a.calls);
        assert before + Answer(s, 1) + Answer(s, a.calls) == before + (Answer(s, 1) + Answer(s, a.calls));
      } else if streams[s].gotEnd {
        ResetAndClose(s, StreamClosedError);
      } else if a.malformed {
        ResetAndClose(s, ProtocolError);
      } else if end {
        OnEndStream(s, a.short);
      }
    }

    method OnResetFrame(s: nat) returns (status: Status)
      modifies this
      ensures Meets(OnReset(old(View()), s), status, old(out))
    {
      var active;
      status, active := FindActive(s, false);
      if active {
        Close(s, ResetReceived);
      }
    }

    // ----- incoming WINDOW_UPDATE and SETTINGS

    method OnConnectionUpdate(inc: nat) returns (status: Status)
      modifies this
      ensures Meets(OnConnUpdate(old(View()), inc), status, old(out))
    {
      if inc == 0 {
        return Failed(ProtocolError);
      }
      if connPeer + inc > MAX_WINDOW {
        return Failed(FlowControlError);
      }
      connPeer := connPeer + inc;
      return Success;
    }

    method OnUpdate(s: nat, inc: nat) returns (status: Status, resume: bool)
      modifies this
      ensures Meets(OnStreamUpdate(old(View()), s, inc), status, old(out))
      ensures resume <==> s in streams && s in old(streams) && old(streams)[s].peer <= MIN_WINDOW < streams[s].peer
    {
      resume := false;
      var active;
      status, active := FindActive(s, false);
      if active {
        var w := streams[s];
        if inc == 0 {
          ResetAndClose(s, ProtocolError);
        } else if w.peer + inc > MAX_WINDOW {
          ResetAndClose(s, FlowControlError);
        } else {
          streams := streams[s := w.(peer := w.peer + inc)];
          resume := w.peer + inc > MIN_WINDOW && w.peer <= MIN_WINDOW;
        }
      }
    }

    /** Adjusts every active stream's send window, stopping at the first that would exceed the maximum. */
    method ShiftPeerWindows(change: int) returns (ok: bool)
      modifies this`streams
      ensures ok <==> !exists s | s in old(streams) :: old(streams)[s].peer + change > MAX_WINDOW
      ensures ok ==> streams == ShiftPeer(old(streams), change)
      ensures streams.Keys == old(streams).Keys
      ensures forall s | s in streams ::
                || streams[s] == old(streams)[s]
                || (streams[s] == old(streams)[s].(peer := old(streams)[s].peer + change) &&
                    streams[s].peer <= MAX_WINDOW)
    {
      ghost var before := streams;
      var todo := streams.Keys;
      while todo != {}
        invariant todo <= before.Keys && streams.Keys == before.Keys
        invariant forall s | s in todo :: streams[s] == before[s]
        invariant forall s | s in before && s !in todo ::
                    && streams[s] == before[s].(peer := before[s].peer + change)
                    && before[s].peer + change <= MAX_WINDOW
        decreases |todo|
      {
        var s :| s in todo;
        todo := todo - {s};
        if streams[s].peer + change > MAX_WINDOW {
          return false;
        }
        streams := streams[s := streams[s].(peer := streams[s].peer + change)];
      }
      return true;
    }

    method ShiftSelfWindows(change: int) returns (ok: bool)
      modifies this`streams
      ensures ok <==> !exists s | s in old(streams) :: old(streams)[s].self + change > MAX_WINDOW
      ensures ok ==> streams == ShiftSelf(old(streams), change)
      ensures streams.Keys == old(streams).Keys
      ensures forall s | s in streams ::
                || streams[s] == old(streams)[s]
                || (streams[s] == old(streams)[s].(self := old(streams)[s].self + change) &&
                    streams[s].self <= MAX_WINDOW)
    {
      ghost var before := streams;
      var todo := streams.Keys;
      while todo != {}
        invariant todo <= before.Keys && streams.Keys == before.Keys
        invariant forall s | s in todo :: streams[s] == before[s]
        invariant forall s | s in before && s !in todo ::
                    && streams[s] == before[s].(self := before[s].self + change)
                    && before[s].self + change <= MAX_WINDOW
        decreases |todo|
      {
        var s :| s in todo;
        todo := todo - {s};
        if streams[s].self + change > MAX_WINDOW {
          return false;
        }
        streams := streams[s := streams[s].(self := streams[s].self + change)];
      }
      return true;
    }

    method ApplyPeerValue(v: nat) returns (ok: bool)
      modifies this`streams, this`peerInit
      ensures var r := ApplyPeer(old(View()), [v]);
              ok == r.Ok? && (ok ==> View() == r.e) && (!ok ==> r.error == FlowControlError)
    {
      hide ShiftPeer;
      ghost var e := View();
      assert [v][1..] == [];
      if v > MAX_WINDOW {
        return false;
      }
      if v == peerInit {
        return true;
      }
      ok := ShiftPeerWindows(v - peerInit);
      peerInit := v;
    }

    method OnSettingsFrame(values: seq<nat>) returns (status: Status)
      modifies this
      ensures Meets(OnSettings(old(View()), values), status, old(out))
    {
      ghost var e := View();
      out := out + [SettingsAck];
      assert values[0..] == values;
      for i := 0 to |values|
        invariant ApplyPeer(e, values) == ApplyPeer(View(), values[i..])
        invariant out == old(out) + [SettingsAck]
        modifies this`streams, this`peerInit
      {
        ApplyPeerSplit(View(), values[i..]);
        assert values[i..][1..] == values[i + 1..];
        var ok := ApplyPeerValue(values[i]);
        if !ok {
          return Failed(FlowControlError);
        }
      }
      return Success;
    }

    method ApplySelfValue(v: nat) returns (ok: bool)
      modifies this`streams, this`selfInit
      ensures var r := ApplySelf(old(View()), [v]);
              ok == r.Ok? && (ok ==> View() == r.e) && (!ok ==> r.error == FlowControlError)
    {
      hide ShiftSelf;
      assert [v][1..] == [];
      if v == selfInit {
        return true;
      }
      ok := ShiftSelfWindows(v - selfInit);
      selfInit := v;
    }

    method OnAcknowledgement() returns (status: Status)
      modifies this
      ensures Meets(OnSettingsAck(old(View())), status, old(out))
    {
      if pending == [] {
        return Failed(ProtocolError);
      }
      var values := pending[0];
      pending := pending[1..];
      ghost var e := View();
      assert values[0..] == values;
      for i := 0 to |values|
        invariant ApplySelf(e, values) == ApplySelf(View(), values[i..])
        modifies this`streams, this`selfInit
      {
        ApplySelfSplit(View(), values[i..]);
        assert values[i..][1..] == values[i + 1..];
        var ok := ApplySelfValue(values[i]);
        if !ok {
          return Failed(FlowControlError);
        }
      }
      return Success;
    }
  }

  /** Values apply one at a time. */
  lemma ApplyPeerSplit(e: Endpoint, values: seq<nat>)
    requires values != []
    ensures var r := ApplyPeer(e, [values[0]]);
            ApplyPeer(e, values) == if r.Ok? then ApplyPeer(r.e, values[1..]) else r
  {
    assert [values[0]][1..] == [];
  }

  lemma ApplySelfSplit(e: Endpoint, values: seq<nat>)
    requires values != []
    ensures var r := ApplySelf(e, [values[0]]);
            ApplySelf(e, values) == if r.Ok? then ApplySelf(r.e, values[1..]) else r
  {
    assert [values[0]][1..] == [];
  }
}
