/**
 * What a round of DATA comes to: streams take turns in a queue, and each is afterwards where its last turn has put it.
 */
module OutgoingTurns {
  import opened Octets
  import opened WireOrder
  import opened WireRuns
  import opened OutgoingFrames

  /** What a turn means for its stream: another turn, one in the next round, waiting, or no more DATA. */
  datatype Fate = Again | NextRound | ForWrites | ForWindow | Gone

  function FateOf(turn: Turn): Fate {
    match turn
    case NoWindow => ForWindow
    case BodyFails => Gone
    case Writes(true, _) => Gone
    case Writes(false, Ongoing) => Again
    case Writes(false, BodyStalled) => NextRound
    case Writes(false, WaitingForWrites) => ForWrites
    case Writes(false, WindowStalled) => ForWindow
  }

  /** The streams that met a fate, in the order of their turns. */
  function Met(takers: seq<nat>, turns: seq<Turn>, fate: Fate): seq<nat>
    requires |takers| <= |turns|
    decreases |takers|
  {
    if takers == [] then []
    else (if FateOf(turns[0]) == fate then [takers[0]] else []) + Met(takers[1..], turns[1..], fate)
  }

  /** The streams whose turn wrote DATA, in order. */
  function Wrote(takers: seq<nat>, turns: seq<Turn>): seq<nat>
    requires |takers| <= |turns|
    decreases |takers|
  {
    if takers == [] then [] else (if turns[0].Writes? then [takers[0]] else []) + Wrote(takers[1..], turns[1..])
  }

  /** The streams of the DATA among these entries. */
  function DataStreams(entries: seq<Entry>): seq<nat> {
    if entries == [] then []
    else DataStreams(entries[..|entries| - 1]) +
         (if entries[|entries| - 1].Data? then [entries[|entries| - 1].stream] else [])
  }

  /**
   * `takers` took the turns: they come from the queue that begins with the ready streams and goes on with those that
   * were to have another turn; everyone else is where a turn has put them, behind those that were there.
   */
  ghost predicate TookTurns(s: Sender, l: Lists, turns: seq<Turn>, takers: seq<nat>, s': Sender, l': Lists) {
    && |takers| <= |turns|
    && l.ready + Met(takers, turns, Again) == takers + l'.ready
    && (|takers| < |turns| ==> l'.ready == [])
    && l'.putBy == l.putBy + Met(takers, turns, NextRound)
    && l'.waiting == l.waiting + Met(takers, turns, ForWrites)
    && l'.stalled == l.stalled + Met(takers, turns, ForWindow)
    && (forall t :: t in s'.sending <==> t in s.sending && t !in Met(takers, turns, Gone))
    && DataStreams(s'.o.wire) == DataStreams(s.o.wire) + Wrote(takers, turns)
  }

  lemma OneTurn(s: Sender, l: Lists, turn: Turn)
    requires s.round != None && l.ready != []
    ensures var (s', l') := TakeTurn(s, l, turn); TookTurns(s, l, [turn], [l.ready[0]], s', l')
  {
  }

  lemma MetFirst(taker: nat, takers: seq<nat>, turns: seq<Turn>, fate: Fate)
    requires |takers| < |turns|
    ensures Met([taker] + takers, turns, fate) ==
            (if FateOf(turns[0]) == fate then [taker] else []) + Met(takers, turns[1..], fate)
    ensures Met([taker], [turns[0]], fate) == if FateOf(turns[0]) == fate then [taker] else []
    ensures Wrote([taker] + takers, turns) == (if turns[0].Writes? then [taker] else []) + Wrote(takers, turns[1..])
    ensures Wrote([taker], [turns[0]]) == if turns[0].Writes? then [taker] else []
  {
    assert ([taker] + takers)[1..] == takers;
  }

  /** One turn, and then the others. */
  lemma TurnsFollow(s: Sender, l: Lists, turns: seq<Turn>, s1: Sender, l1: Lists, takers: seq<nat>, s': Sender,
                    l': Lists)
    requires turns != [] && l.ready != []
    requires TookTurns(s, l, [turns[0]], [l.ready[0]], s1, l1) && TookTurns(s1, l1, turns[1..], takers, s', l')
    ensures TookTurns(s, l, turns, [l.ready[0]] + takers, s', l')
  {
    hide Met, Wrote, DataStreams, FateOf;
    var t := l.ready[0];
    forall fate ensures Met([t] + takers, turns, fate) == Met([t], [turns[0]], fate) + Met(takers, turns[1..], fate) {
      MetFirst(t, takers, turns, fate);
    }
    MetFirst(t, takers, turns, Again);
    Queued(l.ready, Met([t], [turns[0]], Again), l1.ready, t, Met(takers, turns[1..], Again), takers, l'.ready);
  }

  lemma Queued(q: seq<nat>, a: seq<nat>, q1: seq<nat>, t: nat, b: seq<nat>, takers: seq<nat>, q': seq<nat>)
    requires q + a == [t] + q1 && q1 + b == takers + q'
    ensures q + (a + b) == ([t] + takers) + q'
  {
    calc {
      q + (a + b);
      (q + a) + b;
      ([t] + q1) + b;
      [t] + (q1 + b);
      [t] + (takers + q');
      ([t] + takers) + q';
    }
  }

  /** Where a turn has put its stream, if that was its last. */
  predicate Settled(t: nat, fate: Fate, l: Lists) {
    match fate
    case Again => t in l.ready
    case NextRound => t in l.putBy
    case ForWrites => t in l.waiting
    case ForWindow => t in l.stalled
    case Gone => t !in Listed(l)
  }

  ghost predicate AllSettled(turns: seq<Turn>, takers: seq<nat>, l: Lists)
    requires |takers| <= |turns|
  {
    forall k | 0 <= k < |takers| && takers[k] !in takers[k + 1..] :: Settled(takers[k], FateOf(turns[k]), l)
  }

  /** A stream that has no later turn stays where its turn has put it. */
  lemma FirstSettles(s: Sender, l: Lists, turns: seq<Turn>, takers: seq<nat>, s': Sender, l': Lists)
    requires turns != [] && l.ready != [] && s.round != None && l.ready[0] !in takers
    requires var (s1, l1) := TakeTurn(s, l, turns[0]); TookTurns(s1, l1, turns[1..], takers, s', l')
    requires ListsOk(s', l')
    ensures Settled(l.ready[0], FateOf(turns[0]), l')
  {
    hide Met, Wrote, DataStreams, Enqueue;
    var t := l.ready[0];
    var (s1, l1) := TakeTurn(s, l, turns[0]);
    if FateOf(turns[0]).Again? {
      assert t in l1.ready + Met(takers, turns[1..], Again);
      assert t in takers + l'.ready;
    }
    if FateOf(turns[0]).Gone? {
      assert t !in s1.sending;
      assert Listed(l')[t] == 0;
    }
  }

  lemma SettledFollow(turns: seq<Turn>, taker: nat, takers: seq<nat>, l: Lists)
    requires |takers| < |turns| && AllSettled(turns[1..], takers, l)
    requires taker !in takers ==> Settled(taker, FateOf(turns[0]), l)
    ensures AllSettled(turns, [taker] + takers, l)
  {
    hide Settled;
    var all := [taker] + takers;
    forall k | 0 <= k < |all| && all[k] !in all[k + 1..] ensures Settled(all[k], FateOf(turns[k]), l) {
      if k == 0 {
        assert all[1..] == takers;
      } else {
        assert all[k] == takers[k - 1] && all[k + 1..] == takers[k..] && turns[k] == turns[1..][k - 1];
      }
    }
  }

  lemma {:induction false} TurnsTaken(s: Sender, l: Lists, turns: seq<Turn>) returns (takers: seq<nat>)
    requires ListsOk(s, l) && s.round != None
    ensures var (s', l') := Turns(s, l, turns);
            TookTurns(s, l, turns, takers, s', l') && ListsOk(s', l') && AllSettled(turns, takers, l')
    decreases |turns|
  {
    hide TakeTurn, TookTurns, ListsOk, AllSettled;
    if l.ready == [] || turns == [] {
      takers := [];
      NoTurns(s, l, turns);
    } else {
      var (s1, l1) := TakeTurn(s, l, turns[0]);
      TurnKeepsRound(s, l, turns[0]);
      TurnKeepsLists(s, l, turns[0]);
      OneTurn(s, l, turns[0]);
      var rest := TurnsTaken(s1, l1, turns[1..]);
      var (s', l') := Turns(s1, l1, turns[1..]);
      TurnsFollow(s, l, turns, s1, l1, rest, s', l');
      assert |rest| <= |turns[1..]| by { TookFew(s1, l1, turns[1..], rest, s', l'); }
      if l.ready[0] !in rest {
        FirstSettles(s, l, turns, rest, s', l');
      }
      SettledFollow(turns, l.ready[0], rest, l');
      takers := [l.ready[0]] + rest;
    }
  }

  lemma TookFew(s: Sender, l: Lists, turns: seq<Turn>, takers: seq<nat>, s': Sender, l': Lists)
    requires TookTurns(s, l, turns, takers, s', l')
    ensures |takers| <= |turns|
  {
  }

  lemma NoTurns(s: Sender, l: Lists, turns: seq<Turn>)
    requires l.ready == [] || turns == []
    ensures TookTurns(s, l, turns, [], s, l) && AllSettled(turns, [], l)
  {
  }

  /**
   * A round of DATA is round-robin: the turns are taken from the front of the queue of ready streams, at whose end
   * those with more to write line up again, until it is empty or the message is full. Afterwards those whose bodies
   * stalled are ready again, behind the others, and no stream is put by.
   */
  lemma RoundRobin(s: Sender, l: Lists, turns: seq<Turn>) returns (takers: seq<nat>)
    requires ListsOk(s, l) && l.putBy == []
    ensures var (s', l') := Round(s, l, turns);
            && |takers| <= |turns|
            && l.ready + Met(takers, turns, Again) + Met(takers, turns, NextRound) == takers + l'.ready
            && (|takers| < |turns| ==> |takers| == |l.ready| + |Met(takers, turns, Again)|)
            && l'.putBy == []
            && l'.waiting == l.waiting + Met(takers, turns, ForWrites)
            && l'.stalled == l.stalled + Met(takers, turns, ForWindow)
            && (forall t :: t in s'.sending <==> t in s.sending && t !in Met(takers, turns, Gone))
            && DataStreams(s'.o.wire) == DataStreams(s.o.wire) + Wrote(takers, turns)
    ensures forall k | 0 <= k < |takers| && takers[k] !in takers[k + 1..] ::
              AfterRound(takers[k], FateOf(turns[k]), Round(s, l, turns).1)
  {
    hide Turns, Met, Wrote, DataStreams, ListsOk, FateOf;
    var s0 := s.(round := Some(s.o.count));
    assert ListsOk(s0, l) by { SameSending(s, s0, l); }
    takers := TurnsTaken(s0, l, turns);
    var (s1, l1) := Turns(s0, l, turns);
    Rejoined(l.ready + Met(takers, turns, Again), takers, l1.ready, Met(takers, turns, NextRound));
    forall k | 0 <= k < |takers| && takers[k] !in takers[k + 1..]
      ensures AfterRound(takers[k], FateOf(turns[k]), Round(s, l, turns).1)
    {
      assert Settled(takers[k], FateOf(turns[k]), l1);
    }
  }

  /** Where a stream is after the round in which its last turn had this fate. */
  predicate AfterRound(t: nat, fate: Fate, l: Lists) {
    match fate
    case Again => t in l.ready
    case NextRound => t in l.ready
    case ForWrites => t in l.waiting
    case ForWindow => t in l.stalled
    case Gone => t !in l.ready && t !in l.waiting && t !in l.stalled
  }

  lemma SameSending(s: Sender, s': Sender, l: Lists)
    requires ListsOk(s, l) && s'.sending == s.sending
    ensures ListsOk(s', l)
  {
  }

  lemma Rejoined(all: seq<nat>, takers: seq<nat>, ready: seq<nat>, more: seq<nat>)
    requires all == takers + ready
    ensures all + more == takers + (ready + more)
  {
  }
}
