/** Facts about sequences of identifiers, such as the pool managers and the flow control of streams use. */
module Sequences {

  function Bit(b: bool): nat {
    if b then 1 else 0
  }

  ghost predicate Distinct(ids: seq<nat>) {
    forall i, j | 0 <= i < j < |ids| :: ids[i] != ids[j]
  }

  lemma DistinctPush(ids: seq<nat>, more: seq<nat>)
    requires Distinct(ids) && (more == [] || (|more| == 1 && more[0] !in ids))
    ensures Distinct(ids + more)
  {
  }

  lemma {:induction false} MultisetOfDistinct(ids: seq<nat>, id: nat)
    requires Distinct(ids)
    ensures multiset(ids)[id] == Bit(id in ids)
    decreases |ids|
  {
    if ids != [] {
      assert ids == ids[..|ids| - 1] + [ids[|ids| - 1]];
      MultisetOfDistinct(ids[..|ids| - 1], id);
    }
  }

  function SetOf(ids: seq<nat>): set<nat> {
    set k | 0 <= k < |ids| :: ids[k]
  }

  lemma {:induction false} DistinctSet(ids: seq<nat>)
    requires Distinct(ids)
    ensures |SetOf(ids)| == |ids|
    decreases |ids|
  {
    if ids == [] {
      assert SetOf(ids) == {};
    } else {
      var front, last := ids[..|ids| - 1], ids[|ids| - 1];
      DistinctSet(front);
      assert forall k | 0 <= k < |front| :: front[k] == ids[k];
      assert SetOf(ids) == SetOf(front) + {last} && last !in SetOf(front);
    }
  }

  lemma {:induction false} SubsetSize(a: set<nat>, b: set<nat>)
    requires a <= b
    ensures |a| <= |b|
    decreases |a|
  {
    if a != {} {
      var x :| x in a;
      SubsetSize(a - {x}, b - {x});
    }
  }
}
