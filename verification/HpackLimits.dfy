/**
 * What becomes of the table-size limits that an HPACK encoder receives: the next header block announces the smallest
 * of them and ends with the latest, and both tables are cut down to the smallest.
 */
module HpackLimits {
  import opened Octets
  import opened HpackTable
  import opened HpackDecoder
  import opened HpackEncoder

  function Smallest(limits: seq<nat>): (n: nat)
    requires limits != []
    ensures n in limits && forall k | k in limits :: n <= k
  {
    if |limits| == 1 then limits[0]
    else
      assert forall k | k in limits :: k == limits[0] || k in limits[1..];
      Min(limits[0], Smallest(limits[1..]))
  }

  function Last(limits: seq<nat>): nat
    requires limits != []
  {
    limits[|limits| - 1]
  }

  /** The sizes among the events of a block. */
  function Sizes(events: seq<Event>): seq<nat> {
    if events == [] then [] else (if events[0].Resized? then [events[0].size] else []) + Sizes(events[1..])
  }

  lemma {:induction false} PendingIs(p: Pending, limits: seq<nat>)
    requires limits != [] && (p.Update? ==> p.smallest <= p.latest)
    ensures var q := NoteLimits(p, limits);
            && q.Update? && q.latest == Last(limits)
            && q.smallest == if p.NoUpdate? then Smallest(limits) else Min(p.smallest, Smallest(limits))
    decreases |limits|
  {
    var q := NoteLimit(p, limits[0]);
    if |limits| > 1 {
      PendingIs(q, limits[1..]);
    } else {
      assert limits[1..] == [];
    }
  }

  /** Cutting down to a size that is large enough changes nothing. */
  lemma EvictNothing(es: seq<Header>, limit: nat)
    requires TotalSize(es) <= limit
    ensures Evict(es, limit) == es
  {
  }

  lemma ResizeEvicts(t: Table, size: nat)
    requires TableValid(t)
    ensures Resize(t, size).Some? <==> size <= MAX_SIZE
    ensures Resize(t, size).Some? ==>
              var t' := Resize(t, size).value;
              TableValid(t') && t'.entries == Evict(t.entries, size) && t'.maxSize == size
  {
    hide Evict;
    ResizeKeepsValid(t, size);
    if size == t.maxSize {
      EvictNothing(t.entries, size);
    }
  }

  /** The sizes announced, and the table that the fields of the block are encoded against. */
  lemma ResizesLead(t: Table, limits: seq<nat>)
    requires TableValid(t) && limits != []
    ensures var sizes := Announced(NoteLimits(NoUpdate, limits));
            var e := EncodeResizes(t, sizes);
            && Smallest(limits) in sizes && sizes != [] && Last(sizes) == Last(limits)
            && (|sizes| == 1 || (|sizes| == 2 && sizes[0] < sizes[1]))
            && (e.Encoded? <==> Last(limits) <= MAX_SIZE)
            && (e == EncodeError <==> Last(limits) > MAX_SIZE)
            && (e.Encoded? ==>
                  e.table.entries == Evict(t.entries, Smallest(limits)) && e.table.maxSize == Last(limits))
  {
    hide Evict, Resize, TableValid;
    PendingIs(NoUpdate, limits);
    var small, last := Smallest(limits), Last(limits);
    assert last in limits;
    var sizes := Announced(NoteLimits(NoUpdate, limits));
    ResizeEvicts(t, small);
    if small == last {
      assert sizes == [last];
      OneResize(t, last);
    } else {
      assert sizes == [small, last];
      TwoResizes(t, small, last);
    }
  }

  lemma OneResize(t: Table, size: nat)
    ensures var r, e := Resize(t, size), EncodeResizes(t, [size]);
            && (e.Encoded? <==> r.Some?) && (e == EncodeError <==> r.None?)
            && (e.Encoded? ==> e.table == r.value)
  {
    hide Resize;
    var none: seq<nat> := [size][1..];
    assert none == [];
  }

  lemma TwoResizes(t: Table, small: nat, last: nat)
    requires TableValid(t) && small < last
    ensures var e := EncodeResizes(t, [small, last]);
            && (e.Encoded? <==> last <= MAX_SIZE) && (e == EncodeError <==> last > MAX_SIZE)
            && (e.Encoded? ==> e.table.entries == Evict(t.entries, small) && e.table.maxSize == last)
  {
    hide Evict, Resize, TotalSize;
    ResizeEvicts(t, small);
    if small <= MAX_SIZE {
      var t1 := Resize(t, small).value;
      ResizeEvicts(t1, last);
      EvictNothing(t1.entries, last);
      OneResize(t1, last);
    }
    assert [small, last][1..] == [last];
  }

  lemma {:induction false} SizesOf(sizes: seq<nat>, hs: seq<Header>)
    ensures Sizes(ResizeEvents(sizes) + FieldEvents(hs)) == sizes
    decreases |sizes| + |hs|
  {
    var all := ResizeEvents(sizes) + FieldEvents(hs);
    if sizes != [] {
      assert all[1..] == ResizeEvents(sizes[1..]) + FieldEvents(hs);
      SizesOf(sizes[1..], hs);
    } else if hs != [] {
      assert all[0] == Field(hs[0]) && all[1..] == ResizeEvents([]) + FieldEvents(hs[1..]);
      SizesOf([], hs[1..]);
    }
  }

  lemma {:induction false} SizesFirst(sizes: seq<nat>, k: nat)
    requires k < |sizes|
    ensures |ResizeEvents(sizes)| == |sizes| && ResizeEvents(sizes)[k] == Resized(sizes[k])
  {
    if |sizes| > 1 {
      SizesFirst(sizes[1..], if k == 0 then 0 else k - 1);
    } else {
      assert sizes[1..] == [];
    }
  }

  /**
   * Whatever limits arrive before a block, from the limits alone: encoding gets to the fields exactly if the latest is
   * allowed; the decoder is told, before any field, sizes that include the smallest limit and end with the latest;
   * the fields are encoded against the old entries cut down to the smallest, in a table of the latest size; and
   * from there the decoder's table is the encoder's.
   */
  lemma LimitsObeyed(c: Coder, statics: seq<Header>, mode: HuffmanMode, t: Table, x: Exchange)
    requires CoderCorrect(c) && Shared(statics, t) && ExchangeSound(c, statics, mode, t, x) && x.limits != []
    ensures Last(x.limits) <= MAX_SIZE
    ensures exists t0: Table ::
              && t0.entries == Evict(t.entries, Smallest(x.limits)) && t0.maxSize == Last(x.limits)
              && EncodeFields(c, mode, t0, x.headers, x.lookups).Encoded?
              && ReceiveBlock(c, statics, t, x) ==
                 Some((x.headers, EncodeFields(c, mode, t0, x.headers, x.lookups).table))
    ensures var core := Core(t, x.decoderLimit);
            var events := DecodeChunks(c, statics, Run([], Alive(Decoder(core, EntryInit))), x.chunks).events;
            && Smallest(x.limits) in Sizes(events) && Sizes(events) != [] && Last(Sizes(events)) == Last(x.limits)
            && |Sizes(events)| <= |events| && forall k | 0 <= k < |Sizes(events)| :: events[k].Resized?
  {
    hide EncodeFields, DecodeChunks, CoderCorrect, Evict, NoteLimits, EncodeResizes;
    var p := NoteLimits(NoUpdate, x.limits);
    var sizes := Announced(p);
    ResizesLead(t, x.limits);
    ExchangeLockstep(c, statics, mode, t, x);
    var t0 := EncodeResizes(t, sizes).table;
    assert EncodeFields(c, mode, t0, x.headers, x.lookups).Encoded?;
    PendingOrdered(NoUpdate, x.limits);
    BlockLockstep(c, statics, mode, Core(t, x.decoderLimit), p, x.headers, x.lookups, x.chunks);
    SizesOf(sizes, x.headers);
    forall k | 0 <= k < |sizes|
      ensures |sizes| == |ResizeEvents(sizes)| && (ResizeEvents(sizes) + FieldEvents(x.headers))[k].Resized?
    {
      SizesFirst(sizes, k);
    }
  }

  /** And a block for which the latest limit is not allowed is not encoded at all. */
  lemma LimitsRefused(c: Coder, mode: HuffmanMode, t: Table, limits: seq<nat>, hs: seq<Header>, ls: seq<Lookup>)
    requires TableValid(t) && limits != [] && |hs| == |ls| && Last(limits) > MAX_SIZE
    ensures EncodeBlock(c, mode, t, NoteLimits(NoUpdate, limits), hs, ls) == EncodeError
  {
    hide EncodeResizes, NoteLimits, EncodeFields;
    ResizesLead(t, limits);
  }
}
