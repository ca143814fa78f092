/**
 * The HPACK dynamic table: its meaning as a newest-first sequence of header
 * fields with a size limit, together with the capacity of the ring buffer that
 * stores it, and the lookup of indices across the static and dynamic tables.
 */
module HpackTable {
  import opened Octets

  datatype Compression = UseCache | NoCache | NoForwardCache
  datatype Header = Header(name: Bytes, value: Bytes, compression: Compression)

  /** What the reverse lookup compares: the compression of a field is not part of its identity. */
  datatype Key = Key(name: Bytes, value: Bytes)

  function KeyOf(h: Header): Key {
    Key(h.name, h.value)
  }

  const INITIAL_SIZE: nat := 4096
  const INITIAL_ELEMENTS: nat := 512
  const MAX_SIZE: nat := 16 * 1024 * 1024

  /** No buffer outgrows this, so `capacity * 1.5F` is exact in single precision. */
  const MAX_CAPACITY: nat := 3 * 256 * 1024

  function HeaderSize(h: Header): nat {
    |h.name| + |h.value| + 32
  }

  function TotalSize(es: seq<Header>): nat {
    if es == [] then 0 else TotalSize(es[..|es| - 1]) + HeaderSize(es[|es| - 1])
  }

  lemma {:induction false} TotalSizePush(h: Header, es: seq<Header>)
    ensures TotalSize([h] + es) == HeaderSize(h) + TotalSize(es)
  {
    if es == [] {
      assert [h] + es == [h];
      assert [h][..0] == [];
    } else {
      var s := [h] + es;
      assert s[..|s| - 1] == [h] + es[..|es| - 1];
      TotalSizePush(h, es[..|es| - 1]);
    }
  }

  lemma {:induction false} TotalSizePrefix(es: seq<Header>, n: nat)
    requires n <= |es|
    ensures TotalSize(es[..n]) <= TotalSize(es)
    ensures n < |es| ==> TotalSize(es[..n]) < TotalSize(es)
  {
    if n < |es| {
      TotalSizePrefix(es[..|es| - 1], n);
      assert es[..|es| - 1][..n] == es[..n];
    } else {
      assert es[..n] == es;
    }
  }

  lemma {:induction false} TotalSizeAtLeast(es: seq<Header>)
    ensures 32 * |es| <= TotalSize(es)
  {
    if es != [] {
      TotalSizeAtLeast(es[..|es| - 1]);
    }
  }

  /** Drops entries from the oldest end while the table is larger than `limit`. */
  function Evict(es: seq<Header>, limit: nat): (kept: seq<Header>)
    ensures |kept| <= |es| && kept == es[..|kept|]
  {
    if es == [] || TotalSize(es) <= limit then es
    else
      var kept := Evict(es[..|es| - 1], limit);
      assert es[..|es| - 1][..|kept|] == es[..|kept|];
      kept
  }

  /** Eviction keeps the longest newest-first prefix that fits: it removes no entry it could have kept. */
  lemma {:induction false} EvictKeepsLongestPrefix(es: seq<Header>, limit: nat, n: nat)
    requires n <= |es|
    ensures TotalSize(Evict(es, limit)) <= limit
    ensures TotalSize(es[..n]) <= limit ==> n <= |Evict(es, limit)|
  {
    if es == [] || TotalSize(es) <= limit {
    } else if n == |es| {
      assert es[..n] == es;
      EvictKeepsLongestPrefix(es[..|es| - 1], limit, 0);
    } else {
      assert es[..|es| - 1][..n] == es[..n];
      EvictKeepsLongestPrefix(es[..|es| - 1], limit, n);
    }
  }

  // ----- the table and its two operations

  datatype Table = Table(entries: seq<Header>, maxSize: nat, capacity: nat)

  const EMPTY_TABLE := Table([], INITIAL_SIZE, INITIAL_ELEMENTS)

  ghost predicate TableValid(t: Table) {
    && TotalSize(t.entries) <= t.maxSize <= MAX_SIZE
    && |t.entries| <= t.capacity <= MAX_CAPACITY
  }

  /** `capacity * 1.5` truncated, or the initial capacity for an empty buffer. */
  function Grown(capacity: nat): nat {
    if capacity == 0 then INITIAL_ELEMENTS else capacity * 3 / 2
  }

  /**
   * `Stranded` is the outcome the ring buffer cannot represent: it is full with
   * a capacity of one, and growing it leaves the capacity at one.
   */
  datatype InsertOutcome = Inserted(table: Table) | TooLarge | Stranded

  function Insert(t: Table, h: Header): InsertOutcome {
    if t.maxSize == 0 then Inserted(t)
    else if HeaderSize(h) > t.maxSize then TooLarge
    else
      var kept := Evict(t.entries, t.maxSize - HeaderSize(h));
      var capacity := if |kept| == t.capacity then Grown(t.capacity) else t.capacity;
      if |kept| == capacity then Stranded
      else Inserted(Table([h] + kept, t.maxSize, capacity))
  }

  /** Insertion prepends and evicts just enough; the size bound and the capacity bound are invariants. */
  lemma InsertKeepsValid(t: Table, h: Header)
    requires TableValid(t)
    ensures Insert(t, h).Inserted? ==> TableValid(Insert(t, h).table)
    ensures Insert(t, h).Stranded? <==>
            t.maxSize > 0 && HeaderSize(h) <= t.maxSize &&
            t.capacity == 1 == |Evict(t.entries, t.maxSize - HeaderSize(h))|
  {
    if 0 < t.maxSize && HeaderSize(h) <= t.maxSize {
      var limit := t.maxSize - HeaderSize(h);
      EvictKeepsLongestPrefix(t.entries, limit, 0);
      TotalSizePush(h, Evict(t.entries, limit));
      TotalSizeAtLeast(Evict(t.entries, limit));
    }
  }

  /** The two outcomes of inserting a field that fits, once room has been made for it. */
  lemma InsertCases(t: Table, h: Header, kept: seq<Header>, capacity: nat)
    requires TableValid(t) && HeaderSize(h) <= t.maxSize
    requires kept == Evict(t.entries, t.maxSize - HeaderSize(h))
    requires capacity == if |kept| == t.capacity then Grown(t.capacity) else t.capacity
    ensures |kept| <= capacity && capacity > 0
    ensures |kept| == capacity <==> Insert(t, h).Stranded?
    ensures |kept| < capacity ==>
              TableValid(Table([h] + kept, t.maxSize, capacity)) &&
              Insert(t, h) == Inserted(Table([h] + kept, t.maxSize, capacity))
  {
    InsertKeepsValid(t, h);
  }

  /**
   * A run that strands: one field, a resize of the table (which leaves the
   * buffer with exactly one slot), then a second field that needs no eviction.
   */
  lemma StrandedIsReachable(a: Header, b: Header)
    requires HeaderSize(a) + HeaderSize(b) <= INITIAL_SIZE
    ensures var one := Insert(EMPTY_TABLE, a);
            && one.Inserted? && Resize(one.table, 8192).Some?
            && Insert(Resize(one.table, 8192).value, b).Stranded?
  {
    TotalSizePush(a, []);
    assert [a] + [] == [a];
    var one := Insert(EMPTY_TABLE, a).table;
    assert one.entries == [a];
    assert Evict([a], 8192) == [a];
    assert Evict([a], 8192 - HeaderSize(b)) == [a];
  }

  function Resize(t: Table, newMax: nat): Option<Table> {
    if newMax == t.maxSize then Some(t)
    else if newMax > MAX_SIZE then None
    else
      var kept := Evict(t.entries, newMax);
      Some(Table(kept, newMax, |kept|))
  }

  lemma ResizeKeepsValid(t: Table, newMax: nat)
    requires TableValid(t)
    ensures Resize(t, newMax).Some? ==> TableValid(Resize(t, newMax).value) && Resize(t, newMax).value.maxSize == newMax
    ensures Resize(t, newMax).None? <==> newMax > MAX_SIZE
  {
    EvictKeepsLongestPrefix(t.entries, newMax, 0);
    TotalSizeAtLeast(Evict(t.entries, newMax));
  }

  // ----- indices

  /** Index 0 is unused, the static table follows, the dynamic table comes last, newest first. */
  function GetHeader(statics: seq<Header>, t: Table, index: nat): Option<Header> {
    if index == 0 || index > |statics| + |t.entries| then None
    else if index <= |statics| then Some(statics[index - 1])
    else Some(t.entries[index - 1 - |statics|])
  }

  /** A static table whose fields all use the cache, as the built-in one does. */
  ghost predicate StaticsValid(statics: seq<Header>) {
    forall h | h in statics :: h.compression.UseCache?
  }

  /** Every dynamic entry was inserted by a representation that uses the cache. */
  ghost predicate EntriesCached(t: Table) {
    forall h | h in t.entries :: h.compression.UseCache?
  }

  lemma InsertKeepsCached(t: Table, h: Header)
    requires EntriesCached(t) && h.compression.UseCache?
    ensures Insert(t, h).Inserted? ==> EntriesCached(Insert(t, h).table)
  {
    if Insert(t, h).Inserted? {
      forall e | e in Insert(t, h).table.entries ensures e.compression.UseCache? {
        if e != h && t.maxSize != 0 {
          assert e in Evict(t.entries, t.maxSize - HeaderSize(h));
        }
      }
    }
  }

  /** What the encoder may rely on: a non-zero index names the field, and its value too when `found` is set. */
  ghost predicate SoundIndex(statics: seq<Header>, t: Table, h: Header, index: nat, found: bool) {
    && (found ==> index != 0)
    && (index != 0 ==>
          && GetHeader(statics, t, index).Some?
          && GetHeader(statics, t, index).value.name == h.name
          && (found ==> GetHeader(statics, t, index).value.value == h.value))
  }
}
