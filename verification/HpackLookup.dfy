/**
 * What the reverse lookups of the dynamic table find. A lookup points at one of the
 * entries with its key: the newest if one was inserted since the lookups were last
 * rebuilt, the oldest if not; and it is gone when that entry is.
 */
module HpackLookup {
  import opened Octets
  import opened HpackTable

  /**
   * What the lookups depend on besides the entries: how many of the oldest entries were there when the lookups were
   * last rebuilt, the names evicted since, and the fields evicted since they were last inserted, or since that time.
   */
  datatype Memory = Memory(aged: nat, names: set<Bytes>, keys: set<Key>)

  const NEW_MEMORY := Memory(0, {}, {})

  function Rebuilt(n: nat): Memory {
    Memory(n, {}, {})
  }

  function Noted(mem: Memory, h: Header): Memory {
    mem.(keys := mem.keys - {KeyOf(h)})
  }

  function Dropped(mem: Memory, back: Header): Memory {
    Memory(if mem.aged > 0 then mem.aged - 1 else 0, mem.names + {back.name}, mem.keys + {KeyOf(back)})
  }

  /** The memory when entries have been evicted until `n` are left. */
  function Shrunk(es: seq<Header>, mem: Memory, n: nat): Memory
    requires n <= |es|
    decreases |es|
  {
    if |es| == n then mem else Shrunk(es[..|es| - 1], Dropped(mem, es[|es| - 1]), n)
  }

  // ----- first and last

  function FirstName(es: seq<Header>, name: Bytes): (r: Option<nat>)
    ensures r.Some? ==> r.value < |es| && es[r.value].name == name
    ensures r.None? ==> forall i | 0 <= i < |es| :: es[i].name != name
  {
    if es == [] then None
    else if es[0].name == name then Some(0)
    else Shift(FirstName(es[1..], name))
  }

  function LastName(es: seq<Header>, name: Bytes): (r: Option<nat>)
    ensures r.Some? ==> r.value < |es| && es[r.value].name == name
    ensures r.None? ==> forall i | 0 <= i < |es| :: es[i].name != name
  {
    if es == [] then None
    else if es[|es| - 1].name == name then Some(|es| - 1)
    else LastName(es[..|es| - 1], name)
  }

  function FirstKey(es: seq<Header>, k: Key): (r: Option<nat>)
    ensures r.Some? ==> r.value < |es| && KeyOf(es[r.value]) == k
    ensures r.None? ==> forall i | 0 <= i < |es| :: KeyOf(es[i]) != k
  {
    if es == [] then None
    else if KeyOf(es[0]) == k then Some(0)
    else Shift(FirstKey(es[1..], k))
  }

  function LastKey(es: seq<Header>, k: Key): (r: Option<nat>)
    ensures r.Some? ==> r.value < |es| && KeyOf(es[r.value]) == k
    ensures r.None? ==> forall i | 0 <= i < |es| :: KeyOf(es[i]) != k
  {
    if es == [] then None
    else if KeyOf(es[|es| - 1]) == k then Some(|es| - 1)
    else LastKey(es[..|es| - 1], k)
  }

  function Shift(r: Option<nat>): Option<nat> {
    if r.Some? then Some(r.value + 1) else None
  }

  // ----- what is found

  /** The entries inserted since the last rebuild. */
  function Newer(es: seq<Header>, mem: Memory): seq<Header> {
    if mem.aged <= |es| then es[..|es| - mem.aged] else []
  }

  /** Where a search for a name ends in the dynamic table. */
  function NameIndex(es: seq<Header>, mem: Memory, name: Bytes): Option<nat> {
    if FirstName(Newer(es, mem), name).Some? then FirstName(Newer(es, mem), name)
    else if name in mem.names then None
    else LastName(es, name)
  }

  /** Where a search for a field ends in the dynamic table. */
  function FieldIndex(es: seq<Header>, mem: Memory, k: Key): Option<nat> {
    if k in mem.keys then None
    else if FirstKey(Newer(es, mem), k).Some? then FirstKey(Newer(es, mem), k)
    else LastKey(es, k)
  }

  // ----- what each change of the table does to it

  lemma NoteName(es: seq<Header>, mem: Memory, h: Header, name: Bytes)
    requires mem.aged <= |es|
    ensures NameIndex([h] + es, Noted(mem, h), name) ==
            if name == h.name then Some(0) else Shift(NameIndex(es, mem, name))
  {
    var all := [h] + es;
    assert Newer(all, Noted(mem, h)) == [h] + Newer(es, mem) && ([h] + Newer(es, mem))[1..] == Newer(es, mem);
    if name != h.name {
      LastNamePush(h, es, name);
    }
  }

  lemma {:induction false} LastNamePush(h: Header, es: seq<Header>, name: Bytes)
    requires name != h.name
    ensures LastName([h] + es, name) == Shift(LastName(es, name))
    decreases |es|
  {
    var all := [h] + es;
    if es == [] {
      assert all[..|all| - 1] == [];
    } else {
      assert all[..|all| - 1] == [h] + es[..|es| - 1] && all[|all| - 1] == es[|es| - 1];
      LastNamePush(h, es[..|es| - 1], name);
    }
  }

  lemma NoteKey(es: seq<Header>, mem: Memory, h: Header, k: Key)
    requires mem.aged <= |es|
    ensures FieldIndex([h] + es, Noted(mem, h), k) ==
            if k == KeyOf(h) then Some(0) else Shift(FieldIndex(es, mem, k))
  {
    var all := [h] + es;
    assert Newer(all, Noted(mem, h)) == [h] + Newer(es, mem) && ([h] + Newer(es, mem))[1..] == Newer(es, mem);
    if k != KeyOf(h) {
      LastKeyPush(h, es, k);
    }
  }

  lemma {:induction false} LastKeyPush(h: Header, es: seq<Header>, k: Key)
    requires k != KeyOf(h)
    ensures LastKey([h] + es, k) == Shift(LastKey(es, k))
    decreases |es|
  {
    var all := [h] + es;
    if es == [] {
      assert all[..|all| - 1] == [];
    } else {
      assert all[..|all| - 1] == [h] + es[..|es| - 1] && all[|all| - 1] == es[|es| - 1];
      LastKeyPush(h, es[..|es| - 1], k);
    }
  }

  lemma {:induction false} FirstNameFront(es: seq<Header>, name: Bytes)
    requires es != []
    ensures FirstName(es, name) == if FirstName(es[..|es| - 1], name).Some? then FirstName(es[..|es| - 1], name)
                                   else if es[|es| - 1].name == name then Some(|es| - 1) else None
    decreases |es|
  {
    if |es| > 1 {
      assert es[..|es| - 1][1..] == es[1..][..|es| - 2];
      FirstNameFront(es[1..], name);
    }
  }

  lemma {:induction false} FirstKeyFront(es: seq<Header>, k: Key)
    requires es != []
    ensures FirstKey(es, k) == if FirstKey(es[..|es| - 1], k).Some? then FirstKey(es[..|es| - 1], k)
                               else if KeyOf(es[|es| - 1]) == k then Some(|es| - 1) else None
    decreases |es|
  {
    if |es| > 1 {
      assert es[..|es| - 1][1..] == es[1..][..|es| - 2];
      FirstKeyFront(es[1..], k);
    }
  }

  /** An eviction takes a name with it exactly if its search ended at the evicted entry. */
  lemma DropName(es: seq<Header>, mem: Memory, name: Bytes)
    requires es != [] && mem.aged <= |es|
    ensures var front, mem' := es[..|es| - 1], Dropped(mem, es[|es| - 1]);
            NameIndex(front, mem', name) ==
            if NameIndex(es, mem, name) == Some(|es| - 1) then None else NameIndex(es, mem, name)
  {
    hide FirstName, LastName;
    var n, front, mem' := |es|, es[..|es| - 1], Dropped(mem, es[|es| - 1]);
    LastNameFront(es, name);
    if mem.aged > 0 {
      assert Newer(front, mem') == Newer(es, mem);
    } else {
      assert Newer(es, mem) == es && Newer(front, mem') == front;
      FirstNameFront(es, name);
      if FirstName(front, name).None? {
        NoLastName(front, name);
      }
    }
  }

  lemma LastNameFront(es: seq<Header>, name: Bytes)
    requires es != []
    ensures LastName(es, name) == if es[|es| - 1].name == name then Some(|es| - 1) else LastName(es[..|es| - 1], name)
  {
  }

  lemma NoLastName(es: seq<Header>, name: Bytes)
    requires FirstName(es, name).None?
    ensures LastName(es, name).None?
  {
  }

  /** An eviction takes its field with it, also if a younger entry is the same. */
  lemma DropKey(es: seq<Header>, mem: Memory, k: Key)
    requires es != [] && mem.aged <= |es|
    ensures var front, mem' := es[..|es| - 1], Dropped(mem, es[|es| - 1]);
            FieldIndex(front, mem', k) == if k == KeyOf(es[|es| - 1]) then None else FieldIndex(es, mem, k)
  {
    var front, mem' := es[..|es| - 1], Dropped(mem, es[|es| - 1]);
    if mem.aged > 0 {
      assert Newer(front, mem') == Newer(es, mem);
    } else {
      assert Newer(es, mem) == es && Newer(front, mem') == front;
      FirstKeyFront(es, k);
    }
  }

  lemma RebuildName(es: seq<Header>, name: Bytes)
    ensures NameIndex(es, Rebuilt(|es|), name) == LastName(es, name)
  {
    assert Newer(es, Rebuilt(|es|)) == [];
  }

  lemma RebuildKey(es: seq<Header>, k: Key)
    ensures FieldIndex(es, Rebuilt(|es|), k) == LastKey(es, k)
  {
    assert Newer(es, Rebuilt(|es|)) == [];
  }

  // ----- the table's operations

  /** The memory after making room for `limit` more bytes, where a full buffer grows. */
  function Roomed(t: Table, mem: Memory, limit: nat): Memory {
    var kept := Evict(t.entries, limit);
    if |kept| == t.capacity then Rebuilt(|kept|) else Shrunk(t.entries, mem, |kept|)
  }

  function InsertMemory(t: Table, mem: Memory, h: Header): Memory {
    if t.maxSize == 0 || HeaderSize(h) > t.maxSize then mem
    else Noted(Roomed(t, mem, t.maxSize - HeaderSize(h)), h)
  }

  function ResizeMemory(t: Table, mem: Memory, newMax: nat): Memory {
    if newMax == t.maxSize || newMax > MAX_SIZE then mem else Rebuilt(|Evict(t.entries, newMax)|)
  }

  /** What a name-only search, or one for the value too, ends at: an index into both tables, or 0. */
  function FoundAt(es: seq<Header>, mem: Memory, statics: nat, field: nat, name: nat, h: Header,
                   searchValue: bool): nat {
    if searchValue && field != 0 then field
    else if searchValue && FieldIndex(es, mem, KeyOf(h)).Some? then statics + 1 + FieldIndex(es, mem, KeyOf(h)).value
    else if name != 0 then name
    else if NameIndex(es, mem, h.name).Some? then statics + 1 + NameIndex(es, mem, h.name).value
    else 0
  }

  // ----- over any history of the table

  datatype Change = Push(h: Header) | Drop | Rebuild

  /** Entries and memory after some changes of an empty table. */
  function After(changes: seq<Change>): (r: (seq<Header>, Memory))
    ensures r.1.aged <= |r.0|
    decreases |changes|
  {
    if changes == [] then ([], NEW_MEMORY)
    else
      var (es, mem) := After(changes[..|changes| - 1]);
      match changes[|changes| - 1]
      case Push(h) => ([h] + es, Noted(mem, h))
      case Drop => if es == [] then (es, mem) else (es[..|es| - 1], Dropped(mem, es[|es| - 1]))
      case Rebuild => (es, Rebuilt(|es|))
  }

  /** The change at `k` evicts an entry. */
  predicate DropsAt(changes: seq<Change>, k: nat) {
    k < |changes| && changes[k].Drop? && After(changes[..k]).0 != []
  }

  function DroppedAt(changes: seq<Change>, k: nat): Header
    requires DropsAt(changes, k)
  {
    var es := After(changes[..k]).0; es[|es| - 1]
  }

  /** Nothing was rebuilt after the change at `k`. */
  predicate SinceRebuild(changes: seq<Change>, k: nat) {
    forall j | k < j < |changes| :: !changes[j].Rebuild?
  }

  /** The change at `k` evicts an entry with this name, and nothing was rebuilt since. */
  predicate NameLostAt(changes: seq<Change>, k: nat, name: Bytes) {
    DropsAt(changes, k) && SinceRebuild(changes, k) && DroppedAt(changes, k).name == name
  }

  /** The change at `k` evicts this field, which was not inserted again, and nothing was rebuilt since. */
  predicate FieldLostAt(changes: seq<Change>, k: nat, key: Key) {
    && DropsAt(changes, k) && SinceRebuild(changes, k) && KeyOf(DroppedAt(changes, k)) == key
    && forall j | k < j < |changes| :: changes[j].Push? ==> KeyOf(changes[j].h) != key
  }

  /** An entry with this name was evicted since the last rebuild. */
  predicate NameLost(changes: seq<Change>, name: Bytes) {
    exists k | 0 <= k < |changes| :: NameLostAt(changes, k, name)
  }

  /** One with this field was, and the field has not been inserted again. */
  predicate FieldLost(changes: seq<Change>, key: Key) {
    exists k | 0 <= k < |changes| :: FieldLostAt(changes, k, key)
  }

  lemma LostAtPush(changes: seq<Change>, c: Change, k: nat, name: Bytes)
    requires k < |changes|
    ensures NameLostAt(changes + [c], k, name) <==> NameLostAt(changes, k, name) && !c.Rebuild?
  {
    hide After;
    var all := changes + [c];
    assert all[..k] == changes[..k] && all[|changes|] == c;
    assert forall j | 0 <= j < |changes| :: all[j] == changes[j];
  }

  lemma FieldLostAtPush(changes: seq<Change>, c: Change, k: nat, key: Key)
    requires k < |changes|
    ensures FieldLostAt(changes + [c], k, key) <==>
            FieldLostAt(changes, k, key) && !c.Rebuild? && !(c.Push? && KeyOf(c.h) == key)
  {
    hide After;
    var all := changes + [c];
    assert all[..k] == changes[..k] && all[|changes|] == c;
    assert forall j | 0 <= j < |changes| :: all[j] == changes[j];
  }

  lemma LostPush(changes: seq<Change>, c: Change, name: Bytes)
    ensures var all := changes + [c];
            NameLost(all, name) <==> (NameLost(changes, name) && !c.Rebuild?) || NameLostAt(all, |changes|, name)
  {
    hide NameLostAt;
    var all := changes + [c];
    forall k | 0 <= k < |changes| ensures NameLostAt(all, k, name) <==> NameLostAt(changes, k, name) && !c.Rebuild? {
      LostAtPush(changes, c, k, name);
    }
    if NameLost(changes, name) && !c.Rebuild? {
      var k :| 0 <= k < |changes| && NameLostAt(changes, k, name);
      assert NameLostAt(all, k, name);
    }
  }

  lemma FieldLostPush(changes: seq<Change>, c: Change, key: Key)
    ensures var all := changes + [c];
            FieldLost(all, key) <==>
            || (FieldLost(changes, key) && !c.Rebuild? && !(c.Push? && KeyOf(c.h) == key))
            || FieldLostAt(all, |changes|, key)
  {
    hide FieldLostAt;
    var all := changes + [c];
    forall k | 0 <= k < |changes|
      ensures FieldLostAt(all, k, key) <==>
              FieldLostAt(changes, k, key) && !c.Rebuild? && !(c.Push? && KeyOf(c.h) == key)
    {
      FieldLostAtPush(changes, c, k, key);
    }
    if FieldLost(changes, key) && !c.Rebuild? && !(c.Push? && KeyOf(c.h) == key) {
      var k :| 0 <= k < |changes| && FieldLostAt(changes, k, key);
      assert FieldLostAt(all, k, key);
    }
  }

  /** What the last change loses. */
  lemma LostNow(changes: seq<Change>, c: Change, name: Bytes, key: Key)
    ensures var all, es := changes + [c], After(changes).0;
            && (NameLostAt(all, |changes|, name) <==> c.Drop? && es != [] && es[|es| - 1].name == name)
            && (FieldLostAt(all, |changes|, key) <==> c.Drop? && es != [] && KeyOf(es[|es| - 1]) == key)
  {
    hide After;
    assert (changes + [c])[..|changes|] == changes;
  }

  lemma {:induction false} MemoryIsHistory(changes: seq<Change>, name: Bytes, key: Key)
    ensures name in After(changes).1.names <==> NameLost(changes, name)
    ensures key in After(changes).1.keys <==> FieldLost(changes, key)
    decreases |changes|
  {
    hide NameLost, FieldLost, NameLostAt, FieldLostAt;
    if changes == [] {
      NothingLost(name, key);
    } else {
      var front, c := changes[..|changes| - 1], changes[|changes| - 1];
      assert changes == front + [c];
      MemoryIsHistory(front, name, key);
      LostPush(front, c, name);
      FieldLostPush(front, c, key);
      LostNow(front, c, name, key);
    }
  }

  lemma NothingLost(name: Bytes, key: Key)
    ensures !NameLost([], name) && !FieldLost([], key)
  {
  }

  /** How many entries were inserted since the last rebuild and are still there. */
  function Young(changes: seq<Change>): nat {
    |After(changes).0| - After(changes).1.aged
  }

  /**
   * A name that the table holds is found if and only if an entry with it was inserted since the last rebuild and is
   * still there, or no entry with it was evicted since. A field that the table holds is found if and only if no equal
   * one was evicted since it was last inserted, or since the last rebuild.
   */
  lemma FoundExactly(changes: seq<Change>, name: Bytes, key: Key)
    ensures var (es, mem) := After(changes);
            && ((exists i | 0 <= i < |es| :: es[i].name == name) ==>
                  (NameIndex(es, mem, name).Some? <==>
                   (exists i | 0 <= i < Young(changes) :: es[i].name == name) || !NameLost(changes, name)))
            && ((exists i | 0 <= i < |es| :: KeyOf(es[i]) == key) ==>
                  (FieldIndex(es, mem, key).Some? <==> !FieldLost(changes, key)))
  {
    hide NameLost, FieldLost, FirstName, LastName, FirstKey, LastKey, After;
    var (es, mem) := After(changes);
    MemoryIsHistory(changes, name, key);
    var newer := Newer(es, mem);
    assert forall i | 0 <= i < |newer| :: newer[i] == es[i];
    if exists i | 0 <= i < Young(changes) :: es[i].name == name {
      var i :| 0 <= i < Young(changes) && es[i].name == name;
      assert newer[i].name == name;
    }
  }

  // ----- over any run of the table's operations

  datatype TableOp = Adding(h: Header) | Resizing(newMax: nat)

  /** What an operation does to the entries and the lookups, step by step. */
  function ChangesOf(t: Table, op: TableOp): seq<Change> {
    match op
    case Adding(h) =>
      if t.maxSize == 0 || HeaderSize(h) > t.maxSize then []
      else
        var kept := Evict(t.entries, t.maxSize - HeaderSize(h));
        Drops(|t.entries| - |kept|) + (if |kept| == t.capacity then [Rebuild] else []) + [Push(h)]
    case Resizing(newMax) =>
      if newMax == t.maxSize || newMax > MAX_SIZE then []
      else Drops(|t.entries| - |Evict(t.entries, newMax)|) + [Rebuild]
  }

  function Drops(n: nat): seq<Change> {
    seq(n, _ => Drop)
  }

  /** The table and the memory after an operation; none once the buffer is stranded. */
  function Step(t: Table, mem: Memory, op: TableOp): Option<(Table, Memory)> {
    match op
    case Adding(h) => (
      match Insert(t, h)
      case Inserted(t') => Some((t', InsertMemory(t, mem, h)))
      case TooLarge => Some((t, mem))
      case Stranded => None)
    case Resizing(newMax) =>
      Some((if Resize(t, newMax).Some? then Resize(t, newMax).value else t, ResizeMemory(t, mem, newMax)))
  }

  function Run(ops: seq<TableOp>): Option<(Table, Memory)>
    decreases |ops|
  {
    if ops == [] then Some((EMPTY_TABLE, NEW_MEMORY))
    else
      var was := Run(ops[..|ops| - 1]);
      if was.None? then None else Step(was.value.0, was.value.1, ops[|ops| - 1])
  }

  function History(ops: seq<TableOp>): seq<Change>
    decreases |ops|
  {
    if ops == [] || Run(ops).None? then []
    else History(ops[..|ops| - 1]) + ChangesOf(Run(ops[..|ops| - 1]).value.0, ops[|ops| - 1])
  }

  lemma AfterOne(changes: seq<Change>, c: Change)
    ensures var (es, mem) := After(changes);
            After(changes + [c]) == match c
                                    case Push(h) => ([h] + es, Noted(mem, h))
                                    case Drop =>
                                      if es == [] then (es, mem) else (es[..|es| - 1], Dropped(mem, es[|es| - 1]))
                                    case Rebuild => (es, Rebuilt(|es|))
  {
    assert (changes + [c])[..|changes|] == changes;
  }

  lemma {:induction false} AfterDrops(changes: seq<Change>, n: nat)
    requires n <= |After(changes).0|
    ensures var (es, mem) := After(changes);
            After(changes + Drops(n)) == (es[..|es| - n], Shrunk(es, mem, |es| - n))
    decreases n
  {
    hide After;
    var (es, mem) := After(changes);
    if n == 0 {
      assert changes + Drops(0) == changes && es[..|es|] == es;
    } else {
      AfterOne(changes, Drop);
      AfterDrops(changes + [Drop], n - 1);
      assert changes + Drops(n) == changes + [Drop] + Drops(n - 1);
      assert es[..|es| - 1][..|es| - n] == es[..|es| - n];
    }
  }

  /** The steps of an operation lead where the operation does. */
  lemma StepHistory(changes: seq<Change>, t: Table, mem: Memory, op: TableOp)
    requires After(changes) == (t.entries, mem) && Step(t, mem, op).Some?
    ensures After(changes + ChangesOf(t, op)) == (Step(t, mem, op).value.0.entries, Step(t, mem, op).value.1)
  {
    hide After, Shrunk, Evict;
    if ChangesOf(t, op) == [] {
      assert changes + ChangesOf(t, op) == changes;
    } else {
      var kept := Evict(t.entries, if op.Adding? then t.maxSize - HeaderSize(op.h) else op.newMax);
      var n := |t.entries| - |kept|;
      AfterDrops(changes, n);
      var dropped := changes + Drops(n);
      AfterOne(dropped, Rebuild);
      if op.Resizing? {
        assert changes + ChangesOf(t, op) == dropped + [Rebuild];
      } else if |kept| == t.capacity {
        AfterOne(dropped + [Rebuild], Push(op.h));
        assert changes + ChangesOf(t, op) == dropped + [Rebuild] + [Push(op.h)];
      } else {
        AfterOne(dropped, Push(op.h));
        assert changes + ChangesOf(t, op) == dropped + [Push(op.h)];
      }
    }
  }

  /** Over any run of insertions and resizes, the table's memory is that of the run's history. */
  lemma {:induction false} RunIsHistory(ops: seq<TableOp>)
    requires Run(ops).Some?
    ensures After(History(ops)) == (Run(ops).value.0.entries, Run(ops).value.1)
    decreases |ops|
  {
    hide After, Step, ChangesOf;
    if ops != [] {
      var front := ops[..|ops| - 1];
      RunIsHistory(front);
      StepHistory(History(front), Run(front).value.0, Run(front).value.1, ops[|ops| - 1]);
    } else {
      NoHistory();
    }
  }

  lemma NoHistory()
    ensures After([]) == ([], NEW_MEMORY)
  {
  }

  // ----- two runs that lose an entry the table holds

  lemma SizeOne(h: Header)
    ensures TotalSize([h]) == HeaderSize(h)
  {
    var s := [h];
    assert s[..|s| - 1] == [];
  }

  lemma EvictOne(newer: Header, older: Header, limit: nat)
    ensures TotalSize([newer, older]) == HeaderSize(newer) + HeaderSize(older)
    ensures HeaderSize(newer) <= limit < HeaderSize(newer) + HeaderSize(older) ==>
              Evict([newer, older], limit) == [newer]
  {
    var s := [newer, older];
    assert s[..|s| - 1] == [newer];
    SizeOne(newer);
  }

  /** The run of one operation more. */
  lemma RunOne(ops: seq<TableOp>, op: TableOp)
    requires Run(ops).Some?
    ensures Run(ops + [op]) == Step(Run(ops).value.0, Run(ops).value.1, op)
  {
    assert (ops + [op])[..|ops|] == ops;
  }

  /** Inserting a field that fits beside all entries, with a free slot. */
  lemma StepFits(t: Table, mem: Memory, h: Header)
    requires TotalSize(t.entries) + HeaderSize(h) <= t.maxSize && |t.entries| < t.capacity
    ensures Step(t, mem, Adding(h)) == Some((t.(entries := [h] + t.entries), Noted(mem, h)))
  {
  }

  /** Inserting a field for which the older of two entries must go, with a free slot. */
  lemma StepEvicts(newer: Header, older: Header, maxSize: nat, capacity: nat, mem: Memory, h: Header)
    requires HeaderSize(newer) + HeaderSize(h) <= maxSize < HeaderSize(newer) + HeaderSize(older) + HeaderSize(h)
    requires capacity > 1
    ensures Step(Table([newer, older], maxSize, capacity), mem, Adding(h)) ==
            Some((Table([h, newer], maxSize, capacity), Noted(Dropped(mem, older), h)))
  {
    hide Evict;
    EvictOne(newer, older, maxSize - HeaderSize(h));
    var s := [newer, older];
    assert s[..|s| - 1] == [newer] && [h] + [newer] == [h, newer];
    assert Shrunk(s, mem, 1) == Shrunk([newer], Dropped(mem, older), 1);
  }

  /** Two fields inserted into an empty table. */
  lemma RunTwo(a: Header, b: Header)
    requires HeaderSize(a) + HeaderSize(b) <= INITIAL_SIZE
    ensures var mem := Noted(Noted(NEW_MEMORY, a), b);
            Run([Adding(a), Adding(b)]) == Some((Table([b, a], INITIAL_SIZE, INITIAL_ELEMENTS), mem))
  {
    hide Step, TotalSize;
    RunOne([], Adding(a));
    assert [] + [Adding(a)] == [Adding(a)] && [Adding(a)] + [Adding(b)] == [Adding(a), Adding(b)];
    SizeNone();
    StepFits(EMPTY_TABLE, NEW_MEMORY, a);
    assert [a] + [] == [a] && [b] + [a] == [b, a];
    SizeOne(a);
    StepFits(Table([a], INITIAL_SIZE, INITIAL_ELEMENTS), Noted(NEW_MEMORY, a), b);
    RunOne([Adding(a)], Adding(b));
  }

  lemma SizeNone()
    ensures TotalSize([]) == 0
  {
  }

  /**
   * Two fields with the same name, then a resize that keeps both and rebuilds the lookups, then a field that evicts the
   * older one: the table still holds the name, and a search for it ends nowhere.
   */
  lemma NameLossIsReachable(a: Header, b: Header, c: Header)
    requires a.name == b.name != c.name && HeaderSize(c) <= HeaderSize(a)
    requires HeaderSize(a) + HeaderSize(b) < INITIAL_SIZE
    ensures var r := Run([Adding(a), Adding(b), Resizing(HeaderSize(a) + HeaderSize(b)), Adding(c)]);
            && r.Some? && r.value.0.entries == [c, b]
            && NameIndex(r.value.0.entries, r.value.1, b.name) == None
  {
    var size := HeaderSize(a) + HeaderSize(b);
    var start := [Adding(a), Adding(b)];
    assert Step(Table([b, a], INITIAL_SIZE, INITIAL_ELEMENTS), Noted(Noted(NEW_MEMORY, a), b), Resizing(size)) ==
           Some((Table([b, a], size, 2), Rebuilt(2))) by {
      EvictOne(b, a, size);
    }
    hide Step, Run, TotalSize, HeaderSize;
    RunTwo(a, b);
    RunOne(start, Resizing(size));
    RunOne(start + [Resizing(size)], Adding(c));
    assert start + [Resizing(size)] + [Adding(c)] == [Adding(a), Adding(b), Resizing(size), Adding(c)];
    StepEvicts(b, a, size, 2, Rebuilt(2), c);
    assert Newer([c, b], Memory(1, {a.name}, {})) == [c];
  }

  /** The same field inserted twice, then one that evicts the older copy: a search for the field ends nowhere. */
  lemma FieldLossIsReachable(a: Header, c: Header)
    requires HeaderSize(a) + HeaderSize(c) <= INITIAL_SIZE < HeaderSize(a) + HeaderSize(a) + HeaderSize(c)
    requires HeaderSize(a) + HeaderSize(a) <= INITIAL_SIZE && KeyOf(a) != KeyOf(c)
    ensures var r := Run([Adding(a), Adding(a), Adding(c)]);
            && r.Some? && r.value.0.entries == [c, a]
            && FieldIndex(r.value.0.entries, r.value.1, KeyOf(a)) == None
  {
    hide Step, Run, TotalSize, HeaderSize;
    var start := [Adding(a), Adding(a)];
    RunTwo(a, a);
    RunOne(start, Adding(c));
    assert start + [Adding(c)] == [Adding(a), Adding(a), Adding(c)];
    StepEvicts(a, a, INITIAL_SIZE, INITIAL_ELEMENTS, Noted(Noted(NEW_MEMORY, a), a), c);
  }
}
