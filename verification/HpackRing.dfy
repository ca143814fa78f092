/**
 * The dynamic table as it is stored: a ring buffer whose element 0 moves
 * backwards on every insertion, and two reverse-lookup maps from a field (or a
 * name) to the slot that holds it. Every operation refines the sequence model, and
 * the lookups are those that the history of the table calls for.
 */
module HpackRing {
  import opened Octets
  import opened HpackTable
  import opened HpackLookup

  /** The buffer read from slot `k` round to slot `k - 1`. */
  function Rotate(s: seq<Header>, k: nat): (r: seq<Header>)
    requires k <= |s|
    ensures |r| == |s|
  {
    s[k..] + s[..k]
  }

  /** The distance of a slot from element 0, going forwards. */
  function Position(slot: nat, index0: nat, capacity: nat): nat
    requires index0 <= capacity
  {
    if slot >= index0 then slot - index0 else capacity - index0 + slot
  }

  lemma ModWrap(x: nat, c: nat)
    requires c > 0 && x < 2 * c
    ensures x % c == if x < c then x else x - c
  {
    if x < c {
      assert x % c == x;
    } else {
      assert (x - c) % c == x - c;
      assert x == c + (x - c);
    }
  }

  function Without<K, V>(m: map<K, V>, key: K): map<K, V> {
    map k | k in m && k != key :: m[k]
  }

  /** A lookup holds a field exactly if a search finds it, and leads to where the search ends. */
  ghost predicate FieldLeads(es: seq<Header>, mem: Memory, index0: nat, capacity: nat, lookup: map<Key, nat>, k: Key)
    requires index0 <= capacity
  {
    if k in lookup then lookup[k] < capacity && FieldIndex(es, mem, k) == Some(Position(lookup[k], index0, capacity))
    else FieldIndex(es, mem, k) == None
  }

  ghost predicate NameLeads(es: seq<Header>, mem: Memory, index0: nat, capacity: nat, lookup: map<Bytes, nat>,
                            name: Bytes)
    requires index0 <= capacity
  {
    if name in lookup then
      lookup[name] < capacity && NameIndex(es, mem, name) == Some(Position(lookup[name], index0, capacity))
    else NameIndex(es, mem, name) == None
  }

  ghost predicate FieldsExact(es: seq<Header>, mem: Memory, index0: nat, capacity: nat, lookup: map<Key, nat>)
    requires index0 <= capacity
  {
    forall k: Key :: FieldLeads(es, mem, index0, capacity, lookup, k)
  }

  ghost predicate NamesExact(es: seq<Header>, mem: Memory, index0: nat, capacity: nat, lookup: map<Bytes, nat>)
    requires index0 <= capacity
  {
    forall name: Bytes :: NameLeads(es, mem, index0, capacity, lookup, name)
  }

  /** Index (from 1) of the first static field with this name and value, or 0. */
  function StaticField(statics: seq<Header>, k: Key): (r: nat)
    ensures r <= |statics|
    ensures r > 0 ==> KeyOf(statics[r - 1]) == k
    ensures r == 0 ==> forall i | 0 <= i < |statics| :: KeyOf(statics[i]) != k
  {
    if statics == [] then 0
    else if KeyOf(statics[0]) == k then 1
    else var r := StaticField(statics[1..], k); if r == 0 then 0 else r + 1
  }

  /** Index (from 1) of the first static field with this name, or 0. */
  function StaticName(statics: seq<Header>, name: Bytes): (r: nat)
    ensures r <= |statics|
    ensures r > 0 ==> statics[r - 1].name == name
    ensures r == 0 ==> forall i | 0 <= i < |statics| :: statics[i].name != name
  {
    if statics == [] then 0
    else if statics[0].name == name then 1
    else var r := StaticName(statics[1..], name); if r == 0 then 0 else r + 1
  }

  class DynamicTable {
    const statics: seq<Header>
    var buffer: array<Header>
    var index0: nat
    var numElements: nat
    var size: nat
    var maxSize: nat
    var fields: map<Key, nat>
    var names: map<Bytes, nat>
    ghost var memory: Memory

    ghost predicate Layout()
      reads this
    {
      && numElements <= buffer.Length
      && (if buffer.Length == 0 then index0 == 0 else index0 < buffer.Length)
    }

    ghost function Entries(): (es: seq<Header>)
      requires Layout()
      reads this, buffer
      ensures |es| == numElements
    {
      Rotate(buffer[..], index0)[..numElements]
    }

    /** The table this ring buffer stores. */
    ghost function View(): Table
      requires Layout()
      reads this, buffer
    {
      Table(Entries(), maxSize, buffer.Length)
    }

    ghost predicate LookupsExact()
      requires Layout()
      reads this, buffer
    {
      && memory.aged <= numElements
      && FieldsExact(Entries(), memory, index0, buffer.Length, fields)
      && NamesExact(Entries(), memory, index0, buffer.Length, names)
    }

    ghost predicate Valid()
      reads this, buffer
    {
      && Layout()
      && size == TotalSize(Entries())
      && TableValid(View())
      && LookupsExact()
    }

    constructor (statics: seq<Header>)
      ensures Valid() && View() == EMPTY_TABLE && memory == NEW_MEMORY && this.statics == statics
      ensures fresh(buffer)
    {
      this.statics := statics;
      buffer := new Header[INITIAL_ELEMENTS](_ => Header([], [], UseCache));
      index0, numElements, size, maxSize := 0, 0, 0, INITIAL_SIZE;
      fields, names, memory := map[], map[], NEW_MEMORY;
    }

    /** The slot of element `i`; bounds-checked against the buffer, not against the number of elements. */
    function SlotOf(i: nat): (slot: nat)
      requires Layout() && i < buffer.Length
      reads this, buffer
      ensures slot < buffer.Length && Position(slot, index0, buffer.Length) == i
      ensures buffer[slot] == Rotate(buffer[..], index0)[i]
    {
      ModWrap(index0 + i, buffer.Length);
      (index0 + i) % buffer.Length
    }

    method GetHeaderAt(index: nat) returns (h: Option<Header>)
      requires Valid()
      ensures h == GetHeader(statics, View(), index)
    {
      if index == 0 || index >= |statics| + 1 + numElements {
        return None;
      }
      if index < |statics| + 1 {
        return Some(statics[index - 1]);
      }
      h := Some(buffer[SlotOf(index - (|statics| + 1))]);
    }

    /** The index of a slot found in a lookup map, re-based past the static table. */
    function IndexOfSlot(slot: nat): nat
      requires Layout()
      reads this
    {
      Position(slot, index0, buffer.Length) + |statics| + 1
    }

    method FindIndex(h: Header, searchValue: bool) returns (index: nat, found: bool)
      requires Valid()
      ensures SoundIndex(statics, View(), h, index, found)
      ensures found ==> |h.value| > 0
      ensures index == FoundAt(Entries(), memory, |statics|, StaticField(statics, KeyOf(h)),
                               StaticName(statics, h.name),
                               h, searchValue)
      ensures found <==> |h.value| > 0 && searchValue &&
                         (StaticField(statics, KeyOf(h)) != 0 || FieldIndex(Entries(), memory, KeyOf(h)).Some?)
    {
      hide FieldsExact, NamesExact, FieldIndex, NameIndex;
      SearchEnds(h);
      found := false;
      if searchValue {
        index := StaticField(statics, KeyOf(h));
        if index != 0 {
          found := |statics[index - 1].value| != 0;
          return;
        }
        if KeyOf(h) in fields {
          found := |h.value| != 0;
          index := IndexOfSlot(fields[KeyOf(h)]);
          return;
        }
      }
      index := StaticName(statics, h.name);
      if index == 0 && h.name in names {
        index := IndexOfSlot(names[h.name]);
      }
    }

    /** The lookups hold where the searches end. */
    lemma SearchEnds(h: Header)
      requires Valid()
      ensures var r := FieldIndex(Entries(), memory, KeyOf(h));
              && (KeyOf(h) in fields <==> r.Some?)
              && (r.Some? ==>
                    && IndexOfSlot(fields[KeyOf(h)]) == |statics| + 1 + r.value
                    && r.value < numElements && KeyOf(Entries()[r.value]) == KeyOf(h))
      ensures var r := NameIndex(Entries(), memory, h.name);
              && (h.name in names <==> r.Some?)
              && (r.Some? ==>
                    && IndexOfSlot(names[h.name]) == |statics| + 1 + r.value
                    && r.value < numElements && Entries()[r.value].name == h.name)
    {
      hide FieldIndex, NameIndex;
      assert FieldLeads(Entries(), memory, index0, buffer.Length, fields, KeyOf(h));
      assert NameLeads(Entries(), memory, index0, buffer.Length, names, h.name);
      FieldsEnd(Entries(), memory, KeyOf(h));
      NamesEnd(Entries(), memory, h.name);
    }

    /** Removes the oldest entry, and its traces in the lookup maps. */
    method EvictBack()
      requires Layout() && LookupsExact() && size == TotalSize(Entries()) && numElements > 0
      modifies this`size, this`numElements, this`fields, this`names, this`memory
      ensures Layout() && LookupsExact() && size == TotalSize(Entries())
      ensures Entries() == old(Entries())[..old(numElements) - 1]
      ensures memory == Dropped(old(memory), old(Entries())[old(numElements) - 1])
    {
      ghost var es := Entries();
      var slot := SlotOf(numElements - 1);
      var back := buffer[slot];
      assert back == es[|es| - 1];
      size := size - HeaderSize(back);
      numElements := numElements - 1;
      assert Entries() == es[..|es| - 1];
      EvictFieldsExact(es, memory, fields, index0, buffer.Length);
      EvictNamesExact(es, memory, names, index0, buffer.Length, slot);
      memory := Dropped(memory, back);
      fields := Without(fields, KeyOf(back));
      if back.name in names && names[back.name] == slot {
        names := Without(names, back.name);
      }
    }

    /** Removes entries from the old end until the table fits in `limit` bytes. */
    method Shrink(limit: nat)
      requires Layout() && LookupsExact() && size == TotalSize(Entries())
      modifies this`size, this`numElements, this`fields, this`names, this`memory
      ensures Layout() && LookupsExact() && size == TotalSize(Entries())
      ensures Entries() == Evict(old(Entries()), limit)
      ensures memory == Shrunk(old(Entries()), old(memory), numElements)
    {
      hide LookupsExact, Entries;
      ghost var left := |Evict(Entries(), limit)|;
      while size > limit && numElements > 0
        invariant Layout() && LookupsExact() && size == TotalSize(Entries())
        invariant Evict(old(Entries()), limit) == Evict(Entries(), limit)
        invariant left <= numElements && Shrunk(old(Entries()), old(memory), left) == Shrunk(Entries(), memory, left)
        decreases numElements
      {
        EvictBack();
      }
    }

    /** Re-lays the buffer out from slot 0 with a new capacity. */
    method Relayout(newCapacity: nat)
      requires Layout() && numElements <= newCapacity
      modifies this`buffer, this`index0
      ensures Layout() && buffer.Length == newCapacity && fresh(buffer) && index0 == 0
      ensures Entries() == old(Entries())
    {
      ghost var es := Entries();
      var newBuffer := new Header[newCapacity](_ => Header([], [], UseCache));
      if newCapacity != 0 && numElements != 0 {
        var above := buffer.Length - index0;
        if above > newCapacity {
          above := newCapacity;
        }
        forall i | 0 <= i < above {
          newBuffer[i] := buffer[index0 + i];
        }
        var room, left := newCapacity - above, buffer.Length - above;
        var below := if room < left then room else left;
        forall i | 0 <= i < below {
          newBuffer[above + i] := buffer[i];
        }
        assert forall i | 0 <= i < numElements :: newBuffer[i] == es[i];
      }
      buffer, index0 := newBuffer, 0;
    }

    method RebuildLookups()
      requires Layout() && index0 == 0
      modifies this`fields, this`names, this`memory
      ensures LookupsExact() && memory == Rebuilt(numElements)
    {
      hide FieldsExact, NamesExact;
      fields, names, memory := map[], map[], Rebuilt(numElements);
      ghost var es := Entries();
      var i := 0;
      assert es[..0] == [];
      NothingExact(buffer.Length);
      while i < numElements
        invariant 0 <= i <= numElements && memory == Rebuilt(numElements)
        invariant FieldsExact(es[..i], Rebuilt(i), 0, buffer.Length, fields)
        invariant NamesExact(es[..i], Rebuilt(i), 0, buffer.Length, names)
      {
        assert buffer[i] == es[i];
        RebuildOneMore(es, i, fields, names, buffer.Length);
        fields := fields[KeyOf(buffer[i]) := i];
        names := names[buffer[i].name := i];
        i := i + 1;
      }
      assert es[..numElements] == es;
    }

    method ResizeBuffer(newCapacity: nat)
      requires Layout() && numElements <= newCapacity
      modifies this`buffer, this`index0, this`fields, this`names, this`memory
      ensures Layout() && LookupsExact() && buffer.Length == newCapacity && fresh(buffer)
      ensures Entries() == old(Entries()) && memory == Rebuilt(numElements)
    {
      Relayout(newCapacity);
      RebuildLookups();
    }

    /** The first part of an insertion: evict until the field fits, and grow a full buffer. */
    method MakeRoom(limit: nat)
      requires Layout() && LookupsExact() && size == TotalSize(Entries())
      modifies this`buffer, this`index0, this`size, this`numElements, this`fields, this`names, this`memory
      ensures Layout() && LookupsExact() && size == TotalSize(Entries())
      ensures Entries() == Evict(old(Entries()), limit) && memory == Roomed(old(View()), old(memory), limit)
      ensures buffer.Length == if numElements == old(buffer.Length) then Grown(old(buffer.Length))
              else old(buffer.Length)
      ensures buffer == old(buffer) || fresh(buffer)
    {
      Shrink(limit);
      if numElements == buffer.Length {
        ResizeBuffer(Grown(buffer.Length));
      }
    }

    /**
     * Refines `Insert` unless the outcome is `Stranded`; then the source reports
     * success although the buffer now claims more elements than it has slots.
     */
    method InsertHeader(h: Header) returns (ok: bool)
      requires Valid()
      modifies this, buffer
      ensures ok <==> !Insert(old(View()), h).TooLarge?
      ensures Insert(old(View()), h).Inserted? ==>
                Valid() && View() == Insert(old(View()), h).table && memory == InsertMemory(old(View()), old(memory), h)
      ensures Insert(old(View()), h).TooLarge? ==> Valid() && View() == old(View()) && memory == old(memory)
      ensures Insert(old(View()), h).Stranded? <==> numElements > buffer.Length
      ensures buffer == old(buffer) || fresh(buffer)
    {
      if maxSize == 0 {
        return true;
      }
      var headerSize := HeaderSize(h);
      if headerSize > maxSize {
        return false;
      }
      ok := true;
      InsertFitting(h, headerSize);
    }

    /** Insertion of a field no larger than the table. */
    method InsertFitting(h: Header, headerSize: nat)
      requires Valid() && maxSize > 0 && headerSize == HeaderSize(h) <= maxSize
      modifies this, buffer
      ensures Insert(old(View()), h).Inserted? ==>
                Valid() && View() == Insert(old(View()), h).table && memory == InsertMemory(old(View()), old(memory), h)
      ensures Insert(old(View()), h).Stranded? <==> numElements > buffer.Length
      ensures buffer == old(buffer) || fresh(buffer)
    {
      hide LookupsExact, Roomed, Evict, Insert, TotalSize, TableValid, Grown, HeaderSize, Rotate;
      ghost var t := View();
      MakeRoom(maxSize - headerSize);
      InsertCases(t, h, Entries(), buffer.Length);
      PushFront(h, headerSize);
    }

    /** The last part of an insertion: element 0 moves back one slot and receives the field. */
    method PushFront(h: Header, headerSize: nat)
      requires Layout() && LookupsExact() && buffer.Length > 0
      requires size == TotalSize(Entries()) && headerSize == HeaderSize(h)
      modifies this`index0, this`numElements, this`size, this`fields, this`names, this`memory, buffer
      ensures numElements == old(numElements) + 1 && memory == Noted(old(memory), h)
      ensures old(numElements) < buffer.Length ==>
                && Layout() && LookupsExact()
                && Entries() == [h] + old(Entries()) && size == TotalSize(Entries())
    {
      hide TotalSize, HeaderSize, FieldsExact, NamesExact, Rotate;
      ghost var es, k, was := Entries(), index0, buffer[..];
      if index0 == 0 {
        index0 := buffer.Length - 1;
      } else {
        index0 := index0 - 1;
      }
      numElements := numElements + 1;
      size := size + headerSize;
      buffer[index0] := h;
      ghost var oldFields, oldNames, oldMemory := fields, names, memory;
      memory := Noted(memory, h);
      fields := fields[KeyOf(h) := index0];
      names := names[h.name := index0];
      if numElements <= buffer.Length {
        assert buffer[..] == was[index0 := h];
        RotateBack(was, k, index0, h, numElements - 1);
        TotalSizePush(h, es);
        PushKeepsExact(es, oldMemory, oldFields, oldNames, k, index0, buffer.Length, h);
      }
    }

    method ResizeTable(newMax: nat) returns (ok: bool)
      requires Valid()
      modifies this
      ensures Valid()
      ensures ok <==> Resize(old(View()), newMax).Some?
      ensures View() == if ok then Resize(old(View()), newMax).value else old(View())
      ensures memory == ResizeMemory(old(View()), old(memory), newMax)
      ensures buffer == old(buffer) || fresh(buffer)
    {
      hide FieldsExact, NamesExact, Rotate, Shrunk, Evict, TableValid, TotalSize;
      if newMax == maxSize {
        return true;
      }
      if newMax > MAX_SIZE {
        return false;
      }
      ResizeKeepsValid(View(), newMax);
      Shrink(newMax);
      ResizeBuffer(numElements);
      maxSize := newMax;
      return true;
    }
  }

  /** A search no longer ends at an evicted entry, and otherwise ends where it did. */
  lemma EvictFieldsExact(es: seq<Header>, mem: Memory, fields: map<Key, nat>, index0: nat, capacity: nat)
    requires es != [] && mem.aged <= |es| && index0 <= capacity && FieldsExact(es, mem, index0, capacity, fields)
    ensures var back := es[|es| - 1];
            FieldsExact(es[..|es| - 1], Dropped(mem, back), index0, capacity, Without(fields, KeyOf(back)))
  {
    hide FieldIndex;
    var front, back := es[..|es| - 1], es[|es| - 1];
    forall k: Key ensures FieldLeads(front, Dropped(mem, back), index0, capacity, Without(fields, KeyOf(back)), k) {
      assert FieldLeads(es, mem, index0, capacity, fields, k);
      DropKey(es, mem, k);
    }
  }

  lemma EvictNamesExact(es: seq<Header>, mem: Memory, names: map<Bytes, nat>, index0: nat, capacity: nat, slot: nat)
    requires es != [] && mem.aged <= |es| && index0 <= capacity && NamesExact(es, mem, index0, capacity, names)
    requires slot < capacity && Position(slot, index0, capacity) == |es| - 1
    ensures var back := es[|es| - 1];
            NamesExact(es[..|es| - 1], Dropped(mem, back), index0, capacity,
                       if back.name in names && names[back.name] == slot then Without(names, back.name) else names)
  {
    hide NameIndex;
    var front, back := es[..|es| - 1], es[|es| - 1];
    var names' := if back.name in names && names[back.name] == slot then Without(names, back.name) else names;
    forall name: Bytes ensures NameLeads(front, Dropped(mem, back), index0, capacity, names', name) {
      assert NameLeads(es, mem, index0, capacity, names, name);
      DropName(es, mem, name);
      NamesEnd(es, mem, name);
    }
  }

  /** A search for a name ends at an entry with this name. */
  lemma NamesEnd(es: seq<Header>, mem: Memory, name: Bytes)
    ensures var r := NameIndex(es, mem, name); r.Some? ==> r.value < |es| && es[r.value].name == name
  {
  }

  lemma FieldsEnd(es: seq<Header>, mem: Memory, k: Key)
    ensures var r := FieldIndex(es, mem, k); r.Some? ==> r.value < |es| && KeyOf(es[r.value]) == k
  {
  }

  lemma NothingExact(capacity: nat)
    ensures FieldsExact([], Rebuilt(0), 0, capacity, map[]) && NamesExact([], Rebuilt(0), 0, capacity, map[])
  {
  }

  /** One more entry, older than those before, put into the lookups. */
  lemma RebuildOneMore(es: seq<Header>, i: nat, fields: map<Key, nat>, names: map<Bytes, nat>, capacity: nat)
    requires i < |es| <= capacity
    requires FieldsExact(es[..i], Rebuilt(i), 0, capacity, fields) &&
             NamesExact(es[..i], Rebuilt(i), 0, capacity, names)
    ensures FieldsExact(es[..i + 1], Rebuilt(i + 1), 0, capacity, fields[KeyOf(es[i]) := i])
    ensures NamesExact(es[..i + 1], Rebuilt(i + 1), 0, capacity, names[es[i].name := i])
  {
    hide FieldIndex, NameIndex;
    assert es[..i + 1][..i] == es[..i] && es[..i + 1][i] == es[i];
    var front, mem, fields', names' := es[..i + 1], Rebuilt(i + 1), fields[KeyOf(es[i]) := i], names[es[i].name := i];
    forall k: Key ensures FieldLeads(front, mem, 0, capacity, fields', k) {
      assert FieldLeads(es[..i], Rebuilt(i), 0, capacity, fields, k);
      RebuildKey(es[..i + 1], k);
      RebuildKey(es[..i], k);
    }
    forall name: Bytes ensures NameLeads(front, mem, 0, capacity, names', name) {
      assert NameLeads(es[..i], Rebuilt(i), 0, capacity, names, name);
      RebuildName(es[..i + 1], name);
      RebuildName(es[..i], name);
    }
  }

  /** A new entry is what its own name and field lead to, and all other searches end one further. */
  lemma PushKeepsExact(es: seq<Header>, mem: Memory, fields: map<Key, nat>, names: map<Bytes, nat>,
                       k: nat, j: nat, capacity: nat, h: Header)
    requires k < capacity && |es| < capacity && mem.aged <= |es|
    requires j == if k == 0 then capacity - 1 else k - 1
    requires FieldsExact(es, mem, k, capacity, fields) && NamesExact(es, mem, k, capacity, names)
    ensures FieldsExact([h] + es, Noted(mem, h), j, capacity, fields[KeyOf(h) := j])
    ensures NamesExact([h] + es, Noted(mem, h), j, capacity, names[h.name := j])
  {
    hide FieldIndex, NameIndex, Position;
    PositionMoves(k, j, capacity, |es|);
    var all, mem', fields', names' := [h] + es, Noted(mem, h), fields[KeyOf(h) := j], names[h.name := j];
    forall key: Key ensures FieldLeads(all, mem', j, capacity, fields', key) {
      assert FieldLeads(es, mem, k, capacity, fields, key);
      NoteKey(es, mem, h, key);
      FieldsEnd(es, mem, key);
    }
    forall name: Bytes ensures NameLeads(all, mem', j, capacity, names', name) {
      assert NameLeads(es, mem, k, capacity, names, name);
      NoteName(es, mem, h, name);
      NamesEnd(es, mem, name);
    }
  }

  /** When element 0 moves back one slot, every element's position grows by one. */
  lemma PositionMoves(k: nat, j: nat, capacity: nat, n: nat)
    requires k < capacity && n < capacity && j == if k == 0 then capacity - 1 else k - 1
    ensures j < capacity && Position(j, j, capacity) == 0
    ensures forall slot: nat | slot < capacity && Position(slot, k, capacity) < n ::
              Position(slot, j, capacity) == Position(slot, k, capacity) + 1
  {
  }

  /** Moving element 0 back one slot and writing there prepends to the rotation. */
  lemma RotateBack(was: seq<Header>, k: nat, j: nat, h: Header, n: nat)
    requires k < |was| && n < |was|
    requires j == if k == 0 then |was| - 1 else k - 1
    ensures Rotate(was[j := h], j)[..n + 1] == [h] + Rotate(was, k)[..n]
  {
    var now := was[j := h];
    forall i | 0 <= i < n ensures Rotate(now, j)[i + 1] == Rotate(was, k)[i] {
    }
    assert Rotate(now, j)[0] == h;
  }
}
