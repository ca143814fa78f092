/**
 * The HPACK encoder, and the theorem that ties it to the decoder: decoding what
 * was encoded, under any division of the bytes, yields the same header fields
 * and leaves the two dynamic tables equal.
 */
module HpackEncoder {
  import opened Octets
  import opened HpackInteger
  import opened HpackTable
  import opened HpackDecoder

  const HALF: nat := 0x8000_0000_0000_0000

  datatype HuffmanMode = Smallest | Never | Always

  // ----- strings

  function UseHuffman(c: Coder, mode: HuffmanMode, s: Bytes): bool {
    match mode
    case Never => false
    case Always => true
    case Smallest => |c.encode(s)| < |s|
  }

  function StringBody(c: Coder, mode: HuffmanMode, s: Bytes): Bytes {
    if UseHuffman(c, mode, s) then c.encode(s) else s
  }

  function StringBits(c: Coder, mode: HuffmanMode, s: Bytes): (r: byte)
    ensures FreePrefix(r, 7)
  {
    PatternsFree();
    if UseHuffman(c, mode, s) then 128 else 0
  }

  function EncodeString(c: Coder, mode: HuffmanMode, s: Bytes): Bytes {
    var body := StringBody(c, mode, s);
    Encode(|body|, StringBits(c, mode, s), 7) + body
  }

  /** The leading bits of every kind of entry, and of a string, leave their integer prefix clear. */
  lemma PatternsFree()
    ensures FreePrefix(128, 7) && FreePrefix(0, 7) && FreePrefix(64, 6) && FreePrefix(32, 5)
    ensures FreePrefix(16, 4) && FreePrefix(0, 4)
  {
    LowOfZero(7);
    LowOfZero(4);
    assert Low(128, 7) == 2 * Low(64, 6);
    assert Low(64, 6) == 2 * Low(32, 5);
    assert Low(32, 5) == 2 * Low(16, 4);
    assert Low(16, 4) == 2 * Low(8, 3);
    assert Low(8, 3) == 2 * Low(4, 2);
    assert Low(4, 2) == 0;
  }

  /** Lengths a C object can have. */
  ghost predicate Fits(c: Coder, s: Bytes) {
    |s| < HALF && |c.encode(s)| < HALF
  }

  lemma ModeMask()
    ensures Mask(4) == 15 && Mask(5) == 31 && Mask(6) == 63 && Mask(7) == 127
  {
    assert Mask(4) == 15;
    assert Mask(5) == 2 * Mask(4) + 1;
    assert Mask(6) == 2 * Mask(5) + 1;
    assert Mask(7) == 2 * Mask(6) + 1;
  }

  /** The first byte of an encoded integer keeps the starting bits and adds no more than the mask. */
  lemma FirstByte(n: nat, bits: byte, prefix: nat)
    requires FreePrefix(bits, prefix)
    ensures bits <= Encode(n, bits, prefix)[0] <= bits + Mask(prefix)
  {
  }

  /** The head of an encoded string announces its coding and its length. */
  lemma StringHead(c: Coder, mode: HuffmanMode, s: Bytes, tail: Bytes)
    requires Fits(c, s)
    ensures var body := StringBody(c, mode, s);
            var wire := Encode(|body|, StringBits(c, mode, s), 7) + tail;
            && (wire[0] >= 128 <==> UseHuffman(c, mode, s))
            && DecodeInteger(7, IntInit, wire) == IntComplete(|body|, tail)
  {
    var body, bits := StringBody(c, mode, s), StringBits(c, mode, s);
    FirstByte(|body|, bits, 7);
    ModeMask();
    IntegerRoundTrip(|body|, bits, 7, tail);
  }

  lemma StringValue(c: Coder, mode: HuffmanMode, s: Bytes, out: Bytes, rest: Bytes)
    requires CoderCorrect(c) && StringBody(c, mode, s) != []
    ensures var body := StringBody(c, mode, s);
            DecodeValue(c, UseHuffman(c, mode, s), |body|, c.start, out, body + rest) == StrComplete(out + s, rest)
  {
    var body := StringBody(c, mode, s);
    assert (body + rest)[..|body|] == body && (body + rest)[|body|..] == rest;
  }

  lemma StringRoundTrip(c: Coder, mode: HuffmanMode, s: Bytes, out: Bytes, rest: Bytes)
    requires CoderCorrect(c) && Fits(c, s)
    ensures DecodeString(c, StrInit, out, EncodeString(c, mode, s) + rest) == StrComplete(out + s, rest)
  {
    var body := StringBody(c, mode, s);
    var wire := Encode(|body|, StringBits(c, mode, s), 7) + (body + rest);
    assert EncodeString(c, mode, s) + rest == wire;
    StringHead(c, mode, s, body + rest);
    assert DecodeString(c, StrInit, out, wire) == DecodeLength(c, UseHuffman(c, mode, s), IntInit, out, wire);
    if |body| == 0 {
      assert body + rest == rest;
      EmptyBody(c, mode, s);
      assert out + s == out;
    } else {
      StringValue(c, mode, s, out, rest);
    }
  }

  lemma EmptyBody(c: Coder, mode: HuffmanMode, s: Bytes)
    requires CoderCorrect(c) && StringBody(c, mode, s) == []
    ensures s == []
  {
    if UseHuffman(c, mode, s) {
      assert HuffmanRun(c, c.start, c.encode(s)).value.1 == s;
    }
  }

  // ----- one header field

  /** What a search of the tables answered. */
  datatype Lookup = Lookup(index: nat, found: bool)

  predicate IsIndexed(h: Header, l: Lookup) {
    l.index != 0 && l.found && h.compression.UseCache?
  }

  function LiteralBits(mode: Compression): (r: byte)
    ensures FreePrefix(r, LiteralPrefix(mode))
  {
    PatternsFree();
    match mode case UseCache => 64 case NoCache => 0 case NoForwardCache => 16
  }

  function FieldBytes(c: Coder, mode: HuffmanMode, h: Header, l: Lookup): Bytes {
    PatternsFree();
    if IsIndexed(h, l) then Encode(l.index, 128, 7)
    else
      Encode(l.index, LiteralBits(h.compression), LiteralPrefix(h.compression)) +
      (if l.index == 0 then EncodeString(c, mode, h.name) else []) +
      EncodeString(c, mode, h.value)
  }

  function FieldTable(t: Table, h: Header, l: Lookup): InsertOutcome {
    if !IsIndexed(h, l) && h.compression.UseCache? then Insert(t, h) else Inserted(t)
  }

  ghost predicate Shared(statics: seq<Header>, t: Table) {
    |statics| < 0x1_0000_0000 && StaticsValid(statics) && TableValid(t) && EntriesCached(t)
  }

  ghost predicate FieldFits(c: Coder, h: Header) {
    Fits(c, h.name) && Fits(c, h.value)
  }

  /** What the decoder makes of a field, given the outcome of saving it. */
  function FieldOutcome(k: Core, h: Header, o: InsertOutcome, rest: Bytes): EntryResult {
    match o
    case TooLarge => Fail
    case Stranded => Lost
    case Inserted(t) => Complete(Decoder(k.(table := t), EntryInit), Field(h), rest)
  }

  lemma SoundIndexSmall(statics: seq<Header>, t: Table, h: Header, l: Lookup)
    requires Shared(statics, t) && SoundIndex(statics, t, h, l.index, l.found)
    ensures l.index < HALF
  {
    TotalSizeAtLeast(t.entries);
  }

  lemma IndexedRoundTrip(c: Coder, statics: seq<Header>, mode: HuffmanMode, k: Core, h: Header, l: Lookup, rest: Bytes)
    requires Shared(statics, k.table) && SoundIndex(statics, k.table, h, l.index, l.found) && IsIndexed(h, l)
    ensures DecodeEntry(c, statics, Decoder(k, EntryInit), FieldBytes(c, mode, h, l) + rest) ==
            FieldOutcome(k, h, FieldTable(k.table, h, l), rest)
  {
    PatternsFree();
    SoundIndexSmall(statics, k.table, h, l);
    FirstByte(l.index, 128, 7);
    IntegerRoundTrip(l.index, 128, 7, rest);
    var got := GetHeader(statics, k.table, l.index).value;
    assert got in statics || got in k.table.entries;
    assert got == h;
    assert k.(table := k.table) == k;
  }

  lemma ValueRoundTrip(c: Coder, mode: HuffmanMode, k: Core, h: Header, rest: Bytes)
    requires CoderCorrect(c) && Fits(c, h.value)
    ensures DecodeFieldValue(c, k, h.compression, |h.name|, StrInit, h.name, EncodeString(c, mode, h.value) + rest) ==
            DeliverField(k, h, rest)
  {
    StringRoundTrip(c, mode, h.value, h.name, rest);
    var both := h.name + h.value;
    assert both[..|h.name|] == h.name && both[|h.name|..] == h.value;
  }

  /** The name index of a literal, and what follows it. */
  lemma LiteralHead(c: Coder, statics: seq<Header>, k: Core, h: Header, l: Lookup, tail: Bytes)
    requires Shared(statics, k.table) && SoundIndex(statics, k.table, h, l.index, l.found)
    ensures var wire := Encode(l.index, LiteralBits(h.compression), LiteralPrefix(h.compression)) + tail;
            && Begin(wire[0]) == EntryLiteral(h.compression, IntInit)
            && DecodeLiteral(c, statics, k, h.compression, IntInit, wire) ==
               if l.index == 0 then DecodeName(c, k, h.compression, StrInit, [], tail)
               else DecodeFieldValue(c, k, h.compression, |h.name|, StrInit, h.name, tail)
  {
    var bits, prefix := LiteralBits(h.compression), LiteralPrefix(h.compression);
    SoundIndexSmall(statics, k.table, h, l);
    FirstByte(l.index, bits, prefix);
    ModeMask();
    IntegerRoundTrip(l.index, bits, prefix, tail);
  }

  lemma NameRoundTrip(c: Coder, mode: HuffmanMode, k: Core, h: Header, tail: Bytes)
    requires CoderCorrect(c) && Fits(c, h.name)
    ensures DecodeName(c, k, h.compression, StrInit, [], EncodeString(c, mode, h.name) + tail) ==
            DecodeFieldValue(c, k, h.compression, |h.name|, StrInit, h.name, tail)
  {
    StringRoundTrip(c, mode, h.name, [], tail);
    assert [] + h.name == h.name;
  }

  lemma Regroup(a: Bytes, b: Bytes, c: Bytes, d: Bytes)
    ensures a + b + c + d == a + (b + (c + d))
    ensures b + c + d == b + (c + d)
  {
  }

  lemma LiteralLayout(c: Coder, mode: HuffmanMode, h: Header, l: Lookup, rest: Bytes)
    requires !IsIndexed(h, l)
    ensures var head := Encode(l.index, LiteralBits(h.compression), LiteralPrefix(h.compression));
            var name := if l.index == 0 then EncodeString(c, mode, h.name) else [];
            FieldBytes(c, mode, h, l) + rest == head + (name + (EncodeString(c, mode, h.value) + rest))
  {
    var head := Encode(l.index, LiteralBits(h.compression), LiteralPrefix(h.compression));
    Regroup(head, if l.index == 0 then EncodeString(c, mode, h.name) else [], EncodeString(c, mode, h.value), rest);
  }

  lemma EntryIsLiteral(c: Coder, statics: seq<Header>, k: Core, mode: Compression, s: Bytes)
    requires s != [] && Begin(s[0]) == EntryLiteral(mode, IntInit)
    ensures DecodeEntry(c, statics, Decoder(k, EntryInit), s) == DecodeLiteral(c, statics, k, mode, IntInit, s)
  {
  }

  lemma LiteralRoundTrip(c: Coder, statics: seq<Header>, mode: HuffmanMode, k: Core, h: Header, l: Lookup, rest: Bytes)
    requires CoderCorrect(c) && FieldFits(c, h) && !IsIndexed(h, l)
    requires Shared(statics, k.table) && SoundIndex(statics, k.table, h, l.index, l.found)
    ensures DecodeEntry(c, statics, Decoder(k, EntryInit), FieldBytes(c, mode, h, l) + rest) == DeliverField(k, h, rest)
  {
    var head := Encode(l.index, LiteralBits(h.compression), LiteralPrefix(h.compression));
    var name := if l.index == 0 then EncodeString(c, mode, h.name) else [];
    var value := EncodeString(c, mode, h.value) + rest;
    LiteralLayout(c, mode, h, l, rest);
    LiteralHead(c, statics, k, h, l, name + value);
    EntryIsLiteral(c, statics, k, h.compression, head + (name + value));
    ValueRoundTrip(c, mode, k, h, rest);
    if l.index == 0 {
      NameRoundTrip(c, mode, k, h, value);
    } else {
      assert name + value == value;
    }
  }

  /**
   * One encoded field decodes to itself and has the same effect on the decoder's
   * table as on the encoder's, including the two ways that saving it can go wrong.
   */
  lemma FieldRoundTrip(c: Coder, statics: seq<Header>, mode: HuffmanMode, k: Core, h: Header, l: Lookup, rest: Bytes)
    requires CoderCorrect(c) && FieldFits(c, h)
    requires Shared(statics, k.table) && SoundIndex(statics, k.table, h, l.index, l.found)
    ensures DecodeEntry(c, statics, Decoder(k, EntryInit), FieldBytes(c, mode, h, l) + rest) ==
            FieldOutcome(k, h, FieldTable(k.table, h, l), rest)
  {
    if IsIndexed(h, l) {
      IndexedRoundTrip(c, statics, mode, k, h, l, rest);
    } else {
      LiteralRoundTrip(c, statics, mode, k, h, l, rest);
      assert k.(table := k.table) == k;
    }
  }

  // ----- a header list

  datatype Encoding = Encoded(bytes: Bytes, table: Table) | EncodeError | EncodeLost

  function EncodeFields(c: Coder, mode: HuffmanMode, t: Table, hs: seq<Header>, ls: seq<Lookup>): Encoding
    requires |hs| == |ls|
    decreases |hs|
  {
    if hs == [] then Encoded([], t)
    else match FieldTable(t, hs[0], ls[0])
         case TooLarge => EncodeError
         case Stranded => EncodeLost
         case Inserted(t') =>
           Prepend(FieldBytes(c, mode, hs[0], ls[0]), EncodeFields(c, mode, t', hs[1..], ls[1..]))
  }

  /** Every search was answered soundly by the table as it stood at that field. */
  ghost predicate LookupsSound(statics: seq<Header>, t: Table, hs: seq<Header>, ls: seq<Lookup>)
    decreases |hs|
  {
    |hs| == |ls| &&
    (hs != [] ==>
       && SoundIndex(statics, t, hs[0], ls[0].index, ls[0].found)
       && (FieldTable(t, hs[0], ls[0]).Inserted? ==>
             LookupsSound(statics, FieldTable(t, hs[0], ls[0]).table, hs[1..], ls[1..])))
  }

  function FieldEvents(hs: seq<Header>): seq<Event> {
    if hs == [] then [] else [Field(hs[0])] + FieldEvents(hs[1..])
  }

  lemma FieldTableKeepsShared(statics: seq<Header>, t: Table, h: Header, l: Lookup)
    requires Shared(statics, t)
    ensures FieldTable(t, h, l).Inserted? ==> Shared(statics, FieldTable(t, h, l).table)
  {
    InsertKeepsValid(t, h);
    if h.compression.UseCache? {
      InsertKeepsCached(t, h);
    }
  }

  /** The bytes decode, from table `k.table`, to these events and leave the decoder with table `t`. */
  ghost predicate Decodes(c: Coder, statics: seq<Header>, k: Core, s: Bytes, events: seq<Event>, t: Table) {
    DecodeAll(c, statics, Decoder(k, EntryInit), s) == Run(events, Alive(Decoder(k.(table := t), EntryInit)))
  }

  /** A run that starts with a complete entry. */
  lemma RunStep(c: Coder, statics: seq<Header>, k: Core, s: Bytes, t: Table, e: Event, rest: Bytes,
                events: seq<Event>, last: Table)
    requires DecodeEntry(c, statics, Decoder(k, EntryInit), s) == Complete(Decoder(k.(table := t), EntryInit), e, rest)
    requires Decodes(c, statics, k.(table := t), rest, events, last)
    ensures Decodes(c, statics, k, s, [e] + events, last)
  {
    assert k.(table := t).(table := last) == k.(table := last);
  }

  lemma {:induction false} FieldsRoundTrip(c: Coder, statics: seq<Header>, mode: HuffmanMode, k: Core,
                                           hs: seq<Header>, ls: seq<Lookup>)
    requires CoderCorrect(c) && forall h | h in hs :: FieldFits(c, h)
    requires Shared(statics, k.table) && LookupsSound(statics, k.table, hs, ls)
    ensures var e := EncodeFields(c, mode, k.table, hs, ls);
            e.Encoded? ==>
              && Shared(statics, e.table)
              && Decodes(c, statics, k, e.bytes, FieldEvents(hs), e.table)
    decreases |hs|
  {
    if hs == [] {
      assert k.(table := k.table) == k;
    } else {
      var o := FieldTable(k.table, hs[0], ls[0]);
      if o.Inserted? {
        FieldTableKeepsShared(statics, k.table, hs[0], ls[0]);
        var k' := k.(table := o.table);
        FieldsRoundTrip(c, statics, mode, k', hs[1..], ls[1..]);
        var e := EncodeFields(c, mode, o.table, hs[1..], ls[1..]);
        if e.Encoded? {
          FieldRoundTrip(c, statics, mode, k, hs[0], ls[0], e.bytes);
          RunStep(c, statics, k, FieldBytes(c, mode, hs[0], ls[0]) + e.bytes, o.table,
                  Field(hs[0]), e.bytes, FieldEvents(hs[1..]), e.table);
        }
      }
    }
  }

  /** An encoding with one more field at its end. */
  function Extend(c: Coder, mode: HuffmanMode, e: Encoding, h: Header, l: Lookup): Encoding {
    if !e.Encoded? then e
    else match FieldTable(e.table, h, l)
         case TooLarge => EncodeError
         case Stranded => EncodeLost
         case Inserted(t) => Encoded(e.bytes + FieldBytes(c, mode, h, l), t)
  }

  function Prepend(head: Bytes, e: Encoding): Encoding {
    if e.Encoded? then Encoded(head + e.bytes, e.table) else e
  }

  lemma ExtendPrepend(c: Coder, mode: HuffmanMode, head: Bytes, e: Encoding, h: Header, l: Lookup)
    ensures Extend(c, mode, Prepend(head, e), h, l) == Prepend(head, Extend(c, mode, e, h, l))
  {
    if e.Encoded? {
      assert (head + e.bytes) + FieldBytes(c, mode, h, l) == head + (e.bytes + FieldBytes(c, mode, h, l));
    }
  }

  lemma EncodeOne(c: Coder, mode: HuffmanMode, t: Table, h: Header, l: Lookup)
    ensures EncodeFields(c, mode, t, [h], [l]) == Extend(c, mode, Encoded([], t), h, l)
  {
    var bytes := FieldBytes(c, mode, h, l);
    assert bytes + [] == bytes && [] + bytes == bytes;
  }

  lemma {:induction false} EncodeOneMore(c: Coder, mode: HuffmanMode, t: Table, hs: seq<Header>, ls: seq<Lookup>,
                                         h: Header, l: Lookup)
    requires |hs| == |ls|
    ensures EncodeFields(c, mode, t, hs + [h], ls + [l]) == Extend(c, mode, EncodeFields(c, mode, t, hs, ls), h, l)
    decreases |hs|
  {
    var hs', ls' := hs + [h], ls + [l];
    if hs == [] {
      assert hs' == [h] && ls' == [l];
      EncodeOne(c, mode, t, h, l);
    } else {
      assert hs'[0] == hs[0] && ls'[0] == ls[0];
      assert hs'[1..] == hs[1..] + [h] && ls'[1..] == ls[1..] + [l];
      var o := FieldTable(t, hs[0], ls[0]);
      if o.Inserted? {
        EncodeOneMore(c, mode, o.table, hs[1..], ls[1..], h, l);
        ExtendPrepend(c, mode, FieldBytes(c, mode, hs[0], ls[0]), EncodeFields(c, mode, o.table, hs[1..], ls[1..]), h,
                      l);
      }
    }
  }

  lemma {:induction false} LookupOneMore(c: Coder, statics: seq<Header>, mode: HuffmanMode, t: Table, hs: seq<Header>,
                                         ls: seq<Lookup>, h: Header, l: Lookup)
    requires LookupsSound(statics, t, hs, ls)
    requires var e := EncodeFields(c, mode, t, hs, ls);
             e.Encoded? && SoundIndex(statics, e.table, h, l.index, l.found)
    ensures LookupsSound(statics, t, hs + [h], ls + [l])
    decreases |hs|
  {
    var hs', ls' := hs + [h], ls + [l];
    if hs == [] {
      assert hs' == [h] && ls' == [l];
      assert hs'[1..] == [] && ls'[1..] == [];
    } else {
      assert hs'[0] == hs[0] && ls'[0] == ls[0];
      assert hs'[1..] == hs[1..] + [h] && ls'[1..] == ls[1..] + [l];
      LookupOneMore(c, statics, mode, FieldTable(t, hs[0], ls[0]).table, hs[1..], ls[1..], h, l);
    }
  }

  /** Once a field cannot be encoded, the fields after it do not matter. */
  lemma {:induction false} FailureStays(c: Coder, statics: seq<Header>, mode: HuffmanMode, t: Table,
                                        hs: seq<Header>, ls: seq<Lookup>, more: seq<Header>, unused: seq<Lookup>)
    requires LookupsSound(statics, t, hs, ls) && |more| == |unused| && !EncodeFields(c, mode, t, hs, ls).Encoded?
    ensures LookupsSound(statics, t, hs + more, ls + unused)
    ensures EncodeFields(c, mode, t, hs + more, ls + unused) == EncodeFields(c, mode, t, hs, ls)
    decreases |hs|
  {
    hide FieldBytes;
    var hs', ls' := hs + more, ls + unused;
    assert hs'[0] == hs[0] && ls'[0] == ls[0];
    assert hs'[1..] == hs[1..] + more && ls'[1..] == ls[1..] + unused;
    var o := FieldTable(t, hs[0], ls[0]);
    if o.Inserted? {
      FailureStays(c, statics, mode, o.table, hs[1..], ls[1..], more, unused);
    }
  }

  // ----- pending size updates

  /** The table-size limits received since the last header block: whether any, the smallest and the latest. */
  datatype Pending = NoUpdate | Update(smallest: nat, latest: nat)

  function NoteLimit(p: Pending, newMax: nat): Pending {
    match p
    case NoUpdate => Update(newMax, newMax)
    case Update(smallest, _) => Update(Min(newMax, smallest), newMax)
  }

  /** The sizes announced at the start of the next block, in order. */
  function Announced(p: Pending): seq<nat> {
    match p
    case NoUpdate => []
    case Update(smallest, latest) => if smallest != latest then [smallest, latest] else [latest]
  }

  function ResizeBytes(size: nat): Bytes {
    PatternsFree();
    Encode(size, 32, 5)
  }

  function EncodeResizes(t: Table, sizes: seq<nat>): Encoding
    decreases |sizes|
  {
    if sizes == [] then Encoded([], t)
    else match Resize(t, sizes[0])
         case None => EncodeError
         case Some(t') =>
           Prepend(ResizeBytes(sizes[0]), EncodeResizes(t', sizes[1..]))
  }

  function ResizeEvents(sizes: seq<nat>): seq<Event> {
    if sizes == [] then [] else [Resized(sizes[0])] + ResizeEvents(sizes[1..])
  }

  lemma ResizeRoundTrip(c: Coder, statics: seq<Header>, k: Core, size: nat, rest: Bytes)
    requires size <= k.limit && Resize(k.table, size).Some? && TableValid(k.table)
    ensures DecodeEntry(c, statics, Decoder(k, EntryInit), ResizeBytes(size) + rest) ==
            Complete(Decoder(k.(table := Resize(k.table, size).value), EntryInit), Resized(size), rest)
  {
    PatternsFree();
    ModeMask();
    FirstByte(size, 32, 5);
    assert size <= MAX_SIZE;
    IntegerRoundTrip(size, 32, 5, rest);
    assert Begin((ResizeBytes(size) + rest)[0]) == EntryResize(IntInit);
  }

  lemma ResizeKeepsShared(statics: seq<Header>, t: Table, size: nat)
    requires Shared(statics, t)
    ensures Resize(t, size).Some? ==> Shared(statics, Resize(t, size).value)
  {
    ResizeKeepsValid(t, size);
    if Resize(t, size).Some? {
      forall e | e in Resize(t, size).value.entries ensures e.compression.UseCache? {
        if size != t.maxSize {
          assert e in Evict(t.entries, size);
        }
      }
    }
  }

  lemma {:induction false} ResizesRoundTrip(c: Coder, statics: seq<Header>, k: Core, sizes: seq<nat>)
    requires Shared(statics, k.table) && forall n | n in sizes :: n <= k.limit
    ensures var e := EncodeResizes(k.table, sizes);
            e.Encoded? ==>
              && Shared(statics, e.table)
              && Decodes(c, statics, k, e.bytes, ResizeEvents(sizes), e.table)
    decreases |sizes|
  {
    if sizes == [] {
      assert k.(table := k.table) == k;
    } else if Resize(k.table, sizes[0]).Some? {
      ResizeKeepsShared(statics, k.table, sizes[0]);
      var k' := k.(table := Resize(k.table, sizes[0]).value);
      assert forall n | n in sizes[1..] :: n in sizes;
      ResizesRoundTrip(c, statics, k', sizes[1..]);
      var e := EncodeResizes(k'.table, sizes[1..]);
      if e.Encoded? {
        assert sizes[0] in sizes;
        ResizeRoundTrip(c, statics, k, sizes[0], e.bytes);
        RunStep(c, statics, k, ResizeBytes(sizes[0]) + e.bytes, k'.table,
                Resized(sizes[0]), e.bytes, ResizeEvents(sizes[1..]), e.table);
      }
    }
  }

  // ----- header blocks

  function EncodeBlock(c: Coder, mode: HuffmanMode, t: Table, p: Pending, hs: seq<Header>, ls: seq<Lookup>): Encoding
    requires |hs| == |ls|
  {
    match EncodeResizes(t, Announced(p))
    case Encoded(head, t') => Prepend(head, EncodeFields(c, mode, t', hs, ls))
    case other => other
  }

  ghost predicate BlockSound(c: Coder, statics: seq<Header>, t: Table, p: Pending, hs: seq<Header>, ls: seq<Lookup>) {
    && |hs| == |ls|
    && (forall h | h in hs :: FieldFits(c, h))
    && (EncodeResizes(t, Announced(p)).Encoded? ==>
          LookupsSound(statics, EncodeResizes(t, Announced(p)).table, hs, ls))
  }

  /**
   * Lockstep for one header block: when the tables agree and the decoder's limit
   * admits the announced sizes, every division of the encoded bytes decodes to
   * the announcements and then exactly the header list, and the tables agree again.
   */
  lemma BlockLockstep(c: Coder, statics: seq<Header>, mode: HuffmanMode, k: Core, p: Pending,
                      hs: seq<Header>, ls: seq<Lookup>, chunks: seq<Bytes>)
    requires CoderCorrect(c) && Shared(statics, k.table) && BlockSound(c, statics, k.table, p, hs, ls)
    requires forall n | n in Announced(p) :: n <= k.limit
    requires EncodeBlock(c, mode, k.table, p, hs, ls).Encoded?
    requires Flatten(chunks) == EncodeBlock(c, mode, k.table, p, hs, ls).bytes
    ensures var e := EncodeBlock(c, mode, k.table, p, hs, ls);
            && Shared(statics, e.table)
            && DecodeChunks(c, statics, Run([], Alive(Decoder(k, EntryInit))), chunks) ==
               Run(ResizeEvents(Announced(p)) + FieldEvents(hs), Alive(Decoder(k.(table := e.table), EntryInit)))
  {
    var start := Run([], Alive(Decoder(k, EntryInit)));
    SplitInvariance(c, statics, start, chunks);
    var head := EncodeResizes(k.table, Announced(p));
    ResizesRoundTrip(c, statics, k, Announced(p));
    var k' := k.(table := head.table);
    FieldsRoundTrip(c, statics, mode, k', hs, ls);
    var body := EncodeFields(c, mode, head.table, hs, ls);
    RunSplit(c, statics, Decoder(k, EntryInit), head.bytes, body.bytes);
    assert k'.(table := body.table) == k.(table := body.table);
    var events := ResizeEvents(Announced(p)) + FieldEvents(hs);
    assert [] + events == events;
  }

  // ----- a whole session

  /** Limits received by the encoder, then one header block, and how the decoder meets it. */
  datatype Exchange = Exchange(limits: seq<nat>, headers: seq<Header>, lookups: seq<Lookup>, decoderLimit: nat,
                               chunks: seq<Bytes>)

  function NoteLimits(p: Pending, limits: seq<nat>): Pending
    decreases |limits|
  {
    if limits == [] then p else NoteLimits(NoteLimit(p, limits[0]), limits[1..])
  }

  function SentBlock(c: Coder, mode: HuffmanMode, t: Table, x: Exchange): Encoding
    requires |x.headers| == |x.lookups|
  {
    EncodeBlock(c, mode, t, NoteLimits(NoUpdate, x.limits), x.headers, x.lookups)
  }

  /** A block encoded successfully from table `t`, whose bytes were delivered in some division. */
  ghost predicate ExchangeSound(c: Coder, statics: seq<Header>, mode: HuffmanMode, t: Table, x: Exchange) {
    && BlockSound(c, statics, t, NoteLimits(NoUpdate, x.limits), x.headers, x.lookups)
    && SentBlock(c, mode, t, x).Encoded?
    && Flatten(x.chunks) == SentBlock(c, mode, t, x).bytes
    && (x.limits != [] ==> x.limits[|x.limits| - 1] <= x.decoderLimit)
  }

  /** Each block starts from the table that the previous ones left. */
  ghost predicate Session(c: Coder, statics: seq<Header>, mode: HuffmanMode, t: Table, xs: seq<Exchange>)
    decreases |xs|
  {
    xs != [] ==>
      ExchangeSound(c, statics, mode, t, xs[0]) &&
      Session(c, statics, mode, SentBlock(c, mode, t, xs[0]).table, xs[1..])
  }

  /** The encoder's table after the session. */
  ghost function SessionTable(c: Coder, statics: seq<Header>, mode: HuffmanMode, t: Table, xs: seq<Exchange>): Table
    requires Session(c, statics, mode, t, xs)
    decreases |xs|
  {
    if xs == [] then t else SessionTable(c, statics, mode, SentBlock(c, mode, t, xs[0]).table, xs[1..])
  }

  function Fields(events: seq<Event>): seq<Header> {
    if events == [] then []
    else (if events[0].Field? then [events[0].header] else []) + Fields(events[1..])
  }

  /**
   * What the decoder reports of one block, and the table it is left with; `None` if it refuses or is left
   * mid-entry.
   */
  function ReceiveBlock(c: Coder, statics: seq<Header>, t: Table, x: Exchange): Option<(seq<Header>, Table)> {
    var r := DecodeChunks(c, statics, Run([], Alive(Decoder(Core(t, x.decoderLimit), EntryInit))), x.chunks);
    if r.end.Alive? && r.end.decoder.entry == EntryInit then Some((Fields(r.events), r.end.decoder.core.table))
        else None
  }

  function Receive(c: Coder, statics: seq<Header>, t: Table, xs: seq<Exchange>): Option<(seq<seq<Header>>, Table)>
    decreases |xs|
  {
    if xs == [] then Some(([], t))
    else match ReceiveBlock(c, statics, t, xs[0])
         case None => None
         case Some((list, t')) =>
           match Receive(c, statics, t', xs[1..])
           case None => None
           case Some((lists, last)) => Some(([list] + lists, last))
  }

  /** The encoder's smallest pending limit never exceeds the latest, and the latest is the last one received. */
  lemma {:induction false} PendingOrdered(p: Pending, limits: seq<nat>)
    requires p.Update? ==> p.smallest <= p.latest
    ensures var q := NoteLimits(p, limits);
            && (q.Update? ==> q.smallest <= q.latest)
            && (limits != [] ==> q.Update? && q.latest == limits[|limits| - 1])
            && (limits == [] ==> q == p)
    decreases |limits|
  {
    if limits != [] {
      PendingOrdered(NoteLimit(p, limits[0]), limits[1..]);
    }
  }

  lemma {:induction false} FieldsOfEvents(sizes: seq<nat>, hs: seq<Header>)
    ensures Fields(ResizeEvents(sizes) + FieldEvents(hs)) == hs
    decreases |sizes| + |hs|
  {
    var all := ResizeEvents(sizes) + FieldEvents(hs);
    if sizes != [] {
      assert all[1..] == ResizeEvents(sizes[1..]) + FieldEvents(hs);
      FieldsOfEvents(sizes[1..], hs);
    } else if hs != [] {
      assert all[0] == Field(hs[0]) && all[1..] == ResizeEvents([]) + FieldEvents(hs[1..]);
      FieldsOfEvents([], hs[1..]);
      assert [hs[0]] + hs[1..] == hs;
    }
  }

  function HeaderLists(xs: seq<Exchange>): seq<seq<Header>> {
    seq(|xs|, i requires 0 <= i < |xs| => xs[i].headers)
  }

  lemma ExchangeLockstep(c: Coder, statics: seq<Header>, mode: HuffmanMode, t: Table, x: Exchange)
    requires CoderCorrect(c) && Shared(statics, t) && ExchangeSound(c, statics, mode, t, x)
    ensures Shared(statics, SentBlock(c, mode, t, x).table)
    ensures ReceiveBlock(c, statics, t, x) == Some((x.headers, SentBlock(c, mode, t, x).table))
  {
    hide EncodeBlock, DecodeChunks, Shared, CoderCorrect;
    var p := NoteLimits(NoUpdate, x.limits);
    PendingOrdered(NoUpdate, x.limits);
    BlockLockstep(c, statics, mode, Core(t, x.decoderLimit), p, x.headers, x.lookups, x.chunks);
    FieldsOfEvents(Announced(p), x.headers);
  }

  /**
   * Lockstep over a session: starting from equal tables, any sequence of
   * successfully encoded header blocks, with any size limits between them and
   * any division of the bytes, is received as exactly the header lists that were
   * sent, and encoder and decoder end with the same table.
   */
  lemma {:induction false} SessionLockstep(c: Coder, statics: seq<Header>, mode: HuffmanMode, t: Table,
                                           xs: seq<Exchange>)
    requires CoderCorrect(c) && Shared(statics, t) && Session(c, statics, mode, t, xs)
    ensures Receive(c, statics, t, xs) == Some((HeaderLists(xs), SessionTable(c, statics, mode, t, xs)))
    decreases |xs|
  {
    hide SentBlock, ReceiveBlock, Shared, CoderCorrect;
    if xs == [] {
      assert HeaderLists(xs) == [];
    } else {
      ExchangeLockstep(c, statics, mode, t, xs[0]);
      SessionLockstep(c, statics, mode, SentBlock(c, mode, t, xs[0]).table, xs[1..]);
      assert [xs[0].headers] + HeaderLists(xs[1..]) == HeaderLists(xs);
    }
  }
}
