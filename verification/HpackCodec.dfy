/**
 * The encoder and the decoder as objects over a ring-buffer table: the loops
 * that consume an input buffer or append to an output buffer, each proved
 * against the functions in `HpackDecoder` and `HpackEncoder`.
 */
module HpackCodec {
  import opened Octets
  import opened HpackInteger
  import opened HpackTable
  import HpackLookup
  import opened HpackRing
  import opened HpackDecoder
  import opened HpackEncoder

  const SIZE_MAX: nat := 0xFFFF_FFFF_FFFF_FFFF

  // ----- decoding strings

  /** Takes either as much of the string's body as is needed, or as much as there is. */
  method TakeValue(c: Coder, input: Bytes, start: nat, huffman: bool, left: nat, state: nat, out: Bytes)
    returns (pos: nat, r: StrResult)
    requires left > 0 && start < |input|
    ensures r == DecodeValue(c, huffman, left, state, out, input[start..])
    ensures start < pos <= |input|
    ensures r.StrOngoing? ==> pos == |input|
    ensures r.StrComplete? ==> r.rest == input[pos..]
  {
    var n := Min(left, |input| - start);
    var chunk := input[start..start + n];
    pos := start + n;
    assert chunk == input[start..][..n] && input[pos..] == input[start..][n..];
    assert n < left ==> chunk == input[start..];
    var more := Unpack(c, huffman, state, chunk);
    if more.None? {
      r := StrFail;
    } else if n == left {
      r := StrComplete(out + more.value.1, input[pos..]);
    } else {
      r := StrOngoing(StrValue(huffman, left - n, more.value.0), out + more.value.1);
    }
  }

  method DecodeStringLoop(c: Coder, input: Bytes, start: nat, progress: StrProgress, output: Bytes)
    returns (pos: nat, r: StrResult)
    requires StrValid(progress) && start <= |input|
    ensures r == DecodeString(c, progress, output, input[start..])
    ensures start <= pos <= |input|
    ensures r.StrOngoing? ==> pos == |input|
    ensures r.StrComplete? ==> r.rest == input[pos..]
  {
    pos := start;
    var p, out := progress, output;
    while pos < |input|
      invariant start <= pos <= |input| && StrValid(p)
      invariant DecodeString(c, progress, output, input[start..]) == DecodeString(c, p, out, input[pos..])
      decreases |input| - pos, p.StrInit?
    {
      match p {
        case StrInit =>
          p := StrLength(input[pos] >= 128, IntInit);
        case StrLength(huffman, q) =>
          ghost var before := pos;
          var ir;
          pos, ir := DecodeIntegerLoop(input, pos, 7, q);
          match ir {
            case IntFail => return pos, StrFail;
            case IntOngoing(q') => p := StrLength(huffman, q');
            case IntComplete(length, _) =>
              if length == 0 {
                return pos, StrComplete(out, input[pos..]);
              }
              p := StrValue(huffman, length, c.start);
              ValueOfNothing(c, huffman, length, c.start, out);
          }
          assert before < pos;
        case StrValue(huffman, left, state) =>
          pos, r := TakeValue(c, input, pos, huffman, left, state, out);
          if !r.StrOngoing? {
            return;
          }
          p, out := r.progress, r.out;
      }
    }
    r := StrOngoing(p, out);
  }

  lemma ValueOfNothing(c: Coder, huffman: bool, left: nat, state: nat, out: Bytes)
    requires left > 0
    ensures DecodeValue(c, huffman, left, state, out, []) == StrOngoing(StrValue(huffman, left, state), out)
  {
    assert out + [] == out;
  }

  // ----- decoding entries

  datatype DecodeResult = NeedMore | Got(event: Event) | Error

  /** How the bytes of an entry ended, before it takes effect. */
  datatype Outcome = Bad | FromTable(header: Header) | NewSize(size: nat) | Literal(header: Header)

  function Conclude(k: Core, o: Outcome, rest: Bytes): (r: EntryResult)
    ensures !r.Ongoing?
  {
    match o
    case Bad => Fail
    case FromTable(h) => Complete(Decoder(k, EntryInit), Field(h), rest)
    case Literal(h) => DeliverField(k, h, rest)
    case NewSize(size) =>
      if size > k.limit then Fail
      else match Resize(k.table, size)
           case None => Fail
           case Some(t) => Complete(Decoder(k.(table := t), EntryInit), Resized(size), rest)
  }

  class EntryDecoder {
    const coder: Coder
    const context: DynamicTable
    var limit: nat
    var entry: EntryState

    ghost predicate Valid()
      reads this, context, context.buffer
    {
      context.Valid() && EntryValid(entry)
    }

    ghost function View(): Decoder
      requires Valid()
      reads this, context, context.buffer
    {
      Decoder(Core(context.View(), limit), entry)
    }

    constructor (coder: Coder, context: DynamicTable)
      requires context.Valid()
      ensures Valid() && this.coder == coder && this.context == context
      ensures View() == Decoder(Core(context.View(), context.maxSize), EntryInit)
    {
      this.coder, this.context := coder, context;
      limit, entry := context.maxSize, EntryInit;
    }

    method UpdateMaxTableSize(setting: nat)
      requires Valid()
      modifies this`limit
      ensures Valid() && View() == old(View()).(core := Core(context.View(), setting))
    {
      limit := setting;
    }

    method RunIndexed(input: Bytes, start: nat, p: IntProgress) returns (pos: nat, r: Option<Outcome>)
      requires Valid() && start < |input| && entry == EntryIndexed(p)
      modifies this`entry
      ensures Valid() && start <= pos <= |input| && (r.None? ==> start < pos)
      ensures DecodeEntry(coder, context.statics, old(View()), input[start..]) ==
              if r.None? then DecodeEntry(coder, context.statics, View(), input[pos..])
              else Conclude(View().core, r.value, input[pos..])
    {
      hide DecodeInteger, GetHeader;
      r := None;
      var ir;
      pos, ir := DecodeIntegerLoop(input, start, 7, p);
      match ir {
        case IntFail => r := Some(Bad);
        case IntOngoing(q) => entry := EntryIndexed(q);
        case IntComplete(index, _) =>
          var h := context.GetHeaderAt(index);
          r := Some(if h.None? then Bad else FromTable(h.value));
      }
    }

    method RunResize(input: Bytes, start: nat, p: IntProgress) returns (pos: nat, r: Option<Outcome>)
      requires Valid() && start < |input| && entry == EntryResize(p)
      modifies this`entry
      ensures Valid() && start <= pos <= |input| && (r.None? ==> start < pos)
      ensures DecodeEntry(coder, context.statics, old(View()), input[start..]) ==
              if r.None? then DecodeEntry(coder, context.statics, View(), input[pos..])
              else Conclude(View().core, r.value, input[pos..])
    {
      hide DecodeInteger;
      r := None;
      var ir;
      pos, ir := DecodeIntegerLoop(input, start, 5, p);
      match ir {
        case IntFail => r := Some(Bad);
        case IntOngoing(q) => entry := EntryResize(q);
        case IntComplete(size, _) => r := Some(NewSize(size));
      }
    }

    method RunName(input: Bytes, start: nat, mode: Compression, sp: StrProgress, scratch: Bytes)
      returns (pos: nat, r: Option<Outcome>)
      requires Valid() && start < |input| && entry == EntryName(mode, sp, scratch)
      modifies this`entry
      ensures Valid() && start <= pos <= |input| && (r.None? ==> start < pos)
      ensures DecodeEntry(coder, context.statics, old(View()), input[start..]) ==
              if r.None? then DecodeEntry(coder, context.statics, View(), input[pos..])
              else Conclude(View().core, r.value, input[pos..])
    {
      r := None;
      var sr;
      pos, sr := DecodeStringLoop(coder, input, start, sp, scratch);
      match sr {
        case StrFail => r := Some(Bad);
        case StrOngoing(q, out) => entry := EntryName(mode, q, out);
        case StrComplete(out, _) => entry := EntryValue(mode, |out|, StrInit, out);
      }
    }

    method RunValue(input: Bytes, start: nat, mode: Compression, nameLength: nat, sp: StrProgress, scratch: Bytes)
      returns (pos: nat, r: Option<Outcome>)
      requires Valid() && start < |input| && entry == EntryValue(mode, nameLength, sp, scratch)
      modifies this`entry
      ensures Valid() && start <= pos <= |input| && (r.None? ==> start < pos)
      ensures DecodeEntry(coder, context.statics, old(View()), input[start..]) ==
              if r.None? then DecodeEntry(coder, context.statics, View(), input[pos..])
              else Conclude(View().core, r.value, input[pos..])
    {
      hide DecodeString, Insert;
      StringAppends(coder, sp, scratch, input[start..]);
      r := None;
      var sr;
      pos, sr := DecodeStringLoop(coder, input, start, sp, scratch);
      match sr {
        case StrFail => r := Some(Bad);
        case StrOngoing(q, out) => entry := EntryValue(mode, nameLength, q, out);
        case StrComplete(out, _) => r := Some(Literal(Header(out[..nameLength], out[nameLength..], mode)));
      }
    }


    /** Runs the current state once; `None` means that the state machine should go on. */
    method RunState(input: Bytes, start: nat) returns (pos: nat, r: Option<Outcome>)
      requires Valid() && start < |input|
      modifies this`entry
      ensures Valid() && start <= pos <= |input|
      ensures r.None? ==> start < pos || (old(entry).EntryInit? && !entry.EntryInit?)
      ensures DecodeEntry(coder, context.statics, old(View()), input[start..]) ==
              if r.None? then DecodeEntry(coder, context.statics, View(), input[pos..])
              else Conclude(View().core, r.value, input[pos..])
    {
      hide DecodeInteger, DecodeString, GetHeader, Insert;
      pos, r := start, None;
      match entry {
        case EntryInit => entry := Begin(input[pos]);
        case EntryIndexed(p) => pos, r := RunIndexed(input, start, p);
        case EntryResize(p) => pos, r := RunResize(input, start, p);
        case EntryLiteral(mode, p) => pos, r := RunLiteral(input, start, mode, p);
        case EntryName(mode, sp, scratch) => pos, r := RunName(input, start, mode, sp, scratch);
        case EntryValue(mode, nameLength, sp, scratch) => pos,
            r := RunValue(input, start, mode, nameLength, sp, scratch);
      }
    }

    method RunLiteral(input: Bytes, start: nat, mode: Compression, p: IntProgress)
        returns (pos: nat, r: Option<Outcome>)
      requires Valid() && start < |input| && entry == EntryLiteral(mode, p)
      modifies this`entry
      ensures Valid() && start <= pos <= |input| && (r.None? ==> start < pos)
      ensures DecodeEntry(coder, context.statics, old(View()), input[start..]) ==
              if r.None? then DecodeEntry(coder, context.statics, View(), input[pos..])
              else Conclude(View().core, r.value, input[pos..])
    {
      hide DecodeInteger, GetHeader, Insert;
      r := None;
      var ir;
      pos, ir := DecodeIntegerLoop(input, start, LiteralPrefix(mode), p);
      match ir {
        case IntFail => r := Some(Bad);
        case IntOngoing(q) => entry := EntryLiteral(mode, q);
        case IntComplete(index, _) =>
          if index == 0 {
            entry := EntryName(mode, StrInit, []);
          } else {
            var h := context.GetHeaderAt(index);
            if h.None? {
              r := Some(Bad);
            } else {
              entry := EntryValue(mode, |h.value.name|, StrInit, h.value.name);
            }
          }
      }
    }

    /**
     * Consumes input up to the end of one entry. Every outcome is the one that
     * `DecodeEntry` gives; a lost insertion is reported as success over a broken table.
     */
    method Decode(input: Bytes, start: nat) returns (pos: nat, r: DecodeResult)
      requires Valid() && start <= |input|
      modifies this`entry, context, context.buffer
      ensures var spec := DecodeEntry(coder, context.statics, old(View()), input[start..]);
              && start <= pos <= |input|
              && (r.NeedMore? <==> spec.Ongoing?)
              && (r.Error? <==> spec.Fail?)
              && (spec.Ongoing? ==> pos == |input| && Valid() && View() == spec.decoder)
              && (spec.Complete? ==>
                    r == Got(spec.event) && input[pos..] == spec.rest && Valid() && View() == spec.decoder)
              && (spec.Lost? ==> context.numElements > context.buffer.Length)
      ensures context.buffer == old(context.buffer) || fresh(context.buffer)
    {
      pos := start;
      var done := None;
      while pos < |input| && done.None?
        invariant start <= pos <= |input| && Valid() && View().core == old(View().core)
        invariant DecodeEntry(coder, context.statics, old(View()), input[start..]) ==
                  if done.None? then DecodeEntry(coder, context.statics, View(), input[pos..])
                  else Conclude(View().core, done.value, input[pos..])
        modifies this`entry
        decreases done.None?, |input| - pos, entry.EntryInit?
      {
        pos, done := RunState(input, pos);
      }
      if done.None? {
        r := NeedMore;
      } else {
        r := Finish(done.value, input[pos..]);
      }
    }

    method Finish(o: Outcome, ghost rest: Bytes) returns (r: DecodeResult)
      requires Valid()
      modifies this`entry, context, context.buffer
      ensures var spec := Conclude(old(View().core), o, rest);
              && (r.Error? <==> spec.Fail?) && !r.NeedMore?
              && (spec.Complete? ==> r == Got(spec.event) && spec.rest == rest && Valid() && View() == spec.decoder)
              && (spec.Lost? ==> context.numElements > context.buffer.Length)
      ensures context.buffer == old(context.buffer) || fresh(context.buffer)
    {
      match o {
        case Bad => r := Error;
        case FromTable(h) =>
          entry := EntryInit;
          r := Got(Field(h));
        case NewSize(size) => r := FinishResize(size);
        case Literal(h) => r := FinishLiteral(h);
      }
    }

    method FinishResize(size: nat) returns (r: DecodeResult)
      requires Valid()
      modifies this`entry, context
      ensures var t := if size > limit then None else Resize(old(context.View()), size);
              && (r.Error? <==> t.None?)
              && (t.Some? ==> r == Got(Resized(size)) && Valid() && View() == Decoder(Core(t.value, limit), EntryInit))
      ensures context.buffer == old(context.buffer) || fresh(context.buffer)
    {
      if size > limit {
        return Error;
      }
      var ok := context.ResizeTable(size);
      if !ok {
        return Error;
      }
      entry := EntryInit;
      r := Got(Resized(size));
    }

    method FinishLiteral(h: Header) returns (r: DecodeResult)
      requires Valid()
      modifies this`entry, context, context.buffer
      ensures var o := DeliverField(Core(old(context.View()), limit), h, []);
              && (r.Error? <==> o.Fail?) && !r.NeedMore?
              && (o.Complete? ==> r == Got(Field(h)) && Valid() && View() == o.decoder)
              && (o.Lost? ==> context.numElements > context.buffer.Length)
      ensures context.buffer == old(context.buffer) || fresh(context.buffer)
    {
      if h.compression.UseCache? {
        var ok := context.InsertHeader(h);
        if !ok {
          return Error;
        }
      }
      entry := EntryInit;
      r := Got(Field(h));
    }
  }

  // ----- encoding

  datatype Verdict = Done | Refused | Broken

  /** `out` is `output` followed by the encoding, and `t` its table, when `ok`; otherwise the encoding is an error. */
  ghost predicate Appended(e: Encoding, t: Table, output: Bytes, out: Bytes, ok: bool) {
    if ok then e.Encoded? && e.table == t && out == output + e.bytes else e.EncodeError?
  }

  /** The fields `hs`, searched for as `ls` says, have been encoded as `body` and left table `now`. */
  ghost predicate Encodes(c: Coder, statics: seq<Header>, mode: HuffmanMode, t: Table, hs: seq<Header>,
                          ls: seq<Lookup>, body: Bytes, now: Table) {
    LookupsSound(statics, t, hs, ls) && EncodeFields(c, mode, t, hs, ls) == Encoded(body, now)
  }

  lemma EncodesOneMore(c: Coder, statics: seq<Header>, mode: HuffmanMode, t: Table, hs: seq<Header>, ls: seq<Lookup>,
                       body: Bytes, now: Table, i: nat, l: Lookup)
    requires i < |hs| && Encodes(c, statics, mode, t, hs[..i], ls, body, now)
    requires SoundIndex(statics, now, hs[i], l.index, l.found) && FieldTable(now, hs[i], l).Inserted?
    ensures Encodes(c, statics, mode, t, hs[..i + 1], ls + [l], body + FieldBytes(c, mode, hs[i], l),
                    FieldTable(now, hs[i], l).table)
  {
    hide EncodeFields, FieldBytes;
    EncodeOneMore(c, mode, t, hs[..i], ls, hs[i], l);
    LookupOneMore(c, statics, mode, t, hs[..i], ls, hs[i], l);
    assert hs[..i + 1] == hs[..i] + [hs[i]];
  }

  /** What a verdict on a list or a block says of its encoding. */
  function Judged(v: Verdict, bytes: Bytes, now: Table): Encoding {
    match v
    case Done => Encoded(bytes, now)
    case Refused => EncodeError
    case Broken => EncodeLost
  }

  /** Field `i` could not be encoded: neither can the list, whatever comes after it. */
  lemma EncodesNoMore(c: Coder, statics: seq<Header>, mode: HuffmanMode, t: Table, hs: seq<Header>, ls: seq<Lookup>,
                      body: Bytes, now: Table, i: nat, l: Lookup, v: Verdict)
    requires i < |hs| && Encodes(c, statics, mode, t, hs[..i], ls, body, now)
    requires SoundIndex(statics, now, hs[i], l.index, l.found)
    requires var o := FieldTable(now, hs[i], l); (v.Refused? && o.TooLarge?) || (v.Broken? && o.Stranded?)
    ensures var all := Padded(ls + [l], |hs|);
            LookupsSound(statics, t, hs, all) && EncodeFields(c, mode, t, hs, all) == Judged(v, [], now)
  {
    hide EncodeFields, FieldBytes;
    EncodeOneMore(c, mode, t, hs[..i], ls, hs[i], l);
    LookupOneMore(c, statics, mode, t, hs[..i], ls, hs[i], l);
    var unused := seq(|hs| - (i + 1), _ => Lookup(0, false));
    FailureStays(c, statics, mode, t, hs[..i] + [hs[i]], ls + [l], hs[i + 1..], unused);
    assert hs == (hs[..i] + [hs[i]]) + hs[i + 1..];
  }

  /** Searches that were never made, after those that were. */
  ghost function Padded(ls: seq<Lookup>, n: nat): (all: seq<Lookup>)
    requires |ls| <= n
    ensures |all| == n
  {
    ls + seq(n - |ls|, _ => Lookup(0, false))
  }

  class HeaderEncoder {
    const coder: Coder
    const context: DynamicTable
    var mode: HuffmanMode
    var updatePending: bool
    var smallest: nat
    var latest: nat

    ghost predicate Valid()
      reads this, context, context.buffer
    {
      && context.Valid()
      && |context.statics| < 0x1_0000_0000
      && (!updatePending ==> smallest == SIZE_MAX && latest == SIZE_MAX)
      && (updatePending ==> smallest <= latest < 0x1_0000_0000)
    }

    ghost function Updates(): Pending
      reads this
    {
      if updatePending then Update(smallest, latest) else NoUpdate
    }

    constructor (coder: Coder, context: DynamicTable)
      requires context.Valid() && |context.statics| < 0x1_0000_0000
      ensures Valid() && this.coder == coder && this.context == context && Updates() == NoUpdate
    {
      this.coder, this.context := coder, context;
      mode := Smallest;
      updatePending, smallest, latest := false, SIZE_MAX, SIZE_MAX;
    }

    method UpdateMaxTableSize(newMax: nat)
      requires Valid() && newMax < 0x1_0000_0000
      modifies this`updatePending, this`smallest, this`latest
      ensures Valid() && Updates() == NoteLimit(old(Updates()), newMax)
    {
      updatePending := true;
      smallest := Min(newMax, smallest);
      latest := newMax;
    }

    method AppendString(s: Bytes, output: Bytes) returns (out: Bytes)
      requires Fits(coder, s)
      ensures out == output + EncodeString(coder, mode, s)
    {
      var body := StringBody(coder, mode, s);
      out := EncodeInteger(|body|, StringBits(coder, mode, s), 7, output);
      out := out + body;
    }

    /** Appends one field and saves it if its kind asks for it; `l` is what the search of the tables answered. */
    method AppendField(h: Header, output: Bytes) returns (out: Bytes, v: Verdict, ghost l: Lookup)
      requires Valid() && FieldFits(coder, h)
      modifies context, context.buffer
      ensures SoundIndex(context.statics, old(context.View()), h, l.index, l.found)
      ensures var o := FieldTable(old(context.View()), h, l);
              && (v.Refused? <==> o.TooLarge?) && (v.Broken? <==> o.Stranded?)
              && (v.Done? ==> Valid() && context.View() == o.table && out == output + FieldBytes(coder, mode, h, l))
              && (v.Refused? ==> Valid() && out == output)
              && (v.Broken? ==> context.numElements > context.buffer.Length)
      ensures context.buffer == old(context.buffer) || fresh(context.buffer)
    {
      hide HpackLookup.FoundAt, HpackLookup.FieldIndex, HpackLookup.InsertMemory, FieldFits, Insert, SoundIndex,
           TotalSize, TableValid, DynamicTable.LookupsExact, DynamicTable.Entries;
      v := Done;
      var index, found := context.FindIndex(h, true);
      l := Lookup(index, found);
      SmallIndex(index, h, found);
      PatternsFree();
      if !h.compression.UseCache? {
        found := false;
      }
      if index != 0 && found {
        out := EncodeInteger(index, 128, 7, output);
        return;
      }
      out := AppendLiteral(h, index, output);
      if h.compression.UseCache? {
        ghost var before := context.View();
        var ok := context.InsertHeader(h);
        if !ok {
          return output, Refused, l;
        }
        if context.numElements > context.buffer.Length {
          v := Broken;
        }
      }
    }

    lemma SmallIndex(index: nat, h: Header, found: bool)
      requires Valid() && SoundIndex(context.statics, context.View(), h, index, found)
      ensures index < U64
    {
      TotalSizeAtLeast(context.View().entries);
    }

    method AppendLiteral(h: Header, index: nat, output: Bytes) returns (out: Bytes)
      requires FieldFits(coder, h) && index < U64
      ensures out == output + (Encode(index, LiteralBits(h.compression), LiteralPrefix(h.compression)) +
                     (if index == 0 then EncodeString(coder, mode, h.name) else []) +
                     EncodeString(coder, mode, h.value))
    {
      ghost var head := Encode(index, LiteralBits(h.compression), LiteralPrefix(h.compression));
      ghost var name := if index == 0 then EncodeString(coder, mode, h.name) else [];
      out := EncodeInteger(index, LiteralBits(h.compression), LiteralPrefix(h.compression), output);
      if index == 0 {
        out := AppendString(h.name, out);
      } else {
        assert out + name == out;
      }
      out := AppendString(h.value, out);
      Regroup(output, head, name, EncodeString(coder, mode, h.value));
    }

    method AppendResize(size: nat, output: Bytes) returns (out: Bytes, ok: bool)
      requires Valid() && size < U64
      modifies context
      ensures Valid() && (ok <==> Resize(old(context.View()), size).Some?)
      ensures ok ==> context.View() == Resize(old(context.View()), size).value && out == output + ResizeBytes(size)
      ensures context.buffer == old(context.buffer) || fresh(context.buffer)
    {
      out := output;
      ok := context.ResizeTable(size);
      if ok {
        PatternsFree();
        out := EncodeInteger(size, 32, 5, output);
      }
    }

    /** The last size announced, after which no update is pending. */
    method AppendLatest(output: Bytes) returns (out: Bytes, ok: bool)
      requires Valid() && updatePending
      modifies this`updatePending, this`smallest, this`latest, context
      ensures Valid() && Appended(EncodeResizes(old(context.View()), [old(latest)]), context.View(), output, out, ok)
      ensures ok ==> Updates() == NoUpdate
      ensures context.buffer == old(context.buffer) || fresh(context.buffer)
    {
      ResizeOne(context.View(), latest);
      out, ok := AppendResize(latest, output);
      if ok {
        updatePending, smallest, latest := false, SIZE_MAX, SIZE_MAX;
      }
    }

    /** Two announcements: the smallest size, then the latest. */
    method AppendBoth(output: Bytes) returns (out: Bytes, ok: bool)
      requires Valid() && updatePending
      modifies this`updatePending, this`smallest, this`latest, context
      ensures Valid() && Appended(EncodeResizes(old(context.View()), [old(smallest), old(latest)]), context.View(),
                                  output, out, ok)
      ensures ok ==> Updates() == NoUpdate
      ensures context.buffer == old(context.buffer) || fresh(context.buffer)
    {
      ResizeTwo(context.View(), smallest, latest);
      out, ok := AppendResize(smallest, output);
      if ok {
        ghost var head, tail := ResizeBytes(smallest), EncodeResizes(context.View(), [latest]);
        out, ok := AppendLatest(out);
        assert ok ==> output + head + tail.bytes == output + (head + tail.bytes);
      }
    }

    /** Announces the sizes received since the last block: the smallest if it differs, then the latest. */
    method AppendUpdates(output: Bytes) returns (out: Bytes, ok: bool)
      requires Valid()
      modifies this`updatePending, this`smallest, this`latest, context
      ensures Valid() && Appended(EncodeResizes(old(context.View()), Announced(old(Updates()))), context.View(),
                                  output, out, ok)
      ensures ok ==> Updates() == NoUpdate
      ensures context.buffer == old(context.buffer) || fresh(context.buffer)
    {
      if !updatePending {
        assert output + [] == output;
        out, ok := output, true;
      } else if smallest == latest {
        out, ok := AppendLatest(output);
      } else {
        out, ok := AppendBoth(output);
      }
    }

    /** Appends field `i` of a list whose first `i` fields have been encoded as `body`. */
    method AppendNext(hs: seq<Header>, i: nat, output: Bytes, ghost base: Bytes, ghost t: Table,
                      ghost ls: seq<Lookup>, ghost body: Bytes)
      returns (out: Bytes, v: Verdict, ghost ls': seq<Lookup>, ghost body': Bytes)
      requires Valid() && i < |hs| && FieldFits(coder, hs[i]) && output == base + body
      requires Encodes(coder, context.statics, mode, t, hs[..i], ls, body, context.View())
      modifies context, context.buffer
      ensures v.Done? ==>
                && Valid() && out == base + body'
                && Encodes(coder, context.statics, mode, t, hs[..i + 1], ls', body', context.View())
      ensures !v.Done? ==>
                && LookupsSound(context.statics, t, hs, ls')
                && EncodeFields(coder, mode, t, hs, ls') == Judged(v, [], t)
      ensures v.Refused? ==> Valid()
      ensures v.Broken? ==> context.numElements > context.buffer.Length
      ensures context.buffer == old(context.buffer) || fresh(context.buffer)
    {
      hide Encodes, FieldBytes, EncodeFields, LookupsSound, FieldTable;
      ghost var now := context.View();
      ghost var l;
      out, v, l := AppendField(hs[i], output);
      if v.Done? {
        EncodesOneMore(coder, context.statics, mode, t, hs, ls, body, now, i, l);
        ghost var field := FieldBytes(coder, mode, hs[i], l);
        ls', body' := ls + [l], body + field;
        Regroup([], base, body, field);
      } else {
        EncodedLength(coder, context.statics, mode, t, hs[..i], ls, body, now);
        EncodesNoMore(coder, context.statics, mode, t, hs, ls, body, now, i, l, v);
        ls', body' := Padded(ls + [l], |hs|), [];
      }
    }

    /** Appends every field of a list; `body` is what was appended and `ls` the searches made. */
    method AppendFields(hs: seq<Header>, output: Bytes)
        returns (out: Bytes, v: Verdict, ghost ls: seq<Lookup>, ghost body: Bytes)
      requires Valid() && forall i | 0 <= i < |hs| :: FieldFits(coder, hs[i])
      modifies context, context.buffer
      ensures v.Done? ==> Valid() && out == output + body
      ensures LookupsSound(context.statics, old(context.View()), hs, ls)
      ensures EncodeFields(coder, mode, old(context.View()), hs, ls) ==
              Judged(v, body, if v.Done? then context.View() else old(context.View()))
      ensures v.Refused? ==> Valid()
      ensures v.Broken? ==> context.numElements > context.buffer.Length
    {
      out, v, ls, body := output, Done, [], [];
      ghost var t := context.View();
      var i := 0;
      while i < |hs| && v.Done?
        invariant 0 <= i <= |hs|
        invariant v.Done? ==>
                    && Valid() && out == output + body
                    && Encodes(coder, context.statics, mode, t, hs[..i], ls, body, context.View())
        invariant !v.Done? ==>
                    && LookupsSound(context.statics, t, hs, ls)
                    && EncodeFields(coder, mode, t, hs, ls) == Judged(v, [], t)
        invariant v.Refused? ==> Valid()
        invariant v.Broken? ==> context.numElements > context.buffer.Length
        invariant context.buffer == old(context.buffer) || fresh(context.buffer)
      {
        out, v, ls, body := AppendNext(hs, i, out, output, t, ls, body);
        i := i + 1;
      }
      assert hs[..|hs|] == hs;
    }

    /**
     * Appends a header block. `ls` are the searches made. The block is refused, or breaks the
     * table, exactly when its encoding with these searches is an error or loses an insertion.
     */
    method EncodeHeaderBlock(hs: seq<Header>, output: Bytes)
        returns (out: Bytes, v: Verdict, ghost ls: seq<Lookup>, ghost block: Bytes)
      requires Valid() && forall h | h in hs :: FieldFits(coder, h)
      modifies this`updatePending, this`smallest, this`latest, context, context.buffer
      ensures v.Done? ==> Valid() && Updates() == NoUpdate && out == output + block
      ensures BlockSound(coder, context.statics, old(context.View()), old(Updates()), hs, ls)
      ensures EncodeBlock(coder, mode, old(context.View()), old(Updates()), hs, ls) ==
              Judged(v, block, if v.Done? then context.View() else old(context.View()))
      ensures v.Refused? ==> Valid()
      ensures v.Broken? ==> context.numElements > context.buffer.Length
    {
      hide EncodeFields, EncodeResizes, Announced;
      ghost var body;
      var ok;
      ls, block := Padded([], |hs|), [];
      ghost var head := EncodeResizes(context.View(), Announced(Updates()));
      out, ok := AppendUpdates(output);
      if !ok {
        v := Refused;
        return;
      }
      out, v, ls, body := AppendFields(hs, out);
      block := head.bytes + body;
      assert output + block == (output + head.bytes) + body;
    }
  }

  lemma EncodedLength(c: Coder, statics: seq<Header>, mode: HuffmanMode, t: Table, hs: seq<Header>, ls: seq<Lookup>,
                      body: Bytes, now: Table)
    requires Encodes(c, statics, mode, t, hs, ls, body, now)
    ensures |ls| == |hs|
  {
    hide EncodeFields;
  }

  lemma ResizeOne(t: Table, n: nat)
    ensures EncodeResizes(t, [n]) ==
            match Resize(t, n) case None => EncodeError case Some(t') => Encoded(ResizeBytes(n), t')
  {
    assert [n][1..] == [];
    assert ResizeBytes(n) + [] == ResizeBytes(n);
  }

  lemma ResizeTwo(t: Table, m: nat, n: nat)
    ensures EncodeResizes(t, [m, n]) ==
            match Resize(t, m) case None => EncodeError case Some(t') => Prepend(ResizeBytes(m), EncodeResizes(t', [n]))
  {
    assert [m, n][1..] == [n];
  }
}
