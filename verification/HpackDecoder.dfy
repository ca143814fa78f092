/**
 * The resumable HPACK decoder: strings, entries and whole header blocks, each
 * as a function of the bytes received so far and, beside it, as the loop that
 * consumes one input buffer. Splitting the input never changes the outcome.
 */
module HpackDecoder {
  import opened Octets
  import opened HpackInteger
  import opened HpackTable

  // ----- Huffman coding, as an abstract incremental coder

  /** `step` is the decoder's reaction to one byte; `None` is a decoding error or the end-of-string symbol. */
  datatype Coder = Coder(start: nat, step: (nat, byte) -> Option<(nat, Bytes)>, encode: Bytes -> Bytes)

  function HuffmanRun(c: Coder, state: nat, s: Bytes): Option<(nat, Bytes)>
    decreases |s|
  {
    if s == [] then Some((state, []))
    else match c.step(state, s[0])
         case None => None
         case Some((next, out)) =>
           match HuffmanRun(c, next, s[1..])
           case None => None
           case Some((last, more)) => Some((last, out + more))
  }

  ghost predicate CoderCorrect(c: Coder) {
    forall s: Bytes :: HuffmanRun(c, c.start, c.encode(s)).Some? && HuffmanRun(c, c.start, c.encode(s)).value.1 == s
  }

  lemma {:induction false} HuffmanSplit(c: Coder, state: nat, a: Bytes, b: Bytes)
    ensures HuffmanRun(c, state, a + b) ==
            match HuffmanRun(c, state, a)
            case None => None
            case Some((mid, out)) =>
              match HuffmanRun(c, mid, b)
              case None => None
              case Some((last, more)) => Some((last, out + more))
    decreases |a|
  {
    if a == [] {
      assert a + b == b;
      if HuffmanRun(c, state, b).Some? {
        assert [] + HuffmanRun(c, state, b).value.1 == HuffmanRun(c, state, b).value.1;
      }
    } else {
      assert (a + b)[0] == a[0] && (a + b)[1..] == a[1..] + b;
      match c.step(state, a[0]) {
        case None =>
        case Some((next, out)) =>
          HuffmanSplit(c, next, a[1..], b);
          var first := HuffmanRun(c, next, a[1..]);
          if first.Some? && HuffmanRun(c, first.value.0, b).Some? {
            var more := HuffmanRun(c, first.value.0, b).value.1;
            assert out + (first.value.1 + more) == (out + first.value.1) + more;
          }
      }
    }
  }

  // ----- strings

  datatype StrProgress =
    | StrInit
    | StrLength(huffman: bool, progress: IntProgress)
    | StrValue(huffman: bool, left: nat, state: nat)

  datatype StrResult = StrOngoing(progress: StrProgress, out: Bytes) | StrComplete(out: Bytes, rest: Bytes) | StrFail

  /** What a piece of a string's body becomes: itself, or its Huffman decoding. */
  function Unpack(c: Coder, huffman: bool, state: nat, s: Bytes): Option<(nat, Bytes)> {
    if huffman then HuffmanRun(c, state, s) else Some((state, s))
  }

  lemma UnpackSplit(c: Coder, huffman: bool, state: nat, a: Bytes, b: Bytes)
    ensures Unpack(c, huffman, state, a + b) ==
            match Unpack(c, huffman, state, a)
            case None => None
            case Some((mid, out)) =>
              match Unpack(c, huffman, mid, b)
              case None => None
              case Some((last, more)) => Some((last, out + more))
  {
    if huffman {
      HuffmanSplit(c, state, a, b);
    }
  }

  /** Takes as much of the string as `s` holds; `out` is the buffer being appended to. */
  function DecodeValue(c: Coder, huffman: bool, left: nat, state: nat, out: Bytes, s: Bytes): (r: StrResult)
    requires left > 0
    ensures r.StrComplete? ==> |r.rest| <= |s|
    ensures r.StrOngoing? ==> r.progress.StrValue? && r.progress.left > 0
  {
    if left <= |s| then
      match Unpack(c, huffman, state, s[..left])
      case None => StrFail
      case Some((_, more)) => StrComplete(out + more, s[left..])
    else
      match Unpack(c, huffman, state, s)
      case None => StrFail
      case Some((next, more)) => StrOngoing(StrValue(huffman, left - |s|, next), out + more)
  }

  function DecodeString(c: Coder, p: StrProgress, out: Bytes, s: Bytes): (r: StrResult)
    requires StrValid(p)
    ensures r.StrComplete? ==> |r.rest| <= |s| && (s != [] ==> |r.rest| < |s|)
    ensures r.StrOngoing? ==> StrValid(r.progress)
  {
    if s == [] then StrOngoing(p, out)
    else match p
         case StrInit => DecodeLength(c, s[0] >= 128, IntInit, out, s)
         case StrLength(huffman, q) => DecodeLength(c, huffman, q, out, s)
         case StrValue(huffman, left, state) => DecodeValue(c, huffman, left, state, out, s)
  }

  /** A string in its value state always has bytes left to take. */
  predicate StrValid(p: StrProgress) {
    p.StrValue? ==> p.left > 0
  }

  function DecodeLength(c: Coder, huffman: bool, q: IntProgress, out: Bytes, s: Bytes): (r: StrResult)
    ensures r.StrComplete? ==> |r.rest| < |s|
    ensures r.StrOngoing? ==> StrValid(r.progress)
  {
    match DecodeInteger(7, q, s)
    case IntFail => StrFail
    case IntOngoing(q') => StrOngoing(StrLength(huffman, q'), out)
    case IntComplete(length, rest) =>
      if length == 0 then StrComplete(out, rest)
      else DecodeValue(c, huffman, length, c.start, out, rest)
  }

  /** The continuation of a string decode on further input. */
  function ResumeString(c: Coder, r: StrResult, b: Bytes): StrResult
    requires r.StrOngoing? ==> StrValid(r.progress)
  {
    match r
    case StrOngoing(q, out) => DecodeString(c, q, out, b)
    case StrComplete(out, rest) => StrComplete(out, rest + b)
    case StrFail => StrFail
  }

  lemma ValueSplit(c: Coder, huffman: bool, left: nat, state: nat, out: Bytes, a: Bytes, b: Bytes)
    requires left > 0
    ensures DecodeValue(c, huffman, left, state, out, a + b) ==
            ResumeString(c, DecodeValue(c, huffman, left, state, out, a), b)
  {
    if left <= |a| {
      assert (a + b)[..left] == a[..left] && (a + b)[left..] == a[left..] + b;
    } else if b == [] {
      assert a + b == a;
    } else {
      ValueContinues(c, huffman, left, state, out, a, b);
    }
  }

  lemma ValueContinues(c: Coder, huffman: bool, left: nat, state: nat, out: Bytes, a: Bytes, b: Bytes)
    requires left > |a| && b != []
    ensures DecodeValue(c, huffman, left, state, out, a + b) ==
            ResumeString(c, DecodeValue(c, huffman, left, state, out, a), b)
  {
    var k := left - |a|;
    var piece := if k <= |b| then b[..k] else b;
    UnpackSplit(c, huffman, state, a, piece);
    if k <= |b| {
      assert (a + b)[..left] == a + piece && (a + b)[left..] == b[k..];
    }
    var first := Unpack(c, huffman, state, a);
    if first.Some? {
      var then' := Unpack(c, huffman, first.value.0, piece);
      if then'.Some? {
        assert (out + first.value.1) + then'.value.1 == out + (first.value.1 + then'.value.1);
      }
    }
  }

  lemma StringSplit(c: Coder, p: StrProgress, out: Bytes, a: Bytes, b: Bytes)
    requires StrValid(p)
    ensures DecodeString(c, p, out, a + b) == ResumeString(c, DecodeString(c, p, out, a), b)
  {
    if a == [] {
      assert a + b == b;
    } else if b == [] {
      assert a + b == a;
      assert forall rest: Bytes :: rest + [] == rest;
    } else {
      assert (a + b)[0] == a[0];
      match p {
        case StrInit => LengthSplit(c, a[0] >= 128, IntInit, out, a, b);
        case StrLength(huffman, q) => LengthSplit(c, huffman, q, out, a, b);
        case StrValue(huffman, left, state) => ValueSplit(c, huffman, left, state, out, a, b);
      }
    }
  }

  lemma LengthSplit(c: Coder, huffman: bool, q: IntProgress, out: Bytes, a: Bytes, b: Bytes)
    requires b != []
    ensures DecodeLength(c, huffman, q, out, a + b) == ResumeString(c, DecodeLength(c, huffman, q, out, a), b)
  {
    IntegerSplit(7, q, a, b);
    match DecodeInteger(7, q, a) {
      case IntFail =>
      case IntOngoing(q') =>
      case IntComplete(length, rest) =>
        if length > 0 {
          ValueSplit(c, huffman, length, c.start, out, rest, b);
        }
    }
  }

  // ----- entries

  datatype EntryState =
    | EntryInit
    | EntryIndexed(index: IntProgress)
    | EntryLiteral(mode: Compression, nameIndex: IntProgress)
    | EntryName(mode: Compression, name: StrProgress, scratch: Bytes)
    | EntryValue(mode: Compression, nameLength: nat, value: StrProgress, scratch: Bytes)
    | EntryResize(size: IntProgress)

  /** What outlives an entry: the table, and the largest size update the protocol admits. */
  datatype Core = Core(table: Table, limit: nat)

  datatype Decoder = Decoder(core: Core, entry: EntryState)

  predicate EntryValid(e: EntryState) {
    match e
    case EntryName(_, sp, _) => StrValid(sp)
    case EntryValue(_, nameLength, sp, scratch) => StrValid(sp) && nameLength <= |scratch|
    case _ => true
  }

  datatype Event = Field(header: Header) | Resized(size: nat)

  /** `Lost` is the insertion that the ring buffer cannot represent. */
  datatype EntryResult =
    | Ongoing(decoder: Decoder)
    | Complete(decoder: Decoder, event: Event, rest: Bytes)
    | Fail
    | Lost

  function LiteralPrefix(mode: Compression): nat {
    if mode.UseCache? then 6 else 4
  }

  /** The state an entry starts in, from the leading bits of its first byte. */
  function Begin(b: byte): EntryState {
    if b >= 128 then EntryIndexed(IntInit)
    else if b >= 64 then EntryLiteral(UseCache, IntInit)
    else if b >= 32 then EntryResize(IntInit)
    else if b >= 16 then EntryLiteral(NoForwardCache, IntInit)
    else EntryLiteral(NoCache, IntInit)
  }

  function DecodeEntry(c: Coder, statics: seq<Header>, d: Decoder, s: Bytes): (r: EntryResult)
    requires EntryValid(d.entry)
    ensures r.Ongoing? ==> EntryValid(r.decoder.entry)
    ensures r.Complete? ==> r.decoder.entry == EntryInit && |r.rest| < |s|
  {
    if s == [] then Ongoing(d)
    else
      match if d.entry.EntryInit? then Begin(s[0]) else d.entry
      case EntryInit => Fail // not a result of Begin
      case EntryIndexed(p) => DecodeIndexed(statics, d.core, p, s)
      case EntryLiteral(mode, p) => DecodeLiteral(c, statics, d.core, mode, p, s)
      case EntryName(mode, sp, scratch) => DecodeName(c, d.core, mode, sp, scratch, s)
      case EntryValue(mode, nameLength, sp, scratch) => DecodeFieldValue(c, d.core, mode, nameLength, sp, scratch, s)
      case EntryResize(p) => DecodeResize(d.core, p, s)
  }

  function DecodeIndexed(statics: seq<Header>, k: Core, p: IntProgress, s: Bytes): (r: EntryResult)
    ensures r.Complete? ==> |r.rest| < |s|
  {
    match DecodeInteger(7, p, s)
    case IntFail => Fail
    case IntOngoing(q) => Ongoing(Decoder(k, EntryIndexed(q)))
    case IntComplete(index, rest) =>
      match GetHeader(statics, k.table, index)
      case None => Fail
      case Some(h) => Complete(Decoder(k, EntryInit), Field(h), rest)
  }

  function DecodeResize(k: Core, p: IntProgress, s: Bytes): (r: EntryResult)
    ensures r.Complete? ==> |r.rest| < |s|
  {
    match DecodeInteger(5, p, s)
    case IntFail => Fail
    case IntOngoing(q) => Ongoing(Decoder(k, EntryResize(q)))
    case IntComplete(size, rest) =>
      if size > k.limit then Fail
      else match Resize(k.table, size)
           case None => Fail
           case Some(t) => Complete(Decoder(k.(table := t), EntryInit), Resized(size), rest)
  }

  function DecodeLiteral(c: Coder, statics: seq<Header>, k: Core, mode: Compression, p: IntProgress,
                         s: Bytes): (r: EntryResult)
    ensures r.Ongoing? ==> EntryValid(r.decoder.entry)
    ensures r.Complete? ==> |r.rest| < |s|
  {
    match DecodeInteger(LiteralPrefix(mode), p, s)
    case IntFail => Fail
    case IntOngoing(q) => Ongoing(Decoder(k, EntryLiteral(mode, q)))
    case IntComplete(index, rest) =>
      if index == 0 then DecodeName(c, k, mode, StrInit, [], rest)
      else match GetHeader(statics, k.table, index)
           case None => Fail
           case Some(h) => DecodeFieldValue(c, k, mode, |h.name|, StrInit, h.name, rest)
  }

  function DecodeName(c: Coder, k: Core, mode: Compression, sp: StrProgress, scratch: Bytes, s: Bytes): (r: EntryResult)
    requires StrValid(sp)
    ensures r.Ongoing? ==> EntryValid(r.decoder.entry)
    ensures r.Complete? ==> |r.rest| <= |s|
  {
    match DecodeString(c, sp, scratch, s)
    case StrFail => Fail
    case StrOngoing(q, out) => Ongoing(Decoder(k, EntryName(mode, q, out)))
    case StrComplete(out, rest) => DecodeFieldValue(c, k, mode, |out|, StrInit, out, rest)
  }

  function DecodeFieldValue(c: Coder, k: Core, mode: Compression, nameLength: nat, sp: StrProgress, scratch: Bytes,
                            s: Bytes): (r: EntryResult)
    requires StrValid(sp) && nameLength <= |scratch|
    ensures r.Ongoing? ==> EntryValid(r.decoder.entry)
    ensures r.Complete? ==> |r.rest| <= |s|
  {
    StringAppends(c, sp, scratch, s);
    match DecodeString(c, sp, scratch, s)
    case StrFail => Fail
    case StrOngoing(q, out) => Ongoing(Decoder(k, EntryValue(mode, nameLength, q, out)))
    case StrComplete(out, rest) =>
      DeliverField(k, Header(out[..nameLength], out[nameLength..], mode), rest)
  }

  /** A complete literal: saved to the table when its kind asks for it, then reported. */
  function DeliverField(k: Core, h: Header, rest: Bytes): EntryResult {
    if !h.compression.UseCache? then Complete(Decoder(k, EntryInit), Field(h), rest)
    else match Insert(k.table, h)
         case TooLarge => Fail
         case Stranded => Lost
         case Inserted(t) => Complete(Decoder(k.(table := t), EntryInit), Field(h), rest)
  }

  /** Decoding a string only appends to its buffer. */
  lemma StringAppends(c: Coder, p: StrProgress, out: Bytes, s: Bytes)
    requires StrValid(p)
    ensures var r := DecodeString(c, p, out, s); !r.StrFail? ==> |out| <= |r.out|
  {
  }

  // ----- any division of the input of an entry

  function ResumeEntry(c: Coder, statics: seq<Header>, r: EntryResult, b: Bytes): EntryResult
    requires r.Ongoing? ==> EntryValid(r.decoder.entry)
  {
    match r
    case Ongoing(d) => DecodeEntry(c, statics, d, b)
    case Complete(d, e, rest) => Complete(d, e, rest + b)
    case Fail => Fail
    case Lost => Lost
  }

  lemma FieldValueSplit(c: Coder, statics: seq<Header>, k: Core, mode: Compression, nameLength: nat, sp: StrProgress,
                        scratch: Bytes, a: Bytes, b: Bytes)
    requires StrValid(sp) && nameLength <= |scratch| && b != []
    ensures DecodeFieldValue(c, k, mode, nameLength, sp, scratch, a + b) ==
            ResumeEntry(c, statics, DecodeFieldValue(c, k, mode, nameLength, sp, scratch, a), b)
  {
    hide DecodeString, Insert;
    StringSplit(c, sp, scratch, a, b);
    StringAppends(c, sp, scratch, a);
  }

  lemma NameSplit(c: Coder, statics: seq<Header>, k: Core, mode: Compression, sp: StrProgress, scratch: Bytes,
                  a: Bytes, b: Bytes)
    requires StrValid(sp) && b != []
    ensures DecodeName(c, k, mode, sp, scratch, a + b) ==
            ResumeEntry(c, statics, DecodeName(c, k, mode, sp, scratch, a), b)
  {
    hide DecodeString, DecodeFieldValue, DecodeLiteral, DecodeIndexed, DecodeResize;
    StringSplit(c, sp, scratch, a, b);
    match DecodeString(c, sp, scratch, a) {
      case StrFail =>
      case StrOngoing(q, out) =>
      case StrComplete(out, rest) => FieldValueSplit(c, statics, k, mode, |out|, StrInit, out, rest, b);
    }
  }

  lemma LiteralSplit(c: Coder, statics: seq<Header>, k: Core, mode: Compression, p: IntProgress, a: Bytes, b: Bytes)
    requires b != []
    ensures DecodeLiteral(c, statics, k, mode, p, a + b) ==
            ResumeEntry(c, statics, DecodeLiteral(c, statics, k, mode, p, a), b)
  {
    hide DecodeInteger, DecodeFieldValue, DecodeName, DecodeIndexed, DecodeResize;
    IntegerSplit(LiteralPrefix(mode), p, a, b);
    match DecodeInteger(LiteralPrefix(mode), p, a) {
      case IntFail =>
      case IntOngoing(q) =>
      case IntComplete(index, rest) =>
        if index == 0 {
          NameSplit(c, statics, k, mode, StrInit, [], rest, b);
        } else if GetHeader(statics, k.table, index).Some? {
          var name := GetHeader(statics, k.table, index).value.name;
          FieldValueSplit(c, statics, k, mode, |name|, StrInit, name, rest, b);
        }
    }
  }

  lemma EntrySplit(c: Coder, statics: seq<Header>, d: Decoder, a: Bytes, b: Bytes)
    requires EntryValid(d.entry)
    ensures DecodeEntry(c, statics, d, a + b) == ResumeEntry(c, statics, DecodeEntry(c, statics, d, a), b)
  {
    if a == [] {
      assert a + b == b;
    } else if b == [] {
      assert a + b == a;
      assert forall rest: Bytes :: rest + [] == rest;
    } else {
      assert (a + b)[0] == a[0];
      match if d.entry.EntryInit? then Begin(a[0]) else d.entry {
        case EntryInit =>
        case EntryIndexed(p) => IntegerSplit(7, p, a, b);
        case EntryResize(p) => IntegerSplit(5, p, a, b);
        case EntryLiteral(mode, p) => LiteralSplit(c, statics, d.core, mode, p, a, b);
        case EntryName(mode, sp, scratch) => NameSplit(c, statics, d.core, mode, sp, scratch, a, b);
        case EntryValue(mode, n, sp, scratch) => FieldValueSplit(c, statics, d.core, mode, n, sp, scratch, a, b);
      }
    }
  }

  // ----- runs: every entry in a stretch of input

  datatype End = Alive(decoder: Decoder) | Dead | Stray

  /** The events delivered, in order, and how the run ended: alive, refused, or past a lost insertion. */
  datatype Run = Run(events: seq<Event>, end: End)

  function DecodeAll(c: Coder, statics: seq<Header>, d: Decoder, s: Bytes): (r: Run)
    requires EntryValid(d.entry)
    ensures r.end.Alive? ==> EntryValid(r.end.decoder.entry)
    decreases |s|
  {
    match DecodeEntry(c, statics, d, s)
    case Ongoing(d') => Run([], Alive(d'))
    case Fail => Run([], Dead)
    case Lost => Run([], Stray)
    case Complete(d', e, rest) =>
      var more := DecodeAll(c, statics, d', rest);
      Run([e] + more.events, more.end)
  }

  function ResumeRun(c: Coder, statics: seq<Header>, r: Run, b: Bytes): (out: Run)
    requires r.end.Alive? ==> EntryValid(r.end.decoder.entry)
    ensures out.end.Alive? ==> EntryValid(out.end.decoder.entry)
  {
    if r.end.Alive? then
      var more := DecodeAll(c, statics, r.end.decoder, b);
      Run(r.events + more.events, more.end)
    else r
  }

  lemma {:induction false} RunSplit(c: Coder, statics: seq<Header>, d: Decoder, a: Bytes, b: Bytes)
    requires EntryValid(d.entry)
    ensures DecodeAll(c, statics, d, a + b) == ResumeRun(c, statics, DecodeAll(c, statics, d, a), b)
    decreases |a|
  {
    EntrySplit(c, statics, d, a, b);
    match DecodeEntry(c, statics, d, a) {
      case Fail =>
      case Lost =>
      case Ongoing(d') =>
        var more := DecodeAll(c, statics, d', b);
        assert [] + more.events == more.events;
      case Complete(d', e, rest) =>
        RunSplit(c, statics, d', rest, b);
        var first := DecodeAll(c, statics, d', rest);
        if first.end.Alive? {
          var more := DecodeAll(c, statics, first.end.decoder, b);
          assert [e] + (first.events + more.events) == ([e] + first.events) + more.events;
        }
    }
  }

  /** The input arriving as a sequence of buffers. */
  function DecodeChunks(c: Coder, statics: seq<Header>, r: Run, chunks: seq<Bytes>): (out: Run)
    requires r.end.Alive? ==> EntryValid(r.end.decoder.entry)
    decreases |chunks|
  {
    if chunks == [] then r else DecodeChunks(c, statics, ResumeRun(c, statics, r, chunks[0]), chunks[1..])
  }

  lemma ResumeTwice(c: Coder, statics: seq<Header>, r: Run, a: Bytes, b: Bytes)
    requires r.end.Alive? ==> EntryValid(r.end.decoder.entry)
    ensures ResumeRun(c, statics, ResumeRun(c, statics, r, a), b) == ResumeRun(c, statics, r, a + b)
  {
    hide DecodeAll;
    if r.end.Alive? {
      RunSplit(c, statics, r.end.decoder, a, b);
      var first := DecodeAll(c, statics, r.end.decoder, a);
      if first.end.Alive? {
        var more := DecodeAll(c, statics, first.end.decoder, b);
        assert r.events + (first.events + more.events) == (r.events + first.events) + more.events;
      }
    }
  }

  lemma ResumeEmpty(c: Coder, statics: seq<Header>, r: Run)
    requires r.end.Alive? ==> EntryValid(r.end.decoder.entry)
    ensures ResumeRun(c, statics, r, []) == r
  {
    assert r.events + [] == r.events;
  }

  /** However the input is divided, the events, the first error and the final state are those of one undivided call. */
  lemma {:induction false} SplitInvariance(c: Coder, statics: seq<Header>, r: Run, chunks: seq<Bytes>)
    requires r.end.Alive? ==> EntryValid(r.end.decoder.entry)
    ensures DecodeChunks(c, statics, r, chunks) == ResumeRun(c, statics, r, Flatten(chunks))
    decreases |chunks|
  {
    if chunks == [] {
      ResumeEmpty(c, statics, r);
    } else {
      SplitInvariance(c, statics, ResumeRun(c, statics, r, chunks[0]), chunks[1..]);
      ResumeTwice(c, statics, r, chunks[0], Flatten(chunks[1..]));
    }
  }
}
