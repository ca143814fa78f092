/**
 * The HTTP/2 objects at work from end to end: what an encoder writes to any
 * sequence of output buffers, and a decoder is given in parts of any sizes.
 */
module H2Exchange {
  import opened Octets
  import opened HpackTable
  import opened H2Decoder
  import opened H2Frames
  import opened H2Headers
  import opened H2Codec
  import Hpack = HpackDecoder
  import HpackEncoder
  import HpackCodec

  // ----- input in parts

  /** Gives the decoder one part after the other, up to an error; it ends where the parts together would take it. */
  method Feed(dec: FrameDecoder, first: Bytes, parts: seq<Bytes>) returns (error: Option<Error>, log: seq<Event>)
    requires dec.Ok() && Valid(dec.View()) && !dec.failed
    modifies dec, dec.scratch
    ensures dec.Ok() && dec.scratch == old(dec.scratch)
    ensures var r := H2Decoder.Decode(dec.su, old(dec.View()), first + Flatten(parts));
            && log == r.log
            && (r.end.Ready? ==> error == None && !dec.failed && dec.View() == r.end.d && Valid(dec.View()))
            && (r.end.Failed? ==> error == Some(r.end.error) && dec.failed)
  {
    hide H2Decoder.Decode, Valid, Flatten;
    ghost var d := dec.View();
    error, log := dec.Decode(first);
    ghost var soFar := first;
    assert parts[..0] == [] && parts[0..] == parts;
    NothingMore(first);
    var i := 0;
    while i < |parts| && error == None
      invariant 0 <= i <= |parts| && dec.Ok() && dec.scratch == old(dec.scratch)
      invariant soFar + Flatten(parts[i..]) == first + Flatten(parts)
      invariant error == None ==>
                  && !dec.failed && Valid(dec.View())
                  && H2Decoder.Decode(dec.su, d, soFar) == Run(log, Ready(dec.View()))
      invariant error.Some? ==> dec.failed && H2Decoder.Decode(dec.su, d, soFar) == Run(log, Failed(error.value))
    {
      ghost var d1, log1 := dec.View(), log;
      DecodeSplit(dec.su, d, soFar, parts[i]);
      NextPart(soFar, parts, i);
      var more;
      error, more := dec.Decode(parts[i]);
      log := log + more;
      soFar := soFar + parts[i];
      i := i + 1;
    }
    DecodeSplit(dec.su, d, soFar, Flatten(parts[i..]));
    assert error == None ==> parts[i..] == [] && soFar + [] == soFar;
    if error == None {
      NothingMore(soFar);
    }
  }

  lemma NothingMore(s: Bytes)
    ensures s + Flatten([]) == s
  {
  }

  lemma NextPart(s: Bytes, parts: seq<Bytes>, i: nat)
    requires i < |parts|
    ensures s + Flatten(parts[i..]) == (s + parts[i]) + Flatten(parts[i + 1..])
  {
    assert parts[i..][1..] == parts[i + 1..];
    assert s + (parts[i] + Flatten(parts[i + 1..])) == (s + parts[i]) + Flatten(parts[i + 1..]);
  }

  /** Some bytes cut into parts of these sizes, as far as they go, and a last one with the rest. */
  function Cut(s: Bytes, sizes: seq<nat>): (parts: seq<Bytes>)
    ensures Flatten(parts) == s
    decreases |sizes|
  {
    if sizes == [] || |s| < sizes[0] then
      assert [s][1..] == [] && s + [] == s;
      [s]
    else
      var parts := Cut(s[sizes[0]..], sizes[1..]);
      assert ([s[..sizes[0]]] + parts)[1..] == parts && s[..sizes[0]] + s[sizes[0]..] == s;
      [s[..sizes[0]]] + parts
  }

  // ----- frames

  /** Between frames the decoder waits. */
  lemma IdleWaits(su: Setup, d: Decoder)
    requires Idle(d)
    ensures H2Decoder.Decode(su, d, []) == Run([], Ready(d))
  {
    assert d.scratch + [] == d.scratch;
    assert Step(su, d, []) == Wait(d, []);
  }

  function EncodeFrames(fs: seq<OutFrame>): Bytes {
    if fs == [] then [] else H2Frames.Encode(fs[0]) + EncodeFrames(fs[1..])
  }

  /** Each frame may be sent to the decoder that the frames before it leave. */
  ghost predicate Receivable(d: Decoder, fs: seq<OutFrame>)
    decreases |fs|
  {
    fs != [] ==>
      && InBounds(fs[0]) && |Payload(fs[0])| <= d.limits.maxFrame && (fs[0].OutSettingsAck? ==> d.upcoming != [])
      && Receivable(After(d, fs[0]), fs[1..])
  }

  ghost function AfterAll(d: Decoder, fs: seq<OutFrame>): Decoder
    requires Receivable(d, fs)
    decreases |fs|
  {
    if fs == [] then d else AfterAll(After(d, fs[0]), fs[1..])
  }

  function ReportAll(fs: seq<OutFrame>): seq<Event> {
    if fs == [] then [] else Report(fs[0]) + ReportAll(fs[1..])
  }

  lemma {:induction false} FramesRun(su: Setup, d: Decoder, fs: seq<OutFrame>)
    requires Idle(d) && Receivable(d, fs)
    ensures Idle(AfterAll(d, fs))
    ensures H2Decoder.Decode(su, d, EncodeFrames(fs)) == Run(ReportAll(fs), Ready(AfterAll(d, fs)))
    decreases |fs|
  {
    hide H2Decoder.Decode, Idle, InBounds, H2Frames.Encode, After, Report, Payload;
    if fs == [] {
      IdleWaits(su, d);
    } else {
      FrameRoundTrip(su, d, fs[0], EncodeFrames(fs[1..]));
      FramesRun(su, After(d, fs[0]), fs[1..]);
    }
  }

  /** Frames sent one after the other, arriving in parts of any sizes, are reported one after the other. */
  lemma FramesArrive(su: Setup, d: Decoder, fs: seq<OutFrame>, first: Bytes, parts: seq<Bytes>)
    requires Idle(d) && Receivable(d, fs) && first + Flatten(parts) == EncodeFrames(fs)
    ensures DecodeChunks(su, H2Decoder.Decode(su, d, first), parts) == Run(ReportAll(fs), Ready(AfterAll(d, fs)))
    ensures Idle(AfterAll(d, fs))
  {
    hide H2Decoder.Decode, DecodeChunks, EncodeFrames, ReportAll, Receivable, AfterAll;
    SplitInvariance(su, d, first, parts);
    FramesRun(su, d, fs);
  }

  /**
   * A frame copied to any sequence of output buffers and delivered in parts of any
   * sizes: it is complete if the buffers are large enough together, and then the
   * decoder reports exactly the frame and is between frames again.
   */
  method ExchangeFrame(dec: FrameDecoder, f: OutFrame, spaces: seq<nat>, sizes: seq<nat>)
    returns (complete: bool, log: seq<Event>)
    requires dec.Ok() && Idle(dec.View()) && !dec.failed
    requires InBounds(f) && |Payload(f)| <= dec.limits.maxFrame && (f.OutSettingsAck? ==> dec.upcoming != [])
    modifies dec, dec.scratch
    ensures complete <==> |H2Frames.Encode(f)| <= Total(spaces)
    ensures complete ==>
              dec.Ok() && !dec.failed && dec.View() == After(old(dec.View()), f) && Idle(dec.View()) && log == Report(f)
  {
    hide H2Decoder.Decode, InBounds, H2Frames.Encode, Payload, Total, Report;
    var out := new PrebuiltFrame(f);
    var chunks;
    chunks, complete := out.WriteAll(spaces);
    log := [];
    if complete {
      ghost var d := dec.View();
      var bytes := Join(chunks);
      assert bytes + [] == bytes;
      FrameRoundTrip(dec.su, d, f, []);
      IdleWaits(dec.su, After(d, f));
      assert Report(f) + [] == Report(f);
      assert [] + Flatten(Cut(bytes, sizes)) == bytes;
      var error;
      error, log := Feed(dec, [], Cut(bytes, sizes));
    }
  }

  /** The contents of a sequence of buffers. */
  method Join(buffers: seq<Bytes>) returns (all: Bytes)
    ensures all == Flatten(buffers)
  {
    all := [];
    assert buffers[0..] == buffers;
    for i := 0 to |buffers|
      invariant all + Flatten(buffers[i..]) == Flatten(buffers)
    {
      NextPart(all, buffers, i);
      all := all + buffers[i];
    }
    assert buffers[|buffers|..] == [];
    NothingMore(all);
  }

  // ----- header lists

  /** Encoder and decoder of one direction: same coding, same tables, and no block in progress. */
  ghost predicate InStep(enc: HpackCodec.HeaderEncoder, dec: FrameDecoder)
    reads enc, enc.context, enc.context.buffer, dec, dec.scratch
  {
    && enc.Valid() && dec.Ok() && !dec.failed && Idle(dec.View()) && dec.hpack.entry == Hpack.EntryInit
    && enc.coder == dec.su.coder && enc.context.statics == dec.su.statics && Hpack.CoderCorrect(dec.su.coder)
    && dec.hpack.core.table == enc.context.View() && HpackEncoder.Shared(dec.su.statics, enc.context.View())
  }

  /** The decoder with another dynamic table. */
  function WithTable(d: Decoder, t: Table): Decoder {
    d.(hpack := Hpack.Decoder(d.hpack.core.(table := t), Hpack.EntryInit))
  }

  /** A list encoded with some searches, in any fragments it is divided into, in parts of any sizes. */
  lemma ListArrives(su: Setup, d: Decoder, h: Head, mode: HpackEncoder.HuffmanMode, p: HpackEncoder.Pending,
                    hs: seq<Header>, ls: seq<HpackEncoder.Lookup>, spaces: seq<nat>, first: Bytes, parts: seq<Bytes>)
    requires Idle(d) && d.hpack.entry == Hpack.EntryInit && d.limits.maxFrame <= PAYLOAD_MAX
    requires ValidHead(h)
    requires Hpack.CoderCorrect(su.coder) && HpackEncoder.Shared(su.statics, d.hpack.core.table)
    requires HpackEncoder.BlockSound(su.coder, su.statics, d.hpack.core.table, p, hs, ls)
    requires forall n | n in HpackEncoder.Announced(p) :: n <= d.hpack.core.limit
    requires HpackEncoder.EncodeBlock(su.coder, mode, d.hpack.core.table, p, hs, ls).Encoded?
    requires var block := HpackEncoder.EncodeBlock(su.coder, mode, d.hpack.core.table, p, hs, ls).bytes;
             var (end, fragments) := FillAll(h, Progress(true, block, false), spaces, d.limits.maxFrame);
             end.done && first + Flatten(parts) == Wire(h, true, fragments, true)
    ensures var t := HpackEncoder.EncodeBlock(su.coder, mode, d.hpack.core.table, p, hs, ls).table;
            && Idle(WithTable(d, t)) && HpackEncoder.Shared(su.statics, t)
            && DecodeChunks(su, H2Decoder.Decode(su, d, first), parts) ==
               if Welcome(su.isServer, d.limits.enablePush, h) then
                 Run(BlockReport(su.isServer, h, hs), Ready(WithTable(d, t)))
               else Run([], Failed(ProtocolError))
  {
    hide H2Decoder.Decode, DecodeChunks, Wire, FillAll, HpackEncoder.EncodeBlock, HpackEncoder.Shared,
         BlockReport, Flatten;
    var e := HpackEncoder.EncodeBlock(su.coder, mode, d.hpack.core.table, p, hs, ls);
    var fragments := FillAll(h, Progress(true, e.bytes, false), spaces, d.limits.maxFrame).1;
    var wire := Wire(h, true, fragments, true);
    assert wire + [] == wire;
    HeaderListExactly(su, d, h, mode, p, hs, ls, spaces, []);
    SharedAfter(su, d.hpack.core, mode, p, hs, ls);
    IdleWaits(su, WithTable(d, e.table));
    var report := BlockReport(su.isServer, h, hs);
    assert report + [] == report;
    SplitInvariance(su, d, first, parts);
  }

  lemma SharedAfter(su: Setup, k: Hpack.Core, mode: HpackEncoder.HuffmanMode, p: HpackEncoder.Pending,
                    hs: seq<Header>, ls: seq<HpackEncoder.Lookup>)
    requires Hpack.CoderCorrect(su.coder) && HpackEncoder.Shared(su.statics, k.table)
    requires HpackEncoder.BlockSound(su.coder, su.statics, k.table, p, hs, ls)
    requires forall n | n in HpackEncoder.Announced(p) :: n <= k.limit
    requires HpackEncoder.EncodeBlock(su.coder, mode, k.table, p, hs, ls).Encoded?
    ensures HpackEncoder.Shared(su.statics, HpackEncoder.EncodeBlock(su.coder, mode, k.table, p, hs, ls).table)
  {
    hide HpackEncoder.EncodeBlock, HpackEncoder.Shared;
    var bytes := HpackEncoder.EncodeBlock(su.coder, mode, k.table, p, hs, ls).bytes;
    OnePart(bytes);
    HpackEncoder.BlockLockstep(su.coder, su.statics, mode, k, p, hs, ls, [bytes]);
  }

  /** Encodes a list and writes its block to buffers; the fragments are those of the encoding with the searches made. */
  method SendList(enc: HpackCodec.HeaderEncoder, h: Head, hs: seq<Header>, spaces: seq<nat>, maxFrame: nat)
    returns (v: HpackCodec.Verdict, complete: bool, wire: Bytes, ghost block: Bytes, ghost ls: seq<HpackEncoder.Lookup>)
    requires enc.Valid() && forall f | f in hs :: HpackEncoder.FieldFits(enc.coder, f)
    modifies enc, enc.context, enc.context.buffer
    ensures HpackEncoder.BlockSound(enc.coder, enc.context.statics, old(enc.context.View()), old(enc.Updates()), hs, ls)
    ensures v.Done? ==>
              && enc.Valid()
              && HpackEncoder.EncodeBlock(enc.coder, old(enc.mode), old(enc.context.View()), old(enc.Updates()), hs,
                                          ls) ==
                 HpackEncoder.Encoded(block, enc.context.View())
              && var (end, fragments) := FillAll(h, Progress(true, block, false), spaces, maxFrame);
                 complete == end.done && wire == Wire(h, true, fragments, complete)
  {
    hide Wire, FillAll, HpackEncoder.EncodeBlock, HpackEncoder.BlockSound, HpackEncoder.FieldFits;
    var bytes;
    complete, wire := false, [];
    bytes, v, ls, block := enc.EncodeHeaderBlock(hs, []);
    if v.Done? {
      assert bytes == block;
      var out := new HeadersWriter(h, bytes);
      var outputs;
      ghost var fragments;
      outputs, fragments := out.WriteAll(spaces, maxFrame);
      complete := out.done;
      wire := Join(outputs);
    }
  }

  /**
   * From header list to reports, through the encoder's ring-buffer table, any sequence
   * of output buffers, and parts of any sizes: once the block is written, the decoder
   * reports what the list calls for, and encoder and decoder are in step again; unless
   * it is a promise that is not welcome, which the decoder refuses.
   */
  method ExchangeList(enc: HpackCodec.HeaderEncoder, dec: FrameDecoder, h: Head, hs: seq<Header>, spaces: seq<nat>,
                      sizes: seq<nat>)
    returns (v: HpackCodec.Verdict, complete: bool, error: Option<Error>, log: seq<Event>, ghost block: Bytes)
    requires InStep(enc, dec) && dec.limits.maxFrame <= PAYLOAD_MAX
    requires ValidHead(h)
    requires forall f | f in hs :: HpackEncoder.FieldFits(enc.coder, f)
    requires forall n | n in HpackEncoder.Announced(enc.Updates()) :: n <= dec.hpack.core.limit
    modifies enc, enc.context, enc.context.buffer, dec, dec.scratch
    ensures v.Done? && complete && Welcome(dec.su.isServer, old(dec.limits).enablePush, h) ==>
              && InStep(enc, dec) && error == None && log == BlockReport(dec.su.isServer, h, hs)
              && dec.View() == WithTable(old(dec.View()), enc.context.View())
    ensures v.Done? && complete && !Welcome(dec.su.isServer, old(dec.limits).enablePush, h) ==>
              dec.failed && error == Some(ProtocolError) && log == []
    ensures !(v.Done? && complete) ==> dec.Ok() && dec.View() == old(dec.View()) && error == None && log == []
    ensures v.Done? && dec.limits.maxFrame >= AMPLE - 9 && |spaces| > |block| &&
            (forall i | 0 <= i < |spaces| :: spaces[i] >= AMPLE) ==>
              complete
  {
    hide H2Decoder.Decode, DecodeChunks, Wire, FillAll, HpackEncoder.EncodeBlock, HpackEncoder.Shared, BlockReport,
         Hpack.CoderCorrect, HpackEncoder.FieldFits, HpackEncoder.LookupsSound;
    ghost var d, t, p, mode := dec.View(), enc.context.View(), enc.Updates(), enc.mode;
    var wire;
    ghost var ls;
    error, log := None, [];
    v, complete, wire, block, ls := SendList(enc, h, hs, spaces, dec.limits.maxFrame);
    if v.Done? && dec.limits.maxFrame >= AMPLE - 9 && |spaces| > |block| && forall i | 0 <= i < |spaces| ::
        spaces[i] >= AMPLE {
      AmpleBuffersFinish(h, Progress(true, block, false), spaces, dec.limits.maxFrame);
    }
    if v.Done? && complete {
      var parts := Cut(wire, sizes);
      assert [] + Flatten(parts) == wire;
      ListArrives(dec.su, d, h, mode, p, hs, ls, spaces, [], parts);
      SplitInvariance(dec.su, d, [], parts);
      error, log := Feed(dec, [], parts);
    }
  }
}
