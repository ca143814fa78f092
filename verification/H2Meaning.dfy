/**
 * What an HTTP/2 frame means to a decoder, frame by frame and from the bytes of the frame: what it reports, which error
 * it raises, and what it leaves behind. The decoder's state machine comes to this for every stream of bytes.
 */
module H2Meaning {
  import opened Octets
  import opened HpackTable
  import opened H2Decoder
  import opened H2Fields
  import opened H2Frames
  import H2Headers
  import Hpack = HpackDecoder

  /** What bytes come to: reports and the decoder afterwards, or reports and an error. */
  datatype Outcome = Taken(log: seq<Event>, d: Decoder) | Refused(log: seq<Event>, error: Error)

  function Plus(log: seq<Event>, o: Outcome): Outcome {
    match o
    case Taken(more, d) => Taken(log + more, d)
    case Refused(more, error) => Refused(log + more, error)
  }

  /** The decoder makes this of `bytes`, whatever follows them. */
  ghost predicate Comes(su: Setup, d: Decoder, bytes: Bytes, s: Bytes, o: Outcome)
    requires Valid(d)
  {
    match o
    case Taken(log, d') => Valid(d') && Decode(su, d, bytes + s) == Then(log, Decode(su, d', s))
    case Refused(log, error) => Decode(su, d, bytes + s) == Run(log, Failed(error))
  }

  /** Between frames. */
  predicate Between(d: Decoder) {
    && Valid(d) && d.state == Prefix && d.scratch == [] && d.frame == NO_FRAME && d.settings == []
    && d.goaway == (0, 0, [])
  }

  // ----- the meaning of a frame: header `h` of nine bytes, payload `p`

  function StreamIn(h: Bytes): nat
    requires |h| == 9
  {
    Be(h[5..]) % 0x8000_0000
  }

  function LengthIn(h: Bytes): nat
    requires |h| == 9
  {
    Be(h[..3])
  }

  predicate HasFlag(h: Bytes, mask: nat)
    requires |h| == 9 && mask > 0
  {
    h[4] / mask % 2 == 1
  }

  /** Types 4, 6 and 7 are of the connection, 8 of either, types above 9 of anything, all others of a stream. */
  predicate StreamFits(t: byte, stream: nat) {
    if t == 4 || t == 6 || t == 7 then stream == 0
    else if t == 8 || t > 9 then true
    else stream != 0
  }

  /**
   * The errors that a header raises: before the first SETTINGS, for its stream, for a header block that is open or
   * not, for its length.
   */
  function PrefixError(greeted: bool, open: nat, maxFrame: nat, h: Bytes): Option<Error>
    requires |h| == 9
  {
    var t, stream := h[3], StreamIn(h);
    if !greeted && (t != 4 || HasFlag(h, 1)) then Some(ProtocolError)
    else if !StreamFits(t, stream) then Some(ProtocolError)
    else if t == 9 && open != stream then Some(ProtocolError)
    else if t != 9 && open != 0 then Some(ProtocolError)
    else if LengthIn(h) > maxFrame then Some(FrameSizeError)
    else None
  }

  /** A payload without its padding. */
  datatype Content = Content(bytes: Bytes, pad: nat) | NoContent(error: Error)

  predicate IsPadded(h: Bytes)
    requires |h| == 9
  {
    (h[3] == 0 || h[3] == 1 || h[3] == 5) && HasFlag(h, 8)
  }

  function Unpad(h: Bytes, p: Bytes): Content
    requires |h| == 9
  {
    if !IsPadded(h) then Content(p, 0)
    else if p == [] then NoContent(FrameSizeError)
    else if p[0] as nat + 1 > |p| then NoContent(ProtocolError)
    else Content(p[1..|p| - p[0]], p[0])
  }

  function DataMeaning(d: Decoder, h: Bytes, p: Bytes): Outcome
    requires |h| == 9
  {
    match Unpad(h, p)
    case NoContent(error) => Refused([], error)
    case Content(body, pad) =>
      var stream := StreamIn(h);
      Taken([DataBegin(stream, |p|, |p| - |body|, HasFlag(h, 1))] + Body(stream, body) +
            ([DataEnd(stream)] + if HasFlag(h, 1) then [EndStream(stream)] else []), d)
  }

  /** A part of a header block: HPACK's entries, and the end of the block if this is its last frame. */
  function FragmentMeaning(su: Setup, d: Decoder, stream: nat, b: Block, fragment: Bytes, last: bool): Outcome
    requires Hpack.EntryValid(d.hpack.entry)
  {
    var r := Hpack.DecodeAll(su.coder, su.statics, d.hpack, fragment);
    var (b1, log) := H2Headers.TakeEvents(su.isServer, stream, b, r.events);
    match r.end
    case Dead => Refused(log, CompressionError)
    case Stray => Refused(log, TableLost)
    case Alive(hpack) =>
      if last && fragment != [] && hpack.entry != Hpack.EntryInit then Refused(log, CompressionError)
      else if last then Taken(log + BlockEnd(su.isServer, stream, b1), d.(hpack := hpack, block := NO_BLOCK))
      else Taken(log, d.(hpack := hpack, block := b1))
  }

  function HeadersMeaning(su: Setup, d: Decoder, h: Bytes, p: Bytes): Outcome
    requires |h| == 9 && Hpack.EntryValid(d.hpack.entry)
  {
    var stream := StreamIn(h);
    match Unpad(h, p)
    case NoContent(error) => Refused([], error)
    case Content(c, _) =>
      var lead := if HasFlag(h, 0x20) then 5 else 0;
      if |c| < lead then Refused([], FrameSizeError)
      else
        Plus([HeadersBegin(stream)],
             FragmentMeaning(su, d, stream, Block(stream, false, HasFlag(h, 1), NO_FIELDS), c[lead..], HasFlag(h, 4)))
  }

  function PushMeaning(su: Setup, d: Decoder, h: Bytes, p: Bytes): Outcome
    requires |h| == 9 && Hpack.EntryValid(d.hpack.entry)
  {
    var stream := StreamIn(h);
    match Unpad(h, p)
    case NoContent(error) => Refused([], error)
    case Content(c, _) =>
      if |c| < 4 then Refused([], FrameSizeError)
      else
        var promised := Be(c[..4]) % 0x8000_0000;
        if su.isServer || !d.limits.enablePush || promised == 0 || promised % 2 == 1 then Refused([], ProtocolError)
        else
          Plus([PushBegin(stream, promised)],
               FragmentMeaning(su, d, stream, Block(stream, true, false, NO_FIELDS), c[4..], HasFlag(h, 4)))
  }

  /** A payload of exactly `n` bytes, which is reported before it turns out to be too long. */
  function ExactMeaning(d: Decoder, p: Bytes, n: nat, log: seq<Event>): Outcome {
    if |p| < n then Refused([], FrameSizeError)
    else if |p| > n then Refused(log, FrameSizeError)
    else Taken(log, d)
  }

  /** The settings in a payload, up to the first value that is not allowed; settings that are not known do not count. */
  datatype Listed = Listed(values: seq<(nat, nat)>) | BadValue(error: Error)

  function ReadSettings(p: Bytes): Listed
    requires |p| % 6 == 0
    decreases |p|
  {
    if p == [] then Listed([])
    else
      var id, value := Be(p[..2]), Be(p[2..6]);
      if id == 2 && value > 1 then BadValue(ProtocolError)
      else if id == 4 && value > 0x7FFF_FFFF then BadValue(FlowControlError)
      else if id == 5 && (value < 16384 || value > 16777215) then BadValue(ProtocolError)
      else match ReadSettings(p[6..])
           case BadValue(error) => BadValue(error)
           case Listed(values) => Listed((if 1 <= id <= 6 then [(id, value)] else []) + values)
  }

  function SettingsMeaning(d: Decoder, h: Bytes, p: Bytes): Outcome
    requires |h| == 9
  {
    if HasFlag(h, 1) then
      if p != [] then Refused([], FrameSizeError)
      else if d.upcoming == [] then Refused([SettingsAck], ProtocolError)
      else
        var l := d.upcoming[0];
        Taken([SettingsAck], d.(limits := l, upcoming := d.upcoming[1..],
                                hpack := d.hpack.(core := d.hpack.core.(limit := l.tableSize))))
    else if |p| % 6 != 0 then Refused([], FrameSizeError)
    else match ReadSettings(p)
         case BadValue(error) => Refused([], error)
         case Listed(values) => Taken([Settings(values)], d)
  }

  function GoawayMeaning(d: Decoder, p: Bytes): Outcome {
    if |p| < 8 then Refused([], FrameSizeError)
    else Taken([Goaway(Be(p[..4]) % 0x8000_0000, Be(p[4..8]), p[8..])], d)
  }

  function Front(p: Bytes, n: nat): Bytes {
    if n <= |p| then p[..n] else []
  }

  function PayloadMeaning(su: Setup, d: Decoder, h: Bytes, p: Bytes): Outcome
    requires |h| == 9 && Hpack.EntryValid(d.hpack.entry)
  {
    var stream := StreamIn(h);
    match h[3]
    case 0 => DataMeaning(d, h, p)
    case 1 => HeadersMeaning(su, d, h, p)
    case 2 => ExactMeaning(d, p, 5, [])
    case 3 => ExactMeaning(d, p, 4, [Reset(stream, Be(Front(p, 4)))])
    case 4 => SettingsMeaning(d, h, p)
    case 5 => PushMeaning(su, d, h, p)
    case 6 => ExactMeaning(d, p, 8, [Ping(HasFlag(h, 1), Front(p, 8))])
    case 7 => GoawayMeaning(d, p)
    case 8 => ExactMeaning(d, p, 4, [Window(stream, Be(Front(p, 4)) % 0x8000_0000)])
    case 9 => FragmentMeaning(su, d, stream, d.block, p, HasFlag(h, 4))
    case _ => Taken([], d)
  }

  function Meaning(su: Setup, d: Decoder, h: Bytes, p: Bytes): Outcome
    requires |h| == 9 && Hpack.EntryValid(d.hpack.entry)
  {
    match PrefixError(d.greeted, d.block.stream, d.limits.maxFrame, h)
    case Some(error) => Refused([], error)
    case None => PayloadMeaning(su, d.(greeted := true), h, p)
  }

  // ----- following the decoder

  function OutcomeOf(f: Fired): Outcome {
    match f
    case Fired(d, log) => Taken(log, d)
    case Broken(error, log) => Refused(log, error)
  }

  lemma FixedComes(su: Setup, d: Decoder, bytes: Bytes, s: Bytes)
    requires Valid(d) && IsFixed(d.state) && d.scratch == [] && |bytes| == Required(d.state)
    ensures Comes(su, d, bytes, s, OutcomeOf(FireFixed(su, d, bytes)))
  {
    hide FireFixed, Decode;
    if FireFixed(su, d, bytes).Fired? {
      RunFixed(su, d, bytes, s);
    } else {
      RunBroken(su, d, bytes, s);
    }
  }

  lemma FreeComes(su: Setup, d: Decoder, s: Bytes)
    requires Valid(d) && IsFree(d.state)
    ensures Comes(su, d, [], s, OutcomeOf(FireFree(su, d)))
  {
    hide FireFree;
    assert [] + s == s;
    if FireFree(su, d).Fired? {
      RunFree(su, d, s);
    } else {
      assert [] + FireFree(su, d).log == FireFree(su, d).log;
    }
  }

  lemma StreamComes(su: Setup, d: Decoder, bytes: Bytes, s: Bytes)
    requires Valid(d) && IsStream(d.state) && d.state != Preface && |bytes| == Wanted(d)
    ensures var (d1, log) := Absorb(d, bytes);
            IsStream(d1.state) && Comes(su, d, bytes, s, Plus(log, OutcomeOf(FireEnd(d1))))
  {
    hide Absorb, FireEnd;
    AbsorbOk(d, bytes);
    var (d1, log) := Absorb(d, bytes);
    if FireEnd(d1).Fired? {
      RunStream(su, d, bytes, s);
    } else {
      assert (bytes + s)[..|bytes|] == bytes;
    }
  }

  lemma Chain(su: Setup, d: Decoder, a: Bytes, log: seq<Event>, d1: Decoder, b: Bytes, s: Bytes, o: Outcome)
    requires Valid(d) && Comes(su, d, a, b + s, Taken(log, d1)) && Comes(su, d1, b, s, o)
    ensures Comes(su, d, a + b, s, Plus(log, o))
  {
    hide Decode;
    assert (a + b) + s == a + (b + s);
    if o.Taken? {
      H2Headers.Regroup(log, o.log, Decode(su, o.d, s).log);
    }
  }

  lemma Halt(su: Setup, d: Decoder, a: Bytes, b: Bytes, s: Bytes, log: seq<Event>, error: Error)
    requires Valid(d) && Comes(su, d, a, b + s, Refused(log, error))
    ensures Comes(su, d, a + b, s, Refused(log, error))
  {
    hide Decode;
    assert (a + b) + s == a + (b + s);
  }

  // ----- the header of a frame

  /** The decoder with a frame of this header in progress, of which `n` bytes and `pad` bytes of padding are to come. */
  function Loaded(d: Decoder, h: Bytes, n: nat, pad: nat): Decoder
    requires |h| == 9
  {
    d.(frame := ParsePrefix(h).(payload := n, padding := pad), greeted := true)
  }

  function FirstReport(h: Bytes, total: nat, padding: nat): seq<Event>
    requires |h| == 9
  {
    if h[3] == 0 then [DataBegin(StreamIn(h), total, padding, HasFlag(h, 1))] else []
  }

  lemma ParsedIs(h: Bytes)
    requires |h| == 9
    ensures var f := ParsePrefix(h);
            && f.stream == StreamIn(h) && f.payload == LengthIn(h) && f.padding == 0
            && (f.ack <==> (h[3] == 4 || h[3] == 6) && HasFlag(h, 1))
            && (f.endStream <==> (h[3] == 0 || h[3] == 1) && HasFlag(h, 1))
            && (f.endHeaders <==> (h[3] == 1 || h[3] == 5 || h[3] == 9) && HasFlag(h, 4))
            && (f.priority <==> h[3] == 2 || (h[3] == 1 && HasFlag(h, 0x20)))
            && (Padded(h) <==> IsPadded(h))
  {
    hide Be;
    KindsAre(h[3]);
  }

  lemma KindsAre(t: byte)
    ensures KindOf(t) == DATA <==> t == 0
    ensures KindOf(t) == HEADERS <==> t == 1
    ensures KindOf(t) == PRIORITY <==> t == 2
    ensures KindOf(t) == RST_STREAM <==> t == 3
    ensures KindOf(t) == SETTINGS <==> t == 4
    ensures KindOf(t) == PUSH_PROMISE <==> t == 5
    ensures KindOf(t) == PING <==> t == 6
    ensures KindOf(t) == GOAWAY <==> t == 7
    ensures KindOf(t) == WINDOW_UPDATE <==> t == 8
    ensures KindOf(t) == CONTINUATION <==> t == 9
    ensures KindOf(t) == UNKNOWN <==> t > 9
  {
  }

  lemma PrefixIs(d: Decoder, h: Bytes)
    requires |h| == 9
    ensures var e := PrefixError(d.greeted, d.block.stream, d.limits.maxFrame, h);
            var d1 := Loaded(d, h, LengthIn(h), 0);
            FirePrefix(d, h) == if e.Some? then Broken(e.value, [])
                                else if IsPadded(h) then Switch(d1, PaddingLen, [])
                                else EnterPayload(d1, FirstReport(h, LengthIn(h), 0))
  {
    hide Be, Switch, EnterPayload, HasFlag, Padded, IsPadded;
    ParsedIs(h);
    KindsAre(h[3]);
    assert ParsePrefix(h).kind == KindOf(h[3]);
  }

  /** The header, and the padding length if there is one, with the rest of the payload to come. */
  lemma LeadComes(su: Setup, d: Decoder, h: Bytes, p: Bytes, s: Bytes)
    requires Between(d) && |h| == 9 && LengthIn(h) == |p|
    ensures var e := PrefixError(d.greeted, d.block.stream, d.limits.maxFrame, h);
            e.Some? ==> Comes(su, d, h + p, s, Refused([], e.value))
    ensures PrefixError(d.greeted, d.block.stream, d.limits.maxFrame, h).None? ==>
              match Unpad(h, p)
              case NoContent(error) => Comes(su, d, h + p, s, Refused([], error))
              case Content(c, pad) =>
                var (lead, rest) := LeadOf(h, p);
                var f := EnterPayload(Loaded(d, h, |c|, pad), FirstReport(h, |p|, |p| - |c|));
                && |rest| == |c| + pad && rest[..|c|] == c && h + p == lead + rest
                && Comes(su, d, lead, rest + s, OutcomeOf(f))
  {
    hide Decode, FirePrefix, EnterPayload, PrefixError, ParsePrefix, Be;
    PrefixIs(d, h);
    FixedComes(su, d, h, p + s);
    var e := PrefixError(d.greeted, d.block.stream, d.limits.maxFrame, h);
    if e.Some? {
      Halt(su, d, h, p, s, [], e.value);
    } else if IsPadded(h) {
      if p == [] {
        Halt(su, d, h, p, s, [], FrameSizeError);
      } else {
        PaddingLenComes(su, d, h, p, s);
      }
    } else {
      assert h + p == h + p[0..];
    }
  }

  /** The bytes up to the content, and those from there. */
  function LeadOf(h: Bytes, p: Bytes): (Bytes, Bytes)
    requires |h| == 9
  {
    if IsPadded(h) && p != [] then (h + [p[0]], p[1..]) else (h, p)
  }

  lemma PaddingLenComes(su: Setup, d: Decoder, h: Bytes, p: Bytes, s: Bytes)
    requires Between(d) && |h| == 9 && LengthIn(h) == |p| && p != [] && IsPadded(h)
    requires Comes(su, d, h, p + s, OutcomeOf(Switch(Loaded(d, h, |p|, 0), PaddingLen, [])))
    ensures match Unpad(h, p)
            case NoContent(error) => Comes(su, d, h + p, s, Refused([], error))
            case Content(c, pad) =>
              var f := EnterPayload(Loaded(d, h, |c|, pad), FirstReport(h, |p|, |p| - |c|));
              && |p[1..]| == |c| + pad && p[1..][..|c|] == c && h + p == (h + [p[0]]) + p[1..]
              && Comes(su, d, h + [p[0]], p[1..] + s, OutcomeOf(f))
  {
    hide Decode, EnterPayload, Be, ParsePrefix;
    var d1 := Loaded(d, h, |p|, 0).(state := PaddingLen, scratch := []);
    assert p + s == [p[0]] + (p[1..] + s);
    FixedComes(su, d1, [p[0]], p[1..] + s);
    PaddingLenIs(d, h, p);
    var f := FirePaddingLen(d1, [p[0]]);
    Chain(su, d, h, [], d1, [p[0]], p[1..] + s, OutcomeOf(f));
    assert [] + f.log == f.log;
    assert h + p == (h + [p[0]]) + p[1..];
    if f.Broken? && Unpad(h, p).NoContent? {
      Halt(su, d, h + [p[0]], p[1..], s, [], ProtocolError);
    }
  }

  lemma PaddingLenIs(d: Decoder, h: Bytes, p: Bytes)
    requires |h| == 9 && p != [] && IsPadded(h)
    ensures var d1 := Loaded(d, h, |p|, 0).(state := PaddingLen, scratch := []);
            FirePaddingLen(d1, [p[0]]) == match Unpad(h, p)
                                          case NoContent(error) => Broken(error, [])
                                          case Content(c, pad) =>
                                            EnterPayload(Loaded(d, h, |c|, pad), FirstReport(h, |p|, |p| - |c|))
  {
    hide Be, StateOf;
    ParsedIs(h);
    KindsAre(h[3]);
  }

  // ----- payloads

  /** The decoder at the end of its frame. */
  function Ended(d: Decoder): Decoder {
    d.(state := Prefix, scratch := [], frame := NO_FRAME)
  }

  lemma PaddingComes(su: Setup, d: Decoder, pads: Bytes, s: Bytes)
    requires Valid(d) && d.state == Padding && d.frame.payload == 0 && d.frame.padding == |pads|
    ensures Comes(su, d, pads, s, Taken([], Ended(d)))
  {
    hide Decode;
    StreamComes(su, d, pads, s);
  }

  lemma DataComes(su: Setup, d: Decoder, body: Bytes, pads: Bytes, s: Bytes)
    requires Valid(d) && d.state == FrameData && d.frame.payload == |body| && d.frame.padding == |pads|
    ensures var stream := d.frame.stream;
            Comes(su, d, body + pads, s,
                  Taken(Body(stream, body) +
                        ([DataEnd(stream)] + if d.frame.endStream then [EndStream(stream)] else []),
                        Ended(d)))
  {
    hide Decode, Body;
    StreamComes(su, d, body, pads + s);
    var stream := d.frame.stream;
    var end := [DataEnd(stream)] + if d.frame.endStream then [EndStream(stream)] else [];
    var d1 := Used(d, |body|).(state := Padding);
    PaddingComes(su, d1, pads, s);
    Chain(su, d, body, Body(stream, body) + end, d1, pads, s, Taken([], Ended(d)));
    assert Body(stream, body) + end + [] == Body(stream, body) + end;
  }

  /** A fixed payload that ends its frame. */
  lemma ExactComes(su: Setup, d: Decoder, p: Bytes, s: Bytes)
    requires Valid(d) && d.scratch == [] && d.state in {FrameReset, FramePing, FrameWindow}
    requires d.frame.payload == |p| && d.frame.padding == 0
    ensures var log := if d.state == FrameReset then [Reset(d.frame.stream, Be(Front(p, 4)))]
                       else if d.state == FramePing then [Ping(d.frame.ack, Front(p, 8))]
                       else [Window(d.frame.stream, Be(Front(p, 4)) % 0x8000_0000)];
            Comes(su, d, p, s, if |p| > Required(d.state) then Refused(log, FrameSizeError) else Taken(log, Ended(d)))
  {
    hide Decode, Be;
    var n := Required(d.state);
    var rest := p[n..];
    FixedComes(su, d, p[..n], rest + s);
    assert p == p[..n] + rest;
    var f := FireFixed(su, d, p[..n]);
    if |p| > n {
      Halt(su, d, p[..n], rest, s, f.log, FrameSizeError);
    } else {
      assert rest == [] && [] + s == s && p[..n] == p;
    }
  }

  lemma GoawayComes(su: Setup, d: Decoder, p: Bytes, s: Bytes)
    requires Valid(d) && d.scratch == [] && d.state == FrameGoaway && d.goaway == (0, 0, [])
    requires d.frame.payload == |p| && d.frame.padding == 0
    ensures Comes(su, d, p, s, Taken([Goaway(Be(p[..4]) % 0x8000_0000, Be(p[4..8]), p[8..])], Ended(d)))
  {
    hide Decode, Be;
    FixedComes(su, d, p[..8], p[8..] + s);
    assert p == p[..8] + p[8..] && p[..8][..4] == p[..4] && p[..8][4..] == p[4..8];
    var last, code := Be(p[..4]) % 0x8000_0000, Be(p[4..8]);
    var d1 := Used(d, 8).(goaway := (last, code, []), state := GoawayDebug);
    StreamComes(su, d1, p[8..], s);
    assert [] + p[8..] == p[8..];
    var log := [Goaway(last, code, p[8..])];
    assert [] + log == log;
    Chain(su, d, p[..8], [], d1, p[8..], s, Taken(log, Ended(d)));
  }

  lemma UnknownComes(su: Setup, d: Decoder, p: Bytes, s: Bytes)
    requires Valid(d) && d.state == FrameUnknown && d.frame.payload == |p| && d.frame.padding == 0
    ensures Comes(su, d, p, s, Taken([], Ended(d)))
  {
    hide Decode;
    StreamComes(su, d, p, s);
  }

  /** PRIORITY: its five bytes are not looked at. */
  lemma PriorityComes(su: Setup, d: Decoder, p: Bytes, s: Bytes)
    requires Valid(d) && d.scratch == [] && d.state == PriorityBlock && d.frame.kind == PRIORITY
    requires d.frame.payload == |p| && d.frame.padding == 0
    ensures Comes(su, d, p, s, if |p| > 5 then Refused([], FrameSizeError) else Taken([], Ended(d)))
  {
    hide Decode;
    FixedComes(su, d, p[..5], p[5..] + s);
    assert p == p[..5] + p[5..];
    var d1 := Used(d, 5).(state := FramePriority);
    FreeComes(su, d1, p[5..] + s);
    var o := OutcomeOf(FireFree(su, d1));
    assert p[..5] + [] == p[..5] && [] + (p[5..] + s) == p[5..] + s;
    Chain(su, d, p[..5], [], d1, [], p[5..] + s, o);
    if |p| > 5 {
      Halt(su, d, p[..5], p[5..], s, [], FrameSizeError);
    } else {
      assert p[5..] == [] && p[..5] == p && [] + s == s;
    }
  }

  // ----- settings

  lemma {:induction false} BeBound(s: Bytes)
    ensures Be(s) < Power256(|s|)
  {
    if s != [] {
      BeBound(s[..|s| - 1]);
    }
  }

  lemma ValueBound(s: Bytes)
    requires |s| == 4
    ensures Be(s) <= 0xFFFF_FFFF
  {
    BeBound(s);
    Powers();
  }

  lemma OneSettingIs(d: Decoder, p: Bytes)
    requires |p| >= 6 && d.state == SettingsEntry && d.frame.payload == |p| && |p| % 6 == 0
    ensures var id, value := Be(p[..2]), Be(p[2..6]);
            var next := Used(d, 6).(state := SettingsLoop, scratch := []);
            FireSettingsEntry(d, p[..6]) ==
            if id == 2 && value > 1 then Broken(ProtocolError, [])
            else if id == 4 && value > 0x7FFF_FFFF then Broken(FlowControlError, [])
            else if id == 5 && (value < 16384 || value > 16777215) then Broken(ProtocolError, [])
            else Fired(next.(settings := d.settings + if 1 <= id <= 6 then [(id, value)] else []), [])
  {
    hide Be;
    assert p[..6][..2] == p[..2] && p[..6][2..] == p[2..6];
    ValueBound(p[2..6]);
  }

  /** One entry of a list of settings. */
  lemma SettingStep(su: Setup, d: Decoder, p: Bytes, s: Bytes)
    requires Valid(d) && d.state == SettingsLoop && d.frame.payload == |p| && |p| >= 6
    ensures Comes(su, d, p[..6], s, OutcomeOf(FireSettingsEntry(d.(state := SettingsEntry), p[..6])))
  {
    hide Decode, FireSettingsEntry, FirePrefix, FirePaddingLen, FirePush;
    FreeComes(su, d, p[..6] + s);
    var d1 := d.(state := SettingsEntry);
    FixedComes(su, d1, p[..6], s);
    var o := OutcomeOf(FireSettingsEntry(d1, p[..6]));
    Chain(su, d, [], [], d1, p[..6], s, o);
    assert [] + p[..6] == p[..6] && [] + o.log == o.log;
  }

  lemma NoSettings(su: Setup, d: Decoder, s: Bytes)
    requires Valid(d) && d.state == SettingsLoop && d.frame.payload == 0 && d.frame.padding == 0
    ensures Comes(su, d, [], s, Taken([Settings(d.settings + [])], Ended(d).(settings := [])))
  {
    hide Decode;
    FreeComes(su, d, s);
    assert d.settings + [] == d.settings;
  }

  function SettingsOutcome(d: Decoder, p: Bytes): Outcome
    requires |p| % 6 == 0
  {
    match ReadSettings(p)
    case BadValue(error) => Refused([], error)
    case Listed(values) => Taken([Settings(d.settings + values)], Ended(d).(settings := []))
  }

  lemma {:induction false} SettingsListComes(su: Setup, d: Decoder, p: Bytes, s: Bytes)
    requires Valid(d) && d.state == SettingsLoop && d.frame.payload == |p| && d.frame.padding == 0 && |p| % 6 == 0
    ensures Comes(su, d, p, s, SettingsOutcome(d, p))
    decreases |p|
  {
    hide FireSettingsEntry, Comes, SettingsOutcome, Valid;
    if p == [] {
      NoSettings(su, d, s);
      NoOutcome(d);
    } else {
      var d1 := d.(state := SettingsEntry);
      SettingStep(su, d, p, p[6..] + s);
      assert p == p[..6] + p[6..];
      var f := FireSettingsEntry(d1, p[..6]);
      SettingNext(d, p);
      if f.Broken? {
        Halt(su, d, p[..6], p[6..], s, [], f.error);
      } else {
        SettingsListComes(su, f.d, p[6..], s);
        Chain(su, d, p[..6], [], f.d, p[6..], s, SettingsOutcome(f.d, p[6..]));
      }
    }
  }

  lemma NoOutcome(d: Decoder)
    ensures SettingsOutcome(d, []) == Taken([Settings(d.settings + [])], Ended(d).(settings := []))
  {
  }

  lemma SettingNext(d: Decoder, p: Bytes)
    requires Valid(d) && d.state == SettingsLoop && d.frame.payload == |p| && d.frame.padding == 0
    requires p != [] && |p| % 6 == 0
    ensures var f := FireSettingsEntry(d.(state := SettingsEntry), p[..6]);
            && (f.Broken? ==> f.log == [] && SettingsOutcome(d, p) == Refused([], f.error))
            && (f.Fired? ==>
                  && f.log == [] && Valid(f.d) && f.d.state == SettingsLoop && f.d.frame.payload == |p| - 6
                  && f.d.frame.padding == 0 && SettingsOutcome(d, p) == Plus([], SettingsOutcome(f.d, p[6..])))
  {
    hide Be, FireSettingsEntry;
    OneSettingIs(d.(state := SettingsEntry), p);
    var f := FireSettingsEntry(d.(state := SettingsEntry), p[..6]);
    if f.Fired? {
      OutcomesAgree(d, f.d, p);
    }
  }

  lemma OutcomesAgree(d: Decoder, d1: Decoder, p: Bytes)
    requires |p| >= 6 && |p| % 6 == 0
    requires var id, value := Be(p[..2]), Be(p[2..6]);
             && !(id == 2 && value > 1) && !(id == 4 && value > 0x7FFF_FFFF)
             && !(id == 5 && (value < 16384 || value > 16777215))
             && d1.settings == d.settings + (if 1 <= id <= 6 then [(id, value)] else [])
             && d1 == Used(d.(frame := d.frame.(payload := |p|)), 6).(state := SettingsLoop, scratch := [],
                                                                      settings := d1.settings)
    ensures Plus([], SettingsOutcome(d1, p[6..])) == SettingsOutcome(d, p)
  {
    hide Be;
    var o := SettingsOutcome(d1, p[6..]);
    assert [] + o.log == o.log;
    if ReadSettings(p[6..]).Listed? {
      MoreSettings(d, d1, p);
    }
  }

  /** The settings read so far and those of the rest. */
  lemma MoreSettings(d: Decoder, d1: Decoder, p: Bytes)
    requires |p| >= 6 && |p| % 6 == 0 && ReadSettings(p[6..]).Listed? && ReadSettings(p).Listed?
    requires var id, value := Be(p[..2]), Be(p[2..6]);
             d1.settings == d.settings + if 1 <= id <= 6 then [(id, value)] else []
    ensures d1.settings + ReadSettings(p[6..]).values == d.settings + ReadSettings(p).values
  {
    hide Be;
  }

  /** An acknowledgement. */
  lemma AckComes(su: Setup, d: Decoder, p: Bytes, s: Bytes)
    requires Valid(d) && d.state == SettingsBegin && d.frame.payload == |p| && d.frame.padding == 0 && d.frame.ack
    ensures Comes(su, d, p, s,
                  if p != [] then Refused([], FrameSizeError)
                  else if d.upcoming == [] then Refused([SettingsAck], ProtocolError)
                  else Taken([SettingsAck], Ended(Adopt(d, d.upcoming[0]).(upcoming := d.upcoming[1..]))))
  {
    hide Decode;
    FreeComes(su, d, p + s);
    if p == [] {
      assert p + s == s;
    } else {
      Halt(su, d, [], p, s, [], FrameSizeError);
      assert [] + p == p;
    }
  }

  lemma SettingsComes(su: Setup, d: Decoder, p: Bytes, s: Bytes)
    requires Valid(d) && d.state == SettingsBegin && d.frame.payload == |p| && d.frame.padding == 0 && !d.frame.ack
    requires d.settings == []
    ensures Comes(su, d, p, s,
                  if |p| % 6 != 0 then Refused([], FrameSizeError)
                  else match ReadSettings(p)
                       case BadValue(error) => Refused([], error)
                       case Listed(values) => Taken([Settings(values)], Ended(d)))
  {
    hide Decode, ReadSettings;
    FreeComes(su, d, p + s);
    assert [] + p == p;
    if |p| % 6 != 0 {
      Halt(su, d, [], p, s, [], FrameSizeError);
    } else {
      var d1 := d.(state := SettingsLoop);
      SettingsListComes(su, d1, p, s);
      hide FireFree, Comes, Valid, Ended;
      var o := SettingsOutcome(d1, p);
      Chain(su, d, [], [], d1, p, s, o);
      assert [] + o.log == o.log;
      SettingsEnd(d, d1, p);
    }
  }

  lemma SettingsEnd(d: Decoder, d1: Decoder, p: Bytes)
    requires |p| % 6 == 0 && d1 == d.(state := SettingsLoop) && d.settings == []
    ensures Ended(d1).(settings := []) == Ended(d)
    ensures ReadSettings(p).Listed? ==> d1.settings + ReadSettings(p).values == ReadSettings(p).values
  {
    hide ReadSettings;
  }

  // ----- header blocks

  /** An entry that cannot be decoded, or is cut off by the end of the block. */
  lemma EntryFails(su: Setup, d: Decoder, fragment: Bytes, s: Bytes)
    requires Valid(d) && d.state == HeaderLoop && d.scratch == [] && d.frame.payload == |fragment| && fragment != []
    ensures var r := Hpack.DecodeEntry(su.coder, su.statics, d.hpack, fragment);
            && (r.Fail? ==> Decode(su, d, fragment + s) == Run([], Failed(CompressionError)))
            && (r.Lost? ==> Decode(su, d, fragment + s) == Run([], Failed(TableLost)))
            && (r.Ongoing? && d.frame.endHeaders ==>
                  Decode(su, d, fragment + s) == Run([], Failed(CompressionError)))
  {
    hide Hpack.DecodeEntry, TakeEvent;
    assert (fragment + s)[..|fragment|] == fragment;
    var d1 := d.(state := HeaderEntry);
    assert Step(su, d, fragment + s) == Go(d1, fragment + s, []);
  }

  /** HPACK stops in this fragment, or is left within an entry at the end of the block. */
  predicate Stops(d: Decoder, fragment: Bytes, r: Hpack.Run) {
    r.end.Dead? || r.end.Stray? || (d.frame.endHeaders && fragment != [] && r.end.decoder.entry != Hpack.EntryInit)
  }

  function StopError(r: Hpack.Run): Error {
    if r.end.Stray? then TableLost else CompressionError
  }

  /** The fields before the failure are reported, and then the error. */
  lemma {:induction false} FragmentFails(su: Setup, d: Decoder, fragment: Bytes, s: Bytes)
    requires Valid(d) && d.state == HeaderLoop && d.scratch == [] && d.frame.payload == |fragment|
    requires Stops(d, fragment, Hpack.DecodeAll(su.coder, su.statics, d.hpack, fragment))
    ensures var r := Hpack.DecodeAll(su.coder, su.statics, d.hpack, fragment);
            var log := H2Headers.TakeEvents(su.isServer, d.frame.stream, d.block, r.events).1;
            Decode(su, d, fragment + s) == Run(log, Failed(StopError(r)))
    decreases |fragment|
  {
    hide Hpack.DecodeEntry, Hpack.DecodeAll, Hpack.EntryValid, Decode, TakeEvent, H2Headers.TakeEvents, Valid;
    H2Headers.EntryIsValid(d);
    H2Headers.EntryFirst(su, d.hpack, fragment);
    EntryKinds(su, d.hpack, fragment);
    H2Headers.NothingTaken(su, d);
    var r := Hpack.DecodeEntry(su.coder, su.statics, d.hpack, fragment);
    if fragment == [] {
      H2Headers.NothingDecoded(su, d.hpack);
      assert false;
    } else {
      EntryFails(su, d, fragment, s);
      if r.Complete? {
        H2Headers.EntryRuns(su, d, fragment, s);
        assert (fragment + s)[|fragment| - |r.rest|..] == r.rest + s by {
          H2Headers.EntryIsSuffix(su, d.hpack, fragment);
        }
        var (b1, log) := TakeEvent(su.isServer, d.frame.stream, d.block, r.event);
        var d1 := d.(frame := d.frame.(payload := |r.rest|), hpack := r.decoder, block := b1);
        var more := Hpack.DecodeAll(su.coder, su.statics, r.decoder, r.rest);
        assert Stops(d1, r.rest, more) by { StopsLater(su, d, d1, fragment, r, more); }
        FragmentFails(su, d1, r.rest, s);
        H2Headers.TakeCons(su.isServer, d.frame.stream, d.block, r.event, more.events);
      }
    }
  }

  lemma EntryKinds(su: Setup, d: Hpack.Decoder, s: Bytes)
    requires Hpack.EntryValid(d.entry)
    ensures var r, all := Hpack.DecodeEntry(su.coder, su.statics, d, s), Hpack.DecodeAll(su.coder, su.statics, d, s);
            && (r.Fail? ==> all == Hpack.Run([], Hpack.Dead))
            && (r.Lost? ==> all == Hpack.Run([], Hpack.Stray))
            && (r.Complete? ==> r.decoder.entry == Hpack.EntryInit)
  {
    hide Hpack.DecodeEntry;
  }

  /** A fragment that stops after a whole entry stops in what is left of it. */
  lemma StopsLater(su: Setup, d: Decoder, d1: Decoder, fragment: Bytes, r: Hpack.EntryResult, more: Hpack.Run)
    requires r.Complete? && Hpack.EntryValid(r.decoder.entry) && r.decoder.entry == Hpack.EntryInit
    requires more == Hpack.DecodeAll(su.coder, su.statics, r.decoder, r.rest) &&
             d1.frame.endHeaders == d.frame.endHeaders
    requires Stops(d, fragment, Hpack.Run([r.event] + more.events, more.end))
    ensures Stops(d1, r.rest, more)
  {
    hide Hpack.DecodeEntry;
    if r.rest == [] {
      H2Headers.NothingDecoded(su, r.decoder);
    }
  }

  /** A part of a header block, and the padding behind it. */
  lemma FragmentComes(su: Setup, d: Decoder, fragment: Bytes, pads: Bytes, s: Bytes)
    requires Valid(d) && d.state == HeaderLoop && d.scratch == []
    requires d.frame.payload == |fragment| && d.frame.padding == |pads|
    ensures Comes(su, d, fragment + pads, s,
                  FragmentMeaning(su, Ended(d), d.frame.stream, d.block, fragment, d.frame.endHeaders))
  {
    hide Decode, Hpack.DecodeAll, H2Headers.TakeEvents, BlockEnd, Valid;
    H2Headers.EntryIsValid(d);
    var r := Hpack.DecodeAll(su.coder, su.statics, d.hpack, fragment);
    assert (fragment + pads) + s == fragment + (pads + s);
    if Stops(d, fragment, r) {
      FragmentFails(su, d, fragment, pads + s);
    } else {
      var (b, log) := H2Headers.TakeEvents(su.isServer, d.frame.stream, d.block, r.events);
      var d1 := H2Headers.Drained(d, r.end.decoder, b);
      assert Valid(d1) && Comes(su, d, fragment, pads + s, Taken(log, d1)) by {
        FragmentTaken(su, d, fragment, pads + s);
      }
      FragmentEnds(su, d1, pads, s);
      var o := if d.frame.endHeaders then Taken(BlockEnd(su.isServer, d.frame.stream, b), Ended(d1).(block := NO_BLOCK))
               else Taken([], Ended(d1));
      Chain(su, d, fragment, log, d1, pads, s, o);
      assert log + [] == log;
    }
  }

  lemma FragmentTaken(su: Setup, d: Decoder, fragment: Bytes, s: Bytes)
    requires Valid(d) && d.state == HeaderLoop && d.scratch == [] && d.frame.payload == |fragment|
    requires !Stops(d, fragment, Hpack.DecodeAll(su.coder, su.statics, d.hpack, fragment))
    ensures var r := Hpack.DecodeAll(su.coder, su.statics, d.hpack, fragment);
            var (b, log) := H2Headers.TakeEvents(su.isServer, d.frame.stream, d.block, r.events);
            var d1 := H2Headers.Drained(d, r.end.decoder, b);
            Valid(d1) && Comes(su, d, fragment, s, Taken(log, d1))
  {
    hide Decode, Hpack.DecodeAll, H2Headers.TakeEvents, Valid;
    H2Headers.EntryIsValid(d);
    if fragment == [] {
      H2Headers.NothingDecoded(su, d.hpack);
      H2Headers.NothingTaken(su, d);
      assert fragment + s == s && H2Headers.Drained(d, d.hpack, d.block) == d;
      ThenNone(Decode(su, d, s));
    } else {
      H2Headers.FragmentRuns(su, d, fragment, s);
    }
  }

  lemma FragmentEnds(su: Setup, d: Decoder, pads: Bytes, s: Bytes)
    requires Valid(d) && d.state == HeaderLoop && d.scratch == [] && d.frame.payload == 0 && d.frame.padding == |pads|
    ensures Comes(su, d, pads, s,
                  if d.frame.endHeaders then
                    Taken(BlockEnd(su.isServer, d.frame.stream, d.block), Ended(d).(block := NO_BLOCK))
                  else Taken([], Ended(d)))
  {
    hide Decode, BlockEnd;
    FreeComes(su, d, pads + s);
    var log := if d.frame.endHeaders then BlockEnd(su.isServer, d.frame.stream, d.block) else [];
    var d1 := d.(state := Padding, block := if d.frame.endHeaders then NO_BLOCK else d.block);
    PaddingComes(su, d1, pads, s);
    Chain(su, d, [], log, d1, pads, s, Taken([], Ended(d1)));
    assert [] + pads == pads && log + [] == log;
  }

  /** The fragment of a HEADERS frame, from where the fragment begins. */
  lemma HeadersBlockComes(su: Setup, d: Decoder, fragment: Bytes, pads: Bytes, s: Bytes)
    requires Valid(d) && d.state == FrameHeaders && d.frame.payload == |fragment| && d.frame.padding == |pads|
    ensures var b := Block(d.frame.stream, false, d.frame.endStream, NO_FIELDS);
            Comes(su, d, fragment + pads, s,
                  Plus([HeadersBegin(d.frame.stream)],
                       FragmentMeaning(su, Ended(d), d.frame.stream, b, fragment, d.frame.endHeaders)))
  {
    hide Decode, FragmentMeaning;
    FreeComes(su, d, fragment + pads + s);
    var b := Block(d.frame.stream, false, d.frame.endStream, NO_FIELDS);
    var d1 := d.(state := HeaderLoop, block := b);
    FragmentComes(su, d1, fragment, pads, s);
    var o := FragmentMeaning(su, Ended(d1), d.frame.stream, b, fragment, d.frame.endHeaders);
    SameFragment(su, Ended(d1), Ended(d), d.frame.stream, b, fragment, d.frame.endHeaders);
    Chain(su, d, [], [HeadersBegin(d.frame.stream)], d1, fragment + pads, s, o);
    assert [] + (fragment + pads) == fragment + pads;
  }

  /** The block that a decoder had before does not matter. */
  lemma SameFragment(su: Setup, d: Decoder, d': Decoder, stream: nat, b: Block, fragment: Bytes, last: bool)
    requires d == d'.(block := d.block) && Hpack.EntryValid(d.hpack.entry)
    ensures FragmentMeaning(su, d, stream, b, fragment, last) == FragmentMeaning(su, d', stream, b, fragment, last)
  {
    hide Hpack.DecodeAll, H2Headers.TakeEvents, BlockEnd;
  }

  // ----- whole frames

  function FirstState(h: Bytes): State
    requires |h| == 9
  {
    if h[3] == 2 || (h[3] == 1 && HasFlag(h, 0x20)) then PriorityBlock else StateOf(KindOf(h[3]))
  }

  /** The padding behind the content. */
  function PadsOf(h: Bytes, p: Bytes): Bytes
    requires |h| == 9 && Unpad(h, p).Content?
  {
    p[|p| - Unpad(h, p).pad..]
  }

  /** The decoder where the content of a frame begins. */
  function AtContent(d: Decoder, h: Bytes, p: Bytes): Decoder
    requires |h| == 9 && Unpad(h, p).Content?
  {
    Loaded(d, h, |Unpad(h, p).bytes|, Unpad(h, p).pad).(state := FirstState(h), scratch := [])
  }

  lemma Starts(d: Decoder, h: Bytes, p: Bytes)
    requires Between(d) && |h| == 9 && Unpad(h, p).Content?
    ensures var c, d1 := Unpad(h, p).bytes, AtContent(d, h, p);
            && (|c| >= Required(FirstState(h)) ==> Valid(d1))
            && Ended(d1) == d.(greeted := true) && d1.frame.payload == |c| && d1.frame.padding == |PadsOf(h, p)|
            && d1.frame.stream == StreamIn(h) && d1.scratch == [] && d1.settings == [] && d1.goaway == (0, 0, [])
            && d1.block == d.block && d1.upcoming == d.upcoming && d1.hpack == d.hpack && d1.limits == d.limits
            && LeadOf(h, p).1 == c + PadsOf(h, p)
            && (!IsPadded(h) ==> PadsOf(h, p) == [] && c == p)
  {
    hide Be, StateOf, KindOf;
    ParsedIs(h);
    StateOfFrames(KindOf(h[3]));
  }

  lemma EnterIs(d: Decoder, h: Bytes, p: Bytes, log: seq<Event>)
    requires |h| == 9 && Unpad(h, p).Content?
    ensures var c := Unpad(h, p).bytes;
            EnterPayload(Loaded(d, h, |c|, Unpad(h, p).pad), log) ==
            if |c| < Required(FirstState(h)) then Broken(FrameSizeError, log) else Fired(AtContent(d, h, p), log)
  {
    hide Be;
    ParsedIs(h);
  }

  /** A frame too short for what its type begins with. */
  lemma TooShort(su: Setup, d: Decoder, h: Bytes, p: Bytes, s: Bytes)
    requires Between(d) && |h| == 9 && LengthIn(h) == |p| && Unpad(h, p).Content?
    requires PrefixError(d.greeted, d.block.stream, d.limits.maxFrame, h).None?
    requires |Unpad(h, p).bytes| < Required(FirstState(h))
    ensures Comes(su, d, h + p, s, Refused(FirstReport(h, |p|, |p| - |Unpad(h, p).bytes|), FrameSizeError))
  {
    hide Be, PrefixError, FirstReport, Comes, EnterPayload, FirstState, IsPadded, Valid;
    LeadComes(su, d, h, p, s);
    var log := FirstReport(h, |p|, |p| - |Unpad(h, p).bytes|);
    EnterIs(d, h, p, log);
    var (lead, rest) := LeadOf(h, p);
    Halt(su, d, lead, rest, s, log, FrameSizeError);
  }

  /** A frame whose content comes to `o`. */
  lemma Assemble(su: Setup, d: Decoder, h: Bytes, p: Bytes, s: Bytes, o: Outcome)
    requires Between(d) && |h| == 9 && LengthIn(h) == |p| && Unpad(h, p).Content?
    requires PrefixError(d.greeted, d.block.stream, d.limits.maxFrame, h).None?
    requires |Unpad(h, p).bytes| >= Required(FirstState(h)) && Valid(AtContent(d, h, p))
    requires Comes(su, AtContent(d, h, p), LeadOf(h, p).1, s, o)
    ensures Comes(su, d, h + p, s, Plus(FirstReport(h, |p|, |p| - |Unpad(h, p).bytes|), o))
  {
    hide Be, PrefixError, FirstReport, Comes, EnterPayload, FirstState, IsPadded, Valid;
    LeadComes(su, d, h, p, s);
    var log := FirstReport(h, |p|, |p| - |Unpad(h, p).bytes|);
    EnterIs(d, h, p, log);
    var (lead, rest) := LeadOf(h, p);
    Chain(su, d, lead, log, AtContent(d, h, p), rest, s, o);
  }

  lemma PlusNone(o: Outcome)
    ensures Plus([], o) == o
  {
    assert [] + o.log == o.log;
  }

  /** What a frame that starts well comes to. */
  ghost predicate Agrees(su: Setup, d: Decoder, h: Bytes, p: Bytes, s: Bytes)
    requires Between(d) && |h| == 9
  {
    Comes(su, d, h + p, s, PayloadMeaning(su, d.(greeted := true), h, p))
  }

  lemma DataAgrees(su: Setup, d: Decoder, h: Bytes, p: Bytes, s: Bytes)
    requires Between(d) && |h| == 9 && LengthIn(h) == |p| && h[3] == 0
    requires PrefixError(d.greeted, d.block.stream, d.limits.maxFrame, h).None?
    ensures Agrees(su, d, h, p, s)
  {
    hide Be, PrefixError, Comes, Valid, Body;
    LeadComes(su, d, h, p, s);
    if Unpad(h, p).Content? {
      var c, d1, stream := Unpad(h, p).bytes, AtContent(d, h, p), StreamIn(h);
      Starts(d, h, p);
      ParsedIs(h);
      DataComes(su, d1, c, PadsOf(h, p), s);
      var log := Body(stream, c) + ([DataEnd(stream)] + if HasFlag(h, 1) then [EndStream(stream)] else []);
      Assemble(su, d, h, p, s, Taken(log, Ended(d1)));
      var first := [DataBegin(stream, |p|, |p| - |c|, HasFlag(h, 1))];
      H2Headers.Regroup(first, Body(stream, c), [DataEnd(stream)] + if HasFlag(h, 1) then [EndStream(stream)] else []);
    }
  }

  lemma ExactAgrees(su: Setup, d: Decoder, h: Bytes, p: Bytes, s: Bytes)
    requires Between(d) && |h| == 9 && LengthIn(h) == |p| && (h[3] == 3 || h[3] == 6 || h[3] == 8)
    requires PrefixError(d.greeted, d.block.stream, d.limits.maxFrame, h).None?
    ensures Agrees(su, d, h, p, s)
  {
    hide Be, PrefixError, Comes, Valid, HasFlag;
    Starts(d, h, p);
    ParsedIs(h);
    assert p + [] == p;
    if |p| < Required(FirstState(h)) {
      TooShort(su, d, h, p, s);
    } else {
      var d1 := AtContent(d, h, p);
      ExactComes(su, d1, p, s);
      var log := if d1.state == FrameReset then [Reset(d1.frame.stream, Be(Front(p, 4)))]
                 else if d1.state == FramePing then [Ping(d1.frame.ack, Front(p, 8))]
                 else [Window(d1.frame.stream, Be(Front(p, 4)) % 0x8000_0000)];
      var o := if |p| > Required(d1.state) then Refused(log, FrameSizeError) else Taken(log, Ended(d1));
      Assemble(su, d, h, p, s, o);
      PlusNone(o);
    }
  }

  lemma OtherAgrees(su: Setup, d: Decoder, h: Bytes, p: Bytes, s: Bytes)
    requires Between(d) && |h| == 9 && LengthIn(h) == |p| && (h[3] == 2 || h[3] == 7 || h[3] > 9)
    requires PrefixError(d.greeted, d.block.stream, d.limits.maxFrame, h).None?
    ensures Agrees(su, d, h, p, s)
  {
    hide Be, PrefixError, Comes, Valid, HasFlag;
    Starts(d, h, p);
    assert p + [] == p;
    if |p| < Required(FirstState(h)) {
      TooShort(su, d, h, p, s);
    } else {
      var d1 := AtContent(d, h, p);
      var o;
      if h[3] == 2 {
        PriorityComes(su, d1, p, s);
        o := if |p| > 5 then Refused([], FrameSizeError) else Taken([], Ended(d1));
      } else if h[3] == 7 {
        GoawayComes(su, d1, p, s);
        o := Taken([Goaway(Be(p[..4]) % 0x8000_0000, Be(p[4..8]), p[8..])], Ended(d1));
      } else {
        UnknownComes(su, d1, p, s);
        o := Taken([], Ended(d1));
      }
      Assemble(su, d, h, p, s, o);
      PlusNone(o);
    }
  }

  lemma SettingsAgree(su: Setup, d: Decoder, h: Bytes, p: Bytes, s: Bytes)
    requires Between(d) && |h| == 9 && LengthIn(h) == |p| && h[3] == 4
    requires PrefixError(d.greeted, d.block.stream, d.limits.maxFrame, h).None?
    ensures Agrees(su, d, h, p, s)
  {
    hide Be, PrefixError, Comes, Valid, HasFlag, ReadSettings;
    Starts(d, h, p);
    ParsedIs(h);
    assert p + [] == p;
    var d1 := AtContent(d, h, p);
    var o;
    if HasFlag(h, 1) {
      AckComes(su, d1, p, s);
      o := if p != [] then Refused([], FrameSizeError)
           else if d1.upcoming == [] then Refused([SettingsAck], ProtocolError)
           else Taken([SettingsAck], Ended(Adopt(d1, d1.upcoming[0]).(upcoming := d1.upcoming[1..])));
    } else {
      SettingsComes(su, d1, p, s);
      o := if |p| % 6 != 0 then Refused([], FrameSizeError)
           else match ReadSettings(p)
                case BadValue(error) => Refused([], error)
                case Listed(values) => Taken([Settings(values)], Ended(d1));
    }
    Assemble(su, d, h, p, s, o);
    PlusNone(o);
  }

  lemma ContinuationAgrees(su: Setup, d: Decoder, h: Bytes, p: Bytes, s: Bytes)
    requires Between(d) && |h| == 9 && LengthIn(h) == |p| && h[3] == 9
    requires PrefixError(d.greeted, d.block.stream, d.limits.maxFrame, h).None?
    ensures Agrees(su, d, h, p, s)
  {
    hide Be, PrefixError, Comes, Valid, HasFlag, FragmentMeaning;
    Starts(d, h, p);
    ParsedIs(h);
    assert p + [] == p;
    var d1 := AtContent(d, h, p);
    H2Headers.EntryIsValid(d);
    var o := FragmentMeaning(su, Ended(d1), d1.frame.stream, d1.block, p, d1.frame.endHeaders);
    ContinuationComes(su, d1, p, s);
    Assemble(su, d, h, p, s, o);
    PlusNone(o);
  }

  lemma ContinuationComes(su: Setup, d: Decoder, p: Bytes, s: Bytes)
    requires Valid(d) && d.state == FrameContinuation && d.frame.payload == |p| && d.frame.padding == 0
    ensures Comes(su, d, p, s, FragmentMeaning(su, Ended(d), d.frame.stream, d.block, p, d.frame.endHeaders))
  {
    hide Decode, FragmentMeaning;
    FreeComes(su, d, p + s);
    var d1 := d.(state := HeaderLoop);
    FragmentComes(su, d1, p, [], s);
    var o := FragmentMeaning(su, Ended(d1), d.frame.stream, d.block, p, d.frame.endHeaders);
    assert p + [] == p && [] + p == p;
    Chain(su, d, [], [], d1, p, s, o);
    PlusNone(o);
  }

  /** The content of a HEADERS frame: the fragment, behind the priority fields if there are any. */
  lemma HeadersContentComes(su: Setup, d: Decoder, c: Bytes, pads: Bytes, s: Bytes)
    requires Valid(d) && d.scratch == [] && d.frame.kind == HEADERS
    requires d.state == (if d.frame.priority then PriorityBlock else FrameHeaders)
    requires d.frame.payload == |c| && d.frame.padding == |pads|
    ensures var b := Block(d.frame.stream, false, d.frame.endStream, NO_FIELDS);
            var lead := if d.frame.priority then 5 else 0;
            Comes(su, d, c + pads, s,
                  Plus([HeadersBegin(d.frame.stream)],
                       FragmentMeaning(su, Ended(d), d.frame.stream, b, c[lead..], d.frame.endHeaders)))
  {
    hide Decode, FragmentMeaning;
    if d.frame.priority {
      var rest := c[5..] + pads;
      FixedComes(su, d, c[..5], rest + s);
      var d1 := Used(d, 5).(state := FrameHeaders);
      HeadersBlockComes(su, d1, c[5..], pads, s);
      var b := Block(d.frame.stream, false, d.frame.endStream, NO_FIELDS);
      var o := Plus([HeadersBegin(d.frame.stream)],
                    FragmentMeaning(su, Ended(d), d.frame.stream, b, c[5..], d.frame.endHeaders));
      assert Ended(d1) == Ended(d) && c + pads == c[..5] + rest;
      Chain(su, d, c[..5], [], d1, rest, s, o);
      PlusNone(o);
    } else {
      assert c[0..] == c;
      HeadersBlockComes(su, d, c, pads, s);
    }
  }

  lemma HeadersAgree(su: Setup, d: Decoder, h: Bytes, p: Bytes, s: Bytes)
    requires Between(d) && |h| == 9 && LengthIn(h) == |p| && h[3] == 1
    requires PrefixError(d.greeted, d.block.stream, d.limits.maxFrame, h).None?
    ensures Agrees(su, d, h, p, s)
  {
    hide Be, PrefixError, Comes, Valid, HasFlag, FragmentMeaning, IsPadded;
    H2Headers.EntryIsValid(d);
    LeadComes(su, d, h, p, s);
    if Unpad(h, p).Content? {
      var c, d1 := Unpad(h, p).bytes, AtContent(d, h, p);
      Starts(d, h, p);
      ParsedIs(h);
      if |c| < Required(FirstState(h)) {
        TooShort(su, d, h, p, s);
      } else {
        HeadersContentComes(su, d1, c, PadsOf(h, p), s);
        var b := Block(d1.frame.stream, false, d1.frame.endStream, NO_FIELDS);
        var lead := if d1.frame.priority then 5 else 0;
        var o := Plus([HeadersBegin(d1.frame.stream)],
                      FragmentMeaning(su, Ended(d1), d1.frame.stream, b, c[lead..], d1.frame.endHeaders));
        Assemble(su, d, h, p, s, o);
        PlusNone(o);
      }
    }
  }

  lemma PushContentComes(su: Setup, d: Decoder, c: Bytes, pads: Bytes, s: Bytes)
    requires Valid(d) && d.scratch == [] && d.state == FramePush && d.frame.payload == |c| && d.frame.padding == |pads|
    ensures var promised := Be(c[..4]) % 0x8000_0000;
            Comes(su, d, c + pads, s,
                  if su.isServer || !d.limits.enablePush || promised == 0 || promised % 2 == 1 then
                    Refused([], ProtocolError)
                  else
                    Plus([PushBegin(d.frame.stream, promised)],
                         FragmentMeaning(su, Ended(d), d.frame.stream, Block(d.frame.stream, true, false, NO_FIELDS),
                                         c[4..], d.frame.endHeaders)))
  {
    hide Decode, FragmentMeaning, Be, FirePrefix, FirePaddingLen, FireSettingsEntry;
    var promised, rest := Be(c[..4]) % 0x8000_0000, c[4..] + pads;
    assert c + pads == c[..4] + rest;
    FixedComes(su, d, c[..4], rest + s);
    if su.isServer || !d.limits.enablePush || promised == 0 || promised % 2 == 1 {
      Halt(su, d, c[..4], rest, s, [], ProtocolError);
    } else {
      var b := Block(d.frame.stream, true, false, NO_FIELDS);
      var d1 := Used(d, 4).(state := HeaderLoop, block := b);
      FragmentComes(su, d1, c[4..], pads, s);
      var o := FragmentMeaning(su, Ended(d1), d.frame.stream, b, c[4..], d.frame.endHeaders);
      SameFragment(su, Ended(d1), Ended(d), d.frame.stream, b, c[4..], d.frame.endHeaders);
      Chain(su, d, c[..4], [PushBegin(d.frame.stream, promised)], d1, rest, s, o);
    }
  }

  lemma PushAgrees(su: Setup, d: Decoder, h: Bytes, p: Bytes, s: Bytes)
    requires Between(d) && |h| == 9 && LengthIn(h) == |p| && h[3] == 5
    requires PrefixError(d.greeted, d.block.stream, d.limits.maxFrame, h).None?
    ensures Agrees(su, d, h, p, s)
  {
    hide Be, PrefixError, Comes, Valid, HasFlag, FragmentMeaning, IsPadded;
    H2Headers.EntryIsValid(d);
    LeadComes(su, d, h, p, s);
    if Unpad(h, p).Content? {
      var c, d1 := Unpad(h, p).bytes, AtContent(d, h, p);
      Starts(d, h, p);
      ParsedIs(h);
      if |c| < 4 {
        TooShort(su, d, h, p, s);
      } else {
        PushContentComes(su, d1, c, PadsOf(h, p), s);
        var promised := Be(c[..4]) % 0x8000_0000;
        var o := if su.isServer || !d1.limits.enablePush || promised == 0 || promised % 2 == 1 then
                   Refused([], ProtocolError)
                 else
                   Plus([PushBegin(d1.frame.stream, promised)],
                        FragmentMeaning(su, Ended(d1), d1.frame.stream,
                                        Block(d1.frame.stream, true, false, NO_FIELDS), c[4..], d1.frame.endHeaders));
        Assemble(su, d, h, p, s, o);
        PlusNone(o);
      }
    }
  }

  /**
   * For every decoder between frames, every frame and whatever follows: the decoder reports, refuses and keeps what
   * the frame means, and is between frames again.
   */
  lemma FrameComes(su: Setup, d: Decoder, h: Bytes, p: Bytes, s: Bytes)
    requires Between(d) && |h| == 9 && LengthIn(h) == |p|
    ensures Comes(su, d, h + p, s, Meaning(su, d, h, p))
    ensures Meaning(su, d, h, p).Taken? ==> Between(Meaning(su, d, h, p).d)
  {
    hide Be, PrefixError, Comes, PayloadMeaning;
    LeadComes(su, d, h, p, s);
    if PrefixError(d.greeted, d.block.stream, d.limits.maxFrame, h).None? {
      MeaningIsBetween(su, d.(greeted := true), h, p);
      match h[3] {
        case 0 => DataAgrees(su, d, h, p, s);
        case 1 => HeadersAgree(su, d, h, p, s);
        case 3 => ExactAgrees(su, d, h, p, s);
        case 4 => SettingsAgree(su, d, h, p, s);
        case 5 => PushAgrees(su, d, h, p, s);
        case 6 => ExactAgrees(su, d, h, p, s);
        case 8 => ExactAgrees(su, d, h, p, s);
        case 9 => ContinuationAgrees(su, d, h, p, s);
        case _ => OtherAgrees(su, d, h, p, s);
      }
    }
  }

  lemma MeaningIsBetween(su: Setup, d: Decoder, h: Bytes, p: Bytes)
    requires Between(d) && |h| == 9
    ensures PayloadMeaning(su, d, h, p).Taken? ==> Between(PayloadMeaning(su, d, h, p).d)
  {
    hide Be, Hpack.DecodeAll, H2Headers.TakeEvents, BlockEnd, ReadSettings, Body;
  }
}
