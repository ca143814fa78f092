/**
 * The HTTP/2 frame encoder: the frame prefix, the frames that are encoded when
 * they are created, and DATA; with the proof that the decoder reads them back.
 */
module H2Frames {
  import opened Octets
  import opened H2Decoder

  // ----- big-endian numbers

  function BeBytes(n: nat, k: nat): (s: Bytes)
    ensures |s| == k
    decreases k
  {
    if k == 0 then [] else BeBytes(n / 256, k - 1) + [n % 256]
  }

  function Power256(k: nat): nat {
    if k == 0 then 1 else 256 * Power256(k - 1)
  }

  lemma {:induction false} BeRoundTrip(n: nat, k: nat)
    requires n < Power256(k)
    ensures Be(BeBytes(n, k)) == n
  {
    if k > 0 {
      BeRoundTrip(n / 256, k - 1);
      var s := BeBytes(n, k);
      assert s[..k - 1] == BeBytes(n / 256, k - 1);
    }
  }

  lemma Powers()
    ensures Power256(2) == 0x1_0000 && Power256(3) == 0x100_0000 && Power256(4) == 0x1_0000_0000
  {
    assert Power256(1) == 256;
    assert Power256(2) == 256 * Power256(1);
    assert Power256(3) == 256 * Power256(2);
  }

  // ----- the prefix

  function Code(kind: FrameType): byte
    requires kind != UNKNOWN
  {
    match kind
    case DATA => 0
    case HEADERS => 1
    case PRIORITY => 2
    case RST_STREAM => 3
    case SETTINGS => 4
    case PUSH_PROMISE => 5
    case PING => 6
    case GOAWAY => 7
    case WINDOW_UPDATE => 8
    case CONTINUATION => 9
  }

  /** The flags a frame may carry; `first` is END_STREAM or ACK. */
  datatype Flags = Flags(first: bool, endHeaders: bool, padded: bool, priority: bool)

  const NO_FLAGS := Flags(false, false, false, false)

  function FlagByte(f: Flags): byte {
    (if f.first then 1 else 0) + (if f.endHeaders then 4 else 0) + (if f.padded then 8 else 0) +
        (if f.priority then 0x20 else 0)
  }

  lemma FlagsRoundTrip(f: Flags)
    ensures Flag(FlagByte(f), 1) == f.first && Flag(FlagByte(f), 4) == f.endHeaders
    ensures Flag(FlagByte(f), 8) == f.padded && Flag(FlagByte(f), 0x20) == f.priority
  {
  }

  function EncodePrefix(kind: FrameType, flags: Flags, stream: nat, length: nat): (s: Bytes)
    requires kind != UNKNOWN
    ensures |s| == 9
  {
    BeBytes(length, 3) + [Code(kind), FlagByte(flags)] + BeBytes(stream, 4)
  }

  const STREAM_MAX: nat := 0x7FFF_FFFF
  const PAYLOAD_MAX: nat := 0xFF_FFFF

  /** The frame in progress that a prefix announces. */
  function Announced(kind: FrameType, flags: Flags, stream: nat, length: nat): Frame {
    Frame(kind, stream, length, 0,
          (kind == SETTINGS || kind == PING) && flags.first,
          (kind == DATA || kind == HEADERS) && flags.first,
          (kind == HEADERS || kind == PUSH_PROMISE || kind == CONTINUATION) && flags.endHeaders,
          kind == PRIORITY || (kind == HEADERS && flags.priority))
  }

  lemma PrefixRoundTrip(kind: FrameType, flags: Flags, stream: nat, length: nat)
    requires kind != UNKNOWN && stream <= STREAM_MAX && length <= PAYLOAD_MAX
    ensures var s := EncodePrefix(kind, flags, stream, length);
            && ParsePrefix(s) == Announced(kind, flags, stream, length)
            && (Padded(s) <==> kind in {DATA, HEADERS, PUSH_PROMISE} && flags.padded)
  {
    hide Be, BeBytes, Flag, FlagByte;
    Powers();
    FlagsRoundTrip(flags);
    BeRoundTrip(length, 3);
    BeRoundTrip(stream, 4);
    var s := EncodePrefix(kind, flags, stream, length);
    assert s[..3] == BeBytes(length, 3) && s[5..] == BeBytes(stream, 4) && s[3] == Code(kind) &&
           s[4] == FlagByte(flags);
  }

  // ----- frames

  datatype OutFrame =
    | OutData(stream: nat, body: Bytes, pad: byte, end: bool)
    | OutPriority(stream: nat, dependency: nat, exclusive: bool, weight: byte)
    | OutReset(stream: nat, code: nat)
    | OutSettings(values: seq<(nat, nat)>)
    | OutSettingsAck
    | OutPing(ack: bool, data: Bytes)
    | OutGoaway(last: nat, code: nat, debug: Bytes)
    | OutWindow(stream: nat, increment: nat)

  function Zeros(n: nat): (s: Bytes)
    ensures |s| == n
  {
    seq(n, _ => 0)
  }

  function OneSetting(v: (nat, nat)): (s: Bytes)
    ensures |s| == 6
  {
    BeBytes(v.0, 2) + BeBytes(v.1, 4)
  }

  function SettingBytes(values: seq<(nat, nat)>): (s: Bytes)
    ensures |s| == 6 * |values|
  {
    if values == [] then [] else OneSetting(values[0]) + SettingBytes(values[1..])
  }

  function PriorityBytes(dependency: nat, exclusive: bool, weight: byte): (s: Bytes)
    ensures |s| == 5
  {
    BeBytes(dependency + (if exclusive then 0x8000_0000 else 0), 4) + [weight]
  }

  /** Padding is a length byte before the payload and that many zeros after it; a length of zero means none. */
  function Pad(pad: byte, payload: Bytes): Bytes {
    if pad == 0 then payload else [pad] + payload + Zeros(pad)
  }

  function Kind(f: OutFrame): FrameType {
    match f
    case OutData(_, _, _, _) => DATA
    case OutPriority(_, _, _, _) => PRIORITY
    case OutReset(_, _) => RST_STREAM
    case OutSettings(_) => SETTINGS
    case OutSettingsAck => SETTINGS
    case OutPing(_, _) => PING
    case OutGoaway(_, _, _) => GOAWAY
    case OutWindow(_, _) => WINDOW_UPDATE
  }

  function FlagsOf(f: OutFrame): Flags {
    match f
    case OutData(_, _, pad, end) => Flags(end, false, pad > 0, false)
    case OutSettingsAck => Flags(true, false, false, false)
    case OutPing(ack, _) => Flags(ack, false, false, false)
    case _ => NO_FLAGS
  }

  function StreamOf(f: OutFrame): nat {
    match f
    case OutData(s, _, _, _) => s
    case OutPriority(s, _, _, _) => s
    case OutReset(s, _) => s
    case OutWindow(s, _) => s
    case _ => 0
  }

  function Payload(f: OutFrame): Bytes {
    match f
    case OutData(_, body, pad, _) => Pad(pad, body)
    case OutPriority(_, dependency, exclusive, weight) => PriorityBytes(dependency, exclusive, weight)
    case OutReset(_, code) => BeBytes(code, 4)
    case OutSettings(values) => SettingBytes(values)
    case OutSettingsAck => []
    case OutPing(_, data) => data
    case OutGoaway(last, code, debug) => BeBytes(last, 4) + BeBytes(code, 4) + debug
    case OutWindow(_, increment) => BeBytes(increment, 4)
  }

  function Encode(f: OutFrame): Bytes {
    EncodePrefix(Kind(f), FlagsOf(f), StreamOf(f), |Payload(f)|) + Payload(f)
  }

  const U32_MAX: nat := 0xFFFF_FFFF

  predicate ValidStream(s: nat) {
    1 <= s <= STREAM_MAX
  }

  /** The bounds that the encoder checks or presumes. */
  ghost predicate InBounds(f: OutFrame) {
    && |Payload(f)| <= PAYLOAD_MAX
    && match f
       case OutData(s, _, _, _) => ValidStream(s)
       case OutPriority(s, dependency, _, _) => ValidStream(s) && ValidStream(dependency)
       case OutReset(s, code) => ValidStream(s) && code <= U32_MAX
       case OutSettings(values) => forall i | 0 <= i < |values| ::
           1 <= values[i].0 <= 6 && SettingOk(values[i].0, values[i].1)
       case OutSettingsAck => true
       case OutPing(_, data) => |data| == 8
       case OutGoaway(last, code, _) => last <= STREAM_MAX && code <= U32_MAX
       case OutWindow(s, increment) => s <= STREAM_MAX && increment <= STREAM_MAX
  }

  /** What the decoder reports of a frame. */
  function Report(f: OutFrame): seq<Event> {
    match f
    case OutData(s, body, pad, end) =>
      [DataBegin(s, |Payload(f)|, if pad == 0 then 0 else pad + 1, end)] + Body(s, body)
      + ([DataEnd(s)] + (if end then [EndStream(s)] else []))
    case OutPriority(_, _, _, _) => []
    case OutReset(s, code) => [Reset(s, code)]
    case OutSettings(values) => [Settings(values)]
    case OutSettingsAck => [SettingsAck]
    case OutPing(ack, data) => [Ping(ack, data)]
    case OutGoaway(last, code, debug) => [Goaway(last, code, debug)]
    case OutWindow(s, increment) => [Window(s, increment)]
  }

  /** Between frames, with no header block in progress. */
  predicate Idle(d: Decoder) {
    Valid(d) && d.state == Prefix && d.scratch == [] && d.frame == NO_FRAME && d.block == NO_BLOCK && d.greeted &&
        d.settings == []
    && d.goaway == (0, 0, [])
  }

  function After(d: Decoder, f: OutFrame): Decoder
    requires f.OutSettingsAck? ==> d.upcoming != []
  {
    if f.OutSettingsAck? then Adopt(d, d.upcoming[0]).(upcoming := d.upcoming[1..]) else d
  }

  // ----- following the decoder

  /** A fixed-size state that finds all its bytes. */
  lemma RunFixed(su: Setup, d: Decoder, bytes: Bytes, s: Bytes)
    requires Valid(d) && IsFixed(d.state) && d.scratch == [] && |bytes| == Required(d.state)
    requires FireFixed(su, d, bytes).Fired?
    ensures var f := FireFixed(su, d, bytes);
            Valid(f.d) && Decode(su, d, bytes + s) == Then(f.log, Decode(su, f.d, s))
  {
    hide FireFixed;
    assert Required(d.state) - |d.scratch| == |bytes|;
    assert (bytes + s)[..|bytes|] == bytes && (bytes + s)[|bytes|..] == s && [] + bytes == bytes;
    assert [] + FireFixed(su, d, bytes).log == FireFixed(su, d, bytes).log;
    FireFixedOk(su, d, bytes);
    StepOk(su, d, bytes + s);
  }

  lemma RunBroken(su: Setup, d: Decoder, bytes: Bytes, s: Bytes)
    requires Valid(d) && IsFixed(d.state) && d.scratch == [] && |bytes| == Required(d.state)
    requires FireFixed(su, d, bytes).Broken?
    ensures var f := FireFixed(su, d, bytes);
            Decode(su, d, bytes + s) == Run(f.log, Failed(f.error))
  {
    hide FireFixed;
    assert Required(d.state) - |d.scratch| == |bytes|;
    assert (bytes + s)[..|bytes|] == bytes && [] + bytes == bytes;
  }

  lemma RunFree(su: Setup, d: Decoder, s: Bytes)
    requires Valid(d) && IsFree(d.state) && FireFree(su, d).Fired?
    ensures var f := FireFree(su, d);
            Valid(f.d) && Decode(su, d, s) == Then(f.log, Decode(su, f.d, s))
  {
    hide FireFree, Valid;
    FireFreeOk(su, d);
    StepOk(su, d, s);
    assert [] + FireFree(su, d).log == FireFree(su, d).log;
  }

  /** A streaming state that finds all it wants. */
  lemma RunStream(su: Setup, d: Decoder, bytes: Bytes, s: Bytes)
    requires Valid(d) && IsStream(d.state) && d.state != Preface && |bytes| == Wanted(d)
    requires FireEnd(Absorb(d, bytes).0).Fired?
    ensures var (d1, log) := Absorb(d, bytes);
            var f := FireEnd(d1);
            Valid(f.d) && Decode(su, d, bytes + s) == Then(log + f.log, Decode(su, f.d, s))
  {
    hide Absorb, FireEnd;
    assert (bytes + s)[..|bytes|] == bytes && (bytes + s)[|bytes|..] == s;
    AbsorbOk(d, bytes);
    FireEndOk(Absorb(d, bytes).0);
    StepOk(su, d, bytes + s);
  }

  lemma ThenNone(r: Run)
    ensures Then([], r) == r
  {
  }

  /** The prefix of a frame that the decoder accepts. */
  lemma RunPrefix(su: Setup, d: Decoder, kind: FrameType, flags: Flags, stream: nat, length: nat, s: Bytes)
    requires Valid(d) && d.state == Prefix && d.scratch == [] && d.greeted
    requires kind != UNKNOWN && stream <= STREAM_MAX && length <= PAYLOAD_MAX
    requires var f := Announced(kind, flags, stream, length);
             StreamIdOk(kind, stream) && BlockOk(d.block, f) && length <= d.limits.maxFrame
    requires !flags.padded && length >= Required(if Announced(kind, flags, stream, length).priority then PriorityBlock
                                                 else StateOf(kind))
    ensures var f := Announced(kind, flags, stream, length);
            var d1 := d.(frame := f, state := if f.priority then PriorityBlock else StateOf(kind));
            && Valid(d1)
            && Decode(su, d, EncodePrefix(kind, flags, stream, length) + s) ==
               Then(if kind == DATA then [DataBegin(stream, length, 0, flags.first)] else [], Decode(su, d1, s))
  {
    hide EncodePrefix, ParsePrefix, Padded;
    PrefixRoundTrip(kind, flags, stream, length);
    RunFixed(su, d, EncodePrefix(kind, flags, stream, length), s);
  }

  /** A frame that is one fixed-size payload. */
  lemma SimpleRoundTrip(su: Setup, d: Decoder, f: OutFrame, s: Bytes)
    requires Idle(d) && InBounds(f) && |Payload(f)| <= d.limits.maxFrame
    requires f.OutReset? || f.OutPing? || f.OutWindow?
    ensures Decode(su, d, Encode(f) + s) == Then(Report(f), Decode(su, d, s))
  {
    hide Decode, EncodePrefix, BeBytes, Be, Valid;
    var kind, flags, stream, payload := Kind(f), FlagsOf(f), StreamOf(f), Payload(f);
    var prefix := EncodePrefix(kind, flags, stream, |payload|);
    assert Encode(f) + s == prefix + (payload + s);
    assert Valid(d);
    RunPrefix(su, d, kind, flags, stream, |payload|, payload + s);
    var d1 := d.(frame := Announced(kind, flags, stream, |payload|), state := StateOf(kind));
    SimplePayload(su, d, d1, f);
    RunFixed(su, d1, payload, s);
    ThenNone(Decode(su, d1, payload + s));
  }

  lemma SimplePayload(su: Setup, d: Decoder, d1: Decoder, f: OutFrame)
    requires Idle(d) && InBounds(f) && (f.OutReset? || f.OutPing? || f.OutWindow?)
    requires d1 == d.(frame := Announced(Kind(f), FlagsOf(f), StreamOf(f), |Payload(f)|), state := StateOf(Kind(f)))
    ensures FireFixed(su, d1, Payload(f)) == Fired(d, Report(f))
  {
    hide BeBytes, Be, FirePrefix, FirePaddingLen, FireSettingsEntry, FirePush, Valid;
    Powers();
    if f.OutReset? {
      BeRoundTrip(f.code, 4);
    } else if f.OutWindow? {
      BeRoundTrip(f.increment, 4);
    }
  }

  lemma PriorityRoundTrip(su: Setup, d: Decoder, f: OutFrame, s: Bytes)
    requires Idle(d) && InBounds(f) && |Payload(f)| <= d.limits.maxFrame && f.OutPriority?
    ensures Decode(su, d, Encode(f) + s) == Decode(su, d, s)
  {
    hide Decode, EncodePrefix, BeBytes, Be;
    var payload := Payload(f);
    var prefix := EncodePrefix(PRIORITY, NO_FLAGS, f.stream, 5);
    assert Encode(f) + s == prefix + (payload + s);
    RunPrefix(su, d, PRIORITY, NO_FLAGS, f.stream, 5, payload + s);
    var d1 := d.(frame := Announced(PRIORITY, NO_FLAGS, f.stream, 5), state := PriorityBlock);
    RunFixed(su, d1, payload, s);
    var d2 := d1.(frame := d1.frame.(payload := 0), state := FramePriority);
    RunFree(su, d2, s);
    ThenNone(Decode(su, d1, payload + s));
    ThenNone(Decode(su, d2, s));
    ThenNone(Decode(su, d, s));
  }

  lemma AckRoundTrip(su: Setup, d: Decoder, s: Bytes)
    requires Idle(d) && d.upcoming != []
    ensures Valid(After(d, OutSettingsAck))
    ensures Decode(su, d, Encode(OutSettingsAck) + s) == Then([SettingsAck], Decode(su, After(d, OutSettingsAck), s))
  {
    hide Decode, EncodePrefix;
    var f := OutSettingsAck;
    var prefix := EncodePrefix(SETTINGS, FlagsOf(f), 0, 0);
    assert Encode(f) + s == prefix + s;
    RunPrefix(su, d, SETTINGS, FlagsOf(f), 0, 0, s);
    var d1 := d.(frame := Announced(SETTINGS, FlagsOf(f), 0, 0), state := SettingsBegin);
    RunFree(su, d1, s);
    ThenNone(Decode(su, d1, s));
  }

  // ----- SETTINGS

  lemma SettingFires(su: Setup, d: Decoder, v: (nat, nat))
    requires d.state == SettingsEntry && d.frame.payload >= 6 && 1 <= v.0 <= 6 && SettingOk(v.0, v.1)
    ensures FireFixed(su, d, OneSetting(v)) == Fired(WithSetting(d, v), [])
  {
    hide BeBytes, Be, FirePrefix, FirePaddingLen, FirePush;
    var bytes := OneSetting(v);
    Powers();
    BeRoundTrip(v.0, 2);
    BeRoundTrip(v.1, 4);
    assert bytes[..2] == BeBytes(v.0, 2) && bytes[2..] == BeBytes(v.1, 4);
  }

  /** One more setting read. */
  function WithSetting(d: Decoder, v: (nat, nat)): Decoder
    requires d.frame.payload >= 6
  {
    Used(d, 6).(settings := d.settings + [v], state := SettingsLoop, scratch := [])
  }

  lemma MoreSettings(su: Setup, d: Decoder)
    requires Valid(d) && d.state == SettingsLoop && d.frame.payload >= 6
    ensures Valid(d.(state := SettingsEntry)) && FireFree(su, d) == Fired(d.(state := SettingsEntry), [])
  {
  }

  lemma SettingEntry(su: Setup, d: Decoder, v: (nat, nat), s: Bytes)
    requires Valid(d) && d.state == SettingsLoop && d.scratch == [] && d.frame.payload >= 6
    requires 1 <= v.0 <= 6 && SettingOk(v.0, v.1)
    ensures Valid(WithSetting(d, v)) && Decode(su, d, OneSetting(v) + s) == Decode(su, WithSetting(d, v), s)
  {
    hide Decode, OneSetting, FireFixed, FireFree, SettingOk, Valid;
    var d1 := d.(state := SettingsEntry);
    MoreSettings(su, d);
    SettingFires(su, d1, v);
    assert WithSetting(d1, v) == WithSetting(d, v);
    RunFree(su, d, OneSetting(v) + s);
    RunFixed(su, d1, OneSetting(v), s);
    ThenNone(Decode(su, d1, OneSetting(v) + s));
    ThenNone(Decode(su, WithSetting(d, v), s));
  }

  lemma {:induction false} SettingEntries(su: Setup, d: Decoder, values: seq<(nat, nat)>, s: Bytes)
    requires Valid(d) && d.state == SettingsLoop && d.scratch == [] && d.frame.payload == 6 * |values|
    requires forall i | 0 <= i < |values| :: 1 <= values[i].0 <= 6 && SettingOk(values[i].0, values[i].1)
    ensures var d' := Used(d, 6 * |values|).(settings := d.settings + values);
            Valid(d') && Decode(su, d, SettingBytes(values) + s) == Decode(su, d', s)
    decreases |values|
  {
    hide Decode, OneSetting, SettingOk, Valid;
    if values == [] {
      assert d.settings + values == d.settings && SettingBytes(values) + s == s;
    } else {
      var rest := SettingBytes(values[1..]) + s;
      assert SettingBytes(values) + s == OneSetting(values[0]) + rest;
      SettingEntry(su, d, values[0], rest);
      SettingEntries(su, WithSetting(d, values[0]), values[1..], s);
      assert (d.settings + [values[0]]) + values[1..] == d.settings + values;
    }
  }

  lemma SettingsRoundTrip(su: Setup, d: Decoder, f: OutFrame, s: Bytes)
    requires Idle(d) && InBounds(f) && |Payload(f)| <= d.limits.maxFrame && f.OutSettings?
    ensures Decode(su, d, Encode(f) + s) == Then([Settings(f.values)], Decode(su, d, s))
  {
    hide Decode, EncodePrefix, SettingBytes, SettingOk;
    var payload, n := Payload(f), 6 * |f.values|;
    var prefix := EncodePrefix(SETTINGS, NO_FLAGS, 0, n);
    assert Encode(f) + s == prefix + (payload + s);
    RunPrefix(su, d, SETTINGS, NO_FLAGS, 0, n, payload + s);
    var d1 := d.(frame := Announced(SETTINGS, NO_FLAGS, 0, n), state := SettingsBegin);
    RunFree(su, d1, payload + s);
    var d2 := d1.(state := SettingsLoop);
    SettingEntries(su, d2, f.values, s);
    assert d2.settings + f.values == f.values;
    var d3 := Used(d2, n).(settings := f.values);
    RunFree(su, d3, s);
    ThenNone(Decode(su, d1, payload + s));
    ThenNone(Decode(su, d2, payload + s));
  }

  // ----- GOAWAY

  lemma GoawayFires(su: Setup, d: Decoder, last: nat, code: nat)
    requires d.state == FrameGoaway && d.frame.payload >= 8 && last <= STREAM_MAX && code <= U32_MAX
    ensures FireFixed(su, d, BeBytes(last, 4) + BeBytes(code, 4)) ==
            Fired(Used(d, 8).(goaway := (last, code, []), state := GoawayDebug, scratch := []), [])
  {
    hide BeBytes, Be, FirePrefix, FirePaddingLen, FirePush, FireSettingsEntry;
    var head := BeBytes(last, 4) + BeBytes(code, 4);
    Powers();
    BeRoundTrip(last, 4);
    BeRoundTrip(code, 4);
    assert head[..4] == BeBytes(last, 4) && head[4..] == BeBytes(code, 4);
  }

  lemma DebugRuns(su: Setup, d: Decoder, debug: Bytes, s: Bytes)
    requires Valid(d) && d.state == GoawayDebug && d.frame.payload == |debug| && d.frame.padding == 0 &&
             d.goaway.2 == []
    ensures var d' := d.(state := Prefix, frame := NO_FRAME, goaway := (0, 0, []));
            && Valid(d')
            && Decode(su, d, debug + s) == Then([Goaway(d.goaway.0, d.goaway.1, debug)], Decode(su, d', s))
  {
    hide Decode;
    assert [] + debug == debug;
    RunStream(su, d, debug, s);
    assert [] + [Goaway(d.goaway.0, d.goaway.1, debug)] == [Goaway(d.goaway.0, d.goaway.1, debug)];
  }

  lemma GoawayRoundTrip(su: Setup, d: Decoder, f: OutFrame, s: Bytes)
    requires Idle(d) && InBounds(f) && |Payload(f)| <= d.limits.maxFrame && f.OutGoaway?
    ensures Decode(su, d, Encode(f) + s) == Then([Goaway(f.last, f.code, f.debug)], Decode(su, d, s))
  {
    hide Decode, EncodePrefix, BeBytes, FireFixed;
    var head, n := BeBytes(f.last, 4) + BeBytes(f.code, 4), |Payload(f)|;
    var prefix := EncodePrefix(GOAWAY, NO_FLAGS, 0, n);
    assert Encode(f) + s == prefix + (head + (f.debug + s));
    RunPrefix(su, d, GOAWAY, NO_FLAGS, 0, n, head + (f.debug + s));
    var d1 := d.(frame := Announced(GOAWAY, NO_FLAGS, 0, n), state := FrameGoaway);
    GoawayFires(su, d1, f.last, f.code);
    RunFixed(su, d1, head, f.debug + s);
    var d2 := Used(d1, 8).(goaway := (f.last, f.code, []), state := GoawayDebug);
    DebugRuns(su, d2, f.debug, s);
    ThenNone(Decode(su, d1, head + (f.debug + s)));
    ThenNone(Decode(su, d2, f.debug + s));
  }

  // ----- DATA

  lemma PaddingRuns(su: Setup, d: Decoder, s: Bytes)
    requires Valid(d) && d.state == Padding && d.frame.payload == 0
    ensures var d' := d.(state := Prefix, frame := NO_FRAME);
            Valid(d') && Decode(su, d, Zeros(d.frame.padding) + s) == Decode(su, d', s)
  {
    hide Decode, Zeros;
    RunStream(su, d, Zeros(d.frame.padding), s);
    ThenNone(Decode(su, d.(state := Prefix, frame := NO_FRAME), s));
  }

  lemma DataBodyRuns(su: Setup, d: Decoder, body: Bytes, s: Bytes)
    requires Valid(d) && d.state == FrameData && d.frame.payload == |body|
    ensures var d' := d.(state := Prefix, frame := NO_FRAME);
            && Valid(d')
            && Decode(su, d, body + (Zeros(d.frame.padding) + s)) ==
               Then(Body(d.frame.stream, body) +
                    ([DataEnd(d.frame.stream)] + (if d.frame.endStream then [EndStream(d.frame.stream)] else [])),
                    Decode(su, d', s))
  {
    hide Decode, Zeros, Body;
    var tail := Zeros(d.frame.padding) + s;
    RunStream(su, d, body, tail);
    PaddingRuns(su, Used(d, |body|).(state := Padding), s);
  }

  lemma PadRuns(su: Setup, d: Decoder, f: OutFrame, s: Bytes)
    requires Idle(d) && InBounds(f) && |Payload(f)| <= d.limits.maxFrame && f.OutData? && f.pad > 0
    ensures var fr := Announced(DATA, FlagsOf(f), f.stream, |f.body|).(padding := f.pad);
            var d1 := d.(frame := fr, state := FrameData);
            && Valid(d1)
            && Decode(su, d, EncodePrefix(DATA, FlagsOf(f), f.stream, |Payload(f)|) + ([f.pad] + s)) ==
               Then([DataBegin(f.stream, |Payload(f)|, f.pad + 1, f.end)], Decode(su, d1, s))
  {
    hide Decode, EncodePrefix, ParsePrefix, Padded;
    var n := |Payload(f)|;
    PrefixRoundTrip(DATA, FlagsOf(f), f.stream, n);
    RunFixed(su, d, EncodePrefix(DATA, FlagsOf(f), f.stream, n), [f.pad] + s);
    var d1 := d.(frame := Announced(DATA, FlagsOf(f), f.stream, n), state := PaddingLen);
    RunFixed(su, d1, [f.pad], s);
    ThenNone(Decode(su, d1, [f.pad] + s));
  }

  lemma DataRoundTrip(su: Setup, d: Decoder, f: OutFrame, s: Bytes)
    requires Idle(d) && InBounds(f) && |Payload(f)| <= d.limits.maxFrame && f.OutData?
    ensures Decode(su, d, Encode(f) + s) == Then(Report(f), Decode(su, d, s))
  {
    hide Decode, EncodePrefix, Body;
    var n, tail := |Payload(f)|, f.body + (Zeros(f.pad) + s);
    var prefix := EncodePrefix(DATA, FlagsOf(f), f.stream, n);
    var fr := Announced(DATA, FlagsOf(f), f.stream, |f.body|).(padding := f.pad);
    var d1 := d.(frame := fr, state := FrameData);
    if f.pad == 0 {
      assert Zeros(0) == [];
      assert Encode(f) + s == prefix + tail;
      RunPrefix(su, d, DATA, FlagsOf(f), f.stream, n, tail);
    } else {
      assert Encode(f) + s == prefix + ([f.pad] + tail);
      PadRuns(su, d, f, tail);
    }
    DataBodyRuns(su, d1, f.body, s);
    var begin := [DataBegin(f.stream, n, if f.pad == 0 then 0 else f.pad + 1, f.end)];
    var end := [DataEnd(f.stream)] + (if f.end then [EndStream(f.stream)] else []);
    ThenThen(begin, Body(f.stream, f.body) + end, Decode(su, d, s));
    assert begin + (Body(f.stream, f.body) + end) == Report(f);
  }

  /** Every frame within bounds is reported as it was given, and leaves the decoder between frames again. */
  lemma FrameRoundTrip(su: Setup, d: Decoder, f: OutFrame, s: Bytes)
    requires Idle(d) && InBounds(f) && |Payload(f)| <= d.limits.maxFrame && (f.OutSettingsAck? ==> d.upcoming != [])
    ensures Idle(After(d, f)) && Decode(su, d, Encode(f) + s) == Then(Report(f), Decode(su, After(d, f), s))
  {
    hide Decode, Encode, Payload;
    match f {
      case OutData(_, _, _, _) => DataRoundTrip(su, d, f, s);
      case OutPriority(_, _, _, _) =>
        PriorityRoundTrip(su, d, f, s);
        ThenNone(Decode(su, d, s));
      case OutSettings(_) => SettingsRoundTrip(su, d, f, s);
      case OutSettingsAck => AckRoundTrip(su, d, s);
      case OutGoaway(_, _, _) => GoawayRoundTrip(su, d, f, s);
      case _ => SimpleRoundTrip(su, d, f, s);
    }
  }

  // ----- the form of a frame

  /** The flags that section 6 of RFC 7540 gives a frame, and no others. */
  lemma FlagsExactly(f: OutFrame)
    ensures |Encode(f)| == 9 + |Payload(f)|
    ensures Encode(f)[4] ==
            match f
            case OutData(_, _, pad, end) => (if end then 1 else 0) + if pad > 0 then 8 else 0
            case OutSettingsAck => 1
            case OutPing(ack, _) => if ack then 1 else 0
            case _ => 0
  {
    hide BeBytes, Payload;
    assert Encode(f)[4] == FlagByte(FlagsOf(f));
  }

  /** The first bit of a priority block says whether it is exclusive, the next 31 are the dependency. */
  lemma PriorityForm(dependency: nat, exclusive: bool, weight: byte)
    requires dependency <= STREAM_MAX
    ensures var s := PriorityBytes(dependency, exclusive, weight);
            && Low31(Be(s[..4])) == dependency && (Be(s[..4]) >= 0x8000_0000 <==> exclusive) && s[4] == weight
  {
    hide BeBytes, Be;
    var n := dependency + (if exclusive then 0x8000_0000 else 0);
    assert PriorityBytes(dependency, exclusive, weight)[..4] == BeBytes(n, 4);
    Powers();
    BeRoundTrip(n, 4);
  }
}
