/**
 * The HTTP/2 frame decoder: a state machine driven by bytes, in which some states
 * need a fixed number of bytes at once, some take what there is of a payload, one
 * feeds the HPACK decoder, and some need no bytes at all.
 */
module H2Decoder {
  import opened Octets
  import opened HpackTable
  import Hpack = HpackDecoder
  import opened H2Fields

  datatype FrameType =
    | DATA | HEADERS | PRIORITY | RST_STREAM | SETTINGS | PUSH_PROMISE | PING | GOAWAY
    | WINDOW_UPDATE | CONTINUATION | UNKNOWN

  datatype State =
    | Prefix | PaddingLen | Padding | PriorityBlock | HeaderLoop | HeaderEntry
    | FrameData | FrameHeaders | FramePriority | FrameReset | SettingsBegin | SettingsLoop | SettingsEntry | FramePush
    | FramePing | FrameGoaway | GoawayDebug | FrameWindow | FrameContinuation | FrameUnknown
    | Preface

  datatype Error = FrameSizeError | ProtocolError | FlowControlError | CompressionError | TableLost

  /** What the callbacks report; the bytes of DATA are reported one by one. */
  datatype Event =
    | DataBegin(stream: nat, payload: nat, padding: nat, end: bool)
    | DataByte(stream: nat, value: byte)
    | DataEnd(stream: nat)
    | EndStream(stream: nat)
    | HeadersBegin(stream: nat)
    | PushBegin(stream: nat, promised: nat)
    | Field(stream: nat, header: Header, push: bool, kind: BlockType)
    | HeadersEnd(stream: nat, push: bool, malformed: bool, kind: BlockType)
    | Reset(stream: nat, code: nat)
    | Settings(values: seq<(nat, nat)>)
    | SettingsAck
    | Ping(ack: bool, data: Bytes)
    | Goaway(last: nat, code: nat, debug: Bytes)
    | Window(stream: nat, increment: nat)

  datatype Frame = Frame(
    kind: FrameType,
    stream: nat,
    payload: nat,
    padding: nat,
    ack: bool,
    endStream: bool,
    endHeaders: bool,
    priority: bool)

  /** A header block in progress, if `stream` is not zero, and what has been made of its fields. */
  datatype Block = Block(stream: nat, push: bool, endsStream: bool, fields: Fields)

  datatype Limits = Limits(enablePush: bool, maxFrame: nat, tableSize: nat)

  /** What a decoder is set up with. */
  datatype Setup = Setup(coder: Hpack.Coder, statics: seq<Header>, isServer: bool)

  /**
   * `upcoming` are the limits announced to the peer and not yet acknowledged;
   * `greeting` is what is still to come of the connection preface string.
   */
  datatype Decoder = Decoder(
    state: State,
    scratch: Bytes,
    frame: Frame,
    block: Block,
    settings: seq<(nat, nat)>,
    goaway: (nat, nat, Bytes),
    hpack: Hpack.Decoder,
    limits: Limits,
    upcoming: seq<Limits>,
    greeting: Bytes,
    greeted: bool)

  const NO_FRAME := Frame(DATA, 0, 0, 0, false, false, false, false)
  const NO_BLOCK := Block(0, false, false, NO_FIELDS)

  /** The outcome of a state's work on the bytes it asked for. */
  datatype Fired = Fired(d: Decoder, log: seq<Event>) | Broken(error: Error, log: seq<Event>)

  /** The bytes that a state needs at once. */
  function Required(s: State): nat {
    match s
    case Prefix => 9
    case PaddingLen => 1
    case PriorityBlock => 5
    case HeaderEntry => 1
    case FrameReset => 4
    case SettingsEntry => 6
    case FramePush => 4
    case FramePing => 8
    case FrameGoaway => 8
    case FrameWindow => 4
    case Preface => 1
    case _ => 0
  }

  function Be(s: Bytes): (n: nat)
    decreases |s|
  {
    if s == [] then 0 else 256 * Be(s[..|s| - 1]) + s[|s| - 1]
  }

  /** The low 31 bits. */
  function Low31(n: nat): nat {
    n % 0x8000_0000
  }

  predicate Flag(flags: byte, mask: nat)
    requires mask > 0
  {
    flags / mask % 2 == 1
  }

  function KindOf(raw: byte): FrameType {
    match raw
    case 0 => DATA
    case 1 => HEADERS
    case 2 => PRIORITY
    case 3 => RST_STREAM
    case 4 => SETTINGS
    case 5 => PUSH_PROMISE
    case 6 => PING
    case 7 => GOAWAY
    case 8 => WINDOW_UPDATE
    case 9 => CONTINUATION
    case _ => UNKNOWN
  }

  function StateOf(kind: FrameType): State {
    match kind
    case DATA => FrameData
    case HEADERS => FrameHeaders
    case PRIORITY => FramePriority
    case RST_STREAM => FrameReset
    case SETTINGS => SettingsBegin
    case PUSH_PROMISE => FramePush
    case PING => FramePing
    case GOAWAY => FrameGoaway
    case WINDOW_UPDATE => FrameWindow
    case CONTINUATION => FrameContinuation
    case UNKNOWN => FrameUnknown
  }

  predicate StreamIdOk(kind: FrameType, stream: nat) {
    match kind
    case SETTINGS | PING | GOAWAY => stream == 0
    case WINDOW_UPDATE | UNKNOWN => true
    case _ => stream != 0
  }

  // ----- moving between states

  /** Entering a state fails when the payload left is less than it needs. */
  function Switch(d: Decoder, s: State, log: seq<Event>): Fired {
    if d.frame.payload < Required(s) then Broken(FrameSizeError, log)
    else Fired(d.(state := s, scratch := []), log)
  }

  /** A frame ends with nothing left of it. */
  function Finish(d: Decoder, log: seq<Event>): Fired {
    if d.frame.payload > 0 || d.frame.padding > 0 then Broken(FrameSizeError, log)
    else Fired(d.(state := Prefix, scratch := [], frame := NO_FRAME), log)
  }

  /** `n` bytes of the payload have been used. */
  function Used(d: Decoder, n: nat): Decoder
    requires n <= d.frame.payload
  {
    d.(frame := d.frame.(payload := d.frame.payload - n))
  }

  // ----- states that use a fixed number of bytes

  function ParsePrefix(bytes: Bytes): Frame
    requires |bytes| == 9
  {
    var kind, flags := KindOf(bytes[3]), bytes[4];
    var blocks := kind == HEADERS || kind == PUSH_PROMISE || kind == CONTINUATION;
    Frame(kind, Low31(Be(bytes[5..])), Be(bytes[..3]), 0,
          (kind == SETTINGS || kind == PING) && Flag(flags, 1),
          (kind == DATA || kind == HEADERS) && Flag(flags, 1),
          blocks && Flag(flags, 4),
          kind == PRIORITY || (kind == HEADERS && Flag(flags, 0x20)))
  }

  predicate Padded(bytes: Bytes)
    requires |bytes| == 9
  {
    KindOf(bytes[3]) in {DATA, HEADERS, PUSH_PROMISE} && Flag(bytes[4], 8)
  }

  predicate BlockOk(block: Block, f: Frame) {
    if f.kind == CONTINUATION then block.stream == f.stream else block.stream == 0
  }

  function FirePrefix(d: Decoder, bytes: Bytes): Fired
    requires |bytes| == 9
  {
    var f := ParsePrefix(bytes);
    if !d.greeted && !(f.kind == SETTINGS && !f.ack) then Broken(ProtocolError, [])
    else if !StreamIdOk(f.kind, f.stream) then Broken(ProtocolError, [])
    else if !BlockOk(d.block, f) then Broken(ProtocolError, [])
    else if f.payload > d.limits.maxFrame then Broken(FrameSizeError, [])
    else
      var d1 := d.(frame := f, greeted := true);
      if Padded(bytes) then Switch(d1, PaddingLen, [])
      else EnterPayload(d1, if f.kind == DATA then [DataBegin(f.stream, f.payload, 0, f.endStream)] else [])
  }

  /** The payload proper: the priority block first, if there is one. */
  function EnterPayload(d: Decoder, log: seq<Event>): Fired {
    Switch(d, if d.frame.priority then PriorityBlock else StateOf(d.frame.kind), log)
  }

  function FirePaddingLen(d: Decoder, bytes: Bytes): Fired
    requires |bytes| == 1
  {
    var f := d.frame;
    var pad: nat := bytes[0];
    if pad + 1 > f.payload then Broken(ProtocolError, [])
    else
      EnterPayload(d.(frame := f.(payload := f.payload - (pad + 1), padding := pad)),
                   if f.kind == DATA then [DataBegin(f.stream, f.payload, pad + 1, f.endStream)] else [])
  }

  function FireSettingsEntry(d: Decoder, bytes: Bytes): Fired
    requires |bytes| == 6 && d.frame.payload >= 6
  {
    var id, value := Be(bytes[..2]), Be(bytes[2..]);
    if !(1 <= id < 7) then Switch(Used(d, 6), SettingsLoop, [])
    else if !SettingOk(id, value) then Broken(if id == 4 then FlowControlError else ProtocolError, [])
    else Switch(Used(d, 6).(settings := d.settings + [(id, value)]), SettingsLoop, [])
  }

  predicate SettingOk(id: nat, value: nat) {
    match id
    case 2 => value <= 1
    case 4 => value <= 0x7FFF_FFFF
    case 5 => 16384 <= value <= 16777215
    case _ => value <= 0xFFFF_FFFF
  }

  function FirePush(su: Setup, d: Decoder, bytes: Bytes): Fired
    requires |bytes| == 4 && d.frame.payload >= 4
  {
    var promised := Low31(Be(bytes));
    if !d.limits.enablePush then Broken(ProtocolError, [])
    else if promised == 0 || promised % 2 != 0 || su.isServer then Broken(ProtocolError, [])
    else Switch(Used(d, 4).(block := Block(d.frame.stream, true, false, NO_FIELDS)), HeaderLoop,
                [PushBegin(d.frame.stream, promised)])
  }

  /** A state that needs a fixed, positive number of bytes, given exactly those. */
  function FireFixed(su: Setup, d: Decoder, bytes: Bytes): Fired
    requires |bytes| == Required(d.state) && IsFixed(d.state) && (d.state != Prefix ==> d.frame.payload >= |bytes|)
  {
    match d.state
    case Prefix => FirePrefix(d, bytes)
    case PaddingLen => FirePaddingLen(d, bytes)
    case PriorityBlock => Switch(Used(d, 5), StateOf(d.frame.kind), [])
    case FrameReset => Finish(Used(d, 4), [Reset(d.frame.stream, Be(bytes))])
    case SettingsEntry => FireSettingsEntry(d, bytes)
    case FramePush => FirePush(su, d, bytes)
    case FramePing => Finish(Used(d, 8), [Ping(d.frame.ack, bytes)])
    case FrameGoaway => Switch(Used(d, 8).(goaway := (Low31(Be(bytes[..4])), Be(bytes[4..]), [])), GoawayDebug, [])
    case FrameWindow => Finish(Used(d, 4), [Window(d.frame.stream, Low31(Be(bytes)))])
  }

  predicate IsFixed(s: State) {
    Required(s) > 0 && s != HeaderEntry && s != Preface
  }

  // ----- states that need no bytes

  function FireHeaders(d: Decoder): Fired {
    Switch(d.(block := Block(d.frame.stream, false, d.frame.endStream, NO_FIELDS)), HeaderLoop,
           [HeadersBegin(d.frame.stream)])
  }

  function FireSettingsBegin(d: Decoder): Fired {
    if d.frame.ack then
      if d.frame.payload != 0 then Broken(FrameSizeError, [])
      else if d.upcoming == [] then Broken(ProtocolError, [SettingsAck])
      else Finish(Adopt(d, d.upcoming[0]).(upcoming := d.upcoming[1..]), [SettingsAck])
    else if d.frame.payload % 6 != 0 then Broken(FrameSizeError, [])
    else Switch(d, SettingsLoop, [])
  }

  function Adopt(d: Decoder, l: Limits): Decoder {
    d.(limits := l, hpack := d.hpack.(core := d.hpack.core.(limit := l.tableSize)))
  }

  function FireSettingsLoop(d: Decoder): Fired {
    if d.frame.payload == 0 then Finish(d.(settings := []), [Settings(d.settings)])
    else Switch(d, SettingsEntry, [])
  }

  /** Pseudo-headers are a request's at a server and in a push. */
  function ContextOf(isServer: bool, b: Block): Context {
    Context(isServer || b.push, b.push, b.endsStream)
  }

  function Deliver(stream: nat, push: bool, kind: BlockType, hs: seq<Header>): seq<Event> {
    seq(|hs|, i requires 0 <= i < |hs| => Field(stream, hs[i], push, kind))
  }

  /** What an HPACK entry does to the block. */
  function TakeEvent(isServer: bool, stream: nat, b: Block, e: Hpack.Event): (Block, seq<Event>) {
    if e.Field? then
      var (f, out) := Process(ContextOf(isServer, b), b.fields, e.header);
      (b.(fields := f), Deliver(stream, b.push, f.kind, out))
    else (b, [])
  }

  /** What the end of a block reports. */
  function BlockEnd(isServer: bool, stream: nat, b: Block): seq<Event> {
    var (f, out) := Close(ContextOf(isServer, b), b.fields);
    Deliver(stream, b.push, f.kind, out) + [HeadersEnd(stream, b.push, f.malformed, f.kind)] +
    if b.endsStream then [EndStream(stream)] else []
  }

  function FireHeaderLoop(su: Setup, d: Decoder): Fired {
    if d.frame.payload > 0 then Switch(d, HeaderEntry, [])
    else if d.frame.endHeaders then Switch(d.(block := NO_BLOCK), Padding,
                                           BlockEnd(su.isServer, d.frame.stream, d.block))
    else Switch(d, Padding, [])
  }

  function FireFree(su: Setup, d: Decoder): Fired
    requires IsFree(d.state)
  {
    match d.state
    case FrameHeaders => FireHeaders(d)
    case FramePriority => Finish(d, [])
    case SettingsBegin => FireSettingsBegin(d)
    case SettingsLoop => FireSettingsLoop(d)
    case HeaderLoop => FireHeaderLoop(su, d)
    case FrameContinuation => Switch(d, HeaderLoop, [])
  }

  predicate IsFree(s: State) {
    s in {FrameHeaders, FramePriority, SettingsBegin, SettingsLoop, HeaderLoop, FrameContinuation}
  }

  // ----- states that take what there is, up to an amount

  predicate IsStream(s: State) {
    s in {Padding, FrameData, GoawayDebug, FrameUnknown, Preface}
  }

  /** How many bytes the state still takes. */
  function Wanted(d: Decoder): nat {
    match d.state
    case Padding => d.frame.padding
    case Preface => |d.greeting|
    case _ => d.frame.payload
  }

  function Body(stream: nat, bytes: Bytes): seq<Event> {
    seq(|bytes|, i requires 0 <= i < |bytes| => DataByte(stream, bytes[i]))
  }

  /** The decoder and the report after taking some of the bytes wanted. */
  function Absorb(d: Decoder, bytes: Bytes): (Decoder, seq<Event>)
    requires IsStream(d.state) && |bytes| <= Wanted(d)
  {
    match d.state
    case Padding => (d.(frame := d.frame.(padding := d.frame.padding - |bytes|)), [])
    case Preface => (d.(greeting := d.greeting[|bytes|..]), [])
    case FrameData => (Used(d, |bytes|), Body(d.frame.stream, bytes))
    case GoawayDebug => (Used(d, |bytes|).(goaway := (d.goaway.0, d.goaway.1, d.goaway.2 + bytes)), [])
    case FrameUnknown => (Used(d, |bytes|), [])
  }

  /** Everything wanted has been taken. */
  function FireEnd(d: Decoder): Fired
    requires IsStream(d.state)
  {
    match d.state
    case FrameData =>
      Switch(d, Padding, [DataEnd(d.frame.stream)] + (if d.frame.endStream then [EndStream(d.frame.stream)] else []))
    case GoawayDebug => Finish(d.(goaway := (0, 0, [])), [Goaway(d.goaway.0, d.goaway.1, d.goaway.2)])
    case _ => Finish(d, [])
  }

  // ----- one step of the loop

  datatype StepResult =
    | Wait(d: Decoder, log: seq<Event>)
    | Go(d: Decoder, rest: Bytes, log: seq<Event>)
    | Stop(error: Error, log: seq<Event>)

  function Proceed(f: Fired, before: seq<Event>, rest: Bytes): StepResult {
    match f
    case Fired(d, log) => Go(d, rest, before + log)
    case Broken(error, log) => Stop(error, before + log)
  }

  /** A fixed-size state collects its bytes in the scratch space until it has them all. */
  function StepFixed(su: Setup, d: Decoder, s: Bytes): StepResult
    requires Valid(d) && IsFixed(d.state)
  {
    var missing := Required(d.state) - |d.scratch|;
    if |s| < missing then Wait(d.(scratch := d.scratch + s), [])
    else Proceed(FireFixed(su, d, d.scratch + s[..missing]), [], s[missing..])
  }

  function StepStream(d: Decoder, s: Bytes): StepResult
    requires Valid(d) && IsStream(d.state)
  {
    var n := if |s| < Wanted(d) then |s| else Wanted(d);
    if d.state == Preface && d.greeting[..n] != s[..n] then Stop(ProtocolError, [])
    else
      var (d1, log) := Absorb(d, s[..n]);
      if n < Wanted(d) then Wait(d1, log) else Proceed(FireEnd(d1), log, s[n..])
  }

  /** The HPACK decoder sees no more than the frame's payload. */
  function StepEntry(su: Setup, d: Decoder, s: Bytes): StepResult
    requires Valid(d) && d.state == HeaderEntry
  {
    var n := if |s| < d.frame.payload then |s| else d.frame.payload;
    AfterEntry(su, d, s, n, Hpack.DecodeEntry(su.coder, su.statics, d.hpack, s[..n]))
  }

  /** The first `n` bytes of `s` went to the HPACK decoder. */
  function AfterEntry(su: Setup, d: Decoder, s: Bytes, n: nat, r: Hpack.EntryResult): StepResult
    requires n <= |s| && n <= d.frame.payload && (r.Complete? ==> |r.rest| <= n)
  {
    match r
    case Fail => Stop(CompressionError, [])
    case Lost => Stop(TableLost, [])
    case Ongoing(h) =>
      var d1 := Used(d, n).(hpack := h);
      if d1.frame.payload > 0 then Wait(d1, [])
      else if d1.frame.endHeaders then Stop(CompressionError, [])
      else Proceed(Switch(d1, HeaderLoop, []), [], s[n..])
    case Complete(h, e, rest) =>
      var used := n - |rest|;
      var (block, log) := TakeEvent(su.isServer, d.frame.stream, d.block, e);
      Proceed(Switch(Used(d, used).(hpack := h, block := block), HeaderLoop, log), [], s[used..])
  }

  function Step(su: Setup, d: Decoder, s: Bytes): StepResult
    requires Valid(d)
  {
    if IsFixed(d.state) then StepFixed(su, d, s)
    else if IsStream(d.state) then StepStream(d, s)
    else if d.state == HeaderEntry then StepEntry(su, d, s)
    else Proceed(FireFree(su, d), [], s)
  }

  /** What holds between steps. */
  predicate Valid(d: Decoder) {
    && (if IsFixed(d.state) then |d.scratch| < Required(d.state) else d.scratch == [])
    && (d.state !in {Prefix, Preface} ==> d.frame.payload >= Required(d.state))
    && (d.state == Preface ==> d.greeting != [])
    && Hpack.EntryValid(d.hpack.entry)
  }

  /** States that may move on without input come in a fixed order. */
  function Rank(s: State): nat {
    match s
    case FrameHeaders => 3
    case FrameContinuation => 3
    case HeaderLoop => 2
    case FrameData => 2
    case SettingsBegin => 2
    case SettingsLoop => 1
    case Padding => 1
    case FramePriority => 1
    case GoawayDebug => 1
    case FrameUnknown => 1
    case _ => 0
  }

  // ----- every step is sound and makes progress

  predicate Sound(r: StepResult, s: Bytes, rank: nat) {
    match r
    case Wait(d, _) => Valid(d)
    case Go(d, rest, _) => Valid(d) && (|rest| < |s| || (rest == s && Rank(d.state) < rank))
    case Stop(_, _) => true
  }

  ghost predicate FiredOk(f: Fired) {
    f.Fired? ==> Valid(f.d)
  }

  lemma SwitchOk(d: Decoder, s: State, log: seq<Event>)
    requires Hpack.EntryValid(d.hpack.entry) && s != Preface
    ensures FiredOk(Switch(d, s, log)) && (Switch(d, s, log).Fired? ==> Switch(d, s, log).d.state == s)
  {
  }

  lemma StateOfFrames(kind: FrameType)
    ensures StateOf(kind) != Preface && StateOf(kind) != Prefix
  {
  }

  lemma EnterOk(d: Decoder, log: seq<Event>)
    requires Hpack.EntryValid(d.hpack.entry)
    ensures FiredOk(EnterPayload(d, log))
  {
    hide Switch, Valid;
    StateOfFrames(d.frame.kind);
    SwitchOk(d, if d.frame.priority then PriorityBlock else StateOf(d.frame.kind), log);
  }

  lemma FirePrefixOk(d: Decoder, bytes: Bytes)
    requires Valid(d) && |bytes| == 9
    ensures FiredOk(FirePrefix(d, bytes))
  {
    hide Switch, EnterPayload, ParsePrefix, Padded;
    var f := ParsePrefix(bytes);
    var d1 := d.(frame := f, greeted := true);
    SwitchOk(d1, PaddingLen, []);
    EnterOk(d1, if f.kind == DATA then [DataBegin(f.stream, f.payload, 0, f.endStream)] else []);
  }

  lemma FirePaddingLenOk(d: Decoder, bytes: Bytes)
    requires Valid(d) && |bytes| == 1
    ensures FiredOk(FirePaddingLen(d, bytes))
  {
    hide EnterPayload;
    var f := d.frame;
    var pad: nat := bytes[0];
    if pad + 1 <= f.payload {
      EnterOk(d.(frame := f.(payload := f.payload - (pad + 1), padding := pad)),
              if f.kind == DATA then [DataBegin(f.stream, f.payload, pad + 1, f.endStream)] else []);
    }
  }

  lemma FireFixedOk(su: Setup, d: Decoder, bytes: Bytes)
    requires Valid(d) && IsFixed(d.state) && |bytes| == Required(d.state)
    ensures FiredOk(FireFixed(su, d, bytes))
  {
    match d.state {
      case Prefix =>
        hide FirePrefix;
        FirePrefixOk(d, bytes);
      case PaddingLen =>
        hide FirePaddingLen;
        FirePaddingLenOk(d, bytes);
      case PriorityBlock => StateOfFrames(d.frame.kind);
      case _ => hide FirePrefix, FirePaddingLen;
    }
  }

  lemma FireFreeOk(su: Setup, d: Decoder)
    requires Valid(d) && IsFree(d.state)
    ensures FiredOk(FireFree(su, d)) && (FireFree(su, d).Fired? ==> Rank(FireFree(su, d).d.state) < Rank(d.state))
  {
    hide BlockEnd;
  }

  lemma FireEndOk(d: Decoder)
    requires IsStream(d.state) && Hpack.EntryValid(d.hpack.entry)
    ensures FiredOk(FireEnd(d))
    ensures FireEnd(d).Fired? && d.state != Preface ==> Rank(FireEnd(d).d.state) < Rank(d.state)
  {
  }

  lemma AbsorbOk(d: Decoder, bytes: Bytes)
    requires Valid(d) && IsStream(d.state) && |bytes| <= Wanted(d)
    ensures var d1 := Absorb(d, bytes).0;
            && d1.state == d.state && d1.hpack == d.hpack && d1.scratch == [] && Wanted(d1) == Wanted(d) - |bytes|
            && (|bytes| < Wanted(d) ==> Valid(d1))
  {
  }

  lemma StepStreamOk(d: Decoder, s: Bytes)
    requires Valid(d) && IsStream(d.state)
    ensures Sound(StepStream(d, s), s, Rank(d.state))
  {
    hide Absorb, FireEnd;
    var n := if |s| < Wanted(d) then |s| else Wanted(d);
    AbsorbOk(d, s[..n]);
    FireEndOk(Absorb(d, s[..n]).0);
    if n == 0 {
      assert s[n..] == s;
    }
  }

  lemma StepEntryOk(su: Setup, d: Decoder, s: Bytes)
    requires Valid(d) && d.state == HeaderEntry
    ensures Sound(StepEntry(su, d, s), s, Rank(d.state))
  {
    hide Hpack.DecodeEntry, TakeEvent;
  }

  /** Every step leaves a valid decoder and, if it goes on, has used input or moved down the order of states. */
  lemma StepOk(su: Setup, d: Decoder, s: Bytes)
    requires Valid(d)
    ensures Sound(Step(su, d, s), s, Rank(d.state))
  {
    hide FireFixed, FireFree, StepStream, StepEntry;
    if IsFixed(d.state) {
      var missing := Required(d.state) - |d.scratch|;
      if |s| >= missing {
        FireFixedOk(su, d, d.scratch + s[..missing]);
      }
    } else if IsStream(d.state) {
      StepStreamOk(d, s);
    } else if d.state == HeaderEntry {
      StepEntryOk(su, d, s);
    } else {
      FireFreeOk(su, d);
    }
  }

  // ----- one call of the decoder

  datatype End = Ready(d: Decoder) | Failed(error: Error)

  datatype Run = Run(log: seq<Event>, end: End)

  /** Steps until one waits for input or fails. */
  function Decode(su: Setup, d: Decoder, s: Bytes): (r: Run)
    requires Valid(d)
    ensures r.end.Ready? ==> Valid(r.end.d)
    decreases |s|, Rank(d.state)
  {
    StepOk(su, d, s);
    match Step(su, d, s)
    case Wait(d1, log) => Run(log, Ready(d1))
    case Stop(error, log) => Run(log, Failed(error))
    case Go(d1, rest, log) => Then(log, Decode(su, d1, rest))
  }

  function Then(log: seq<Event>, r: Run): Run {
    Run(log + r.log, r.end)
  }

  function Resume(su: Setup, r: Run, b: Bytes): (out: Run)
    requires r.end.Ready? ==> Valid(r.end.d)
    ensures out.end.Ready? ==> Valid(out.end.d)
  {
    if r.end.Ready? then Then(r.log, Decode(su, r.end.d, b)) else r
  }

  // ----- any division of the input

  /** How a step on `a + b` follows from the step on `a`. */
  function Continue(su: Setup, r: StepResult, b: Bytes): StepResult
    requires r.Wait? ==> Valid(r.d)
  {
    match r
    case Stop(_, _) => r
    case Go(d, rest, log) => Go(d, rest + b, log)
    case Wait(d, log) =>
      match Step(su, d, b)
      case Wait(d2, log2) => Wait(d2, log + log2)
      case Go(d2, rest, log2) => Go(d2, rest, log + log2)
      case Stop(error, log2) => Stop(error, log + log2)
  }

  lemma StepFixedSplit(su: Setup, d: Decoder, a: Bytes, b: Bytes)
    requires Valid(d) && IsFixed(d.state)
    ensures Sound(Step(su, d, a), a, Rank(d.state))
    ensures Step(su, d, a + b) == Continue(su, Step(su, d, a), b)
  {
    hide FireFixed;
    StepOk(su, d, a);
    var missing := Required(d.state) - |d.scratch|;
    if |a| < missing {
      var d1 := d.(scratch := d.scratch + a);
      var left := missing - |a|;
      assert d.scratch + (a + b) == (d.scratch + a) + b;
      if |b| >= left {
        assert (a + b)[..missing] == a + b[..left] && (a + b)[missing..] == b[left..];
        assert d.scratch + (a + b[..left]) == (d.scratch + a) + b[..left];
        FireFixedIgnoresScratch(su, d, d1, (d.scratch + a) + b[..left]);
      }
    } else {
      assert (a + b)[..missing] == a[..missing] && (a + b)[missing..] == a[missing..] + b;
    }
  }

  lemma PrefixIgnoresScratch(d: Decoder, x: Bytes, bytes: Bytes)
    requires |bytes| == 9
    ensures FirePrefix(d.(scratch := x), bytes) == FirePrefix(d, bytes)
  {
    hide ParsePrefix, Padded, StreamIdOk, BlockOk, StateOf;
  }

  lemma PaddingLenIgnoresScratch(d: Decoder, x: Bytes, bytes: Bytes)
    requires |bytes| == 1
    ensures FirePaddingLen(d.(scratch := x), bytes) == FirePaddingLen(d, bytes)
  {
    hide StateOf;
  }

  /** What a fixed-size state does depends on the bytes it is given, not on how they were collected. */
  lemma FireFixedIgnoresScratch(su: Setup, d: Decoder, d1: Decoder, bytes: Bytes)
    requires Valid(d) && IsFixed(d.state) && |bytes| == Required(d.state) && d1 == d.(scratch := d1.scratch)
    ensures FireFixed(su, d, bytes) == FireFixed(su, d1, bytes)
  {
    hide FirePrefix, FirePaddingLen, StateOf, Be, SettingOk;
    if d.state == Prefix {
      PrefixIgnoresScratch(d, d1.scratch, bytes);
    } else if d.state == PaddingLen {
      PaddingLenIgnoresScratch(d, d1.scratch, bytes);
    }
  }

  lemma BodyConcat(stream: nat, a: Bytes, b: Bytes)
    ensures Body(stream, a + b) == Body(stream, a) + Body(stream, b)
  {
  }

  /** Taking bytes in two parts is taking them at once. */
  lemma AbsorbTwice(d: Decoder, a: Bytes, b: Bytes)
    requires Valid(d) && IsStream(d.state) && |a| < Wanted(d) && |a| + |b| <= Wanted(d)
    ensures var (d1, log1) := Absorb(d, a);
            && IsStream(d1.state) && Wanted(d1) == Wanted(d) - |a|
            && Absorb(d, a + b) == (Absorb(d1, b).0, log1 + Absorb(d1, b).1)
  {
    hide Body;
    match d.state {
      case FrameData => BodyConcat(d.frame.stream, a, b);
      case GoawayDebug => AbsorbDebug(d, a, b);
      case Preface => assert d.greeting[|a|..][|b|..] == d.greeting[|a + b|..];
      case Padding =>
      case FrameUnknown =>
    }
  }

  lemma AbsorbDebug(d: Decoder, a: Bytes, b: Bytes)
    requires d.state == GoawayDebug && |a| + |b| <= Wanted(d)
    ensures Absorb(d, a + b).0 == Absorb(Absorb(d, a).0, b).0
    ensures Absorb(d, a + b).1 == Absorb(d, a).1 + Absorb(Absorb(d, a).0, b).1
  {
    assert d.goaway.2 + (a + b) == (d.goaway.2 + a) + b;
  }

  /** The greeting is compared as it arrives. */
  lemma GreetingTwice(greeting: Bytes, a: Bytes, b: Bytes)
    requires |a| + |b| <= |greeting|
    ensures greeting[..|a + b|] == a + b <==> greeting[..|a|] == a && greeting[|a|..][..|b|] == b
  {
    assert greeting[..|a + b|] == greeting[..|a|] + greeting[|a|..][..|b|];
    if greeting[..|a + b|] == a + b {
      assert a == (a + b)[..|a|] && b == (a + b)[|a|..];
    }
  }

  lemma StepStreamLater(d: Decoder, a: Bytes, b: Bytes)
    requires Valid(d) && IsStream(d.state) && |a| < Wanted(d) && (d.state == Preface ==> d.greeting[..|a|] == a)
    ensures var (d1, log1) := Absorb(d, a);
            && Valid(d1) && IsStream(d1.state)
            && StepStream(d, a) == Wait(d1, log1)
            && StepStream(d, a + b) == match StepStream(d1, b)
                                       case Wait(d2, log2) => Wait(d2, log1 + log2)
                                       case Go(d2, rest, log2) => Go(d2, rest, log1 + log2)
                                       case Stop(error, log2) => Stop(error, log1 + log2)
  {
    hide Absorb, FireEnd, Valid;
    assert a[..|a|] == a;
    AbsorbOk(d, a);
    var (d1, log1) := Absorb(d, a);
    var left := Wanted(d) - |a|;
    var n := if |b| < left then |b| else left;
    assert (a + b)[..|a| + n] == a + b[..n] && (a + b)[|a| + n..] == b[n..];
    AbsorbTwice(d, a, b[..n]);
    AbsorbOk(d, a + b[..n]);
    if d.state == Preface {
      GreetingTwice(d.greeting, a, b[..n]);
      assert d1.greeting == d.greeting[|a|..] && log1 == [] by { AbsorbGreeting(d, a); }
      assert log1 + ([] + []) == [];
    }
    var (d2, log2) := Absorb(d1, b[..n]);
    if n == left && FireEnd(d2).Fired? {
      assert (log1 + log2) + FireEnd(d2).log == log1 + (log2 + FireEnd(d2).log);
    } else if n == left {
      assert (log1 + log2) + FireEnd(d2).log == log1 + (log2 + FireEnd(d2).log);
    }
  }

  lemma AbsorbGreeting(d: Decoder, a: Bytes)
    requires d.state == Preface && |a| <= |d.greeting|
    ensures Absorb(d, a) == (d.(greeting := d.greeting[|a|..]), [])
  {
  }

  lemma StepStreamSplit(su: Setup, d: Decoder, a: Bytes, b: Bytes)
    requires Valid(d) && IsStream(d.state)
    ensures Sound(Step(su, d, a), a, Rank(d.state))
    ensures Step(su, d, a + b) == Continue(su, Step(su, d, a), b)
  {
    hide Absorb, FireEnd, Valid, StepFixed, StepEntry;
    StepOk(su, d, a);
    if |a| >= Wanted(d) {
      var n := Wanted(d);
      assert (a + b)[..n] == a[..n] && (a + b)[n..] == a[n..] + b;
    } else if d.state == Preface && d.greeting[..|a|] != a {
      assert a[..|a|] == a;
      GreetingMismatch(d.greeting, a, b);
    } else {
      hide StepStream;
      StepStreamLater(d, a, b);
    }
  }

  lemma GreetingMismatch(greeting: Bytes, a: Bytes, b: Bytes)
    requires |a| < |greeting| && greeting[..|a|] != a
    ensures var n := if |a + b| < |greeting| then |a + b| else |greeting|;
            greeting[..n] != (a + b)[..n]
  {
    var n := if |a + b| < |greeting| then |a + b| else |greeting|;
    assert greeting[..n][..|a|] == greeting[..|a|] && (a + b)[..n][..|a|] == a;
  }

  lemma StepEntrySplit(su: Setup, d: Decoder, a: Bytes, b: Bytes)
    requires Valid(d) && d.state == HeaderEntry
    ensures Sound(Step(su, d, a), a, Rank(d.state))
    ensures Step(su, d, a + b) == Continue(su, Step(su, d, a), b)
  {
    hide Hpack.DecodeEntry, AfterEntry;
    StepOk(su, d, a);
    var payload := d.frame.payload;
    if |a| >= payload {
      assert (a + b)[..payload] == a[..payload];
      WholeFragment(su, d, a, b, Hpack.DecodeEntry(su.coder, su.statics, d.hpack, a[..payload]));
    } else {
      var n := if |b| < payload - |a| then |b| else payload - |a|;
      assert (a + b)[..|a| + n] == a + b[..n] && a[..|a|] == a;
      Hpack.EntrySplit(su.coder, su.statics, d.hpack, a, b[..n]);
      var r := Hpack.DecodeEntry(su.coder, su.statics, d.hpack, a);
      if r.Ongoing? {
        var d1 := Used(d, |a|).(hpack := r.decoder);
        assert StepEntry(su, d, a) == Wait(d1, []) by { AfterOngoing(su, d, a, r.decoder); }
        LaterFragment(su, d, d1, a, b, n, Hpack.DecodeEntry(su.coder, su.statics, r.decoder, b[..n]));
        NoPrefix(StepEntry(su, d1, b));
      } else {
        PartFragment(su, d, a, b, n, r);
      }
    }
  }

  lemma AfterOngoing(su: Setup, d: Decoder, a: Bytes, h: Hpack.Decoder)
    requires |a| < d.frame.payload
    ensures AfterEntry(su, d, a, |a|, Hpack.Ongoing(h)) == Wait(Used(d, |a|).(hpack := h), [])
  {
  }

  lemma NoPrefix(r: StepResult)
    ensures [] + r.log == r.log
  {
  }

  lemma WholeFragment(su: Setup, d: Decoder, a: Bytes, b: Bytes, r: Hpack.EntryResult)
    requires d.frame.payload <= |a| && (r.Complete? ==> |r.rest| <= d.frame.payload)
    ensures !AfterEntry(su, d, a, d.frame.payload, r).Wait?
    ensures AfterEntry(su, d, a + b, d.frame.payload, r) == Continue(su, AfterEntry(su, d, a, d.frame.payload, r), b)
  {
    hide Step, TakeEvent;
    var payload := d.frame.payload;
    if r.Ongoing? {
      assert (a + b)[payload..] == a[payload..] + b;
    } else if r.Complete? {
      var used := payload - |r.rest|;
      assert (a + b)[used..] == a[used..] + b;
    }
  }

  lemma PartFragment(su: Setup, d: Decoder, a: Bytes, b: Bytes, n: nat, r: Hpack.EntryResult)
    requires |a| + n <= d.frame.payload && n <= |b| && (r.Complete? ==> |r.rest| <= |a|) && !r.Ongoing?
    ensures !AfterEntry(su, d, a, |a|, r).Wait?
    ensures var r' := if r.Complete? then r.(rest := r.rest + b[..n]) else r;
            AfterEntry(su, d, a + b, |a| + n, r') == Continue(su, AfterEntry(su, d, a, |a|, r), b)
  {
    hide Step, TakeEvent;
    if r.Complete? {
      var used := |a| - |r.rest|;
      assert (a + b)[used..] == a[used..] + b;
    }
  }

  lemma LaterFragment(su: Setup, d: Decoder, d1: Decoder, a: Bytes, b: Bytes, n: nat, r: Hpack.EntryResult)
    requires |a| + n <= d.frame.payload && n <= |b| && (r.Complete? ==> |r.rest| <= n)
    requires d1 == Used(d, |a|).(hpack := d1.hpack)
    ensures AfterEntry(su, d, a + b, |a| + n, r) == AfterEntry(su, d1, b, n, r)
  {
    hide TakeEvent;
    assert (a + b)[|a| + n..] == b[n..];
    if r.Complete? {
      var used := n - |r.rest|;
      assert (a + b)[|a| + used..] == b[used..];
    }
  }

  lemma StepSplit(su: Setup, d: Decoder, a: Bytes, b: Bytes)
    requires Valid(d)
    ensures Sound(Step(su, d, a), a, Rank(d.state))
    ensures Step(su, d, a + b) == Continue(su, Step(su, d, a), b)
  {
    hide StepFixed, StepStream, StepEntry, FireFree, Valid;
    StepOk(su, d, a);
    if IsFixed(d.state) {
      StepFixedSplit(su, d, a, b);
    } else if IsStream(d.state) {
      StepStreamSplit(su, d, a, b);
    } else if d.state == HeaderEntry {
      StepEntrySplit(su, d, a, b);
    }
  }

  lemma ThenThen(x: seq<Event>, y: seq<Event>, r: Run)
    ensures Then(x, Then(y, r)) == Then(x + y, r)
  {
    assert x + (y + r.log) == (x + y) + r.log;
  }

  /** One call on `a + b` is a call on `a` followed by a call on `b`. */
  lemma {:induction false} DecodeSplit(su: Setup, d: Decoder, a: Bytes, b: Bytes)
    requires Valid(d)
    ensures Decode(su, d, a + b) == Resume(su, Decode(su, d, a), b)
    decreases |a|, Rank(d.state)
  {
    hide Step, Valid;
    StepSplit(su, d, a, b);
    StepOk(su, d, a + b);
    match Step(su, d, a) {
      case Stop(_, _) =>
      case Go(d1, rest, log) =>
        DecodeSplit(su, d1, rest, b);
        var first := Decode(su, d1, rest);
        if first.end.Ready? {
          ThenThen(log, first.log, Decode(su, first.end.d, b));
        }
      case Wait(d1, log) =>
        StepOk(su, d1, b);
        match Step(su, d1, b) {
          case Go(d2, rest2, log2) => ThenThen(log, log2, Decode(su, d2, rest2));
          case Wait(_, _) =>
          case Stop(_, _) =>
        }
    }
  }

  /** The input arriving as a sequence of buffers. */
  function DecodeChunks(su: Setup, r: Run, chunks: seq<Bytes>): Run
    requires r.end.Ready? ==> Valid(r.end.d)
    decreases |chunks|
  {
    if chunks == [] then r else DecodeChunks(su, Resume(su, r, chunks[0]), chunks[1..])
  }

  /**
   * For every byte stream and every division of it into a first part and further
   * buffers, the reports, the first error and the final state are those of one undivided call.
   */
  lemma {:induction false} SplitInvariance(su: Setup, d: Decoder, first: Bytes, chunks: seq<Bytes>)
    requires Valid(d)
    ensures DecodeChunks(su, Decode(su, d, first), chunks) == Decode(su, d, first + Flatten(chunks))
    decreases |chunks|
  {
    hide Decode, Valid;
    if chunks == [] {
      assert first + [] == first;
    } else {
      DecodeSplit(su, d, first, chunks[0]);
      SplitInvariance(su, d, first + chunks[0], chunks[1..]);
      assert (first + chunks[0]) + Flatten(chunks[1..]) == first + Flatten(chunks);
    }
  }
}
