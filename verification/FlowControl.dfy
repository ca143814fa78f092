/**
 * Flow control at one HTTP/2 endpoint in automatic window mode: what it keeps
 * per connection and per stream, what it may send, and what each frame it
 * receives does.
 */
module FlowControl {

  const MAX_WINDOW: nat := 0x7FFF_FFFF
  const FIRST_WINDOW: nat := 65535
  /** No DATA is sent while a window is not larger than this. */
  const MIN_WINDOW: nat := 256

  /** The windows of an active stream: `peer` for what may be sent, `self` for what may arrive. */
  datatype Win = Win(peer: int, self: int, sentEnd: bool, gotEnd: bool)

  /** What closed a stream. */
  datatype When = BothEnded | ResetReceived | ResetSent

  /**
   * `pending` are the initial window sizes announced in SETTINGS frames that are not yet acknowledged.
   * `closed` are all streams ever closed; of these only the last `memory` ones, `recent`, are remembered.
   */
  datatype Endpoint = Endpoint(
    client: bool,
    memory: nat,
    connPeer: int,
    connSelf: int,
    peerInit: nat,
    selfInit: nat,
    pending: seq<seq<nat>>,
    streams: map<nat, Win>,
    closed: map<nat, When>,
    recent: seq<nat>)

  function NewEndpoint(client: bool, memory: nat): Endpoint {
    Endpoint(client, memory, FIRST_WINDOW, MAX_WINDOW, FIRST_WINDOW, FIRST_WINDOW, [], map[], map[], [])
  }

  datatype Error = FlowControlError | ProtocolError | StreamClosedError

  datatype Frame =
    | Headers(id: nat, end: bool)
    | Data(id: nat, len: nat, end: bool)
    | ConnUpdate(inc: nat)
    | StreamUpdate(id: nat, inc: nat)
    | Settings(values: seq<nat>)
    | SettingsAck
    | Reset(id: nat, error: Error)

  /**
   * What else there is to a frame that arrives: whether its contents fail a check that has nothing to do with
   * windows, whether the message it ends is shorter than announced, and how many callbacks follow the first.
   */
  datatype Arrival = Arrival(malformed: bool, short: bool, calls: nat)

  /** A connection error, or the new state and the frames to send. */
  datatype Outcome = Ok(e: Endpoint, out: seq<Frame>) | Err(error: Error)

  // ----- sending

  function OpenStream(e: Endpoint, s: nat, end: bool): (Endpoint, seq<Frame>) {
    (e.(streams := e.streams[s := Win(e.peerInit, e.selfInit, end, false)]), [Headers(s, end)])
  }

  /** What a DATA frame's payload may be at most, given the space left for it. */
  function MaxPayload(e: Endpoint, s: nat, space: nat): int
    requires s in e.streams
  {
    var window := if e.streams[s].peer < e.connPeer then e.streams[s].peer else e.connPeer;
    if space < window then space else window
  }

  predicate MaySend(e: Endpoint, s: nat) {
    s in e.streams && !e.streams[s].sentEnd && e.connPeer > MIN_WINDOW && e.streams[s].peer > MIN_WINDOW
  }

  function Remember(e: Endpoint, s: nat): seq<nat> {
    var all := e.recent + [s];
    if |all| > e.memory then all[1..] else all
  }

  function Retire(e: Endpoint, s: nat, when: When): Endpoint {
    e.(streams := e.streams - {s}, closed := e.closed[s := when], recent := Remember(e, s))
  }

  /** An end of the stream in one direction; with both, the stream is over. */
  function Settle(e: Endpoint, s: nat): Endpoint
    requires s in e.streams
  {
    if e.streams[s].sentEnd && e.streams[s].gotEnd then Retire(e, s, BothEnded) else e
  }

  /** The headers of a response, which may be all there is to it. */
  function Respond(e: Endpoint, s: nat, end: bool): (Endpoint, seq<Frame>)
    requires s in e.streams
  {
    (Settle(e.(streams := e.streams[s := e.streams[s].(sentEnd := end)]), s), [Headers(s, end)])
  }

  function SendData(e: Endpoint, s: nat, len: nat, end: bool): (Endpoint, seq<Frame>)
    requires s in e.streams
  {
    var w := e.streams[s];
    var e1 := e.(connPeer := e.connPeer - len, streams := e.streams[s := w.(peer := w.peer - len, sentEnd := end)]);
    (Settle(e1, s), [Data(s, len, end)])
  }

  function ResetStream(e: Endpoint, s: nat, error: Error): (Endpoint, seq<Frame>) {
    (Retire(e, s, ResetSent), [Reset(s, error)])
  }

  function ChangeSettings(e: Endpoint, values: seq<nat>): (Endpoint, seq<Frame>) {
    (e.(pending := e.pending + [values]), [Settings(values)])
  }

  // ----- receiving

  /** Where a stream is found; those closed long ago, skipped, or not opened yet are found nowhere. */
  datatype Place = Active | Ended(when: When) | Nowhere

  function Find(e: Endpoint, s: nat): Place {
    if s in e.streams then Active
    else if s in e.recent && s in e.closed then Ended(e.closed[s])
    else Nowhere
  }

  /** A frame on a stream that the peer has reset is answered by a reset, at each of its callbacks. */
  function Answer(s: nat, calls: nat): seq<Frame> {
    seq(calls, _ => Reset(s, StreamClosedError))
  }

  /** The end of what the peer sends on a stream, if the stream is still there. */
  function OnEnd(e: Endpoint, s: nat, short: bool): (Endpoint, seq<Frame>) {
    if s !in e.streams then (e, [])
    else if short then ResetStream(e, s, ProtocolError)
    else (Settle(e.(streams := e.streams[s := e.streams[s].(gotEnd := true)]), s), [])
  }

  function OnStreamHeaders(e: Endpoint, s: nat, end: bool, a: Arrival): (Endpoint, seq<Frame>)
    requires s in e.streams
  {
    if e.streams[s].gotEnd then ResetStream(e, s, StreamClosedError)
    else if a.malformed then ResetStream(e, s, ProtocolError)
    else if end then OnEnd(e, s, a.short)
    else (e, [])
  }

  /** A client's streams are all opened by itself; at a server a new one is opened by its first headers. */
  function OnHeaders(e: Endpoint, s: nat, end: bool, a: Arrival): Outcome {
    match Find(e, s)
    case Active => var (e1, out) := OnStreamHeaders(e, s, end, a); Ok(e1, out)
    case Ended(BothEnded) => Err(StreamClosedError)
    case Ended(ResetReceived) => Ok(e, Answer(s, 1 + a.calls))
    case Ended(ResetSent) => Ok(e, [])
    case Nowhere =>
      if e.client || s in e.closed then Err(ProtocolError)
      else Ok(e.(streams := e.streams[s := Win(e.peerInit, e.selfInit, false, end)]), [])
  }

  /** The beginning of a DATA frame on an active stream. */
  function OnStreamData(e: Endpoint, s: nat, len: nat, end: bool, malformed: bool): (Endpoint, seq<Frame>)
    requires s in e.streams
  {
    var w := e.streams[s];
    if w.gotEnd then ResetStream(e, s, StreamClosedError)
    else if malformed then ResetStream(e, s, ProtocolError)
    else if len > w.self && len != 0 then ResetStream(e, s, FlowControlError)
    else if !end then (e, if len != 0 then [StreamUpdate(s, len)] else [])
    else (e.(streams := e.streams[s := w.(self := w.self - len)]), [])
  }

  function OnData(e: Endpoint, s: nat, len: nat, end: bool, a: Arrival): Outcome {
    if len > e.connSelf then Err(FlowControlError)
    else
      var credit := if len != 0 then [ConnUpdate(len)] else [];
      match Find(e, s)
      case Active =>
        var (e1, out) := OnStreamData(e, s, len, end, a.malformed);
        var (e2, more) := if end then OnEnd(e1, s, a.short) else (e1, []);
        Ok(e2, out + credit + more)
      case Ended(BothEnded) => Err(StreamClosedError)
      case Ended(ResetReceived) => Ok(e, Answer(s, 1) + credit + Answer(s, a.calls))
      case Ended(ResetSent) => Ok(e, credit)
      case Nowhere => Err(ProtocolError)
  }

  function OnConnUpdate(e: Endpoint, inc: nat): Outcome {
    if inc == 0 then Err(ProtocolError)
    else if e.connPeer + inc > MAX_WINDOW then Err(FlowControlError)
    else Ok(e.(connPeer := e.connPeer + inc), [])
  }

  function OnStreamUpdate(e: Endpoint, s: nat, inc: nat): Outcome {
    match Find(e, s)
    case Active =>
      var w := e.streams[s];
      if inc == 0 then var (e1, out) := ResetStream(e, s, ProtocolError); Ok(e1, out)
      else if w.peer + inc > MAX_WINDOW then var (e1, out) := ResetStream(e, s, FlowControlError); Ok(e1, out)
      else Ok(e.(streams := e.streams[s := w.(peer := w.peer + inc)]), [])
    case Ended(ResetReceived) => Ok(e, Answer(s, 1))
    case Ended(_) => Ok(e, [])
    case Nowhere => Err(ProtocolError)
  }

  function OnReset(e: Endpoint, s: nat): Outcome {
    match Find(e, s)
    case Active => Ok(Retire(e, s, ResetReceived), [])
    case Ended(ResetReceived) => Ok(e, Answer(s, 1))
    case Ended(_) => Ok(e, [])
    case Nowhere => Err(ProtocolError)
  }

  function ShiftPeer(streams: map<nat, Win>, change: int): map<nat, Win> {
    map s | s in streams :: streams[s].(peer := streams[s].peer + change)
  }

  function ShiftSelf(streams: map<nat, Win>, change: int): map<nat, Win> {
    map s | s in streams :: streams[s].(self := streams[s].self + change)
  }

  /** New initial window sizes from the peer, applied one after the other to every active stream. */
  function ApplyPeer(e: Endpoint, values: seq<nat>): Outcome
    decreases |values|
  {
    if values == [] then Ok(e, [])
    else
      var change := values[0] - e.peerInit;
      if values[0] > MAX_WINDOW then Err(FlowControlError)
      else if change == 0 then ApplyPeer(e, values[1..])
      else if exists s | s in e.streams :: e.streams[s].peer + change > MAX_WINDOW then Err(FlowControlError)
      else ApplyPeer(e.(peerInit := values[0], streams := ShiftPeer(e.streams, change)), values[1..])
  }

  /** The endpoint's own new initial window sizes, applied when the peer has acknowledged them. */
  function ApplySelf(e: Endpoint, values: seq<nat>): Outcome
    decreases |values|
  {
    if values == [] then Ok(e, [])
    else
      var change := values[0] - e.selfInit;
      if change == 0 then ApplySelf(e, values[1..])
      else if exists s | s in e.streams :: e.streams[s].self + change > MAX_WINDOW then Err(FlowControlError)
      else ApplySelf(e.(selfInit := values[0], streams := ShiftSelf(e.streams, change)), values[1..])
  }

  function OnSettings(e: Endpoint, values: seq<nat>): Outcome {
    var r := ApplyPeer(e, values);
    if r.Ok? then Ok(r.e, [SettingsAck]) else r
  }

  function OnSettingsAck(e: Endpoint): Outcome {
    if e.pending == [] then Err(ProtocolError)
    else ApplySelf(e.(pending := e.pending[1..]), e.pending[0])
  }

  function Receive(e: Endpoint, f: Frame, a: Arrival): Outcome {
    match f
    case Headers(s, end) => OnHeaders(e, s, end, a)
    case Data(s, len, end) => OnData(e, s, len, end, a)
    case ConnUpdate(inc) => OnConnUpdate(e, inc)
    case StreamUpdate(s, inc) => OnStreamUpdate(e, s, inc)
    case Settings(values) => OnSettings(e, values)
    case SettingsAck => OnSettingsAck(e)
    case Reset(s, _) => OnReset(e, s)
  }
}
