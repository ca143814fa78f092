/**
 * The HTTP/1.1 encoder: the checks on a message's headers, and the bytes of its
 * head, its body or chunks, and its trailer.
 */
module H1Encoder {
  import opened Octets
  import opened H1Syntax
  import opened H1Decoder

  type Fields = seq<(Bytes, Bytes)>

  datatype Start = RequestStart(verb: Bytes, target: Bytes) | ResponseStart(code: nat, phrase: Bytes)

  datatype Extension = Extension(key: Bytes, value: Bytes)

  datatype Chunk = Chunk(data: Bytes, extensions: seq<Extension>)

  /** `chunks` is what was submitted through the chunk interface, up to and including the first without data. */
  datatype Message = Message(start: Start, headers: Fields, body: Option<Bytes>, chunks: seq<Chunk>,
                             trailer: Option<Fields>)

  const CHUNKED: Bytes := [99, 104, 117, 110, 107, 101, 100]

  // ----- what the headers say about the body

  datatype Framing = Framing(length: nat, hasLength: bool, coded: bool, chunked: bool)

  const NO_FRAMING := Framing(0, false, false, false)

  /** A list of transfer codings must not be empty anywhere and must end with chunked. */
  function ScanCodings(list: Bytes, chunked: bool): Option<bool>
    decreases |list|
  {
    var (head, tail) := Cut(list, COMMA);
    var coding := Trim(head);
    if coding == [] || chunked then None
    else if tail.None? then Some(coding == CHUNKED)
    else ScanCodings(tail.value, coding == CHUNKED)
  }

  function ScanHeader(names: Names, f: Framing, name: Bytes, value: Bytes): Option<Framing> {
    var v := Trim(value);
    if !IsToken(name) || !IsValue(v) then None
    else
      match names.kind(name)
      case ContentLength => if Parse(v, 10).None? then None
          else Some(f.(length := Parse(v, 10).value, hasLength := true))
      case TransferEncoding =>
        var chunked := ScanCodings(v, f.chunked);
        if chunked.None? then None else Some(f.(coded := true, chunked := chunked.value))
      case Other => Some(f)
  }

  function ScanHeaders(names: Names, f: Framing, headers: Fields): Option<Framing>
    decreases |headers|
  {
    if headers == [] then Some(f)
    else
      var f1 := ScanHeader(names, f, headers[0].0, headers[0].1);
      if f1.None? then None else ScanHeaders(names, f1.value, headers[1..])
  }

  /** The checks on the whole, and what of the body will be sent. */
  function Settle(f: Framing, hasBody: bool, ignored: bool, forbidden: bool): Option<Framing> {
    if f.coded && !f.chunked then None
    else if f.chunked && (f.hasLength || hasBody) then None
    else if forbidden && (f.length > 0 || f.coded) then None
    else
      var g := if ignored then f.(length := 0, chunked := false) else f;
      if g.length > 0 && !hasBody then None else Some(g)
  }

  function Ignored(m: Message, ignored: bool): bool {
    ignored || (m.start.ResponseStart? && m.start.code == 304)
  }

  function Forbidden(m: Message): bool {
    m.start.ResponseStart? && (m.start.code == 204 || m.start.code / 100 == 1)
  }

  /** What the encoder makes of a message: nothing, or how its body is framed. */
  function Accepted(names: Names, m: Message, ignored: bool): Option<Framing> {
    var f := ScanHeaders(names, NO_FRAMING, m.headers);
    if f.None? then None else Settle(f.value, m.body.Some?, Ignored(m, ignored), Forbidden(m))
  }

  // ----- the bytes

  function Digits3(code: nat): Bytes
    requires code <= 999
  {
    [48 + code / 100, 48 + code / 10 % 10, 48 + code % 10]
  }

  function StartBytes(start: Start): Bytes
    requires start.ResponseStart? ==> start.code <= 999
  {
    match start
    case RequestStart(verb, target) => verb + [SP] + (target + [SP] + VERSION_1_1)
    case ResponseStart(code, phrase) => VERSION_1_1 + [SP] + (Digits3(code) + [SP] + phrase)
  }

  function FieldBytes(name: Bytes, value: Bytes): Bytes {
    name + [COLON] + ([SP] + value)
  }

  function FieldLines(fields: Fields): Bytes {
    if fields == [] then [] else FieldBytes(fields[0].0, fields[0].1) + CRLF + FieldLines(fields[1..])
  }

  function Head(m: Message): Bytes
    requires m.start.ResponseStart? ==> m.start.code <= 999
  {
    StartBytes(m.start) + CRLF + (FieldLines(m.headers) + CRLF)
  }

  function ExtensionBytes(extensions: seq<Extension>): Bytes {
    if extensions == [] then []
    else [SEMICOLON] + extensions[0].key + [EQUALS] + extensions[0].value + ExtensionBytes(extensions[1..])
  }

  function SizeBytes(c: Chunk): Bytes {
    Hex(|c.data|) + ExtensionBytes(c.extensions)
  }

  /** Chunks with data end in CRLF; the one without data is followed by the trailer. */
  function ChunkBytes(chunks: seq<Chunk>): Bytes {
    if chunks == [] then []
    else if chunks[0].data == [] then SizeBytes(chunks[0]) + CRLF
    else SizeBytes(chunks[0]) + CRLF + (chunks[0].data + (CRLF + ChunkBytes(chunks[1..])))
  }

  /** A trailer need not be set. */
  function TrailerFields(m: Message): Fields {
    if m.trailer.Some? then m.trailer.value else []
  }

  function TrailerBytes(m: Message): Bytes {
    FieldLines(TrailerFields(m)) + CRLF
  }

  function BodyBytes(m: Message, g: Framing): Bytes {
    if m.body.Some? && g.length > 0 then m.body.value
    else if g.chunked then ChunkBytes(m.chunks) + TrailerBytes(m)
    else []
  }

  function Encode(m: Message, g: Framing): Bytes
    requires m.start.ResponseStart? ==> m.start.code <= 999
  {
    Head(m) + BodyBytes(m, g)
  }
}
