/**
 What the HTTP/1.1 engine does with lines, body octets and calls, as functions on its
 state. Adjacent data events of a stream count as one, and everything written is kept,
 under the stream it was written for.
 */
module Http1Core {
  import opened Bits
  import opened Wrappers
  import opened Headers
  import opened Http1Text

  datatype ParseState =
    | StartLine | SkipInterim | HeaderLines
    | BodyLength | ChunkSize | ChunkData | ChunkCrlf | ChunkTrailer | BodyUntilClose
    | AwaitingResponse | Finished

  datatype Fault = ProtocolError | ConnectionReset

  datatype Event =
    | NewStream(id: uint32)
    | HeadersArrived(id: uint32, headers: seq<Header>)
    | Data(id: uint32, data: Text)
    | StreamClosed(id: uint32)
    | Goaway(lastId: uint32)
    | ConnectionError(fault: Fault)

  datatype StreamInfo = StreamInfo(
    verb: Text,
    head: Text,             // client: the request head, until it is written
    staged: Text,           // body octets that are not written
    headSent: bool,
    chunked: bool,
    noBody: bool,
    requestBodyDone: bool,  // server: the request has been read to its end
    requestComplete: bool,  // client: the request has been accepted to its end
    closeAfter: bool)

  const NEW_STREAM := StreamInfo([], [], [], false, false, false, false, false, false)

  /** The message being parsed. */
  datatype Message = Message(status: int, minor: int, remaining: nat, headers: seq<Header>, target: Text)

  /** Octets written on behalf of a stream. */
  datatype Piece = Piece(id: uint32, bytes: Text)

  datatype Core = Core(
    client: bool,
    state: ParseState,
    streams: map<uint32, StreamInfo>,
    order: seq<uint32>,
    nextId: uint32,
    active: Option<uint32>,
    message: Message,
    done: bool, goaway: bool, eof: bool,
    lastId: uint32,
    wire: seq<Piece>,
    events: seq<Event>)
  {
    function Emit(e: Event): Core {
      this.(events := Add(events, e))
    }

    function Write(id: uint32, bytes: Text): Core {
      this.(wire := wire + [Piece(id, bytes)])
    }
  }

  /** One more event; data joins the data it follows. */
  function Add(events: seq<Event>, e: Event): seq<Event> {
    if events != [] && e.Data? && events[|events| - 1].Data? && events[|events| - 1].id == e.id then
      events[..|events| - 1] + [Data(e.id, events[|events| - 1].data + e.data)]
    else events + [e]
  }

  /** A queue of events with adjacent data joined. */
  function Joined(events: seq<Event>): seq<Event> {
    if events == [] then [] else Add(Joined(events[..|events| - 1]), events[|events| - 1])
  }

  /** The octets of everything written. */
  function Flat(wire: seq<Piece>): Text {
    if wire == [] then [] else Flat(wire[..|wire| - 1]) + wire[|wire| - 1].bytes
  }

  function FreshCore(client: bool): Core {
    Core(client, StartLine, map[], [], 1, None, Message(0, 1, 0, [], []), false, false, false, 0, [], [])
  }

  function NextId(id: uint32): uint32 {
    (id + 2) % 0x1_0000_0000
  }

  // ---- The end of a connection ----------------------------------------------

  function Failed(c: Core, fault: Fault): Core {
    if c.done then c else c.Emit(ConnectionError(fault)).(done := true, state := Finished, active := None)
  }

  function ConnectionDone(c: Core): Core {
    var d := c.(done := true, state := Finished, active := None);
    if c.goaway then d else d.(goaway := true).Emit(Goaway(c.lastId))
  }

  // ---- Exchanges ------------------------------------------------------------

  /** The oldest stream, if its request head is there to be written. */
  function FirstPending(order: seq<uint32>, streams: map<uint32, StreamInfo>): Option<uint32> {
    if order == [] then None
    else if order[0] !in streams then FirstPending(order[1..], streams)
    else if streams[order[0]].head == [] then None
    else Some(order[0])
  }

  /** Write the next request, unless one is in flight. */
  function Flushed(c: Core): Core {
    if c.active.Some? || c.done then c
    else
      match FirstPending(c.order, c.streams)
      case None => c
      case Some(id) =>
        if id !in c.streams then c
        else
          var info := c.streams[id];
          c.Write(id, info.head + info.staged)
           .(streams := c.streams[id := info.(head := [], staged := [], headSent := true)],
             active := Some(id), state := StartLine)
  }

  /** Without the first occurrence of an identifier. */
  function Without(order: seq<uint32>, id: uint32): seq<uint32> {
    if order == [] then [] else if order[0] == id then order[1..] else [order[0]] + Without(order[1..], id)
  }

  /** Server: the request has been read; the next one waits for its response. */
  function RequestRead(c: Core, id: uint32): Core {
    c.Emit(StreamClosed(id))
     .(lastId := id, state := AwaitingResponse,
       streams := if id in c.streams then c.streams[id := c.streams[id].(requestBodyDone := true)] else c.streams)
  }

  /** Forget a stream whose exchange is over. */
  function Forgotten(c: Core, id: uint32): Core {
    c.(lastId := id, streams := c.streams - {id}, order := Without(c.order, id),
       active := if c.active == Some(id) then None else c.active)
  }

  /** Client: the response has been read; the next request can go out. */
  function ExchangeComplete(c: Core, id: uint32): Core {
    var d := Forgotten(c.Emit(StreamClosed(id)), id);
    if (id in c.streams && c.streams[id].closeAfter) || c.done then ConnectionDone(d) else Flushed(d.(state := StartLine))
  }

  function MessageFinished(c: Core): Core {
    match c.active
    case None => Failed(c, ProtocolError)
    case Some(id) => if c.client then ExchangeComplete(c, id) else RequestRead(c, id)
  }

  // ---- Lines ----------------------------------------------------------------

  /** "HTTP/1." and a digit. */
  predicate IsVersion(t: Text) {
    |t| == 8 && t[..7] == Ascii("HTTP/1.") && 48 <= t[7] <= 57
  }

  /** The three octets of a status code, which may begin with a minus sign. */
  function StatusCode(t: Text): Option<int> {
    if t != [] && t[0] == 45 then
      match Number(t[1..], 10)
      case Some(n) => Some(-(n as int))
      case None => None
    else
      match Number(t, 10)
      case Some(n) => Some(n)
      case None => None
  }

  function StatusLine(c: Core, line: Text): Core {
    if |line| < 12 || !IsVersion(line[..8]) || line[8] != SPACE then Failed(c, ProtocolError)
    else
      var d := c.(message := c.message.(minor := line[7] - 48));
      match StatusCode(line[9..12])
      case None => Failed(d, ProtocolError)
      case Some(status) =>
        if 100 <= status < 200 && status != 101 then d.(state := SkipInterim)
        else d.(message := d.message.(status := status, headers := []), state := HeaderLines)
  }

  /** Method, target and version, separated by single spaces. */
  function RequestParts(line: Text): Option<(Text, Text, Text)> {
    var i := Find(line, SPACE);
    if i == |line| || i == 0 then None
    else
      var j := i + 1 + Find(line[i + 1..], SPACE);
      if j == |line| then None else Some((line[..i], line[i + 1..j], line[j + 1..]))
  }

  function RequestLine(c: Core, line: Text): Core {
    match RequestParts(line)
    case None => Failed(c, ProtocolError)
    case Some((verb, target, version)) =>
      if !IsVersion(version) then Failed(c, ProtocolError)
      else
        var d := c.(message := c.message.(minor := version[7] - 48));
        if target == [] then Failed(d, ProtocolError) else RequestOpened(d, verb, target)
  }

  /** The next identifier goes to a stream of the peer's. */
  function Assigned(c: Core, verb: Text): Core {
    var id := c.nextId;
    c.(nextId := NextId(id), order := c.order + [id], active := Some(id),
       streams := c.streams[id := (if id in c.streams then c.streams[id] else NEW_STREAM).(verb := verb)])
  }

  function RequestOpened(c: Core, verb: Text, target: Text): Core {
    Assigned(c.Emit(NewStream(c.nextId)), verb).(message := c.message.(target := target, headers := []), state := HeaderLines)
  }

  /** A header line adds a header, unless it has no name; names are lowercased. */
  function HeaderLine(c: Core, line: Text): Core {
    var colon := Find(line, COLON);
    if colon == |line| || colon == 0 then c
    else
      c.(message := c.message.(headers := c.message.headers + [Header(ToLower(line[..colon]), Trim(line[colon + 1..]))]))
  }

  predicate Closes(m: Message) {
    var connection := HeaderValue(m.headers, Ascii("connection"));
    SameIgnoringCase(connection, Ascii("close"))
    || (m.minor == 0 && !SameIgnoringCase(connection, Ascii("keep-alive")))
  }

  predicate IsChunked(m: Message) {
    Contains(HeaderValue(m.headers, Ascii("transfer-encoding")), Ascii("chunked"))
  }

  function Continue(c: Core, id: uint32): Core {
    if SameIgnoringCase(HeaderValue(c.message.headers, Ascii("expect")), Ascii("100-continue")) then
      c.Write(id, Ascii("HTTP/1.1 100 Continue\r\n\r\n"))
    else c
  }

  /** The end of a header block: report it, and decide how the body is delimited. */
  function HeadersComplete(c: Core): Core {
    if c.active.None? || c.active.value !in c.streams then Failed(c, ProtocolError)
    else
      var d := HeadersReported(c, c.active.value, Closes(c.message));
      if c.client then ResponseBody(d, c.active.value) else RequestBody(d, c.active.value)
  }

  function HeadersReported(c: Core, id: uint32, close: bool): Core
    requires id in c.streams
  {
    var info := c.streams[id];
    c.(streams := c.streams[id := info.(closeAfter := info.closeAfter || close)])
     .Emit(HeadersArrived(id, Announced(c.client, info.verb, c.message)))
  }

  /** The headers as the application sees them, with the pseudo-headers first. */
  function Announced(client: bool, verb: Text, m: Message): seq<Header> {
    (if client then [Header(Ascii(":status"), DecimalText(m.status))]
     else [Header(Ascii(":method"), verb), Header(Ascii(":path"), m.target),
           Header(Ascii(":authority"), HeaderValue(m.headers, Ascii("host")))])
    + m.headers
  }

  predicate HasNoBody(verb: Text, status: int) {
    SameIgnoringCase(verb, Ascii("HEAD")) || status == 204 || status == 304
  }

  function ResponseBody(c: Core, id: uint32): Core
    requires id in c.streams
  {
    var m := c.message;
    var length := HeaderValue(m.headers, Ascii("content-length"));
    if HasNoBody(c.streams[id].verb, m.status) then ExchangeComplete(c, id)
    else if IsChunked(m) then c.(state := ChunkSize)
    else if length == [] then c.(state := BodyUntilClose)
    else
      match Number64(length, 10)
      case None => Failed(c, ProtocolError)
      case Some(n) =>
        var d := c.(message := m.(remaining := n));
        if n == 0 then ExchangeComplete(d, id) else d.(state := BodyLength)
  }

  function RequestBody(c: Core, id: uint32): Core {
    var m := c.message;
    var length := HeaderValue(m.headers, Ascii("content-length"));
    if IsChunked(m) then Continue(c.(state := ChunkSize), id)
    else if length == [] then RequestRead(c, id)
    else
      match Number64(length, 10)
      case None => Failed(c, ProtocolError)
      case Some(n) =>
        var d := c.(message := m.(remaining := n));
        if n == 0 then RequestRead(d, id) else Continue(d.(state := BodyLength), id)
  }

  /** A chunk size, up to any extension. */
  function SizeLine(c: Core, line: Text): Core {
    match Number64(Trim(line[..Find(line, SEMICOLON)]), 16)
    case None => Failed(c, ProtocolError)
    case Some(n) => c.(message := c.message.(remaining := n), state := if n == 0 then ChunkTrailer else ChunkData)
  }

  predicate TakesLines(state: ParseState) {
    state == StartLine || state == SkipInterim || state == HeaderLines || state == ChunkSize || state == ChunkCrlf
    || state == ChunkTrailer
  }

  /** One complete line. */
  function LineDone(c: Core, line: Text): Core
    requires TakesLines(c.state)
  {
    match c.state
    case StartLine => if c.client then StatusLine(c, line) else RequestLine(c, line)
    case SkipInterim => if line == [] then c.(state := StartLine) else c
    case HeaderLines => if line == [] then HeadersComplete(c) else HeaderLine(c, line)
    case ChunkSize => SizeLine(c, line)
    case ChunkCrlf => c.(state := ChunkSize)
    case ChunkTrailer => if line == [] then MessageFinished(c) else c
  }

  // ---- Body octets ----------------------------------------------------------

  predicate TakesBody(state: ParseState) {
    state == BodyLength || state == ChunkData || state == BodyUntilClose
  }

  function EmitData(c: Core, data: Text): Core {
    if c.active.None? || data == [] then c else c.Emit(Data(c.active.value, data))
  }

  /** How many of the octets at hand belong to the body. */
  function Share(c: Core, n: nat): (k: nat)
    ensures k <= n
  {
    if c.state == BodyUntilClose then n else Min(n, c.message.remaining)
  }

  function BodyTaken(c: Core, data: Text): Core
    requires TakesBody(c.state) && (c.state != BodyUntilClose ==> |data| <= c.message.remaining)
  {
    var d := EmitData(c, data);
    if c.state == BodyUntilClose then d
    else
      var left := c.message.remaining - |data|;
      var e := d.(message := d.message.(remaining := left));
      if left > 0 then e else if c.state == ChunkData then e.(state := ChunkCrlf) else MessageFinished(e)
  }
}
