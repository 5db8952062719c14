/** What the application's calls do to the HTTP/1.1 engine. */
module Http1Calls {
  import opened Bits
  import opened Wrappers
  import opened Headers
  import opened Http1Text
  import opened Http1Core
  import opened Http1Feed

  function Opened(c: Core): Core {
    var id := c.nextId;
    c.(nextId := NextId(id), order := c.order + [id],
       streams := if id in c.streams then c.streams else c.streams[id := NEW_STREAM])
  }

  // ---- Heads ----------------------------------------------------------------

  function FieldLine(h: Header): Text {
    h.name + [COLON, SPACE] + h.value + CRLF
  }

  function FieldLines(headers: seq<Header>): Text {
    if headers == [] then [] else FieldLines(headers[..|headers| - 1]) + FieldLine(headers[|headers| - 1])
  }

  const CHUNKED := Header(Ascii("Transfer-Encoding"), Ascii("chunked"))

  /** A body without a known length is sent in chunks. */
  predicate NeedsChunks(headers: seq<Header>, endStream: bool) {
    !endStream && HeaderValue(headers, Ascii("content-length")) == []
  }

  /** The header fields of a request: the authority goes first, unless there is a Host already. */
  function RequestFields(authority: Text, headers: seq<Header>, endStream: bool): seq<Header> {
    (if authority != [] && HeaderValue(headers, Ascii("host")) == [] then [Header(Ascii("Host"), authority)] else [])
    + headers
    + (if NeedsChunks(headers, endStream) then [CHUNKED] else [])
  }

  function RequestHead(verb: Text, path: Text, fields: seq<Header>): (t: Text)
    ensures t != []
  {
    verb + [SPACE] + path + Ascii(" HTTP/1.1") + CRLF + FieldLines(fields) + CRLF
  }

  function ResponseFields(info: StreamInfo, status: int, headers: seq<Header>, endStream: bool): seq<Header> {
    (if info.closeAfter && HeaderValue(headers, Ascii("connection")) == [] then [Header(Ascii("Connection"), Ascii("close"))] else [])
    + headers
    + (if !Bodiless(info.verb, status) && NeedsChunks(headers, endStream) then [CHUNKED] else [])
  }

  predicate Bodiless(verb: Text, status: int) {
    SameIgnoringCase(verb, Ascii("HEAD")) || 100 <= status < 200 || status == 204 || status == 304
  }

  function ResponseHead(status: int, reason: Text, fields: seq<Header>): Text {
    Ascii("HTTP/1.1 ") + DecimalText(status) + [SPACE] + reason + CRLF + FieldLines(fields) + CRLF
  }

  predicate AsksToClose(headers: seq<Header>) {
    SameIgnoringCase(HeaderValue(headers, Ascii("connection")), Ascii("close"))
  }

  // ---- Calls ----------------------------------------------------------------

  /** A stream with its request head staged. */
  function WithRequest(info: StreamInfo, verb: Text, path: Text, authority: Text, headers: seq<Header>, endStream: bool): StreamInfo {
    info.(verb := verb,
          head := RequestHead(verb, path, RequestFields(authority, headers, endStream)),
          chunked := info.chunked || NeedsChunks(headers, endStream),
          closeAfter := AsksToClose(headers),
          requestComplete := info.requestComplete || endStream)
  }

  /** Staged behind the exchange in flight, if there is one. */
  function RequestStaged(c: Core, id: uint32, verb: Text, path: Text, authority: Text, headers: seq<Header>, endStream: bool): Core {
    if id !in c.streams || c.streams[id].headSent then c
    else Flushed(c.(streams := c.streams[id := WithRequest(c.streams[id], verb, path, authority, headers, endStream)]))
  }

  /** The response is out: the connection ends, or the input held is parsed as the next request. */
  function ResponseComplete(p: Parser, id: uint32): Parser {
    var c := p.core;
    var close := id in c.streams && (c.streams[id].closeAfter || !c.streams[id].requestBodyDone);
    if close || c.done then Parser(ConnectionDone(Released(c, id)), [])
    else FedAll(Parser(Released(c, id).(state := StartLine), []), p.pending)
  }

  /** No exchange is in flight any more, and the stream is forgotten. */
  function Released(c: Core, id: uint32): Core {
    c.(lastId := id, streams := c.streams - {id}, order := Without(c.order, id), active := None)
  }

  function ResponseSent(p: Parser, id: uint32, status: int, reason: Text, headers: seq<Header>, endStream: bool): Parser {
    if id !in p.core.streams || p.core.streams[id].headSent then p
    else
      var q := p.(core := ResponseWritten(p.core, id, status, reason, headers, endStream));
      if endStream then ResponseComplete(q, id) else q
  }

  function ResponseWritten(c: Core, id: uint32, status: int, reason: Text, headers: seq<Header>, endStream: bool): Core
    requires id in c.streams
  {
    var info := c.streams[id].(closeAfter := c.streams[id].closeAfter || AsksToClose(headers));
    var head := ResponseHead(status, reason, ResponseFields(info, status, headers, endStream));
    c.Write(id, head).(streams := c.streams[id := Answered(info, status, headers, endStream)])
  }

  /** A stream whose response head is out. */
  function Answered(info: StreamInfo, status: int, headers: seq<Header>, endStream: bool): StreamInfo {
    var bodiless := Bodiless(info.verb, status);
    info.(noBody := bodiless, headSent := true,
          chunked := info.chunked || (!bodiless && NeedsChunks(headers, endStream)))
  }

  const LAST_CHUNK: Text := [48, CR, LF, CR, LF]

  /** One chunk, and the last-chunk at the end (section 4.1 of RFC 7230). */
  function Chunk(data: Text, endStream: bool): Text {
    (if data != [] then HexText(|data|) + CRLF + data + CRLF else []) + (if endStream then LAST_CHUNK else [])
  }

  function Framed(info: StreamInfo, data: Text, endStream: bool): Text {
    if info.chunked then Chunk(data, endStream) else data
  }

  /** Whether a body is accepted for a stream at all. */
  predicate Accepts(c: Core, id: uint32) {
    id in c.streams && !c.streams[id].requestComplete && c.streams[id].headSent
  }

  function BodyWritten(c: Core, id: uint32, data: Text, endStream: bool): Core
    requires id in c.streams
  {
    var info := c.streams[id];
    var framed := Framed(info, data, endStream);
    if c.active == Some(id) then c.Write(id, framed)
    else c.(streams := c.streams[id := info.(staged := info.staged + framed)])
  }

  function DataSent(p: Parser, id: uint32, data: Text, endStream: bool): Parser {
    var c := p.core;
    if !Accepts(c, id) then p
    else
      var info := c.streams[id];
      if info.noBody then if endStream && !c.client then ResponseComplete(p, id) else p
      else
        var d := BodyWritten(c, id, data, endStream);
        if !endStream then p.(core := d)
        else if !c.client then ResponseComplete(p.(core := d), id)
        else p.(core := d.(streams := d.streams[id := d.streams[id].(requestComplete := true)]))
  }

  /** How many octets a call accepts. */
  function Accepted(c: Core, id: uint32, data: Text): nat {
    if Accepts(c, id) && !c.streams[id].noBody then |data| else 0
  }

  /** The peer has closed the connection. */
  function AtEof(c: Core): Core {
    if c.eof then c
    else
      var d := c.(eof := true);
      match c.state
      case BodyUntilClose =>
        (match c.active
         case Some(id) => ExchangeComplete(d.(done := true), id)
         case None => ConnectionDone(d.(done := true)))
      case StartLine => if c.client && c.active.Some? then Failed(d, ConnectionReset) else ConnectionDone(d)
      case Finished => d
      case _ => Failed(d, ConnectionReset)
  }

  // ---- Coherence ------------------------------------------------------------

  lemma FlushedHolds(c: Core, buffer: Text)
    requires Coherent(c) && Holding(c, buffer)
    ensures Coherent(Flushed(c)) && Holding(Flushed(c), buffer)
  {
    hide FirstPending;
    FlushedCoherent(c);
  }

  lemma EofCoherent(c: Core)
    requires Coherent(c)
    ensures Coherent(AtEof(c)) && (c.eof || AtEof(c).state == Finished)
  {
    hide Add, Without;
  }

  lemma ForgottenAll(c: Core, id: uint32)
    ensures Forgotten(c, id).(active := None) == Released(c, id)
  {
  }

  lemma DoneHolds(c: Core, buffer: Text)
    requires |buffer| <= CAPACITY
    ensures var d := ConnectionDone(c); Coherent(d) && Holding(d, buffer) && d.state == Finished
  {
  }

  lemma ReleasedCoherent(c: Core, id: uint32)
    requires Coherent(c) && !c.done
    ensures Coherent(Released(c, id).(state := StartLine))
  {
  }

  lemma HeldIs(c: Core, buffer: Text)
    requires Coherent(c) && !c.done
    ensures c.state != Finished
  {
  }

  /** Coherence is about the state, the exchange in flight and the body, and nothing else. */
  lemma OutputDoesNotMatter(c: Core, d: Core, buffer: Text)
    requires Coherent(c) && Holding(c, buffer)
    requires d.state == c.state && d.active == c.active && d.done == c.done && d.message == c.message && d.client == c.client
    ensures Coherent(d) && Holding(d, buffer)
  {
  }

  lemma EofHolds(c: Core, buffer: Text)
    requires Coherent(c) && Holding(c, buffer)
    ensures Coherent(AtEof(c)) && Holding(AtEof(c), buffer)
  {
    EofCoherent(c);
  }

  lemma WrittenKeeps(c: Core, id: uint32, status: int, reason: Text, headers: seq<Header>, endStream: bool)
    requires id in c.streams
    ensures var d := ResponseWritten(c, id, status, reason, headers, endStream);
            d.state == c.state && d.active == c.active && d.done == c.done && d.message == c.message && d.client == c.client
  {
  }
}
