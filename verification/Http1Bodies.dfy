/**
 Messages whose bodies are not chunked, from one HTTP/1.1 engine to another: with the length
 announced, without a body, and, on the way to a client, until the connection closes.
 */
module Http1Bodies {
  import opened Bits
  import opened Wrappers
  import opened Headers
  import opened Http1Text
  import opened Http1Core
  import opened Http1Feed
  import opened Http1Calls
  import opened Http1Chunked
  import opened Http1Heads
  import opened Http1Responses

  const CONTENT_LENGTH := Ascii("content-length")

  /** No field of that name, in any case. */
  ghost predicate Lacks(fields: seq<Header>, name: Text) {
    forall i :: 0 <= i < |fields| ==> !SameIgnoringCase(fields[i].name, name)
  }

  /** The first field of that name, in any case, has this value. */
  ghost predicate FirstHas(fields: seq<Header>, name: Text, value: Text) {
    exists i :: 0 <= i < |fields| && FirstAt(fields, name, value, i)
  }

  ghost predicate FirstAt(fields: seq<Header>, name: Text, value: Text, i: nat)
    requires i < |fields|
  {
    SameIgnoringCase(fields[i].name, name) && fields[i].value == value && Lacks(fields[..i], name)
  }

  /** A head that announces a body of `n` octets, in decimal, or none at all. */
  ghost predicate Announces(fields: seq<Header>, n: nat) {
    && n <= MAX_UINT64 && Lacks(fields, TRANSFER_ENCODING)
    && (FirstHas(fields, CONTENT_LENGTH, DecimalText(n)) || (n == 0 && Lacks(fields, CONTENT_LENGTH)))
  }

  // ---- Looking up fields ----------------------------------------------------

  lemma SameLower(a: Text, b: Text)
    ensures SameIgnoringCase(ToLower(a), b) <==> SameIgnoringCase(a, b)
  {
    LowerTwice(a);
  }

  lemma {:induction false} NoValue(headers: seq<Header>, name: Text)
    requires Lacks(headers, name)
    ensures HeaderValue(headers, name) == []
  {
    hide SameIgnoringCase;
    if headers != [] {
      NoValue(headers[1..], name);
    }
  }

  lemma LackingValue(fields: seq<Header>, name: Text)
    requires Lacks(fields, name)
    ensures HeaderValue(Normalized(fields), name) == []
  {
    hide SameIgnoringCase, ToLower, Trim, HeaderValue;
    NormalizedIs(fields);
    forall i | 0 <= i < |fields|
      ensures !SameIgnoringCase(Normalized(fields)[i].name, name)
    {
      SameLower(fields[i].name, name);
    }
    NoValue(Normalized(fields), name);
  }

  lemma FirstValue(fields: seq<Header>, name: Text, value: Text)
    requires FirstHas(fields, name, value)
    ensures HeaderValue(Normalized(fields), name) == Trim(value) && HeaderValue(fields, name) == value
  {
    hide SameIgnoringCase, ToLower, Trim, HeaderValue;
    var i :| 0 <= i < |fields| && FirstAt(fields, name, value, i);
    NormalizedIs(fields);
    SameLower(fields[i].name, name);
    forall j | 0 <= j < i
      ensures !SameIgnoringCase(Normalized(fields)[j].name, name) && !SameIgnoringCase(fields[j].name, name)
    {
      assert fields[..i][j] == fields[j];
      SameLower(fields[j].name, name);
    }
    ValueAt(Normalized(fields), name, i);
    ValueAt(fields, name, i);
  }

  /** What the announcement means to the reader. */
  lemma LengthIs(fields: seq<Header>, n: nat)
    requires Announces(fields, n)
    ensures !Contains(HeaderValue(Normalized(fields), TRANSFER_ENCODING), Ascii("chunked"))
    ensures var length := HeaderValue(Normalized(fields), CONTENT_LENGTH);
            if length == [] then n == 0 && Lacks(fields, CONTENT_LENGTH) else Number64(length, 10) == Some(n)
  {
    hide HeaderValue, Lacks, Number, DecimalText, Trim;
    LackingValue(fields, TRANSFER_ENCODING);
    if FirstHas(fields, CONTENT_LENGTH, DecimalText(n)) {
      FirstValue(fields, CONTENT_LENGTH, DecimalText(n));
      DecimalComesBack(n);
      NothingToTrim(DecimalText(n));
    } else {
      LackingValue(fields, CONTENT_LENGTH);
    }
  }

  // ---- Reading a body of known length ---------------------------------------

  /** In the middle of a message, with `n` octets of its body to come. */
  predicate InLength(c: Core, n: nat) {
    c.state == BodyLength && c.active.Some? && !c.done && c.message.remaining == n > 0
  }

  lemma LengthReads(c: Core, body: Text, rest: Text)
    requires InLength(c, |body|)
    ensures FedAll(Parser(c, []), body + rest)
         == FedAll(Parser(MessageFinished(EmitData(c, body).(message := c.message.(remaining := 0))), []), rest)
  {
    hide FedAll, Fed, EmitData, MessageFinished;
    BodyOctets(c, body);
    FedConcat(Parser(c, []), body, rest);
    EmitKeeps(c, body);
  }

  // ---- Requests -------------------------------------------------------------

  /** A message, of version 1.1, that asks to end the connection behind its exchange. */
  predicate AsksEnd(fields: seq<Header>) {
    SameIgnoringCase(HeaderValue(Normalized(fields), Ascii("connection")), Ascii("close"))
  }

  lemma RequestAsks(c: Core, verb: Text, path: Text, fields: seq<Header>)
    ensures Closes(HeadRead(c, verb, path, fields).message) == AsksEnd(fields)
  {
    hide Normalized, SameIgnoringCase, HeaderValue, Ascii;
  }

  /** The interim response a client that expects one before it sends its body is answered with. */
  function Interims(id: uint32, fields: seq<Header>, n: nat): seq<Piece> {
    if n > 0 && SameIgnoringCase(HeaderValue(Normalized(fields), Ascii("expect")), Ascii("100-continue"))
    then [Piece(id, Ascii("HTTP/1.1 100 Continue\r\n\r\n"))] else []
  }

  /** The server at the end of a request head: the body is next, or the request is complete. */
  lemma RequestLeads(c: Core, verb: Text, path: Text, fields: seq<Header>, n: nat)
    requires Idle(c) && Announces(fields, n)
    ensures var d := HeadersComplete(HeadRead(c, verb, path, fields));
            && d.events == c.events + [NewStream(c.nextId), HeadersArrived(c.nextId, RequestHeaders(verb, path, fields))]
                 + (if n == 0 then [StreamClosed(c.nextId)] else [])
            && (if n == 0 then d.state == AwaitingResponse else InLength(d, n))
            && d.active == Some(c.nextId) && !d.client && d.eof == c.eof
            && d.wire == c.wire + Interims(c.nextId, fields, n)
            && c.nextId in d.streams && (c.nextId !in c.streams ==> d.streams[c.nextId].closeAfter == AsksEnd(fields))
  {
    hide Normalized, Closes, Announced, SameIgnoringCase, Contains, HeaderValue, RequestHeaders, Ascii, Number64, Announces;
    hide AsksEnd;
    ReportIs(c, verb, path, fields);
    RequestAsks(c, verb, path, fields);
    LengthIs(fields, n);
    var h, id := HeadRead(c, verb, path, fields), c.nextId;
    assert h.streams[id].verb == verb && h.message.headers == Normalized(fields);
    var e := HeadersReported(h, id, Closes(h.message));
    assert e.events == c.events + [NewStream(id)] + [HeadersArrived(id, RequestHeaders(verb, path, fields))];
    BodyFollows(e, id, n);
  }

  lemma BodyFollows(e: Core, id: uint32, n: nat)
    requires !IsChunked(e.message) && e.active == Some(id) && !e.done && !e.client
    requires e.events != [] && !e.events[|e.events| - 1].Data?
    requires var length := HeaderValue(e.message.headers, Ascii("content-length"));
             if length == [] then n == 0 else Number64(length, 10) == Some(n)
    ensures var d := RequestBody(e, id);
            && d.events == e.events + (if n == 0 then [StreamClosed(id)] else [])
            && (if n == 0 then d.state == AwaitingResponse else InLength(d, n))
            && d.active == Some(id) && !d.client && d.eof == e.eof
            && d.wire == e.wire
                 + (if n > 0 && SameIgnoringCase(HeaderValue(e.message.headers, Ascii("expect")), Ascii("100-continue"))
                   then [Piece(id, Ascii("HTTP/1.1 100 Continue\r\n\r\n"))] else [])
            && (id in e.streams ==> id in d.streams && d.streams[id].closeAfter == e.streams[id].closeAfter)
  {
    hide IsChunked, HeaderValue, Ascii, Number64, SameIgnoringCase;
  }

  lemma ServerEnds(c: Core, body: Text)
    requires InLength(c, |body|) && !c.client && c.events != [] && !c.events[|c.events| - 1].Data?
    ensures var d := MessageFinished(EmitData(c, body).(message := c.message.(remaining := 0)));
            && d.state == AwaitingResponse && d.wire == c.wire
            && d.events == c.events + [Data(c.active.value, body)] + [StreamClosed(c.active.value)]
            && (c.active.value in c.streams ==>
                  c.active.value in d.streams
                  && d.streams[c.active.value].closeAfter == c.streams[c.active.value].closeAfter)
  {
    var id := c.active.value;
    var d := EmitData(c, body).(message := c.message.(remaining := 0));
    assert d.events == c.events + [Data(id, body)];
    assert d.Emit(StreamClosed(id)).events == d.events + [StreamClosed(id)];
  }

  /** The events of a whole request. */
  function RequestEvents(id: uint32, verb: Text, path: Text, fields: seq<Header>, body: Text): seq<Event> {
    [NewStream(id), HeadersArrived(id, RequestHeaders(verb, path, fields))]
    + (if body == [] then [] else [Data(id, body)]) + [StreamClosed(id)]
  }

  /**
   What the server makes of the octets of a request whose head announces the length of its
   body, or that has none, in any reads: the request, and not an octet of what follows it.
   */
  lemma SizedRequestReads(
    c: Core, verb: Text, path: Text, fields: seq<Header>, body: Text, rest: Text, input: seq<Text>)
    requires Idle(c) && PlainRequest(verb, path) && (forall h :: h in fields ==> Plain(h)) && Announces(fields, |body|)
    requires Concat(input) == RequestHead(verb, path, fields) + (body + rest)
    ensures var p := FedReads(Parser(c, []), input);
            && p.core.state == AwaitingResponse && p.pending == rest
            && p.core.events == c.events + RequestEvents(c.nextId, verb, path, fields, body)
            && p.core.wire == c.wire + Interims(c.nextId, fields, |body|)
            && c.nextId in p.core.streams
            && (c.nextId !in c.streams ==> p.core.streams[c.nextId].closeAfter == AsksEnd(fields))
  {
    hide FedAll, FedReads, RequestHead, HeadersComplete, Announces, Plain, PlainRequest, RequestHeaders, HeadRead;
    hide MessageFinished, EmitData, Interims, AsksEnd;
    ReadsAreOctets(Parser(c, []), input);
    HeadComesBack(c, verb, path, fields, body + rest);
    RequestLeads(c, verb, path, fields, |body|);
    var d := HeadersComplete(HeadRead(c, verb, path, fields));
    if body == [] {
      assert body + rest == rest;
      AwaitingHolds(d, [], rest);
    } else {
      LengthReads(d, body, rest);
      ServerEnds(d, body);
      AwaitingHolds(MessageFinished(EmitData(d, body).(message := d.message.(remaining := 0))), [], rest);
    }
    assert [] + rest == rest;
  }

  // ---- Writing a body as it is ----------------------------------------------

  /** The exchange in flight takes a body, and not in chunks. */
  predicate SendingPlain(c: Core, id: uint32) {
    Accepts(c, id) && !c.streams[id].noBody && !c.streams[id].chunked && c.active == Some(id)
  }

  function PlainPieces(id: uint32, pieces: seq<Text>): seq<Piece> {
    if pieces == [] then [] else [Piece(id, pieces[0])] + PlainPieces(id, pieces[1..])
  }

  lemma {:induction false} PlainPiecesFlat(id: uint32, pieces: seq<Text>)
    ensures Flat(PlainPieces(id, pieces)) == Concat(pieces)
  {
    if pieces != [] {
      PlainPiecesFlat(id, pieces[1..]);
      FlatConcat([Piece(id, pieces[0])], PlainPieces(id, pieces[1..]));
      FlatOne(Piece(id, pieces[0]));
    }
  }

  /** The calls put exactly their octets on the wire; then the message is complete. */
  lemma {:induction false} PlainCallsWrite(p: Parser, id: uint32, pieces: seq<Text>)
    requires SendingPlain(p.core, id) && pieces != []
    ensures var c := p.core.(wire := p.core.wire + PlainPieces(id, pieces));
            Calls(p, id, pieces) ==
              if c.client then p.(core := c.(streams := c.streams[id := c.streams[id].(requestComplete := true)]))
              else ResponseComplete(p.(core := c), id)
    decreases |pieces|
  {
    hide ResponseComplete;
    if |pieces| > 1 {
      var q := DataSent(p, id, pieces[0], false);
      assert q == p.(core := p.core.Write(id, pieces[0]));
      PlainCallsWrite(q, id, pieces[1..]);
      var one, rest := [Piece(id, pieces[0])], PlainPieces(id, pieces[1..]);
      assert p.core.wire + one + rest == p.core.wire + (one + rest);
    } else {
      assert pieces[1..] == [] && PlainPieces(id, pieces) == [Piece(id, pieces[0])];
    }
  }

  /** What calls add to what an engine has written begins with the body; on a client it is the body. */
  lemma PlainBodyIsWritten(p: Parser, id: uint32, pieces: seq<Text>)
    requires SendingPlain(p.core, id) && pieces != []
    ensures Flat(p.core.wire) + Concat(pieces) <= Flat(Calls(p, id, pieces).core.wire)
    ensures p.core.client ==> Flat(p.core.wire) + Concat(pieces) == Flat(Calls(p, id, pieces).core.wire)
  {
    hide ResponseComplete, Flat, PlainPieces, Concat, Calls;
    var c := p.core.(wire := p.core.wire + PlainPieces(id, pieces));
    PlainCallsWrite(p, id, pieces);
    ResponseGrows(p.(core := c), id);
    FlatConcat(p.core.wire, PlainPieces(id, pieces));
    PlainPiecesFlat(id, pieces);
    FlatGrows(c.wire, Calls(p, id, pieces).core.wire);
  }

  /** Behind the end of a body a client accepts nothing more, chunked or not, and writes nothing. */
  lemma NothingBehindTheEnd(p: Parser, id: uint32, pieces: seq<Text>, data: Text, endStream: bool)
    requires p.core.client && (SendingPlain(p.core, id) || Sending(p.core, id)) && pieces != []
    ensures var q := Calls(p, id, pieces);
            Accepted(q.core, id, data) == 0 && DataSent(q, id, data, endStream) == q
  {
    hide Calls, PlainPieces, ChunkPieces;
    if Sending(p.core, id) {
      CallsWrite(p, id, pieces);
    } else {
      PlainCallsWrite(p, id, pieces);
    }
  }

  // ---- A whole request ------------------------------------------------------

  /** The client's part: a head, and the body in any number of calls; or a head that is all. */
  function RequestCalls(client: Parser, id: uint32, verb: Text, path: Text, authority: Text, headers: seq<Header>,
                        pieces: seq<Text>): Parser
  {
    var staged := client.(core := RequestStaged(client.core, id, verb, path, authority, headers, pieces == []));
    if pieces == [] then staged else Calls(staged, id, pieces)
  }

  lemma HeadGoesOut(c: Core, id: uint32, verb: Text, path: Text, authority: Text, headers: seq<Header>, endStream: bool)
    requires IsNext(c, id) && !NeedsChunks(headers, endStream) && !c.streams[id].chunked
    ensures var d := RequestStaged(c, id, verb, path, authority, headers, endStream);
            && d.client && (!endStream ==> SendingPlain(d, id))
            && d.wire == c.wire + [Piece(id, RequestHead(verb, path, RequestFields(authority, headers, endStream)))]
  {
    hide RequestHead, RequestFields, NeedsChunks, AsksToClose;
    assert RequestHead(verb, path, RequestFields(authority, headers, endStream)) + []
        == RequestHead(verb, path, RequestFields(authority, headers, endStream));
  }

  /** The octets of the calls: the head and the body, and nothing else. */
  lemma PlainRequestIsWritten(client: Parser, id: uint32, verb: Text, path: Text, authority: Text, headers: seq<Header>,
                              pieces: seq<Text>)
    requires IsNext(client.core, id) && !NeedsChunks(headers, pieces == []) && !client.core.streams[id].chunked
    ensures Flat(RequestCalls(client, id, verb, path, authority, headers, pieces).core.wire)
         == Flat(client.core.wire)
            + (RequestHead(verb, path, RequestFields(authority, headers, pieces == [])) + Concat(pieces))
  {
    hide RequestHead, RequestFields, RequestStaged, Flat, NeedsChunks, Calls, SendingPlain;
    var staged := client.(core := RequestStaged(client.core, id, verb, path, authority, headers, pieces == []));
    HeadGoesOut(client.core, id, verb, path, authority, headers, pieces == []);
    var head := Piece(id, RequestHead(verb, path, RequestFields(authority, headers, pieces == [])));
    FlatConcat(client.core.wire, [head]);
    FlatOne(head);
    if pieces == [] {
      assert head.bytes + [] == head.bytes;
    } else {
      PlainBodyIsWritten(staged, id, pieces);
      assert Flat(client.core.wire) + head.bytes + Concat(pieces) == Flat(client.core.wire) + (head.bytes + Concat(pieces));
    }
  }

  lemma NamesDiffer()
    ensures !SameIgnoringCase(Ascii("Host"), CONTENT_LENGTH) && !SameIgnoringCase(Ascii("Connection"), CONTENT_LENGTH)
  {
    assert |ToLower(Ascii("Host"))| != |ToLower(CONTENT_LENGTH)|;
    assert |ToLower(Ascii("Connection"))| != |ToLower(CONTENT_LENGTH)|;
  }

  /** A field of another name in front changes nothing. */
  lemma AnnouncesBehind(h: Header, fields: seq<Header>, n: nat)
    requires Announces(fields, n)
    requires !SameIgnoringCase(h.name, TRANSFER_ENCODING) && !SameIgnoringCase(h.name, CONTENT_LENGTH)
    ensures Announces([h] + fields, n)
  {
    hide SameIgnoringCase, DecimalText;
    var all := [h] + fields;
    if FirstHas(fields, CONTENT_LENGTH, DecimalText(n)) {
      var i :| 0 <= i < |fields| && FirstAt(fields, CONTENT_LENGTH, DecimalText(n), i);
      assert all[..i + 1] == [h] + fields[..i];
      assert FirstAt(all, CONTENT_LENGTH, DecimalText(n), i + 1);
    }
  }

  /** What is announced to the engine is announced on the wire, in plain fields. */
  lemma RequestFieldsAnnounce(authority: Text, headers: seq<Header>, n: nat, endStream: bool)
    requires Announces(headers, n) && (n > 0 ==> !endStream)
    requires endStream || FirstHas(headers, CONTENT_LENGTH, DecimalText(n))
    requires (forall h :: h in headers ==> Plain(h)) && NoLine(authority) && |authority| + 7 < CAPACITY
    ensures var fields := RequestFields(authority, headers, endStream);
            Announces(fields, n) && (forall h :: h in fields ==> Plain(h)) && !NeedsChunks(headers, endStream)
  {
    hide Ascii, Plain, NoLine, SameIgnoringCase, DecimalText, Announces, HeaderValue;
    HostIsPlain(authority);
    ChunkedIs();
    NamesDiffer();
    AnnouncesBehind(Header(Ascii("Host"), authority), headers, n);
    if !endStream {
      FirstValue(headers, CONTENT_LENGTH, DecimalText(n));
    }
    var host := [Header(Ascii("Host"), authority)];
    assert [] + headers + [] == headers && host + headers + [] == host + headers;
  }

  /**
   A request with a body of announced length, or without a body, from the calls on the client
   to the events on the server: in whatever calls it is sent and whatever reads it arrives in,
   the request is opened once, with the headers that were sent; its body is exactly the octets
   sent; it is closed once; and what the client sends behind it is held for the next request.
   */
  lemma SizedRequestComesBack(client: Parser, id: uint32, verb: Text, path: Text, authority: Text, headers: seq<Header>,
                              pieces: seq<Text>, server: Core, rest: Text, input: seq<Text>)
    requires IsNext(client.core, id) && !client.core.streams[id].chunked && Idle(server) && PlainRequest(verb, path)
    requires (forall h :: h in headers ==> Plain(h)) && NoLine(authority) && |authority| + 7 < CAPACITY
    requires Announces(headers, |Concat(pieces)|)
    requires pieces != [] ==> FirstHas(headers, CONTENT_LENGTH, DecimalText(|Concat(pieces)|))
    requires Flat(client.core.wire) + Concat(input)
          == Flat(RequestCalls(client, id, verb, path, authority, headers, pieces).core.wire) + rest
    ensures var p := FedReads(Parser(server, []), input);
            var fields := RequestFields(authority, headers, pieces == []);
            && p.core.state == AwaitingResponse && p.pending == rest
            && p.core.events == server.events + RequestEvents(server.nextId, verb, path, fields, Concat(pieces))
            && p.core.wire == server.wire + Interims(server.nextId, fields, |Concat(pieces)|)
            && server.nextId in p.core.streams
            && (server.nextId !in server.streams ==> p.core.streams[server.nextId].closeAfter == AsksEnd(fields))
  {
    hide FedReads, RequestHead, RequestFields, PlainRequest, RequestCalls, Flat, Announces, FirstHas, Plain, NoLine, Idle;
    hide RequestEvents, Interims, IsNext, DecimalText, AsksEnd;
    var body := Concat(pieces);
    if pieces == [] {
      assert |body| == 0;
    }
    RequestFieldsAnnounce(authority, headers, |body|, pieces == []);
    PlainRequestIsWritten(client, id, verb, path, authority, headers, pieces);
    var head := RequestHead(verb, path, RequestFields(authority, headers, pieces == []));
    assert Flat(client.core.wire) + (head + body) + rest == Flat(client.core.wire) + (head + (body + rest));
    SamePrefix(Flat(client.core.wire), Concat(input), head + (body + rest));
    SizedRequestReads(server, verb, path, RequestFields(authority, headers, pieces == []), body, rest, input);
  }

  // ---- Responses ------------------------------------------------------------

  /** The end of an exchange on a client, and of the connection if either side has asked for it. */
  function Ending(id: uint32, last: bool, goaway: bool): seq<Event> {
    [StreamClosed(id)] + if last && !goaway then [Goaway(id)] else []
  }

  lemma ExchangeEnds(c: Core, id: uint32)
    requires c.client && c.active == Some(id) && id in c.streams
    ensures var d, last := ExchangeComplete(c, id), c.streams[id].closeAfter || c.done;
            && d.state == (if last then Finished else StartLine)
            && d.events == c.events + Ending(id, last, c.goaway)
  {
    hide FirstPending, Without;
    assert c.Emit(StreamClosed(id)).events == c.events + [StreamClosed(id)];
  }

  /** What a client makes of a head: nothing follows it, a body of some length, or whatever comes. */
  datatype Extent = Nothing | Octets(n: nat) | UntilClose

  /** Section 3.3.3 of RFC 7230, but for chunks. */
  ghost predicate Extends(verb: Text, status: int, fields: seq<Header>, extent: Extent) {
    match extent
    case Nothing => HasNoBody(verb, status)
    case Octets(n) =>
      && !HasNoBody(verb, status) && n <= MAX_UINT64
      && Lacks(fields, TRANSFER_ENCODING) && FirstHas(fields, CONTENT_LENGTH, DecimalText(n))
    case UntilClose =>
      !HasNoBody(verb, status) && Lacks(fields, TRANSFER_ENCODING) && Lacks(fields, CONTENT_LENGTH)
  }

  /** A client that waits for the response to a request of its own. */
  predicate Attending(c: Core) {
    Waiting(c) && c.active.value in c.streams
  }

  lemma ExtentFollows(e: Core, id: uint32, extent: Extent)
    requires e.client && e.active == Some(id) && id in e.streams && !e.done
    requires extent.Nothing? <==> HasNoBody(e.streams[id].verb, e.message.status)
    requires !extent.Nothing? ==> !IsChunked(e.message)
    requires var length := HeaderValue(e.message.headers, Ascii("content-length"));
             match extent
             case Nothing => true
             case Octets(n) => length != [] && Number64(length, 10) == Some(n)
             case UntilClose => length == []
    ensures var d, last := ResponseBody(e, id), e.streams[id].closeAfter;
            if extent.Nothing? || extent == Octets(0) then
              d.state == (if last then Finished else StartLine) && d.events == e.events + Ending(id, last, e.goaway)
            else
              && d.events == e.events && d.client && d.active == Some(id) && d.streams == e.streams
              && d.goaway == e.goaway && d.eof == e.eof
              && !d.done && if extent.UntilClose? then d.state == BodyUntilClose else InLength(d, extent.n)
  {
    hide IsChunked, HeaderValue, Ascii, Number64, HasNoBody, ExchangeComplete;
    ExchangeEnds(e, id);
    ExchangeEnds(e.(message := e.message.(remaining := 0)), id);
  }

  lemma ExtentIs(fields: seq<Header>, n: nat)
    requires n <= MAX_UINT64 && FirstHas(fields, CONTENT_LENGTH, DecimalText(n))
    ensures var length := HeaderValue(Normalized(fields), CONTENT_LENGTH); length != [] && Number64(length, 10) == Some(n)
  {
    hide HeaderValue, FirstHas, Number, DecimalText, Trim;
    FirstValue(fields, CONTENT_LENGTH, DecimalText(n));
    DecimalComesBack(n);
    NothingToTrim(DecimalText(n));
  }

  /** The client at the end of a response head. */
  lemma ResponseLeads(c: Core, status: int, fields: seq<Header>, extent: Extent)
    requires Attending(c) && !Interim(status) && Extends(c.streams[c.active.value].verb, status, fields, extent)
    ensures var d, id, last := HeadersComplete(ResponseRead(c, status, fields)), c.active.value, LastResponse(c, fields);
            var events := c.events + [HeadersArrived(id, ResponseHeaders(status, fields))];
            if extent.Nothing? || extent == Octets(0) then
              d.state == (if last then Finished else StartLine) && d.events == events + Ending(id, last, c.goaway)
            else
              && d.events == events && d.client && d.active == Some(id) && id in d.streams
              && d.goaway == c.goaway && d.eof == c.eof
              && d.streams[id].closeAfter == last
              && !d.done && if extent.UntilClose? then d.state == BodyUntilClose else InLength(d, extent.n)
  {
    hide Normalized, Closes, SameIgnoringCase, Contains, HeaderValue, DecimalText, ResponseHeaders, HasNoBody, Number64;
    hide ResponseBody, Lacks, FirstHas, Ascii, Ending;
    StatusReportIs(c, status, fields);
    ClosingIs(c, status, fields);
    var h, id := ResponseRead(c, status, fields), c.active.value;
    assert h.message.headers == Normalized(fields) && h.message.status == status;
    var e := HeadersReported(h, id, Closes(h.message));
    assert e.events == c.events + [HeadersArrived(id, ResponseHeaders(status, fields))];
    if !extent.Nothing? {
      LackingValue(fields, TRANSFER_ENCODING);
      NotInNothing();
    }
    if extent.Octets? {
      ExtentIs(fields, extent.n);
    } else if extent.UntilClose? {
      LackingValue(fields, CONTENT_LENGTH);
    }
    ExtentFollows(e, id, extent);
  }

  lemma NotInNothing()
    ensures !Contains([], Ascii("chunked"))
  {
  }

  lemma ClientEnds(c: Core, body: Text)
    requires InLength(c, |body|) && c.client && c.active.value in c.streams
    requires c.events != [] && !c.events[|c.events| - 1].Data?
    ensures var d := MessageFinished(EmitData(c, body).(message := c.message.(remaining := 0)));
            var id := c.active.value;
            var last := c.streams[id].closeAfter;
            && d.state == (if last then Finished else StartLine)
            && d.events == c.events + [Data(id, body)] + Ending(id, last, c.goaway)
  {
    hide Ending, ExchangeComplete;
    var d := EmitData(c, body).(message := c.message.(remaining := 0));
    assert d.events == c.events + [Data(c.active.value, body)];
    ExchangeEnds(d, c.active.value);
  }

  /** The events of a response that has come to its end. */
  function ResponseEvents(c: Core, status: int, fields: seq<Header>, body: Text): seq<Event>
    requires c.active.Some? && c.active.value in c.streams
  {
    var id := c.active.value;
    [HeadersArrived(id, ResponseHeaders(status, fields))]
    + (if body == [] then [] else [Data(id, body)]) + Ending(id, LastResponse(c, fields), c.goaway)
  }

  /**
   What the client makes of the octets of a response of known extent, in any reads: the
   response, and then whatever its next state makes of what follows.
   */
  lemma SizedResponseReads(c: Core, status: int, reason: Text, fields: seq<Header>, body: Text, rest: Text,
                           input: seq<Text>) returns (d: Core)
    requires Attending(c) && !Interim(status) && PlainStatus(status, reason) && forall h :: h in fields ==> Plain(h)
    requires var verb := c.streams[c.active.value].verb;
             (body == [] && Extends(verb, status, fields, Nothing)) || Extends(verb, status, fields, Octets(|body|))
    requires Concat(input) == ResponseHead(status, reason, fields) + (body + rest)
    ensures FedReads(Parser(c, []), input) == FedAll(Parser(d, []), rest)
    ensures d.state == if LastResponse(c, fields) then Finished else StartLine
    ensures d.events == c.events + ResponseEvents(c, status, fields, body)
  {
    hide FedAll, FedReads, ResponseHead, HeadersComplete, Plain, PlainStatus, ResponseHeaders, ResponseRead, HasNoBody;
    hide MessageFinished, EmitData, Lacks, FirstHas, LastResponse, Ending, DecimalText;
    var verb := c.streams[c.active.value].verb;
    ReadsAreOctets(Parser(c, []), input);
    ResponseHeadComesBack(c, status, reason, fields, body + rest);
    d := HeadersComplete(ResponseRead(c, status, fields));
    ResponseLeads(c, status, fields, if Extends(verb, status, fields, Nothing) then Nothing else Octets(|body|));
    if body == [] {
      assert body + rest == rest;
    } else {
      LengthReads(d, body, rest);
      ClientEnds(d, body);
      d := MessageFinished(EmitData(d, body).(message := d.message.(remaining := 0)));
    }
  }

  lemma ClosingReads(c: Core, body: Text)
    requires c.state == BodyUntilClose && c.active.Some? && c.events != [] && !c.events[|c.events| - 1].Data?
    ensures var p := FedAll(Parser(c, []), body);
            && p.pending == [] && p.core == c.(events := p.core.events)
            && p.core.events == c.events + if body == [] then [] else [Data(c.active.value, body)]
  {
    hide FedAll, Fed;
    if body == [] {
      FedNothing(Parser(c, []));
    } else {
      BodyOctets(c, body);
    }
  }

  lemma ClosingEnds(c: Core)
    requires c.state == BodyUntilClose && c.client && !c.eof && c.active.Some? && c.active.value in c.streams
    ensures var d, id := AtEof(c), c.active.value;
            d.state == Finished && d.events == c.events + Ending(id, true, c.goaway)
  {
    hide ExchangeComplete;
    ExchangeEnds(c.(eof := true, done := true), c.active.value);
  }

  /**
   A response whose head says nothing of its length: the body is reported as it comes, in any
   reads, and the peer closing the connection is its end, and the connection's.
   */
  lemma CloseDelimitedReads(c: Core, status: int, reason: Text, fields: seq<Header>, body: Text, input: seq<Text>)
    requires Attending(c) && !Interim(status) && PlainStatus(status, reason) && forall h :: h in fields ==> Plain(h)
    requires Extends(c.streams[c.active.value].verb, status, fields, UntilClose) && !c.eof
    requires Concat(input) == ResponseHead(status, reason, fields) + body
    ensures var p, id := FedReads(Parser(c, []), input), c.active.value;
            var read := c.events + [HeadersArrived(id, ResponseHeaders(status, fields))]
                          + if body == [] then [] else [Data(id, body)];
            && p.pending == [] && p.core.state == BodyUntilClose && p.core.events == read
            && AtEof(p.core).state == Finished && AtEof(p.core).events == read + Ending(id, true, c.goaway)
  {
    hide FedAll, FedReads, ResponseHead, HeadersComplete, Plain, PlainStatus, ResponseHeaders, HasNoBody;
    hide Lacks, FirstHas, LastResponse, Ending, AtEof;
    ReadsAreOctets(Parser(c, []), input);
    ResponseHeadComesBack(c, status, reason, fields, body);
    ResponseLeads(c, status, fields, UntilClose);
    var d := HeadersComplete(ResponseRead(c, status, fields));
    ClosingReads(d, body);
    ClosingEnds(FedAll(Parser(d, []), body).core);
  }

  // ---- A whole response -----------------------------------------------------

  /** The server's part: a head, and the body in any number of calls; or a head that is all. */
  function ResponseCalls(server: Parser, id: uint32, status: int, reason: Text, headers: seq<Header>,
                         pieces: seq<Text>): Parser
  {
    var sent := ResponseSent(server, id, status, reason, headers, pieces == []);
    if pieces == [] then sent else Calls(sent, id, pieces)
  }

  lemma ResponseGoes(p: Parser, id: uint32, status: int, reason: Text, headers: seq<Header>, endStream: bool)
    requires Unanswered(p.core, id) && !p.core.streams[id].chunked
    requires !endStream ==> !Bodiless(p.core.streams[id].verb, status) && !NeedsChunks(headers, false)
    ensures var q := ResponseWritten(p.core, id, status, reason, headers, endStream);
            var fields := ResponseFields(Answering(p.core, id, headers), status, headers, endStream);
            && ResponseSent(p, id, status, reason, headers, endStream)
                 == (if endStream then ResponseComplete(p.(core := q), id) else p.(core := q))
            && (!endStream ==> SendingPlain(q, id) && !q.client)
            && q.wire == p.core.wire + [Piece(id, ResponseHead(status, reason, fields))]
  {
    hide ResponseHead, ResponseFields, NeedsChunks, AsksToClose, Bodiless, ResponseComplete;
  }

  /** The octets of the calls begin with the head and the body. */
  lemma PlainResponseIsWritten(server: Parser, id: uint32, status: int, reason: Text, headers: seq<Header>,
                               pieces: seq<Text>)
    requires Unanswered(server.core, id) && !server.core.streams[id].chunked
    requires pieces != [] ==> !Bodiless(server.core.streams[id].verb, status) && !NeedsChunks(headers, false)
    ensures var fields := ResponseFields(Answering(server.core, id, headers), status, headers, pieces == []);
            Flat(server.core.wire) + (ResponseHead(status, reason, fields) + Concat(pieces))
            <= Flat(ResponseCalls(server, id, status, reason, headers, pieces).core.wire)
  {
    hide ResponseHead, ResponseFields, ResponseSent, Flat, NeedsChunks, Calls, Bodiless, ResponseComplete, ResponseWritten;
    hide SendingPlain;
    ResponseGoes(server, id, status, reason, headers, pieces == []);
    var fields := ResponseFields(Answering(server.core, id, headers), status, headers, pieces == []);
    var q := server.(core := ResponseWritten(server.core, id, status, reason, headers, pieces == []));
    var head := Piece(id, ResponseHead(status, reason, fields));
    FlatConcat(server.core.wire, [head]);
    FlatOne(head);
    if pieces == [] {
      ResponseGrows(q, id);
      FlatGrows(q.core.wire, ResponseComplete(q, id).core.wire);
      assert head.bytes + [] == head.bytes;
    } else {
      PlainBodyIsWritten(q, id, pieces);
      assert Flat(server.core.wire) + head.bytes + Concat(pieces) == Flat(server.core.wire) + (head.bytes + Concat(pieces));
    }
  }

  /** What the caller has announced is announced on the wire, in plain fields. */
  lemma ResponseFieldsAnnounce(info: StreamInfo, status: int, headers: seq<Header>, n: nat, endStream: bool)
    requires (forall h :: h in headers ==> Plain(h)) && n <= MAX_UINT64
    requires Lacks(headers, TRANSFER_ENCODING) && FirstHas(headers, CONTENT_LENGTH, DecimalText(n))
    ensures var fields := ResponseFields(info, status, headers, endStream);
            && (forall h :: h in fields ==> Plain(h)) && !NeedsChunks(headers, endStream)
            && Lacks(fields, TRANSFER_ENCODING) && FirstHas(fields, CONTENT_LENGTH, DecimalText(n))
  {
    hide Ascii, Plain, SameIgnoringCase, DecimalText, HeaderValue, Lacks, FirstHas, Bodiless;
    ConnectionIs();
    NamesDiffer();
    var close := Header(Ascii("Connection"), Ascii("close"));
    LacksBehind(close, headers, TRANSFER_ENCODING);
    FirstBehind(close, headers, CONTENT_LENGTH, DecimalText(n));
    FirstValue(headers, CONTENT_LENGTH, DecimalText(n));
    assert [] + headers + [] == headers && [close] + headers + [] == [close] + headers;
  }

  lemma LacksBehind(h: Header, fields: seq<Header>, name: Text)
    requires Lacks(fields, name) && !SameIgnoringCase(h.name, name)
    ensures Lacks([h] + fields, name)
  {
    hide SameIgnoringCase;
  }

  lemma FirstBehind(h: Header, fields: seq<Header>, name: Text, value: Text)
    requires FirstHas(fields, name, value) && !SameIgnoringCase(h.name, name)
    ensures FirstHas([h] + fields, name, value)
  {
    hide SameIgnoringCase;
    var i :| 0 <= i < |fields| && FirstAt(fields, name, value, i);
    var all := [h] + fields;
    assert all[..i + 1] == [h] + fields[..i];
    assert FirstAt(all, name, value, i + 1);
  }

  /** A response to HEAD, or with a status that has none, is plain as soon as its fields are. */
  lemma BodilessFields(info: StreamInfo, status: int, headers: seq<Header>, endStream: bool)
    requires (forall h :: h in headers ==> Plain(h)) && Bodiless(info.verb, status)
    ensures forall h :: h in ResponseFields(info, status, headers, endStream) ==> Plain(h)
  {
    hide Ascii, Plain, HeaderValue, Bodiless;
    ConnectionIs();
  }

  lemma BodilessAgrees(verb: Text, verb': Text, status: int)
    requires SameIgnoringCase(verb, verb') && !Interim(status) && status != 101
    ensures Bodiless(verb, status) <==> HasNoBody(verb', status)
  {
  }

  /**
   A response with a body of announced length, or with none because of its request or its
   status, from the calls on the server to the events on the client that made the request, in
   whatever calls it is sent and whatever reads it arrives in.
   */
  lemma SizedResponseComesBack(server: Parser, id: uint32, status: int, reason: Text, headers: seq<Header>,
                               pieces: seq<Text>, client: Core, input: seq<Text>)
    requires Unanswered(server.core, id) && !server.core.streams[id].chunked && Attending(client)
    requires SameIgnoringCase(server.core.streams[id].verb, client.streams[client.active.value].verb)
    requires PlainStatus(status, reason) && !Interim(status) && status != 101 && forall h :: h in headers ==> Plain(h)
    requires if Bodiless(server.core.streams[id].verb, status) then pieces == []
             else |Concat(pieces)| <= MAX_UINT64 && Lacks(headers, TRANSFER_ENCODING)
                  && FirstHas(headers, CONTENT_LENGTH, DecimalText(|Concat(pieces)|))
    requires var fields := ResponseFields(Answering(server.core, id, headers), status, headers, pieces == []);
             |Concat(input)| == |ResponseHead(status, reason, fields) + Concat(pieces)|
    requires Flat(server.core.wire) + Concat(input)
          <= Flat(ResponseCalls(server, id, status, reason, headers, pieces).core.wire)
    ensures var p := FedReads(Parser(client, []), input);
            var fields := ResponseFields(Answering(server.core, id, headers), status, headers, pieces == []);
            && p.pending == [] && p.core.state == (if LastResponse(client, fields) then Finished else StartLine)
            && p.core.events == client.events + ResponseEvents(client, status, fields, Concat(pieces))
  {
    hide FedReads, ResponseHead, ResponseFields, ResponseCalls, Flat, Concat, Plain, PlainStatus, LastResponse, Bodiless;
    hide Lacks, FirstHas, ResponseEvents, HasNoBody, SameIgnoringCase, DecimalText, FedAll, NeedsChunks;
    var info, body := Answering(server.core, id, headers), Concat(pieces);
    var fields := ResponseFields(info, status, headers, pieces == []);
    BodilessAgrees(info.verb, client.streams[client.active.value].verb, status);
    if Bodiless(info.verb, status) {
      BodilessFields(info, status, headers, pieces == []);
      NoPieces();
    } else {
      ResponseFieldsAnnounce(info, status, headers, |body|, pieces == []);
    }
    PlainResponseIsWritten(server, id, status, reason, headers, pieces);
    SameBehind(Flat(server.core.wire), Concat(input), ResponseHead(status, reason, fields) + body,
               Flat(ResponseCalls(server, id, status, reason, headers, pieces).core.wire));
    assert body + [] == body;
    var d := SizedResponseReads(client, status, reason, fields, body, [], input);
    FedNothing(Parser(d, []));
  }

  lemma NoPieces()
    ensures Concat([]) == []
  {
  }

  // ---- Input that ends too early --------------------------------------------

  lemma PartReads(c: Core, n: nat, part: Text)
    requires InLength(c, n) && |part| < n && c.events != [] && !c.events[|c.events| - 1].Data?
    ensures var p := FedAll(Parser(c, []), part);
            && p.pending == [] && p.core.state == BodyLength && !p.core.done && p.core.eof == c.eof
            && p.core.events == c.events + if part == [] then [] else [Data(c.active.value, part)]
  {
    hide FedAll, Fed;
    if part == [] {
      FedNothing(Parser(c, []));
    } else {
      BodyOctets(c, part);
    }
  }

  /** The peer closing the connection inside a body is an error, and no end of the stream. */
  lemma EofBreaks(c: Core)
    requires c.state == BodyLength && !c.done && !c.eof
    ensures AtEof(c).state == Finished && AtEof(c).events == c.events + [ConnectionError(ConnectionReset)]
  {
  }

  /** A request whose body is cut short. */
  lemma CutRequestBreaks(
    c: Core, verb: Text, path: Text, fields: seq<Header>, n: nat, part: Text, input: seq<Text>)
    requires Idle(c) && !c.eof && PlainRequest(verb, path) && forall h :: h in fields ==> Plain(h)
    requires Announces(fields, n) && |part| < n
    requires Concat(input) == RequestHead(verb, path, fields) + part
    ensures var q := AtEof(FedReads(Parser(c, []), input).core);
            && q.state == Finished
            && q.events == c.events + [NewStream(c.nextId), HeadersArrived(c.nextId, RequestHeaders(verb, path, fields))]
                 + (if part == [] then [] else [Data(c.nextId, part)]) + [ConnectionError(ConnectionReset)]
  {
    hide FedAll, FedReads, RequestHead, HeadersComplete, Announces, Plain, PlainRequest, RequestHeaders, HeadRead, AtEof;
    hide Interims;
    ReadsAreOctets(Parser(c, []), input);
    HeadComesBack(c, verb, path, fields, part);
    RequestLeads(c, verb, path, fields, n);
    var d := HeadersComplete(HeadRead(c, verb, path, fields));
    PartReads(d, n, part);
    EofBreaks(FedAll(Parser(d, []), part).core);
  }

  /** A response whose body is cut short. */
  lemma CutResponseBreaks(
    c: Core, status: int, reason: Text, fields: seq<Header>, n: nat, part: Text, input: seq<Text>)
    requires Attending(c) && !c.eof && !Interim(status) && PlainStatus(status, reason)
    requires (forall h :: h in fields ==> Plain(h)) && |part| < n
    requires Extends(c.streams[c.active.value].verb, status, fields, Octets(n))
    requires Concat(input) == ResponseHead(status, reason, fields) + part
    ensures var q, id := AtEof(FedReads(Parser(c, []), input).core), c.active.value;
            && q.state == Finished
            && q.events == c.events + [HeadersArrived(id, ResponseHeaders(status, fields))]
                 + (if part == [] then [] else [Data(id, part)]) + [ConnectionError(ConnectionReset)]
  {
    hide FedAll, FedReads, ResponseHead, HeadersComplete, Plain, PlainStatus, ResponseHeaders, HasNoBody;
    hide Lacks, FirstHas, LastResponse, Ending, AtEof;
    ReadsAreOctets(Parser(c, []), input);
    ResponseHeadComesBack(c, status, reason, fields, part);
    ResponseLeads(c, status, fields, Octets(n));
    var d := HeadersComplete(ResponseRead(c, status, fields));
    PartReads(d, n, part);
    EofBreaks(FedAll(Parser(d, []), part).core);
  }

  /** Between messages it is the end of the connection, or, of a client that waits, an error. */
  lemma EofBetween(c: Core)
    requires !c.eof && !c.done && (c.state == StartLine || c.state == AwaitingResponse)
    ensures var d := AtEof(c);
            && d.state == Finished && d.done
            && d.events == c.events
                 + if c.state == AwaitingResponse || (c.client && c.active.Some?) then [ConnectionError(ConnectionReset)]
                   else if c.goaway then [] else [Goaway(c.lastId)]
  {
  }

  /** And when it comes again, or after the end, it is nothing. */
  lemma EofAfterwards(c: Core)
    requires c.eof || c.state == Finished
    ensures AtEof(c).events == c.events && AtEof(c).state == c.state
    ensures AtEof(AtEof(c)) == AtEof(c)
  {
  }

  // ---- Heads ----------------------------------------------------------------

  /** Looking a field up after reading is looking it up before, without the blanks around it. */
  lemma {:induction false} ValueNormalized(fields: seq<Header>, name: Text)
    ensures HeaderValue(Normalized(fields), name) == Trim(HeaderValue(fields, name))
    decreases |fields|
  {
    hide SameIgnoringCase, ToLower, Trim;
    NormalizedIs(fields);
    if fields == [] {
      NothingToTrim([]);
    } else {
      NormalizedIs(fields[1..]);
      assert Normalized(fields)[1..] == Normalized(fields[1..]);
      SameLower(fields[0].name, name);
      ValueNormalized(fields[1..], name);
    }
  }

  /** The authority the client is called with is the one the server reports, unless a Host field takes its place. */
  lemma AuthorityComesBack(verb: Text, path: Text, authority: Text, headers: seq<Header>, endStream: bool)
    ensures var own := HeaderValue(headers, Ascii("host"));
            RequestHeaders(verb, path, RequestFields(authority, headers, endStream))[..3]
            == [Header(Ascii(":method"), verb), Header(Ascii(":path"), path),
                Header(Ascii(":authority"), Trim(if own == [] then authority else own))]
  {
    hide SameIgnoringCase, Ascii, Trim, NeedsChunks;
    var fields := RequestFields(authority, headers, endStream);
    ValueNormalized(fields, Ascii("host"));
    HostIsHost();
    ValueInFront(headers, [CHUNKED], Ascii("host"));
    assert [] + headers == headers && headers + [] == headers;
    if authority != [] && HeaderValue(headers, Ascii("host")) == [] {
      assert fields[0] == Header(Ascii("Host"), authority);
    } else {
      assert fields == headers || fields == headers + [CHUNKED];
    }
  }

  lemma HostIsHost()
    ensures SameIgnoringCase(Ascii("Host"), Ascii("host")) && !SameIgnoringCase(CHUNKED.name, Ascii("host"))
  {
    assert |ToLower(CHUNKED.name)| != |ToLower(Ascii("host"))|;
  }

  lemma {:induction false} ValueInFront(a: seq<Header>, b: seq<Header>, name: Text)
    requires Lacks(b, name)
    ensures HeaderValue(a + b, name) == HeaderValue(a, name)
  {
    hide SameIgnoringCase;
    if a == [] {
      assert a + b == b;
      NoValue(b, name);
    } else {
      assert (a + b)[1..] == a[1..] + b;
      ValueInFront(a[1..], b, name);
    }
  }

  /**
   A message of version 1.0 ends the connection unless it asks to keep it alive, one of a later
   version only if it asks to close it.
   */
  lemma ClosesByVersion(m: Message, fields: seq<Header>, value: Text)
    requires m.headers == Normalized(fields)
    ensures Lacks(fields, Ascii("connection")) ==> (Closes(m) <==> m.minor == 0)
    ensures FirstHas(fields, Ascii("connection"), value) ==>
              && (SameIgnoringCase(Trim(value), Ascii("close")) ==> Closes(m))
              && (SameIgnoringCase(Trim(value), Ascii("keep-alive")) ==> !Closes(m))
  {
    hide HeaderValue, Normalized, Lacks, FirstHas, Trim;
    assert |ToLower(Ascii("close"))| == 5 && |ToLower(Ascii("keep-alive"))| == 10 && |ToLower([])| == 0;
    if Lacks(fields, Ascii("connection")) {
      LackingValue(fields, Ascii("connection"));
    }
    if FirstHas(fields, Ascii("connection"), value) {
      FirstValue(fields, Ascii("connection"), value);
    }
  }

  /** A client that has asked to end the connection knows it, and so does the server that has read the request. */
  lemma EndIsAsked(c: Core, id: uint32, verb: Text, path: Text, authority: Text, headers: seq<Header>, endStream: bool)
    requires IsNext(c, id)
    ensures var d := RequestStaged(c, id, verb, path, authority, headers, endStream);
            id in d.streams && (d.streams[id].closeAfter ==> AsksEnd(RequestFields(authority, headers, endStream)))
    ensures AsksEnd(RequestFields(authority, headers, endStream))
       <==> SameIgnoringCase(Trim(HeaderValue(headers, Ascii("connection"))), Ascii("close"))
  {
    hide SameIgnoringCase, Ascii, Trim, RequestFields, RequestStaged, HeaderValue, Normalized;
    StagedAsks(c, id, verb, path, authority, headers, endStream);
    ValueNormalized(RequestFields(authority, headers, endStream), Ascii("connection"));
    ConnectionOf(authority, headers, endStream);
    if AsksToClose(headers) {
      CloseWithBlanks(HeaderValue(headers, Ascii("connection")));
    }
  }

  lemma StagedAsks(c: Core, id: uint32, verb: Text, path: Text, authority: Text, headers: seq<Header>, endStream: bool)
    requires IsNext(c, id)
    ensures var d := RequestStaged(c, id, verb, path, authority, headers, endStream);
            id in d.streams && d.streams[id].closeAfter == AsksToClose(headers)
  {
    hide RequestHead, RequestFields, NeedsChunks, AsksToClose;
  }

  /** What the engine adds to the fields of a request is not about the connection. */
  lemma ConnectionOf(authority: Text, headers: seq<Header>, endStream: bool)
    ensures HeaderValue(RequestFields(authority, headers, endStream), Ascii("connection"))
         == HeaderValue(headers, Ascii("connection"))
  {
    hide SameIgnoringCase, Ascii, NeedsChunks, HeaderValue;
    CloseIsClose();
    HostIsNoConnection();
    var more := headers + if NeedsChunks(headers, endStream) then [CHUNKED] else [];
    ValueInFront(headers, [CHUNKED], Ascii("connection"));
    ValueBehind(Header(Ascii("Host"), authority), more, Ascii("connection"));
    assert headers + [] == headers;
    assert RequestFields(authority, headers, endStream) == more
        || RequestFields(authority, headers, endStream) == [Header(Ascii("Host"), authority)] + more;
  }

  lemma HostIsNoConnection()
    ensures !SameIgnoringCase(Ascii("Host"), Ascii("connection"))
  {
    assert |ToLower(Ascii("Host"))| != |ToLower(Ascii("connection"))|;
  }

  lemma ValueBehind(h: Header, fields: seq<Header>, name: Text)
    requires !SameIgnoringCase(h.name, name)
    ensures HeaderValue([h] + fields, name) == HeaderValue(fields, name)
  {
    assert ([h] + fields)[1..] == fields;
  }

  /** Whether a response says that the connection ends behind it: exactly if the server ends it there. */
  lemma CloseIsAnnounced(info: StreamInfo, status: int, headers: seq<Header>, endStream: bool)
    requires HeaderValue(headers, Ascii("connection")) == [] || AsksToClose(headers)
    ensures var fields := ResponseFields(info, status, headers, endStream);
            var value := HeaderValue(Normalized(fields), Ascii("connection"));
            if info.closeAfter || HeaderValue(headers, Ascii("connection")) != [] then
              SameIgnoringCase(value, Ascii("close"))
            else value == []
  {
    hide SameIgnoringCase, Ascii, Trim, NeedsChunks, Bodiless;
    var fields := ResponseFields(info, status, headers, endStream);
    ValueNormalized(fields, Ascii("connection"));
    CloseIsClose();
    SameAsItself(Ascii("close"));
    if HeaderValue(headers, Ascii("connection")) != [] {
      CloseWithBlanks(HeaderValue(headers, Ascii("connection")));
    }
    ValueInFront(headers, [CHUNKED], Ascii("connection"));
    assert [] + headers == headers && headers + [] == headers;
    if info.closeAfter && HeaderValue(headers, Ascii("connection")) == [] {
      assert fields[0] == Header(Ascii("Connection"), Ascii("close"));
      assert HeaderValue(fields, Ascii("connection")) == Ascii("close");
    } else {
      assert fields == headers || fields == headers + [CHUNKED];
    }
  }

  lemma CloseIsClose()
    ensures SameIgnoringCase(Ascii("Connection"), Ascii("connection"))
    ensures !SameIgnoringCase(CHUNKED.name, Ascii("connection"))
    ensures Trim(Ascii("close")) == Ascii("close") && Trim([]) == []
  {
    assert |ToLower(CHUNKED.name)| != |ToLower(Ascii("connection"))|;
    NothingToTrim(Ascii("close"));
  }

  lemma CloseWithBlanks(value: Text)
    requires SameIgnoringCase(value, Ascii("close"))
    ensures Trim(value) == value
  {
    assert |ToLower(value)| == 5;
    forall i | 0 <= i < 5
      ensures !IsBlank(value[i])
    {
      assert ToLower(value)[i] == ToLower(Ascii("close"))[i];
    }
    NothingToTrim(value);
  }

  // ---- What is refused, and what is passed over -----------------------------

  /** A length that is not a decimal number of 64 bits is an error, and the end. */
  lemma BadLengthBreaks(c: Core, verb: Text, path: Text, fields: seq<Header>, value: Text, rest: Text)
    requires Idle(c) && PlainRequest(verb, path) && (forall h :: h in fields ==> Plain(h))
    requires Lacks(fields, TRANSFER_ENCODING) && FirstHas(fields, CONTENT_LENGTH, value)
    requires Trim(value) != [] && Number64(Trim(value), 10) == None
    ensures var p := FedAll(Parser(c, []), RequestHead(verb, path, fields) + rest);
            && p.core.state == Finished
            && p.core.events == c.events + [NewStream(c.nextId), HeadersArrived(c.nextId, RequestHeaders(verb, path, fields))]
                 + [ConnectionError(ProtocolError)]
  {
    hide FedAll, Fed, RequestHead, Plain, PlainRequest, RequestHeaders, Normalized, Closes, Announced, HeaderValue, Number64;
    hide SameIgnoringCase, Trim, Lacks, FirstHas, Contains;
    HeadComesBack(c, verb, path, fields, rest);
    ReportIs(c, verb, path, fields);
    FirstValue(fields, CONTENT_LENGTH, value);
    LackingValue(fields, TRANSFER_ENCODING);
    NotInNothing();
    var h, id := HeadRead(c, verb, path, fields), c.nextId;
    assert h.streams[id].verb == verb && h.message.headers == Normalized(fields);
    var e := HeadersReported(h, id, Closes(h.message));
    assert e.events == c.events + [NewStream(id)] + [HeadersArrived(id, RequestHeaders(verb, path, fields))];
    FinishedStays(Parser(HeadersComplete(h), []), rest);
  }

  /** What follows a semicolon on a chunk-size line is passed over. */
  lemma ExtensionIsIgnored(c: Core, n: nat, extension: Text, rest: Text)
    requires InChunks(c) && n <= MAX_UINT64 && NoLine(extension) && |HexText(n)| + 1 + |extension| + 1 < CAPACITY
    ensures FedAll(Parser(c, []), HexText(n) + [SEMICOLON] + extension + CRLF + rest)
         == FedAll(Parser(c.(message := c.message.(remaining := n),
                             state := if n == 0 then ChunkTrailer else ChunkData), []), rest)
  {
    hide FedAll, Fed, HexText;
    var size := HexText(n);
    var line := size + [SEMICOLON] + extension;
    HexComesBack(n);
    NoLineConcat(size, [SEMICOLON]);
    NoLineConcat(size + [SEMICOLON], extension);
    LineReads(c, line, rest);
    FirstIs(size, SEMICOLON, extension);
    assert line[..|size|] == size;
    NothingToTrim(size);
  }

  /** So are the fields behind the last chunk. */
  lemma TrailersAreIgnored(c: Core, fields: seq<Header>, rest: Text)
    requires c.state == ChunkTrailer && !c.done && forall h :: h in fields ==> Plain(h)
    ensures FedAll(Parser(c, []), FieldLines(fields) + (CRLF + rest)) == FedAll(Parser(MessageFinished(c), []), rest)
  {
    hide FedAll, Fed, MessageFinished, Plain, FieldLines;
    LinesSkipped(c, fields, CRLF + rest);
    assert [] + CRLF + rest == CRLF + rest;
    LineReads(c, [], rest);
  }

  lemma {:induction false} LinesSkipped(c: Core, fields: seq<Header>, rest: Text)
    requires c.state == ChunkTrailer && !c.done && forall h :: h in fields ==> Plain(h)
    ensures FedAll(Parser(c, []), FieldLines(fields) + rest) == FedAll(Parser(c, []), rest)
    decreases |fields|
  {
    hide FedAll, Fed, MessageFinished, FieldLine, FieldText;
    if fields == [] {
      assert [] + rest == rest;
    } else {
      var front, h := fields[..|fields| - 1], fields[|fields| - 1];
      assert h in fields;
      FieldIsLine(h);
      assert FieldLines(fields) + rest == FieldLines(front) + (FieldLine(h) + rest);
      LinesSkipped(c, front, FieldLine(h) + rest);
      LineReads(c, FieldText(h), rest);
    }
  }
}
