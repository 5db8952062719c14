/**
 Responses from one HTTP/1.1 engine to another: what the server's calls write is what the
 client reports, head, body and end.
 */
module Http1Responses {
  import opened Bits
  import opened Wrappers
  import opened Headers
  import opened Http1Text
  import opened Http1Core
  import opened Http1Feed
  import opened Http1Calls
  import opened Http1Chunked
  import opened Http1Heads

  /** A client that waits for a response. */
  predicate Waiting(c: Core) {
    c.client && c.state == StartLine && c.active.Some? && !c.done
  }

  /** A status of three digits, and a reason phrase on one line. */
  predicate ShapedStatus(status: int, reason: Text) {
    100 <= status <= 999 && NoLine(reason)
  }

  /** One that fits the reader's buffer. */
  predicate PlainStatus(status: int, reason: Text) {
    ShapedStatus(status, reason) && |reason| + 14 < CAPACITY
  }

  /** Interim responses are passed over; 101 is a final one. */
  predicate Interim(status: int) {
    100 <= status < 200 && status != 101
  }

  lemma StatusText(status: int)
    requires 100 <= status <= 999
    ensures |DecimalText(status)| == 3 && StatusCode(DecimalText(status)) == Some(status) && NoLine(DecimalText(status))
  {
    var h, t := status / 10, status / 100;
    assert DecimalText(t) == [Digit(t)];
    assert DecimalText(h) == [Digit(t), Digit(h % 10)];
    var text := DecimalText(status);
    assert text == [Digit(t), Digit(h % 10), Digit(status % 10)];
    assert text[..2] == [Digit(t), Digit(h % 10)] && text[..2][..1] == [Digit(t)];
    assert Number(text[..2][..1], 10) == Some(t);
    assert Number(text[..2], 10) == Some(h);
    assert Number(text, 10) == Some(status);
  }

  /** The line as the server writes it. */
  function StatusLineText(status: int, reason: Text): Text {
    Ascii("HTTP/1.1 ") + DecimalText(status) + [SPACE] + reason
  }

  lemma StatusLineParts(status: int, reason: Text)
    requires ShapedStatus(status, reason)
    ensures var line := StatusLineText(status, reason);
            && |line| >= 13 && (PlainStatus(status, reason) <==> |line| + 1 < CAPACITY) && NoLine(line)
            && line[..8] == VersionText() && line[8] == SPACE && line[9..12] == DecimalText(status)
  {
    hide DecimalText;
    StatusText(status);
    VersionIs();
    var line, start := StatusLineText(status, reason), Ascii("HTTP/1.1 ");
    assert start == VersionText() + [SPACE];
    NoLineConcat(VersionText(), [SPACE]);
    NoLineConcat(start, DecimalText(status));
    NoLineConcat(start + DecimalText(status), [SPACE]);
    NoLineConcat(start + DecimalText(status) + [SPACE], reason);
    assert line == VersionText() + ([SPACE] + DecimalText(status) + [SPACE] + reason);
    assert line == start + (DecimalText(status) + ([SPACE] + reason));
  }

  /** A status line of any version 1.x: a status of three digits, and anything behind it. */
  ghost predicate IsStatusLine(line: Text, digit: byte, status: int, rest: Text) {
    && 48 <= digit <= 57 && 100 <= status <= 999
    && line == Ascii("HTTP/1.") + [digit, SPACE] + DecimalText(status) + rest
  }

  /** A status line is read as its status, whatever version it is of and whatever reason it gives. */
  lemma StatusLineIsRead(c: Core, line: Text, digit: byte, status: int, rest: Text)
    requires Waiting(c) && IsStatusLine(line, digit, status, rest)
    ensures var d := StatusLine(c, line);
            && d.events == c.events && d.message.minor == digit - 48
            && if Interim(status) then d.state == SkipInterim
               else d.state == HeaderLines && d.message.status == status && d.message.headers == []
  {
    hide DecimalText, Ascii, StatusCode;
    StatusText(status);
    var version := Ascii("HTTP/1.");
    assert line[..8] == version + [digit] && version == (version + [digit])[..7];
    assert line[8] == SPACE && line[9..12] == DecimalText(status);
  }

  /** A line that is too short, of another version, or without three octets of a number is an error. */
  lemma OtherLinesBreak(c: Core, line: Text)
    requires Waiting(c)
    requires |line| < 12 || !(Ascii("HTTP/1.") <= line) || line[8] != SPACE || StatusCode(line[9..12]) == None
    ensures StatusLine(c, line).state == Finished
    ensures StatusLine(c, line).events == c.events + [ConnectionError(ProtocolError)]
  {
    hide StatusCode;
    if |line| >= 12 {
      assert line[..8][..7] == line[..7];
    }
  }

  /** The client's state once it has read the status line. */
  function StatusRead(c: Core, status: int): Core {
    var d := c.(message := c.message.(minor := 1));
    if Interim(status) then d.(state := SkipInterim)
    else d.(message := d.message.(status := status, headers := []), state := HeaderLines)
  }

  lemma StatusLineReads(c: Core, status: int, reason: Text, rest: Text)
    requires Waiting(c) && PlainStatus(status, reason)
    ensures FedAll(Parser(c, []), StatusLineText(status, reason) + CRLF + rest)
         == FedAll(Parser(StatusRead(c, status), []), rest)
  {
    hide FedAll, Fed, StatusLineText, VersionText, IsVersion, StatusCode, DecimalText;
    StatusLineParts(status, reason);
    StatusText(status);
    VersionIs();
    var line := StatusLineText(status, reason);
    assert line[..8][7] == line[7];
    LineReads(c, line, rest);
  }

  /** The client's state at the end of the header block. */
  function ResponseRead(c: Core, status: int, fields: seq<Header>): Core {
    var d := StatusRead(c, status);
    d.(message := d.message.(headers := Normalized(fields)))
  }

  /** A client reads a written response head as that response. */
  lemma ResponseHeadComesBack(c: Core, status: int, reason: Text, fields: seq<Header>, rest: Text)
    requires Waiting(c) && PlainStatus(status, reason) && forall h :: h in fields ==> Plain(h)
    requires !Interim(status)
    ensures FedAll(Parser(c, []), ResponseHead(status, reason, fields) + rest)
         == FedAll(Parser(HeadersComplete(ResponseRead(c, status, fields)), []), rest)
  {
    hide FedAll, Fed, HeadersComplete, Plain, FieldLines, Normalized, DecimalText, Ascii;
    var lines, d := FieldLines(fields), StatusRead(c, status);
    assert ResponseHead(status, reason, fields) + rest == StatusLineText(status, reason) + CRLF + (lines + (CRLF + rest));
    StatusLineReads(c, status, reason, lines + (CRLF + rest));
    FieldsRead(d, fields, CRLF + rest);
    assert [] + Normalized(fields) == Normalized(fields);
    assert [] + CRLF + rest == CRLF + rest;
    LineReads(d.(message := d.message.(headers := Normalized(fields))), [], rest);
  }

  lemma {:induction false} InterimFieldsRead(c: Core, fields: seq<Header>, rest: Text)
    requires c.state == SkipInterim && !c.done && forall h :: h in fields ==> Plain(h)
    ensures FedAll(Parser(c, []), FieldLines(fields) + rest) == FedAll(Parser(c, []), rest)
    decreases |fields|
  {
    hide FedAll, Fed;
    if fields == [] {
      assert [] + rest == rest;
    } else {
      var front, h := fields[..|fields| - 1], fields[|fields| - 1];
      assert FieldLines(fields) + rest == FieldLines(front) + (FieldLine(h) + rest);
      InterimFieldsRead(c, front, FieldLine(h) + rest);
      assert h in fields;
      FieldIsLine(h);
      LineReads(c, FieldText(h), rest);
    }
  }

  /** An interim response is passed over as a whole: the client waits for the response as before. */
  lemma InterimIsSkipped(c: Core, status: int, reason: Text, fields: seq<Header>, rest: Text)
    requires Waiting(c) && PlainStatus(status, reason) && forall h :: h in fields ==> Plain(h)
    requires Interim(status)
    ensures FedAll(Parser(c, []), ResponseHead(status, reason, fields) + rest)
         == FedAll(Parser(c.(message := c.message.(minor := 1)), []), rest)
  {
    hide FedAll, Fed, Plain, FieldLines, DecimalText, Ascii;
    var lines, d := FieldLines(fields), StatusRead(c, status);
    assert ResponseHead(status, reason, fields) + rest == StatusLineText(status, reason) + CRLF + (lines + (CRLF + rest));
    StatusLineReads(c, status, reason, lines + (CRLF + rest));
    InterimFieldsRead(d, fields, CRLF + rest);
    assert [] + CRLF + rest == CRLF + rest;
    LineReads(d, [], rest);
  }

  lemma {:induction false} LongInterimBreaks(c: Core, fields: seq<Header>, rest: Text)
    requires c.state == SkipInterim && !c.done && forall h :: h in fields ==> Shaped(h)
    requires exists h :: h in fields && !Plain(h)
    ensures Broken(FedAll(Parser(c, []), FieldLines(fields) + rest))
    decreases |fields|
  {
    hide FedAll, Fed, Plain, Shaped, FieldLine, FieldText, Failed, Broken;
    var front, h := fields[..|fields| - 1], fields[|fields| - 1];
    assert fields == front + [h];
    assert FieldLines(fields) + rest == FieldLines(front) + (FieldLine(h) + rest);
    if exists g :: g in front && !Plain(g) {
      LongInterimBreaks(c, front, FieldLine(h) + rest);
    } else {
      InterimFieldsRead(c, front, FieldLine(h) + rest);
      FieldIsLine(h);
      LongLineFails(c, FieldText(h), rest);
      FailedIsBroken(c);
    }
  }

  /** What a client that waits for a response has read at the end of its head. */
  function ResponseTaken(c: Core, status: int, fields: seq<Header>): Core {
    if Interim(status) then c.(message := c.message.(minor := 1)) else HeadersComplete(ResponseRead(c, status, fields))
  }

  /**
   Any well-shaped response head: it is read as that response, or passed over if it is an
   interim one, if, and only if, each of its lines fits the reader's buffer; if one does not,
   the connection ends with an error.
   */
  lemma ResponseHeadExact(c: Core, status: int, reason: Text, fields: seq<Header>, rest: Text)
    requires Waiting(c) && ShapedStatus(status, reason) && forall h :: h in fields ==> Shaped(h)
    ensures var p := FedAll(Parser(c, []), ResponseHead(status, reason, fields) + rest);
            if PlainStatus(status, reason) && forall h :: h in fields ==> Plain(h) then
              p == FedAll(Parser(ResponseTaken(c, status, fields), []), rest)
            else Broken(p)
  {
    hide FedAll, Fed, HeadersComplete, Plain, Shaped, FieldLines, Broken, Failed, DecimalText, Ascii, Normalized;
    if PlainStatus(status, reason) && forall h :: h in fields ==> Plain(h) {
      if Interim(status) {
        InterimIsSkipped(c, status, reason, fields, rest);
      } else {
        ResponseHeadComesBack(c, status, reason, fields, rest);
      }
    } else {
      var more := FieldLines(fields) + (CRLF + rest);
      assert ResponseHead(status, reason, fields) + rest == StatusLineText(status, reason) + CRLF + more;
      StatusLineParts(status, reason);
      if PlainStatus(status, reason) {
        StatusLineReads(c, status, reason, more);
        if Interim(status) {
          LongInterimBreaks(StatusRead(c, status), fields, CRLF + rest);
        } else {
          LongFieldBreaks(StatusRead(c, status), fields, CRLF + rest);
        }
      } else {
        LongLineFails(c, StatusLineText(status, reason), more);
        FailedIsBroken(c);
      }
    }
  }

  // ---- A whole response with a chunked body ---------------------------------

  /** A response that will be chunked: its headers say nothing about the transfer coding. */
  ghost predicate ChunkableResponse(headers: seq<Header>) {
    && NeedsChunks(headers, false)
    && forall h :: h in headers ==> Plain(h) && !SameIgnoringCase(h.name, TRANSFER_ENCODING)
  }

  lemma ConnectionIs()
    ensures Plain(Header(Ascii("Connection"), Ascii("close")))
    ensures !SameIgnoringCase(Ascii("Connection"), TRANSFER_ENCODING)
  {
    var name, value := Ascii("Connection"), Ascii("close");
    assert forall i :: 0 <= i < 10 ==> name[i] != COLON && name[i] != LF;
    assert forall i :: 0 <= i < 5 ==> value[i] != LF;
    assert |ToLower(name)| != |ToLower(TRANSFER_ENCODING)|;
  }

  lemma ResponseAnnouncesChunks(info: StreamInfo, status: int, headers: seq<Header>)
    requires ChunkableResponse(headers) && !Bodiless(info.verb, status)
    ensures var fields := ResponseFields(info, status, headers, false);
            && (forall h :: h in fields ==> Plain(h))
            && Contains(HeaderValue(Normalized(fields), TRANSFER_ENCODING), Ascii("chunked"))
  {
    hide Ascii, Plain, NoLine, Contains, Bodiless;
    ChunkedIs();
    ChunkedIsPlain();
    ConnectionIs();
    var fields := ResponseFields(info, status, headers, false);
    LowerTwice(CHUNKED.name);
    forall i | 0 <= i < |fields| - 1
      ensures !SameIgnoringCase(ToLower(fields[i].name), ToLower(CHUNKED.name))
    {
      LowerTwice(fields[i].name);
      assert fields[i] in headers || fields[i].name == Ascii("Connection");
    }
    NormalizedValue(fields, CHUNKED.name, CHUNKED.value);
  }

  /** A client that waits for the response to a request other than HEAD. */
  predicate Expecting(c: Core, status: int) {
    Waiting(c) && c.active.value in c.streams && !HasNoBody(c.streams[c.active.value].verb, status)
  }

  /** The connection ends behind this response: the request has asked for it, or the response does. */
  predicate LastResponse(c: Core, fields: seq<Header>)
    requires c.active.Some? && c.active.value in c.streams
  {
    || c.streams[c.active.value].closeAfter
    || SameIgnoringCase(HeaderValue(Normalized(fields), Ascii("connection")), Ascii("close"))
  }

  lemma ClosingIs(c: Core, status: int, fields: seq<Header>)
    requires !Interim(status)
    ensures Closes(ResponseRead(c, status, fields).message)
         == SameIgnoringCase(HeaderValue(Normalized(fields), Ascii("connection")), Ascii("close"))
  {
    hide Normalized, SameIgnoringCase, HeaderValue, Ascii;
  }

  /** The client's state once the head of a chunked response is complete. */
  lemma ResponseLeadsToChunks(c: Core, status: int, fields: seq<Header>)
    requires Expecting(c, status) && !Interim(status)
    requires Contains(HeaderValue(Normalized(fields), TRANSFER_ENCODING), Ascii("chunked"))
    ensures var h := ResponseRead(c, status, fields);
            var d, id := HeadersComplete(h), c.active.value;
            && InChunks(d) && d.active == Some(id) && d.client && d.goaway == c.goaway && id in d.streams
            && d.streams[id].closeAfter == LastResponse(c, fields)
            && d.events == c.events + [HeadersArrived(id, ResponseHeaders(status, fields))]
  {
    hide Normalized, Closes, SameIgnoringCase, Contains, HeaderValue, DecimalText, ResponseHeaders;
    StatusReportIs(c, status, fields);
    ClosingIs(c, status, fields);
    var h, id := ResponseRead(c, status, fields), c.active.value;
    assert h.message.headers == Normalized(fields) && h.message.status == status;
    var e := HeadersReported(h, id, Closes(h.message));
    assert e.streams[id].verb == c.streams[id].verb;
    assert IsChunked(e.message);
  }

  /** What a client reports of a head: the status, then the fields. */
  function ResponseHeaders(status: int, fields: seq<Header>): seq<Header> {
    [Header(Ascii(":status"), DecimalText(status))] + Normalized(fields)
  }

  lemma StatusReportIs(c: Core, status: int, fields: seq<Header>)
    requires !Interim(status)
    ensures Announced(true, [], ResponseRead(c, status, fields).message) == ResponseHeaders(status, fields)
  {
    hide Normalized, Ascii, DecimalText;
  }

  lemma ClientBodyEvents(c: Core, body: Text)
    requires InChunks(c) && c.client && c.active.value in c.streams
    requires c.events != [] && !c.events[|c.events| - 1].Data?
    ensures var d, id := BodyRead(c, body), c.active.value;
            && d.state == (if c.streams[id].closeAfter then Finished else StartLine)
            && d.events == c.events + (if body == [] then [] else [Data(id, body)]) + [StreamClosed(id)]
                 + (if c.streams[id].closeAfter && !c.goaway then [Goaway(id)] else [])
  {
    hide FirstPending, Without;
    var id := c.active.value;
    var d := (if body == [] then c else ChunkRead(c, body)).(message := c.message.(remaining := 0), state := ChunkTrailer);
    assert d.events == c.events + if body == [] then [] else [Data(id, body)];
    assert d.Emit(StreamClosed(id)).events == d.events + [StreamClosed(id)];
  }

  /** What the client makes of the octets of a chunked response, in any reads. */
  lemma ResponseReads(c: Core, info: StreamInfo, status: int, reason: Text, headers: seq<Header>, pieces: seq<Text>,
                      input: seq<Text>)
    requires Expecting(c, status) && PlainStatus(status, reason)
    requires ChunkableResponse(headers) && !Bodiless(info.verb, status)
    requires pieces != [] && forall p :: p in pieces ==> |p| <= MAX_UINT64
    requires Concat(input) == ResponseHead(status, reason, ResponseFields(info, status, headers, false)) + ChunkedBody(pieces)
    ensures var p, id := FedReads(Parser(c, []), input), c.active.value;
            var fields := ResponseFields(info, status, headers, false);
            && p.pending == [] && p.core.state == (if LastResponse(c, fields) then Finished else StartLine)
            && p.core.events == c.events
                 + [HeadersArrived(id, ResponseHeaders(status, fields))]
                 + (if Concat(pieces) == [] then [] else [Data(id, Concat(pieces))])
                 + [StreamClosed(id)]
                 + (if LastResponse(c, fields) && !c.goaway then [Goaway(id)] else [])
  {
    hide FedAll, FedReads, ResponseHead, ResponseFields, HeadersComplete, ChunkableResponse, Normalized, Closes;
    hide BodyRead, Contains, HeaderValue, Ascii, Plain, ResponseHeaders, SameIgnoringCase, DecimalText;
    var fields, body := ResponseFields(info, status, headers, false), ChunkedBody(pieces);
    BodilessIs(info.verb, status);
    ResponseAnnouncesChunks(info, status, headers);
    ReadsAreOctets(Parser(c, []), input);
    ResponseHeadComesBack(c, status, reason, fields, body);
    ResponseLeadsToChunks(c, status, fields);
    var d := HeadersComplete(ResponseRead(c, status, fields));
    BodyComesBack(d, pieces);
    ClientBodyEvents(d, Concat(pieces));
  }

  lemma BodilessIs(verb: Text, status: int)
    requires !Bodiless(verb, status)
    ensures !Interim(status)
  {
  }

  /** A server whose request in flight has not been answered. */
  predicate Unanswered(c: Core, id: uint32) {
    !c.client && c.active == Some(id) && id in c.streams && !c.streams[id].headSent && !c.streams[id].requestComplete
  }

  /** The record of a stream, as the fields of its response see it. */
  function Answering(c: Core, id: uint32, headers: seq<Header>): StreamInfo
    requires id in c.streams
  {
    c.streams[id].(closeAfter := c.streams[id].closeAfter || AsksToClose(headers))
  }

  lemma ResponseGoesOut(p: Parser, id: uint32, status: int, reason: Text, headers: seq<Header>)
    requires Unanswered(p.core, id) && NeedsChunks(headers, false) && !Bodiless(p.core.streams[id].verb, status)
    ensures var q := ResponseSent(p, id, status, reason, headers, false);
            var fields := ResponseFields(Answering(p.core, id, headers), status, headers, false);
            Sending(q.core, id) && q.core.wire == p.core.wire + [Piece(id, ResponseHead(status, reason, fields))]
  {
    hide ResponseHead, ResponseFields, NeedsChunks, AsksToClose, Bodiless;
  }

  /** The server's octets for a response and its body. */
  lemma ResponseIsWritten(server: Parser, id: uint32, status: int, reason: Text, headers: seq<Header>, pieces: seq<Text>)
    requires Unanswered(server.core, id) && NeedsChunks(headers, false) && pieces != []
    requires !Bodiless(server.core.streams[id].verb, status)
    ensures var fields := ResponseFields(Answering(server.core, id, headers), status, headers, false);
            Flat(server.core.wire) + (ResponseHead(status, reason, fields) + ChunkedBody(pieces))
            <= Flat(Calls(ResponseSent(server, id, status, reason, headers, false), id, pieces).core.wire)
  {
    hide ResponseHead, ResponseFields, ResponseSent, ChunkedBody, Flat, NeedsChunks, Calls, Bodiless, Sending;
    var sent := ResponseSent(server, id, status, reason, headers, false);
    ResponseGoesOut(server, id, status, reason, headers);
    BodyIsWritten(sent, id, pieces);
    var fields := ResponseFields(Answering(server.core, id, headers), status, headers, false);
    var head := Piece(id, ResponseHead(status, reason, fields));
    FlatConcat(server.core.wire, [head]);
    FlatOne(head);
    assert Flat(server.core.wire) + head.bytes + ChunkedBody(pieces)
        == Flat(server.core.wire) + (head.bytes + ChunkedBody(pieces));
  }

  /**
   A chunked response, from the calls on the server to the events on the client: whatever
   reads the octets arrive in, the headers that were sent are reported once, the body is
   whole, the stream is closed once, and the connection ends there if the request or the
   response asked for it.
   */
  lemma ResponseComesBack(server: Parser, id: uint32, status: int, reason: Text, headers: seq<Header>, pieces: seq<Text>,
                          client: Core, input: seq<Text>)
    requires Unanswered(server.core, id) && !Bodiless(server.core.streams[id].verb, status)
    requires Expecting(client, status) && PlainStatus(status, reason) && ChunkableResponse(headers)
    requires pieces != [] && forall p :: p in pieces ==> |p| <= MAX_UINT64
    requires var fields := ResponseFields(Answering(server.core, id, headers), status, headers, false);
             |Concat(input)| == |ResponseHead(status, reason, fields) + ChunkedBody(pieces)|
    requires Flat(server.core.wire) + Concat(input)
             <= Flat(Calls(ResponseSent(server, id, status, reason, headers, false), id, pieces).core.wire)
    ensures var p, cid := FedReads(Parser(client, []), input), client.active.value;
            var fields := ResponseFields(Answering(server.core, id, headers), status, headers, false);
            && p.pending == [] && p.core.state == (if LastResponse(client, fields) then Finished else StartLine)
            && p.core.events == client.events
                 + [HeadersArrived(cid, ResponseHeaders(status, fields))]
                 + (if Concat(pieces) == [] then [] else [Data(cid, Concat(pieces))])
                 + [StreamClosed(cid)]
                 + (if LastResponse(client, fields) && !client.goaway then [Goaway(cid)] else [])
  {
    hide FedReads, ResponseHead, ResponseFields, ResponseRead, ResponseSent, ResponseHeaders, ChunkedBody, Flat, Calls, Concat;
    hide PlainStatus, Expecting, LastResponse, Bodiless;
    var info := Answering(server.core, id, headers);
    ResponseIsWritten(server, id, status, reason, headers, pieces);
    SameBehind(Flat(server.core.wire), Concat(input),
               ResponseHead(status, reason, ResponseFields(info, status, headers, false)) + ChunkedBody(pieces),
               Flat(Calls(ResponseSent(server, id, status, reason, headers, false), id, pieces).core.wire));
    ResponseReads(client, info, status, reason, headers, pieces, input);
  }
}
