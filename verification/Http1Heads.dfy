/**
 Request heads from one HTTP/1.1 engine to another: what the client writes is what the
 server reads, names in lower case and values without the blanks around them.
 */
module Http1Heads {
  import opened Bits
  import opened Wrappers
  import opened Headers
  import opened Http1Text
  import opened Http1Core
  import opened Http1Feed
  import opened Http1Calls
  import opened Http1Chunked

  /** A header that makes one line, and has its name before the first colon. */
  predicate Shaped(h: Header) {
    h.name != [] && COLON !in h.name && NoLine(h.name) && NoLine(h.value)
  }

  /** One whose line fits the reader's buffer. */
  predicate Plain(h: Header) {
    Shaped(h) && |h.name| + |h.value| + 3 < CAPACITY
  }

  function Normal(h: Header): Header {
    Header(ToLower(h.name), Trim(h.value))
  }

  function Normalized(fields: seq<Header>): seq<Header> {
    if fields == [] then [] else Normalized(fields[..|fields| - 1]) + [Normal(fields[|fields| - 1])]
  }

  lemma FirstIs(t: Text, b: byte, rest: Text)
    requires b !in t
    ensures Find(t + [b] + rest, b) == |t|
  {
    var all := t + [b] + rest;
    assert all[|t|] == b;
    forall j | 0 <= j < |t|
      ensures all[j] != b
    {
      assert all[j] == t[j];
    }
  }

  lemma NoLineConcat(a: Text, b: Text)
    requires NoLine(a) && NoLine(b)
    ensures NoLine(a + b)
  {
  }

  lemma LeadingSpace(value: Text)
    ensures Trim([SPACE] + value) == Trim(value)
  {
    assert ([SPACE] + value)[1..] == value;
  }

  /** A field line without its end. */
  function FieldText(h: Header): Text {
    h.name + [COLON] + ([SPACE] + h.value)
  }

  lemma FieldIsLine(h: Header)
    requires Shaped(h)
    ensures FieldLine(h) == FieldText(h) + CRLF && NoLine(FieldText(h)) && FieldText(h) != []
    ensures Plain(h) <==> |FieldText(h)| + 1 < CAPACITY
  {
    NoLineConcat(h.name, [COLON]);
    NoLineConcat([SPACE], h.value);
    NoLineConcat(h.name + [COLON], [SPACE] + h.value);
    assert FieldLine(h) == FieldText(h) + CRLF;
  }

  /** A field line, in the header block it is part of. */
  lemma FieldReads(c: Core, h: Header, rest: Text)
    requires c.state == HeaderLines && !c.done && Plain(h)
    ensures var d := c.(message := c.message.(headers := c.message.headers + [Normal(h)]));
            FedAll(Parser(c, []), FieldLine(h) + rest) == FedAll(Parser(d, []), rest)
  {
    hide FedAll, Fed, Trim, ToLower, FieldLine;
    var line := FieldText(h);
    FieldIsLine(h);
    LineReads(c, line, rest);
    FirstIs(h.name, COLON, [SPACE] + h.value);
    assert line[..|h.name|] == h.name && line[|h.name| + 1..] == [SPACE] + h.value;
    LeadingSpace(h.value);
  }

  lemma {:induction false} FieldsRead(c: Core, fields: seq<Header>, rest: Text)
    requires c.state == HeaderLines && !c.done && forall h :: h in fields ==> Plain(h)
    ensures var d := c.(message := c.message.(headers := c.message.headers + Normalized(fields)));
            FedAll(Parser(c, []), FieldLines(fields) + rest) == FedAll(Parser(d, []), rest)
    decreases |fields|
  {
    hide FedAll, Fed, Plain, FieldLine, Normal;
    if fields == [] {
      assert [] + rest == rest && c.message.headers + [] == c.message.headers;
    } else {
      var front, h := fields[..|fields| - 1], fields[|fields| - 1];
      assert FieldLines(fields) + rest == FieldLines(front) + (FieldLine(h) + rest);
      FieldsRead(c, front, FieldLine(h) + rest);
      var d := c.(message := c.message.(headers := c.message.headers + Normalized(front)));
      FieldReads(d, h, rest);
      assert c.message.headers + Normalized(front) + [Normal(h)] == c.message.headers + Normalized(fields);
    }
  }

  /** A request line whose method and target have no spaces in them. */
  predicate ShapedRequest(verb: Text, path: Text) {
    verb != [] && path != [] && SPACE !in verb && SPACE !in path && NoLine(verb) && NoLine(path)
  }

  /** One that fits the reader's buffer. */
  predicate PlainRequest(verb: Text, path: Text) {
    ShapedRequest(verb, path) && |verb| + |path| + 11 < CAPACITY
  }

  function VersionText(): Text {
    Ascii("HTTP/1.1")
  }

  lemma VersionIs()
    ensures IsVersion(VersionText()) && VersionText()[7] == 49
    ensures Ascii(" HTTP/1.1") == [SPACE] + VersionText() && NoLine(VersionText())
  {
    assert VersionText()[..7] == Ascii("HTTP/1.");
    assert forall i :: 0 <= i < 8 ==> VersionText()[i] != LF;
  }

  lemma RequestPartsOf(verb: Text, path: Text, version: Text)
    requires verb != [] && SPACE !in verb && SPACE !in path
    ensures RequestParts(verb + [SPACE] + (path + [SPACE] + version)) == Some((verb, path, version))
  {
    var tail := path + [SPACE] + version;
    var line := verb + [SPACE] + tail;
    FirstIs(verb, SPACE, tail);
    assert line[|verb| + 1..] == tail;
    FirstIs(path, SPACE, version);
    var j := |verb| + 1 + |path|;
    assert line[..|verb|] == verb && line[|verb| + 1..j] == path && line[j + 1..] == version;
  }

  /** A request line, as section 3.1.1 of RFC 7230 has it, for any version 1.x. */
  ghost predicate IsRequestLine(line: Text, verb: Text, target: Text, digit: byte) {
    && verb != [] && target != [] && SPACE !in verb && SPACE !in target && 48 <= digit <= 57
    && line == verb + [SPACE] + (target + [SPACE] + (Ascii("HTTP/1.") + [digit]))
  }

  /** Cutting a text at the first occurrence of an octet. */
  lemma CutAtFirst(t: Text, b: byte)
    requires Find(t, b) < |t|
    ensures var i := Find(t, b); b !in t[..i] && t == t[..i] + [b] + t[i + 1..]
  {
    var i := Find(t, b);
    assert forall k :: 0 <= k < i ==> t[..i][k] == t[k];
  }

  lemma PartsCut(line: Text)
    requires RequestParts(line).Some?
    ensures var i := Find(line, SPACE);
            && 0 < i < |line|
            && var rest := line[i + 1..];
               var j := Find(rest, SPACE);
               j < |rest| && RequestParts(line).value == (line[..i], rest[..j], rest[j + 1..])
  {
    hide Find;
    var i := Find(line, SPACE);
    var rest := line[i + 1..];
    var j := Find(rest, SPACE);
    assert j < |rest| ==> line[i + 1..i + 1 + j] == rest[..j] && line[i + 1 + j + 1..] == rest[j + 1..];
  }

  lemma PartsAre(line: Text)
    requires RequestParts(line).Some?
    ensures var (verb, target, version) := RequestParts(line).value;
            && verb != [] && SPACE !in verb && SPACE !in target
            && line == verb + [SPACE] + (target + [SPACE] + version)
  {
    PartsCut(line);
    hide Find, RequestParts;
    CutAtFirst(line, SPACE);
    CutAtFirst(line[Find(line, SPACE) + 1..], SPACE);
  }

  lemma ReadAsRequest(line: Text)
    requires RequestParts(line).Some? && RequestParts(line).value.1 != [] && IsVersion(RequestParts(line).value.2)
    ensures exists verb, target, digit :: IsRequestLine(line, verb, target, digit)
  {
    hide RequestParts, Ascii;
    PartsAre(line);
    var (verb, target, version) := RequestParts(line).value;
    assert version == version[..7] + [version[7]];
    assert IsRequestLine(line, verb, target, version[7]);
  }

  /** Any line: a request is opened if, and only if, it is a request line; any other is an error. */
  lemma RequestLineExact(c: Core, line: Text)
    requires Idle(c)
    ensures var d := RequestLine(c, line);
            if exists verb, target, digit :: IsRequestLine(line, verb, target, digit) then
              d.state == HeaderLines && !d.done && d.events == c.events + [NewStream(c.nextId)]
            else d.state == Finished && d.events == c.events + [ConnectionError(ProtocolError)]
  {
    hide RequestParts, Ascii;
    if verb, target, digit :| IsRequestLine(line, verb, target, digit) {
      RequestPartsOf(verb, target, Ascii("HTTP/1.") + [digit]);
      assert IsVersion(Ascii("HTTP/1.") + [digit]);
    } else {
      var parts := RequestParts(line);
      if parts.Some? && parts.value.1 != [] && IsVersion(parts.value.2) {
        ReadAsRequest(line);
        assert false;
      }
    }
  }

  /** The server's state once it has read the request line. */
  function LineRead(c: Core, verb: Text, path: Text): Core {
    RequestOpened(c.(message := c.message.(minor := 1)), verb, path)
  }

  predicate Idle(c: Core) {
    !c.client && c.state == StartLine && !c.done
  }

  /** A request line without its end. */
  function RequestText(verb: Text, path: Text): Text {
    verb + [SPACE] + (path + [SPACE] + VersionText())
  }

  lemma RequestIsLine(verb: Text, path: Text)
    requires ShapedRequest(verb, path)
    ensures verb + [SPACE] + path + Ascii(" HTTP/1.1") == RequestText(verb, path) && NoLine(RequestText(verb, path))
    ensures PlainRequest(verb, path) <==> |RequestText(verb, path)| + 1 < CAPACITY
  {
    hide Ascii, IsVersion;
    VersionIs();
    var tail := path + [SPACE] + VersionText();
    assert verb + [SPACE] + path + ([SPACE] + VersionText()) == verb + [SPACE] + tail;
    NoLineConcat(path, [SPACE]);
    NoLineConcat(path + [SPACE], VersionText());
    NoLineConcat(verb, [SPACE]);
    NoLineConcat(verb + [SPACE], tail);
  }

  lemma RequestLineReads(c: Core, verb: Text, path: Text, rest: Text)
    requires Idle(c) && PlainRequest(verb, path)
    ensures FedAll(Parser(c, []), verb + [SPACE] + path + Ascii(" HTTP/1.1") + CRLF + rest)
         == FedAll(Parser(LineRead(c, verb, path), []), rest)
  {
    hide FedAll, Fed, RequestOpened, Ascii, IsVersion, RequestParts;
    VersionIs();
    RequestIsLine(verb, path);
    LineReads(c, RequestText(verb, path), rest);
    RequestPartsOf(verb, path, VersionText());
  }

  /** The server's state at the end of the header block. */
  function HeadRead(c: Core, verb: Text, path: Text, fields: seq<Header>): Core {
    var d := LineRead(c, verb, path);
    d.(message := d.message.(headers := Normalized(fields)))
  }

  /** Reading a request head gives back the request. */
  lemma HeadComesBack(c: Core, verb: Text, path: Text, fields: seq<Header>, rest: Text)
    requires Idle(c) && PlainRequest(verb, path) && forall h :: h in fields ==> Plain(h)
    ensures FedAll(Parser(c, []), RequestHead(verb, path, fields) + rest)
         == FedAll(Parser(HeadersComplete(HeadRead(c, verb, path, fields)), []), rest)
  {
    hide FedAll, Fed, Ascii, HeadersComplete, Plain, FieldLines, Normalized;
    var lines := FieldLines(fields);
    assert RequestHead(verb, path, fields) + rest
        == verb + [SPACE] + path + Ascii(" HTTP/1.1") + CRLF + (lines + (CRLF + rest));
    RequestLineReads(c, verb, path, lines + (CRLF + rest));
    FieldsRead(LineRead(c, verb, path), fields, CRLF + rest);
    assert [] + Normalized(fields) == Normalized(fields);
    var d := HeadRead(c, verb, path, fields);
    assert [] + CRLF + rest == CRLF + rest;
    LineReads(d, [], rest);
  }

  /** The reader has given up, and says so last. */
  predicate Broken(p: Parser) {
    p.core.state == Finished && p.core.events != []
    && p.core.events[|p.core.events| - 1] == ConnectionError(ProtocolError)
  }

  lemma FailedIsBroken(c: Core)
    requires !c.done
    ensures Broken(Parser(Failed(c, ProtocolError), []))
  {
  }

  lemma {:induction false} LongFieldBreaks(c: Core, fields: seq<Header>, rest: Text)
    requires c.state == HeaderLines && !c.done && forall h :: h in fields ==> Shaped(h)
    requires exists h :: h in fields && !Plain(h)
    ensures Broken(FedAll(Parser(c, []), FieldLines(fields) + rest))
    decreases |fields|
  {
    hide FedAll, Fed, Plain, Shaped, FieldLine, FieldText, Failed, Broken;
    var front, h := fields[..|fields| - 1], fields[|fields| - 1];
    assert fields == front + [h];
    assert FieldLines(fields) + rest == FieldLines(front) + (FieldLine(h) + rest);
    if exists g :: g in front && !Plain(g) {
      LongFieldBreaks(c, front, FieldLine(h) + rest);
    } else {
      FieldsRead(c, front, FieldLine(h) + rest);
      var d := c.(message := c.message.(headers := c.message.headers + Normalized(front)));
      FieldIsLine(h);
      LongLineFails(d, FieldText(h), rest);
      FailedIsBroken(d);
    }
  }

  /**
   Any well-shaped head: the request comes back if, and only if, each of its lines fits the
   reader's buffer; if one does not, the connection ends with an error.
   */
  lemma HeadExact(c: Core, verb: Text, path: Text, fields: seq<Header>, rest: Text)
    requires Idle(c) && ShapedRequest(verb, path) && forall h :: h in fields ==> Shaped(h)
    ensures var p := FedAll(Parser(c, []), RequestHead(verb, path, fields) + rest);
            if PlainRequest(verb, path) && forall h :: h in fields ==> Plain(h) then
              p == FedAll(Parser(HeadersComplete(HeadRead(c, verb, path, fields)), []), rest)
            else Broken(p)
  {
    hide FedAll, Fed, Ascii, HeadersComplete, Plain, Shaped, FieldLines, HeadRead, Broken, Failed, RequestText;
    if PlainRequest(verb, path) && forall h :: h in fields ==> Plain(h) {
      HeadComesBack(c, verb, path, fields, rest);
    } else {
      var lines := FieldLines(fields);
      assert RequestHead(verb, path, fields) + rest
          == verb + [SPACE] + path + Ascii(" HTTP/1.1") + CRLF + (lines + (CRLF + rest));
      RequestIsLine(verb, path);
      if PlainRequest(verb, path) {
        RequestLineReads(c, verb, path, lines + (CRLF + rest));
        LongFieldBreaks(LineRead(c, verb, path), fields, CRLF + rest);
      } else {
        LongLineFails(c, RequestText(verb, path), lines + (CRLF + rest));
        FailedIsBroken(c);
      }
    }
  }

  // ---- A whole request with a chunked body ----------------------------------

  /** The transfer coding is announced, and by nothing before it. */
  lemma {:induction false} NormalizedValue(fields: seq<Header>, name: Text, value: Text)
    requires fields != [] && fields[|fields| - 1] == Header(name, value)
    requires forall i :: 0 <= i < |fields| - 1 ==> !SameIgnoringCase(ToLower(fields[i].name), ToLower(name))
    ensures HeaderValue(Normalized(fields), ToLower(name)) == Trim(value)
  {
    hide SameIgnoringCase, ToLower, Trim;
    NormalizedIs(fields);
    SameAsItself(ToLower(name));
    ValueAt(Normalized(fields), ToLower(name), |fields| - 1);
  }

  lemma SameAsItself(t: Text)
    ensures SameIgnoringCase(t, t)
  {
  }

  lemma {:induction false} NormalizedIs(fields: seq<Header>)
    ensures |Normalized(fields)| == |fields|
    ensures forall i :: 0 <= i < |fields| ==> Normalized(fields)[i] == Normal(fields[i])
  {
    hide Normal;
    if fields != [] {
      NormalizedIs(fields[..|fields| - 1]);
    }
  }

  lemma {:induction false} ValueAt(headers: seq<Header>, name: Text, i: nat)
    requires i < |headers| && SameIgnoringCase(headers[i].name, name)
    requires forall j :: 0 <= j < i ==> !SameIgnoringCase(headers[j].name, name)
    ensures HeaderValue(headers, name) == headers[i].value
    decreases i
  {
    hide SameIgnoringCase;
    if i > 0 {
      ValueAt(headers[1..], name, i - 1);
    }
  }

  const TRANSFER_ENCODING := Ascii("transfer-encoding")

  lemma LowerTwice(t: Text)
    ensures ToLower(ToLower(t)) == ToLower(t)
  {
  }

  lemma ChunkedIs()
    ensures ToLower(CHUNKED.name) == TRANSFER_ENCODING
    ensures Contains(Trim(CHUNKED.value), Ascii("chunked"))
    ensures !SameIgnoringCase(Ascii("Host"), TRANSFER_ENCODING)
  {
    assert !IsBlank(CHUNKED.value[0]) && !IsBlank(CHUNKED.value[6]);
    assert Trim(CHUNKED.value) == CHUNKED.value;
    assert |ToLower(Ascii("Host"))| != |ToLower(TRANSFER_ENCODING)|;
  }

  lemma ChunkedIsPlain()
    ensures Plain(CHUNKED)
  {
    assert forall i :: 0 <= i < 17 ==> CHUNKED.name[i] != COLON && CHUNKED.name[i] != LF;
    assert forall i :: 0 <= i < 7 ==> CHUNKED.value[i] != LF;
  }

  /** A request that will be chunked: its headers say nothing about the transfer coding. */
  ghost predicate Chunkable(authority: Text, headers: seq<Header>) {
    && NeedsChunks(headers, false)
    && (forall h :: h in headers ==> Plain(h) && !SameIgnoringCase(h.name, TRANSFER_ENCODING))
    && NoLine(authority) && |authority| + 7 < CAPACITY
  }

  lemma HostIsPlain(authority: Text)
    requires NoLine(authority) && |authority| + 7 < CAPACITY
    ensures Plain(Header(Ascii("Host"), authority))
  {
    var name := Ascii("Host");
    assert forall i :: 0 <= i < 4 ==> name[i] != COLON && name[i] != LF;
  }

  lemma FieldsAnnounceChunks(authority: Text, headers: seq<Header>)
    requires Chunkable(authority, headers)
    ensures var fields := RequestFields(authority, headers, false);
            && (forall h :: h in fields ==> Plain(h))
            && Contains(HeaderValue(Normalized(fields), TRANSFER_ENCODING), Ascii("chunked"))
  {
    hide Ascii, Plain, NoLine, Contains;
    ChunkedIs();
    ChunkedIsPlain();
    HostIsPlain(authority);
    var fields := RequestFields(authority, headers, false);
    LowerTwice(CHUNKED.name);
    forall i | 0 <= i < |fields| - 1
      ensures !SameIgnoringCase(ToLower(fields[i].name), ToLower(CHUNKED.name))
    {
      LowerTwice(fields[i].name);
      assert fields[i] in headers || fields[i].name == Ascii("Host");
    }
    NormalizedValue(fields, CHUNKED.name, CHUNKED.value);
  }

  /** The server's state once the head of a chunked request is complete. */
  lemma HeadLeadsToChunks(c: Core, verb: Text, path: Text, fields: seq<Header>)
    requires Idle(c) && Contains(HeaderValue(Normalized(fields), TRANSFER_ENCODING), Ascii("chunked"))
    ensures var h := HeadRead(c, verb, path, fields);
            var d := HeadersComplete(h);
            && InChunks(d) && d.active == Some(c.nextId) && !d.client
            && d.events == c.events + [NewStream(c.nextId), HeadersArrived(c.nextId, RequestHeaders(verb, path, fields))]
  {
    hide Normalized, Closes, Announced, SameIgnoringCase, Contains, HeaderValue, RequestHeaders;
    ReportIs(c, verb, path, fields);
    var h := HeadRead(c, verb, path, fields);
    var id := c.nextId;
    assert h.streams[id].verb == verb && h.message.headers == Normalized(fields);
    var e := HeadersReported(h, id, Closes(h.message));
    assert e.events == c.events + [NewStream(id)] + [HeadersArrived(id, Announced(false, verb, h.message))];
    assert IsChunked(e.message);
  }

  /** What a server reports of a head: the request line and the host, then the fields. */
  function RequestHeaders(verb: Text, path: Text, fields: seq<Header>): seq<Header> {
    [Header(Ascii(":method"), verb), Header(Ascii(":path"), path),
     Header(Ascii(":authority"), HeaderValue(Normalized(fields), Ascii("host")))]
    + Normalized(fields)
  }

  lemma ReportIs(c: Core, verb: Text, path: Text, fields: seq<Header>)
    ensures Announced(false, verb, HeadRead(c, verb, path, fields).message) == RequestHeaders(verb, path, fields)
  {
    hide Normalized, HeaderValue, Ascii;
  }

  lemma ServerBodyEvents(c: Core, body: Text)
    requires InChunks(c) && !c.client
    requires c.events != [] && !c.events[|c.events| - 1].Data?
    ensures var d := BodyRead(c, body);
            && d.state == AwaitingResponse
            && d.events == c.events + (if body == [] then [] else [Data(c.active.value, body)]) + [StreamClosed(c.active.value)]
  {
    var id := c.active.value;
    var d := (if body == [] then c else ChunkRead(c, body)).(message := c.message.(remaining := 0), state := ChunkTrailer);
    assert d.events == c.events + if body == [] then [] else [Data(id, body)];
    assert d.Emit(StreamClosed(id)).events == d.events + [StreamClosed(id)];
  }

  /** What the server makes of the octets of a chunked request, in any reads. */
  lemma RequestReads(c: Core, verb: Text, path: Text, authority: Text, headers: seq<Header>, pieces: seq<Text>, input: seq<Text>)
    requires Idle(c) && PlainRequest(verb, path) && Chunkable(authority, headers)
    requires pieces != [] && forall p :: p in pieces ==> |p| <= MAX_UINT64
    requires Concat(input) == RequestHead(verb, path, RequestFields(authority, headers, false)) + ChunkedBody(pieces)
    ensures var p := FedReads(Parser(c, []), input);
            var fields := RequestFields(authority, headers, false);
            && p.pending == [] && p.core.state == AwaitingResponse
            && p.core.events == c.events
                 + [NewStream(c.nextId), HeadersArrived(c.nextId, RequestHeaders(verb, path, fields))]
                 + (if Concat(pieces) == [] then [] else [Data(c.nextId, Concat(pieces))])
                 + [StreamClosed(c.nextId)]
  {
    hide FedAll, FedReads, RequestHead, RequestFields, HeadersComplete, Chunkable, PlainRequest, Normalized;
    hide BodyRead, Contains, HeaderValue, Ascii, Plain, RequestHeaders, HeadRead;
    var fields, body := RequestFields(authority, headers, false), ChunkedBody(pieces);
    FieldsAnnounceChunks(authority, headers);
    ReadsAreOctets(Parser(c, []), input);
    HeadComesBack(c, verb, path, fields, body);
    HeadLeadsToChunks(c, verb, path, fields);
    var d := HeadersComplete(HeadRead(c, verb, path, fields));
    BodyComesBack(d, pieces);
    ServerBodyEvents(d, Concat(pieces));
  }

  /** A stream whose turn it is: nothing in flight, and it is the oldest. */
  predicate IsNext(c: Core, id: uint32) {
    && c.client && c.active.None? && !c.done
    && c.order != [] && c.order[0] == id && id in c.streams
    && var info := c.streams[id];
       !info.headSent && info.staged == [] && !info.noBody && !info.requestComplete
  }

  lemma RequestGoesOut(c: Core, id: uint32, verb: Text, path: Text, authority: Text, headers: seq<Header>)
    requires IsNext(c, id) && NeedsChunks(headers, false)
    ensures var d := RequestStaged(c, id, verb, path, authority, headers, false);
            && Sending(d, id)
            && d.wire == c.wire + [Piece(id, RequestHead(verb, path, RequestFields(authority, headers, false)))]
  {
    hide RequestHead, RequestFields, NeedsChunks, AsksToClose;
    assert RequestHead(verb, path, RequestFields(authority, headers, false)) + []
        == RequestHead(verb, path, RequestFields(authority, headers, false));
  }

  /** The client's octets for a request and its body. */
  lemma RequestIsWritten(client: Parser, id: uint32, verb: Text, path: Text, authority: Text, headers: seq<Header>, pieces: seq<Text>)
    requires IsNext(client.core, id) && NeedsChunks(headers, false) && pieces != []
    ensures var staged := client.(core := RequestStaged(client.core, id, verb, path, authority, headers, false));
            Flat(Calls(staged, id, pieces).core.wire)
            == Flat(client.core.wire) + (RequestHead(verb, path, RequestFields(authority, headers, false)) + ChunkedBody(pieces))
  {
    hide RequestHead, RequestFields, RequestStaged, ChunkedBody, Flat, NeedsChunks, Calls, ChunkPieces, IsNext;
    var staged := client.(core := RequestStaged(client.core, id, verb, path, authority, headers, false));
    RequestGoesOut(client.core, id, verb, path, authority, headers);
    WaitsForRequest(client.core, id, verb, path, authority, headers);
    CallsWrite(staged, id, pieces);
    var head, body := Piece(id, RequestHead(verb, path, RequestFields(authority, headers, false))), ChunkPieces(id, pieces);
    FlatConcat(client.core.wire + [head], body);
    FlatConcat(client.core.wire, [head]);
    FlatOne(head);
    ChunkPiecesFlat(id, pieces);
    assert Flat(client.core.wire) + head.bytes + Flat(body) == Flat(client.core.wire) + (head.bytes + Flat(body));
  }

  lemma WaitsForRequest(c: Core, id: uint32, verb: Text, path: Text, authority: Text, headers: seq<Header>)
    requires IsNext(c, id)
    ensures RequestStaged(c, id, verb, path, authority, headers, false).client
  {
    hide RequestHead, RequestFields, NeedsChunks, AsksToClose;
  }

  /**
   A chunked request, from the calls on the client to the events on the server: whatever
   reads the octets arrive in, the request is opened once, with the headers that were
   sent, its body is whole, and it is closed once.
   */
  lemma RequestComesBack(client: Parser, id: uint32, verb: Text, path: Text, authority: Text, headers: seq<Header>,
                         pieces: seq<Text>, server: Core, input: seq<Text>)
    requires IsNext(client.core, id) && Idle(server)
    requires PlainRequest(verb, path) && Chunkable(authority, headers)
    requires pieces != [] && forall p :: p in pieces ==> |p| <= MAX_UINT64
    requires var staged := client.(core := RequestStaged(client.core, id, verb, path, authority, headers, false));
             Flat(client.core.wire) + Concat(input) == Flat(Calls(staged, id, pieces).core.wire)
    ensures var p := FedReads(Parser(server, []), input);
            var fields := RequestFields(authority, headers, false);
            && p.core.state == AwaitingResponse && p.pending == []
            && p.core.events == server.events
                 + [NewStream(server.nextId), HeadersArrived(server.nextId, RequestHeaders(verb, path, fields))]
                 + (if Concat(pieces) == [] then [] else [Data(server.nextId, Concat(pieces))])
                 + [StreamClosed(server.nextId)]
  {
    hide FedReads, RequestHead, RequestFields, RequestHeaders, PlainRequest, RequestStaged, ChunkedBody, Flat;
    hide Calls, IsNext, Concat, Idle;
    RequestIsWritten(client, id, verb, path, authority, headers, pieces);
    SamePrefix(Flat(client.core.wire), Concat(input),
               RequestHead(verb, path, RequestFields(authority, headers, false)) + ChunkedBody(pieces));
    RequestReads(server, verb, path, authority, headers, pieces, input);
  }

  lemma FlatOne(p: Piece)
    ensures Flat([p]) == p.bytes
  {
    assert [p][..0] == [];
  }
}
