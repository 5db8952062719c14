/**
 The HTTP/1.1 server over whole runs: requests are read one at a time, each behind the
 response to the one before it, and responses go out in that order.
 */
module Http1Serving {
  import opened Bits
  import opened Wrappers
  import opened Headers
  import opened Http1Text
  import opened Http1Core
  import opened Http1Feed
  import opened Http1Calls

  // ---- The order of events --------------------------------------------------

  /** Where a queue of events leaves off. */
  datatype Tail =
    | Closed(last: int) // request `last` has been read to its end; 0 at the start
    | Named(id: int)    // its request line has been read
    | Within(id: int)   // its headers have
    | Broken            // after an error
    | Over              // after goaway, which comes last
    | Wrong

  function NextTail(t: Tail, e: Event): Tail {
    match t
    case Closed(last) =>
      (match e
       case NewStream(id) => if id > last then Named(id) else Wrong
       case _ => Ending(e))
    case Named(id) =>
      (match e
       case HeadersArrived(i, _) => if i == id then Within(id) else Wrong
       case _ => Ending(e))
    case Within(id) =>
      (match e
       case Data(i, _) => if i == id then t else Wrong
       case StreamClosed(i) => if i == id then Closed(id) else Wrong
       case _ => Ending(e))
    case Broken => if e.Goaway? then Over else Wrong
    case _ => Wrong
  }

  /** An error or goaway can come at any point. */
  function Ending(e: Event): Tail {
    match e
    case Goaway(_) => Over
    case ConnectionError(_) => Broken
    case _ => Wrong
  }

  /**
   New stream, headers, data, close, for one request after another with growing identifiers;
   perhaps one that is not complete; then at most one error, and at most one goaway behind it.
   */
  function TailOf(events: seq<Event>): Tail {
    if events == [] then Closed(0) else NextTail(TailOf(events[..|events| - 1]), events[|events| - 1])
  }

  lemma TailAdd(events: seq<Event>, e: Event)
    requires e.Data? ==> TailOf(events) == Within(e.id)
    ensures TailOf(Add(events, e)) == NextTail(TailOf(events), e)
  {
    var more := Add(events, e);
    assert more[..|more| - 1] == events || more[..|more| - 1] == events[..|events| - 1];
    if |more| == |events| {
      TailLast(events);
    }
  }

  lemma TailLast(events: seq<Event>)
    requires events != [] && events[|events| - 1].Data? && TailOf(events).Within?
    ensures TailOf(events[..|events| - 1]) == TailOf(events)
  {
  }

  // ---- The invariant --------------------------------------------------------

  ghost predicate Rising(wire: seq<Piece>) {
    forall i, j :: 0 <= i < j < |wire| ==> wire[i].id <= wire[j].id
  }

  /** At most one request is not answered yet: the one being read, or whose response is awaited. */
  ghost predicate OneAtATime(c: Core) {
    && (forall id, id' :: id in c.streams && id' in c.streams ==> id == id')
    && (!c.done && c.active.None? ==> c.streams == map[])
    && (!c.done && c.active.Some? ==> c.active.value in c.streams)
    && (forall id :: id in c.streams ==> 0 < id < c.nextId)
    && (!c.done ==> forall id :: id in c.streams && c.streams[id].requestBodyDone ==> c.state == AwaitingResponse)
  }

  /** Everything on the wire is for that request, or for one before it. */
  ghost predicate InOrder(c: Core) {
    && Rising(c.wire)
    && forall p :: p in c.wire ==> p.id < c.nextId && forall id :: id in c.streams ==> p.id <= id
  }

  /** What has been reported agrees with what is being read. */
  ghost predicate Reporting(c: Core) {
    && 0 < c.nextId
    && (c.goaway ==> c.done)
    && if c.done then TailOf(c.events) == if c.goaway then Over else Broken
       else match c.state
         case StartLine => c.active.None? && TailOf(c.events) == Closed(c.lastId as int) && c.lastId < c.nextId
         case HeaderLines => c.active.Some? && TailOf(c.events) == Named(c.active.value)
         case AwaitingResponse => c.active == Some(c.lastId) && TailOf(c.events) == Closed(c.lastId as int)
         case SkipInterim => false
         case BodyUntilClose => false
         case _ => c.active.Some? && TailOf(c.events) == Within(c.active.value)
  }

  ghost predicate Serving(c: Core) {
    !c.client && Coherent(c) && OneAtATime(c) && InOrder(c) && Reporting(c)
  }

  lemma ServingParts(c: Core)
    requires Serving(c)
    ensures !c.client && Coherent(c) && OneAtATime(c) && InOrder(c) && Reporting(c)
  {
  }

  /** Identifiers have not run out. */
  predicate CanOpen(c: Core) {
    c.nextId < 0xffff_fffe
  }

  // ---- Ends -----------------------------------------------------------------

  lemma FailedServing(c: Core, fault: Fault)
    requires Serving(c)
    ensures Serving(Failed(c, fault))
  {
    hide Rising;
    TailAdd(c.events, ConnectionError(fault));
  }

  /** The end of a connection, from anywhere. */
  lemma DoneServing(c: Core)
    requires !c.client && OneAtATime(c) && InOrder(c) && 0 < c.nextId && !c.goaway
    requires TailOf(c.events) != Wrong && TailOf(c.events) != Over
    ensures Serving(ConnectionDone(c))
  {
    hide Rising;
    TailAdd(c.events, Goaway(c.lastId));
  }

  /** A connection that is over already. */
  lemma OverServing(c: Core)
    requires !c.client && OneAtATime(c) && InOrder(c) && 0 < c.nextId && c.goaway && TailOf(c.events) == Over
    ensures Serving(ConnectionDone(c))
  {
    hide Rising, TailOf;
  }

  // ---- Reading --------------------------------------------------------------

  /** Steps of the parser that report nothing. */
  lemma QuietServing(c: Core, d: Core)
    requires Serving(c) && !c.done && Coherent(d)
    requires d == c.(message := d.message, state := d.state)
    requires d.state == c.state || (InBody(c.state) && InBody(d.state))
    ensures Serving(d)
  {
    hide Rising, TailOf;
  }

  predicate InBody(state: ParseState) {
    state == BodyLength || state == ChunkSize || state == ChunkData || state == ChunkCrlf || state == ChunkTrailer
  }

  lemma RequestServing(c: Core, verb: Text, target: Text)
    requires Serving(c) && c.state == StartLine && CanOpen(c)
    ensures Serving(RequestOpened(c, verb, target))
  {
    hide Rising, Add, TailOf;
    TailAdd(c.events, NewStream(c.nextId));
    var d := RequestOpened(c, verb, target);
    assert d.streams == c.streams[c.nextId := d.streams[c.nextId]] && d.wire == c.wire;
  }

  lemma RequestLineServing(c: Core, line: Text)
    requires Serving(c) && c.state == StartLine && CanOpen(c)
    ensures Serving(RequestLine(c, line))
  {
    hide Failed, OneAtATime, InOrder, Reporting, Ascii, RequestParts, RequestOpened;
    FailedServing(c, ProtocolError);
    var parts := RequestParts(line);
    if parts.Some? && IsVersion(parts.value.2) {
      var d := c.(message := c.message.(minor := parts.value.2[7] - 48));
      QuietServing(c, d);
      FailedServing(d, ProtocolError);
      RequestServing(d, parts.value.0, parts.value.1);
    }
  }

  lemma ReadServing(c: Core)
    requires Serving(c) && InBody(c.state)
    ensures Serving(RequestRead(c, c.active.value))
  {
    hide Rising;
    TailAdd(c.events, StreamClosed(c.active.value));
  }

  lemma ContinueServing(c: Core)
    requires Serving(c) && c.active.Some?
    ensures Serving(Continue(c, c.active.value))
  {
    hide TailOf, SameIgnoringCase, HeaderValue, Ascii;
    WriteServing(c, c.active.value, Ascii("HTTP/1.1 100 Continue\r\n\r\n"));
  }

  /** The request being answered may add to the wire. */
  lemma WriteServing(c: Core, id: uint32, bytes: Text)
    requires Serving(c) && id in c.streams
    ensures Serving(c.Write(id, bytes))
  {
    hide TailOf;
    var d, piece := c.Write(id, bytes), Piece(id, bytes);
    forall p | p in d.wire
      ensures p.id <= id
    {
      assert p in c.wire || p == piece;
    }
    assert Rising(d.wire);
  }

  lemma ReportedServing(c: Core, close: bool)
    requires Serving(c) && c.state == HeaderLines
    ensures c.active.Some? && c.active.value in c.streams
    ensures Serving(HeadersReported(c, c.active.value, close).(state := ChunkSize))
  {
    hide Rising, Announced;
    var id := c.active.value;
    TailAdd(c.events, HeadersArrived(id, Announced(c.client, c.streams[id].verb, c.message)));
  }

  /** How the body is delimited does not depend on where the reader was. */
  lemma RequestBodyIgnores(c: Core, id: uint32)
    requires !c.done
    ensures RequestBody(c.(state := ChunkSize), id) == RequestBody(c, id)
  {
    hide IsChunked, HeaderValue, Number64, Ascii, Continue, RequestRead, Failed;
    EndsIgnore(c, id);
    var n := Number64(HeaderValue(c.message.headers, Ascii("content-length")), 10);
    if n.Some? {
      EndsIgnore(c.(message := c.message.(remaining := n.value)), id);
    }
  }

  lemma EndsIgnore(c: Core, id: uint32)
    requires !c.done
    ensures Failed(c.(state := ChunkSize), ProtocolError) == Failed(c, ProtocolError)
    ensures RequestRead(c.(state := ChunkSize), id) == RequestRead(c, id)
  {
    hide Add;
  }

  lemma BodyChosenServing(c: Core)
    requires Serving(c) && c.state == ChunkSize
    ensures Serving(RequestBody(c, c.active.value))
  {
    hide IsChunked, HeaderValue, Number64, Ascii, Failed, RequestRead, Continue, OneAtATime, InOrder, Reporting;
    ServingActive(c);
    var m := c.message;
    var length := HeaderValue(m.headers, Ascii("content-length"));
    if IsChunked(m) {
      ContinueServing(c);
    } else if length == [] {
      ReadServing(c);
    } else {
      var n := Number64(length, 10);
      if n == None {
        FailedServing(c, ProtocolError);
      } else {
        var d := c.(message := m.(remaining := n.value));
        QuietServing(c, d);
        if n.value == 0 {
          ReadServing(d);
        } else {
          QuietServing(d, d.(state := BodyLength));
          ContinueServing(d.(state := BodyLength));
        }
      }
    }
  }

  lemma ServingActive(c: Core)
    requires Serving(c) && !c.done && c.state != StartLine
    ensures c.active.Some? && c.active.value in c.streams
  {
    hide TailOf;
  }

  lemma HeadersServing(c: Core)
    requires Serving(c) && c.state == HeaderLines
    ensures Serving(HeadersComplete(c))
  {
    hide RequestBody, HeadersReported, Closes, OneAtATime, InOrder, Reporting;
    ServingActive(c);
    ReportedServing(c, Closes(c.message));
    var d := HeadersReported(c, c.active.value, Closes(c.message));
    ReportedKeeps(c, c.active.value, Closes(c.message));
    RequestBodyIgnores(d, c.active.value);
    BodyChosenServing(d.(state := ChunkSize));
  }

  lemma ReportedKeeps(c: Core, id: uint32, close: bool)
    requires id in c.streams
    ensures var d := HeadersReported(c, id, close);
            d.client == c.client && d.active == c.active && d.done == c.done
  {
    hide Add, Announced;
  }

  lemma FinishedServing(c: Core)
    requires Serving(c) && InBody(c.state)
    ensures Serving(MessageFinished(c))
  {
    hide RequestRead, OneAtATime, InOrder, Reporting;
    ServingActive(c);
    ReadServing(c);
  }

  lemma LineServing(c: Core, line: Text)
    requires Serving(c) && TakesLines(c.state) && (c.state == StartLine ==> CanOpen(c))
    ensures Serving(LineDone(c, line))
  {
    hide HeadersComplete, MessageFinished, Failed, OneAtATime, InOrder, Ascii, Trim, Number64, StatusCode, ToLower, TailOf;
    LineCoherent(c, line);
    if c.state == StartLine {
      RequestLineServing(c, line);
    } else if c.state == HeaderLines && line == [] {
      HeadersServing(c);
    } else if c.state == ChunkTrailer && line == [] {
      FinishedServing(c);
    } else if c.state == ChunkSize {
      SizeServing(c, line);
    } else {
      QuietServing(c, LineDone(c, line));
    }
  }

  lemma SizeServing(c: Core, line: Text)
    requires Serving(c) && c.state == ChunkSize
    ensures Serving(SizeLine(c, line))
  {
    hide Failed, OneAtATime, InOrder, Reporting, Number64, Trim;
    FailedServing(c, ProtocolError);
    if Number64(Trim(line[..Find(line, SEMICOLON)]), 16).Some? {
      QuietServing(c, SizeLine(c, line));
    }
  }

  lemma DataServing(c: Core, data: Text)
    requires Serving(c) && TakesBody(c.state)
    ensures Serving(EmitData(c, data))
  {
    hide Rising, Add;
    if data != [] {
      TailAdd(c.events, Data(c.active.value, data));
    }
  }

  lemma BodyServing(c: Core, data: Text)
    requires Serving(c) && TakesBody(c.state) && (c.state != BodyUntilClose ==> |data| <= c.message.remaining)
    ensures Serving(BodyTaken(c, data))
  {
    hide EmitData, MessageFinished, OneAtATime, InOrder, TailOf;
    DataServing(c, data);
    EmitKeeps(c, data);
    var d := EmitData(c, data);
    var e := d.(message := d.message.(remaining := c.message.remaining - |data|));
    if |data| < c.message.remaining {
      QuietServing(d, e);
    } else if c.state == ChunkData {
      QuietServing(d, e.(state := ChunkCrlf));
    } else {
      QuietServing(d, e.(state := ChunkSize));
      FinishedServing(e.(state := ChunkSize));
      FinishedIgnores(e);
    }
  }

  lemma FinishedIgnores(c: Core)
    requires !c.client && c.active.Some?
    ensures MessageFinished(c.(state := ChunkSize)) == MessageFinished(c)
  {
    hide Add;
  }

  // ---- Input ----------------------------------------------------------------

  /** Free to open a stream, if one is to be opened at all. */
  ghost predicate Roomy(c: Core) {
    c.active.None? && !c.done ==> CanOpen(c)
  }

  /** Reading opens a stream only when none is open, and never closes one. */
  predicate OpensOne(c: Core, d: Core) {
    && !d.client && c.nextId <= d.nextId <= c.nextId + 2
    && (c.active.Some? || c.done ==> d.nextId == c.nextId && (d.active.Some? || d.done))
    && (d.active.None? && !d.done ==> d.nextId == c.nextId)
  }

  lemma OctetServing(p: Parser, b: byte)
    requires Serving(p.core) && Roomy(p.core)
    ensures Serving(Fed(p, b).core)
  {
    hide LineDone, BodyTaken, Failed, OneAtATime, InOrder, TailOf;
    FailedServing(p.core, ProtocolError);
    if TakesBody(p.core.state) {
      if p.core.state == BodyUntilClose || p.core.message.remaining > 0 {
        BodyServing(p.core, [b]);
      }
    } else if TakesLines(p.core.state) && p.core.state != Finished {
      LineServing(p.core, Stripped(p.pending));
    }
  }

  /** A step that leaves identifiers alone and keeps the stream open, or ends the connection. */
  predicate Keeps(c: Core, d: Core) {
    d.nextId == c.nextId && d.client == c.client && (c.active.Some? || c.done ==> d.active.Some? || d.done)
  }

  lemma EndsKeep(c: Core, id: uint32)
    ensures Keeps(c, Failed(c, ProtocolError)) && Keeps(c, RequestRead(c, id)) && Keeps(c, Continue(c, id))
  {
    hide Add, HeaderValue, Ascii, SameIgnoringCase;
  }

  lemma FinishedKeeps(c: Core)
    requires !c.client
    ensures Keeps(c, MessageFinished(c))
  {
    hide Failed, RequestRead;
    EndsKeep(c, if c.active.Some? then c.active.value else 0);
  }

  lemma KeepsAfter(c: Core, d: Core, e: Core)
    requires d == c.(message := d.message, state := d.state) && Keeps(d, e)
    ensures Keeps(c, e)
  {
  }

  lemma RequestBodyKeeps(c: Core, id: uint32)
    ensures Keeps(c, RequestBody(c, id))
  {
    hide Failed, RequestRead, Continue, HeaderValue, Ascii, Number64, IsChunked, Keeps;
    EndsKeep(c, id);
    EndsKeep(c.(state := ChunkSize), id);
    KeepsAfter(c, c.(state := ChunkSize), Continue(c.(state := ChunkSize), id));
    var n := Number64(HeaderValue(c.message.headers, Ascii("content-length")), 10);
    if n.Some? {
      var d := c.(message := c.message.(remaining := n.value));
      EndsKeep(d, id);
      KeepsAfter(c, d, RequestRead(d, id));
      EndsKeep(d.(state := BodyLength), id);
      KeepsAfter(c, d.(state := BodyLength), Continue(d.(state := BodyLength), id));
    }
  }

  lemma HeadersKeep(c: Core)
    requires !c.client
    ensures Keeps(c, HeadersComplete(c))
  {
    hide Failed, RequestBody, Add, Announced, Closes;
    EndsKeep(c, 0);
    if c.active.Some? && c.active.value in c.streams {
      RequestBodyKeeps(HeadersReported(c, c.active.value, Closes(c.message)), c.active.value);
    }
  }

  lemma LineOpens(c: Core, line: Text)
    requires Serving(c) && TakesLines(c.state) && (c.state == StartLine ==> CanOpen(c))
    ensures OpensOne(c, LineDone(c, line))
  {
    hide HeadersComplete, MessageFinished, Failed, Add, Ascii, Trim, Number64, StatusCode, ToLower, RequestParts;
    hide OneAtATime, InOrder, TailOf;
    EndsKeep(c, 0);
    FinishedKeeps(c);
    HeadersKeep(c);
    if c.state == StartLine {
      LineFails(c, line);
    }
  }

  lemma LineFails(c: Core, line: Text)
    ensures forall minor :: Keeps(c, Failed(c.(message := c.message.(minor := minor)), ProtocolError))
  {
    hide Add;
  }

  lemma BodyKeeps(c: Core, data: Text)
    requires !c.client && TakesBody(c.state) && (c.state != BodyUntilClose ==> |data| <= c.message.remaining)
    ensures Keeps(c, BodyTaken(c, data))
  {
    hide MessageFinished, EmitData;
    EmitKeeps(c, data);
    FinishedKeeps(EmitData(c, data).(message := c.message.(remaining := 0)));
  }

  lemma OctetOpens(p: Parser, b: byte)
    requires Serving(p.core) && Roomy(p.core)
    ensures OpensOne(p.core, Fed(p, b).core)
  {
    hide LineDone, Failed, BodyTaken, OneAtATime, InOrder, TailOf;
    var c := p.core;
    EndsKeep(c, 0);
    if TakesLines(c.state) {
      LineOpens(c, Stripped(p.pending));
    } else if TakesBody(c.state) && (c.state == BodyUntilClose || c.message.remaining > 0) {
      BodyKeeps(c, [b]);
    }
  }

  /** Input, octet by octet: at most one stream is opened by all of it. */
  lemma {:induction false} FedServing(p: Parser, input: Text)
    requires Serving(p.core) && Roomy(p.core)
    ensures Serving(FedAll(p, input).core) && OpensOne(p.core, FedAll(p, input).core)
    decreases |input|
  {
    hide Fed, Serving;
    ServingParts(p.core);
    if input != [] {
      OctetServing(p, input[0]);
      OctetOpens(p, input[0]);
      var q := Fed(p, input[0]);
      ServingParts(q.core);
      FedServing(q, input[1..]);
    }
  }

  // ---- Calls ----------------------------------------------------------------

  /** Identifiers used up, counting one for the stream that could be opened next. */
  function Spent(c: Core): int {
    c.nextId + if c.active.None? && !c.done then 2 else 0
  }

  /** Changes to a stream's record that leave its request as it is. */
  lemma RecordServing(c: Core, id: uint32, info: StreamInfo)
    requires Serving(c) && id in c.streams && info.requestBodyDone == c.streams[id].requestBodyDone
    ensures Serving(c.(streams := c.streams[id := info]))
  {
    hide Rising, TailOf;
  }

  /** The response is out and the request was read: the next one can be. */
  lemma ReleasedServing(c: Core, id: uint32)
    requires Serving(c) && id in c.streams && !c.done && c.streams[id].requestBodyDone
    ensures Serving(Released(c, id).(state := StartLine))
  {
    hide Rising, TailOf, Without;
  }

  /** The connection ends with this response. */
  lemma ReleasedDone(c: Core, id: uint32)
    requires Serving(c) && id in c.streams
    ensures Serving(ConnectionDone(Released(c, id)))
  {
    hide Rising, TailOf, Without, ConnectionDone;
    var d := Released(c, id);
    if c.goaway {
      OverServing(d);
    } else {
      DoneServing(d);
    }
  }

  lemma CompleteServing(p: Parser, id: uint32)
    requires Serving(p.core) && id in p.core.streams && CanOpen(p.core)
    ensures Serving(ResponseComplete(p, id).core)
    ensures Spent(ResponseComplete(p, id).core) <= Spent(p.core) + 2
  {
    hide FedAll, OneAtATime, InOrder, Reporting, ConnectionDone, Released;
    var c := p.core;
    ReleasedIs(c, id);
    if c.streams[id].closeAfter || !c.streams[id].requestBodyDone || c.done {
      ReleasedDone(c, id);
    } else {
      ReleasedServing(c, id);
      FedServing(Parser(Released(c, id).(state := StartLine), []), p.pending);
    }
  }

  lemma ReleasedIs(c: Core, id: uint32)
    ensures Released(c, id).nextId == c.nextId && Released(c, id).active == None && Released(c, id).done == c.done
    ensures ConnectionDone(Released(c, id)).nextId == c.nextId && ConnectionDone(Released(c, id)).done
  {
    hide Add, Without;
  }

  lemma HeadServing(c: Core, id: uint32, status: int, reason: Text, headers: seq<Header>, endStream: bool)
    requires Serving(c) && id in c.streams && !c.streams[id].headSent
    ensures var d := ResponseWritten(c, id, status, reason, headers, endStream);
            Serving(d) && Spent(d) == Spent(c) && d.nextId == c.nextId && id in d.streams
  {
    hide Serving, AsksToClose, ResponseHead, ResponseFields, Bodiless, NeedsChunks;
    var info := c.streams[id].(closeAfter := c.streams[id].closeAfter || AsksToClose(headers));
    WriteServing(c, id, ResponseHead(status, reason, ResponseFields(info, status, headers, endStream)));
    var d := c.Write(id, ResponseHead(status, reason, ResponseFields(info, status, headers, endStream)));
    RecordServing(d, id, Answered(info, status, headers, endStream));
  }

  lemma ResponseServing(p: Parser, id: uint32, status: int, reason: Text, headers: seq<Header>, endStream: bool)
    requires var n := Ended(p.core, Respond(id, status, reason, headers, endStream));
             Serving(p.core) && (n > 0 ==> CanOpen(p.core))
    ensures var n := Ended(p.core, Respond(id, status, reason, headers, endStream));
            var q := ResponseSent(p, id, status, reason, headers, endStream);
            Serving(q.core) && Spent(q.core) <= Spent(p.core) + 2 * n
  {
    hide ResponseComplete, Serving, ResponseWritten;
    var c := p.core;
    if id in c.streams && !c.streams[id].headSent {
      HeadServing(c, id, status, reason, headers, endStream);
      if endStream {
        CompleteServing(p.(core := ResponseWritten(c, id, status, reason, headers, endStream)), id);
      }
    }
  }

  lemma BodySentServing(p: Parser, id: uint32, data: Text, endStream: bool)
    requires var n := Ended(p.core, Body(id, data, endStream));
             Serving(p.core) && (n > 0 ==> CanOpen(p.core))
    ensures var n := Ended(p.core, Body(id, data, endStream));
            var q := DataSent(p, id, data, endStream);
            Serving(q.core) && Spent(q.core) <= Spent(p.core) + 2 * n
  {
    hide ResponseComplete, Framed, OneAtATime, InOrder, Reporting;
    var c := p.core;
    if Accepts(c, id) {
      var info := c.streams[id];
      if info.noBody {
        if endStream {
          CompleteServing(p, id);
        }
      } else {
        if c.active == Some(id) {
          WriteServing(c, id, Framed(info, data, endStream));
        } else {
          RecordServing(c, id, info.(staged := info.staged + Framed(info, data, endStream)));
        }
        if endStream {
          CompleteServing(p.(core := BodyWritten(c, id, data, endStream)), id);
        }
      }
    }
  }

  lemma EofServing(c: Core)
    requires Serving(c)
    ensures Serving(AtEof(c)) && Spent(AtEof(c)) <= Spent(c)
  {
    hide Failed, ConnectionDone, ExchangeComplete, OneAtATime, InOrder;
    var d := c.(eof := true);
    EofMark(c);
    FailedServing(d, ConnectionReset);
    EndsKeepId(d);
    if !c.eof && c.state == StartLine {
      DoneServing(d);
    }
  }

  lemma EofMark(c: Core)
    requires Serving(c)
    ensures Serving(c.(eof := true)) && OneAtATime(c.(eof := true)) && InOrder(c.(eof := true))
  {
    hide Rising, TailOf;
  }

  lemma EndsKeepId(c: Core)
    ensures Failed(c, ConnectionReset).nextId == c.nextId && (Failed(c, ConnectionReset).done || Failed(c, ConnectionReset) == c)
    ensures ConnectionDone(c).nextId == c.nextId && ConnectionDone(c).done
  {
    hide Add;
  }

  // ---- Runs -----------------------------------------------------------------

  datatype Move =
    | Read(input: Text)
    | Respond(id: uint32, status: int, reason: Text, headers: seq<Header>, endStream: bool)
    | Body(id: uint32, data: Text, endStream: bool)
    | Eof

  function After(p: Parser, m: Move): Parser {
    match m
    case Read(input) => FedAll(p, input)
    case Respond(id, status, reason, headers, endStream) => ResponseSent(p, id, status, reason, headers, endStream)
    case Body(id, data, endStream) => DataSent(p, id, data, endStream)
    case Eof => Parser(AtEof(p.core), if AtEof(p.core).state == Finished then [] else p.pending)
  }

  function Run(moves: seq<Move>): Parser {
    if moves == [] then Parser(FreshCore(false), []) else After(Run(moves[..|moves| - 1]), moves[|moves| - 1])
  }

  /** Calls that end a response: those that are not refused. */
  function Ended(c: Core, m: Move): nat {
    match m
    case Respond(id, _, _, _, endStream) => if endStream && id in c.streams && !c.streams[id].headSent then 1 else 0
    case Body(id, _, endStream) => if endStream && Accepts(c, id) then 1 else 0
    case _ => 0
  }

  function Responses(moves: seq<Move>): nat {
    if moves == [] then 0
    else
      var front := moves[..|moves| - 1];
      Responses(front) + Ended(Run(front).core, moves[|moves| - 1])
  }

  lemma MoveServing(p: Parser, m: Move)
    requires Serving(p.core) && Spent(p.core) + 2 * Ended(p.core, m) < 0x1_0000_0000
    ensures Serving(After(p, m).core) && Spent(After(p, m).core) <= Spent(p.core) + 2 * Ended(p.core, m)
  {
    hide Serving, ResponseSent, DataSent, AtEof, FedAll;
    match m
    case Read(input) =>
      FedServing(p, input);
    case Respond(id, status, reason, headers, endStream) =>
      ResponseServing(p, id, status, reason, headers, endStream);
    case Body(id, data, endStream) =>
      BodySentServing(p, id, data, endStream);
    case Eof =>
      EofServing(p.core);
  }

  /** In every state a server can reach before its identifiers run out. */
  lemma {:induction false} AlwaysServing(moves: seq<Move>)
    requires Responses(moves) < 0x7fff_fffd
    ensures Serving(Run(moves).core) && Spent(Run(moves).core) <= 3 + 2 * Responses(moves)
  {
    hide Serving, After;
    if moves == [] {
      FreshServing();
    } else {
      var front := moves[..|moves| - 1];
      AlwaysServing(front);
      MoveServing(Run(front), moves[|moves| - 1]);
    }
  }

  lemma FreshServing()
    ensures Serving(FreshCore(false)) && Spent(FreshCore(false)) == 3
  {
  }

  /**
   Serialization on the server. The events are complete requests with growing identifiers,
   perhaps one that is not complete, and the end; a request is opened only when every earlier
   one has been answered, so at most one is not; and the wire is grouped by request, in
   growing order, with nothing on it for any request behind the one being answered.
   */
  lemma ServerSerialization(moves: seq<Move>)
    requires Responses(moves) < 0x7fff_fffd
    ensures var c := Run(moves).core;
            && TailOf(c.events) != Wrong
            && (c.done <==> TailOf(c.events) == Broken || TailOf(c.events) == Over)
            && (TailOf(c.events).Closed? ==> c.lastId as int == TailOf(c.events).last)
            && (forall id, id' :: id in c.streams && id' in c.streams ==> id == id')
            && (TailOf(c.events).Named? || TailOf(c.events).Within? ==>
                  c.active.Some? && c.active.value in c.streams && c.active.value as int == TailOf(c.events).id)
            && Rising(c.wire)
            && (forall p, id :: p in c.wire && id in c.streams ==> p.id <= id)
  {
    hide Run, Rising, Coherent, TailOf;
    AlwaysServing(moves);
  }
}
