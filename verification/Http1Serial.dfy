/**
 The HTTP/1.1 client over whole runs: requests go out one at a time in the order their
 streams were opened, and what the application is told follows the same order.
 */
module Http1Serial {
  import opened Bits
  import opened Wrappers
  import opened Headers
  import opened Http1Text
  import opened Http1Core
  import opened Http1Feed
  import opened Http1Calls

  // ---- The order of events --------------------------------------------------

  /** Where a queue of events leaves off. */
  datatype Tail =
    | Between(last: int) // between exchanges, after that of stream `last`
    | Within(id: int)    // in the body of an exchange
    | Over               // after goaway or an error, which come last
    | Wrong

  function NextTail(t: Tail, e: Event): Tail {
    match t
    case Between(last) =>
      (match e
       case HeadersArrived(id, _) => if id > last then Within(id) else Wrong
       case Goaway(_) => Over
       case ConnectionError(_) => Over
       case _ => Wrong)
    case Within(id) =>
      (match e
       case Data(i, _) => if i == id then t else Wrong
       case StreamClosed(i) => if i == id then Between(id) else Wrong
       case ConnectionError(_) => Over
       case _ => Wrong)
    case _ => Wrong
  }

  /**
   Headers, data, close, for one stream after another with growing identifiers; perhaps an
   unfinished exchange; and at most one goaway or error, at the end.
   */
  function TailOf(events: seq<Event>): Tail {
    if events == [] then Between(0) else NextTail(TailOf(events[..|events| - 1]), events[|events| - 1])
  }

  lemma TailAdd(events: seq<Event>, e: Event)
    requires e.Data? ==> TailOf(events) == Within(e.id)
    ensures TailOf(Add(events, e)) == NextTail(TailOf(events), e)
  {
    var more := Add(events, e);
    assert more[..|more| - 1] == events || more[..|more| - 1] == events[..|events| - 1];
    if |more| == |events| {
      TailLast(events);
    }
  }

  lemma TailLast(events: seq<Event>)
    requires events != [] && events[|events| - 1].Data? && TailOf(events).Within?
    ensures TailOf(events[..|events| - 1]) == TailOf(events)
  {
  }

  // ---- The invariant --------------------------------------------------------

  ghost predicate Increasing(order: seq<uint32>) {
    forall i, j :: 0 <= i < j < |order| ==> order[i] < order[j]
  }

  ghost predicate Rising(wire: seq<Piece>) {
    forall i, j :: 0 <= i < j < |wire| ==> wire[i].id <= wire[j].id
  }

  /** Opened streams that are not over, oldest first; only the oldest can be on the wire. */
  ghost predicate Ordered(c: Core) {
    && 0 < c.nextId && Increasing(c.order)
    && (forall id :: id in c.streams <==> id in c.order)
    && (forall id :: id in c.order ==> 0 < id < c.nextId)
    && (c.active.Some? ==> c.order != [] && c.order[0] == c.active.value)
    && (forall id :: id in c.streams ==> !c.streams[id].noBody && (c.streams[id].headSent ==> c.done || c.active == Some(id)))
  }

  /** Pieces are grouped by stream; each belongs to a finished exchange or to the one in flight. */
  ghost predicate Grouped(c: Core) {
    && Rising(c.wire)
    && (forall p :: p in c.wire ==> p.id < c.nextId)
    && (!c.done ==>
          forall p :: p in c.wire ==>
            && (c.active.Some? ==> p.id <= c.active.value)
            && (c.active.None? ==> forall id :: id in c.order ==> p.id < id)
            && (c.active == Some(p.id) || StreamClosed(p.id) in c.events))
  }

  predicate BeforeBody(state: ParseState) {
    state == StartLine || state == SkipInterim || state == HeaderLines
  }

  /** What has been reported agrees with what is being read. */
  ghost predicate Reporting(c: Core) {
    && (c.goaway ==> c.done)
    && (c.done ==> TailOf(c.events) == Over)
    && (!c.done ==>
          if BeforeBody(c.state) then
            && TailOf(c.events).Between? && TailOf(c.events).last < c.nextId
            && forall id :: id in c.order ==> id > TailOf(c.events).last
          else c.state != AwaitingResponse && c.active.Some? && TailOf(c.events) == Within(c.active.value))
  }

  ghost predicate Serial(c: Core) {
    c.client && Coherent(c) && Ordered(c) && Grouped(c) && Reporting(c)
  }

  // ---- Steps that end something ---------------------------------------------

  /** A connection that is over keeps its order and what is on the wire. */
  lemma OverSerial(c: Core, d: Core)
    requires c.client && Ordered(c) && Rising(c.wire) && (forall p :: p in c.wire ==> p.id < c.nextId)
    requires d == c.(done := true, state := Finished, active := None, goaway := d.goaway, events := d.events)
    requires TailOf(d.events) == Over
    ensures Serial(d)
  {
  }

  lemma FailedSerial(c: Core, fault: Fault)
    requires Serial(c)
    ensures Serial(Failed(c, fault))
  {
    hide Ordered, Rising, Add, Serial;
    SerialParts(c);
    if !c.done {
      TailAdd(c.events, ConnectionError(fault));
      OverSerial(c, Failed(c, fault));
    }
  }

  lemma SerialParts(c: Core)
    requires Serial(c)
    ensures c.client && Coherent(c) && Ordered(c) && Grouped(c) && Reporting(c)
  {
  }

  /** The connection ends between exchanges. */
  lemma ConnectionDoneSerial(c: Core)
    requires c.client && Ordered(c) && Rising(c.wire) && (forall p :: p in c.wire ==> p.id < c.nextId)
    requires !c.goaway && TailOf(c.events).Between?
    ensures Serial(ConnectionDone(c))
  {
    hide Ordered, Rising, Add;
    TailAdd(c.events, Goaway(c.lastId));
    OverSerial(c, ConnectionDone(c));
  }

  lemma FlushedSerial(c: Core)
    requires Serial(c)
    ensures Serial(Flushed(c))
  {
    if !(c.active.Some? || c.done) && c.order != [] {
      assert FirstPending(c.order, c.streams) == if c.streams[c.order[0]].head == [] then None else Some(c.order[0]);
      if c.streams[c.order[0]].head != [] {
        FlushedFirst(c);
      }
    }
  }

  lemma FlushedFirst(c: Core)
    requires Serial(c) && c.active.None? && !c.done && c.order != [] && FirstPending(c.order, c.streams) == Some(c.order[0])
    ensures Serial(Flushed(c))
  {
    var d, id := Flushed(c), c.order[0];
    FlushedCoherent(c);
    assert d.order == c.order && d.events == c.events && d.active == Some(id);
    var piece := d.wire[|c.wire|];
    assert d.wire == c.wire + [piece] && piece.id == id;
    forall p | p in d.wire
      ensures p.id <= id && p.id < d.nextId && (d.active == Some(p.id) || StreamClosed(p.id) in d.events)
    {
      assert p in c.wire || p == piece;
    }
    assert Rising(d.wire);
  }

  lemma WithoutFirst(order: seq<uint32>)
    requires order != [] && Increasing(order)
    ensures var rest := Without(order, order[0]);
            && Increasing(rest)
            && (forall i :: i in rest <==> i in order && i != order[0])
            && (forall i :: i in rest ==> i > order[0])
  {
    assert order == [order[0]] + order[1..];
    forall i | i in order[1..]
      ensures i > order[0]
    {
      var k :| 0 <= k < |order[1..]| && order[1..][k] == i;
      assert order[k + 1] == i;
    }
  }

  /** The state after an exchange, before the next one starts. */
  function AfterExchange(c: Core, id: uint32): Core {
    Forgotten(c.Emit(StreamClosed(id)), id).(state := StartLine)
  }

  lemma ForgottenOrdered(c: Core, id: uint32)
    requires Ordered(c) && !c.done && c.active == Some(id)
    ensures Ordered(AfterExchange(c, id))
  {
    hide Add, Without, Increasing;
    WithoutFirst(c.order);
  }

  lemma ForgottenGrouped(c: Core, id: uint32)
    requires Grouped(c) && Ordered(c) && !c.done && c.active == Some(id)
    ensures Grouped(AfterExchange(c, id))
  {
    hide Without, Increasing, Rising;
    WithoutFirst(c.order);
    assert AfterExchange(c, id).events == c.events + [StreamClosed(id)];
  }

  /** The exchange in flight is over: the streams that remain are younger. */
  lemma ForgottenSerial(c: Core)
    requires Serial(c) && c.active.Some? && !BeforeBody(c.state)
    ensures var d := AfterExchange(c, c.active.value);
            Serial(d) && TailOf(d.events) == Between(c.active.value)
  {
    hide Without, Increasing, Rising, Add;
    TailAdd(c.events, StreamClosed(c.active.value));
    ForgottenOrdered(c, c.active.value);
    ForgottenGrouped(c, c.active.value);
    WithoutFirst(c.order);
  }

  lemma ExchangeSerial(c: Core)
    requires Serial(c) && c.active.Some? && !BeforeBody(c.state)
    ensures Serial(ExchangeComplete(c, c.active.value))
  {
    hide Flushed, ConnectionDone, Forgotten, Add;
    ForgottenSerial(c);
    var d := AfterExchange(c, c.active.value);
    ForgottenFields(c, c.active.value);
    FlushedSerial(d);
    ConnectionDoneSerial(d);
  }

  lemma ForgottenFields(c: Core, id: uint32)
    ensures var d := Forgotten(c.Emit(StreamClosed(id)), id);
            && d.goaway == c.goaway && d.done == c.done && AfterExchange(c, id) == d.(state := StartLine)
            && ConnectionDone(d) == ConnectionDone(d.(state := StartLine))
  {
    hide Without, Add;
  }

  // ---- Lines and body octets ------------------------------------------------

  /** Steps of the parser that report nothing. */
  lemma QuietSerial(c: Core, d: Core)
    requires Serial(c) && !c.done && Coherent(d)
    requires d == c.(message := d.message, state := d.state)
    requires (BeforeBody(d.state) <==> BeforeBody(c.state)) && d.state != AwaitingResponse
    ensures Serial(d)
  {
    hide Increasing, Rising, TailOf;
  }

  lemma ReportedOrdered(c: Core, id: uint32, close: bool)
    requires Ordered(c) && id in c.streams
    ensures Ordered(HeadersReported(c, id, close).(state := BodyUntilClose))
  {
    hide Increasing, Add, Announced;
  }

  lemma ReportedGrouped(c: Core, id: uint32, close: bool)
    requires Grouped(c) && id in c.streams
    ensures Grouped(HeadersReported(c, id, close).(state := BodyUntilClose))
  {
    hide Rising, Announced;
    assert c.events <= HeadersReported(c, id, close).events;
  }

  lemma ReportedSerial(c: Core, close: bool)
    requires Serial(c) && c.state == HeaderLines && c.active.Some?
    ensures c.active.value in c.streams
    ensures Serial(HeadersReported(c, c.active.value, close).(state := BodyUntilClose))
  {
    hide Increasing, Rising, Announced, Add;
    var id := c.active.value;
    assert id in c.order;
    TailAdd(c.events, HeadersArrived(id, Announced(c.client, c.streams[id].verb, c.message)));
    ReportedOrdered(c, id, close);
    ReportedGrouped(c, id, close);
    hide Ordered, Grouped;
  }

  lemma ResponseBodyIgnores(c: Core, id: uint32)
    requires id in c.streams && !c.done
    ensures ResponseBody(c.(state := BodyUntilClose), id) == ResponseBody(c, id)
  {
    hide HasNoBody, IsChunked, HeaderValue, Number64, Ascii, Add, Flushed, Without;
  }

  lemma ResponseSerial(c: Core)
    requires Serial(c) && c.state == BodyUntilClose && c.active.value in c.streams
    ensures Serial(ResponseBody(c, c.active.value))
  {
    hide HasNoBody, IsChunked, HeaderValue, Number64, Ascii, Failed, ExchangeComplete, Ordered, Grouped, Reporting;
    var m := c.message;
    var length := HeaderValue(m.headers, Ascii("content-length"));
    if HasNoBody(c.streams[c.active.value].verb, m.status) {
      ExchangeSerial(c);
    } else if IsChunked(m) {
      QuietSerial(c, c.(state := ChunkSize));
    } else if length != [] {
      var n := Number64(length, 10);
      if n == None {
        FailedSerial(c, ProtocolError);
      } else {
        var d := c.(message := m.(remaining := n.value));
        QuietSerial(c, d);
        if n.value == 0 {
          ExchangeSerial(d);
        } else {
          QuietSerial(d, d.(state := BodyLength));
        }
      }
    }
  }

  lemma HeadersSerial(c: Core)
    requires Serial(c) && c.state == HeaderLines
    ensures Serial(HeadersComplete(c))
  {
    hide ResponseBody, HeadersReported, Closes, Ordered, Grouped, Reporting;
    ReportedSerial(c, Closes(c.message));
    var d := HeadersReported(c, c.active.value, Closes(c.message));
    ReportedKeeps(c, c.active.value, Closes(c.message));
    ResponseBodyIgnores(d, c.active.value);
    ResponseSerial(d.(state := BodyUntilClose));
  }

  lemma ReportedKeeps(c: Core, id: uint32, close: bool)
    requires id in c.streams
    ensures var d := HeadersReported(c, id, close);
            d.client == c.client && d.active == c.active && d.done == c.done && id in d.streams
  {
    hide Add, Announced;
  }

  lemma LineSerial(c: Core, line: Text)
    requires Serial(c) && TakesLines(c.state) && !Unexpected(c)
    ensures Serial(LineDone(c, line))
  {
    hide HeadersComplete, MessageFinished, Failed, Ordered, Grouped, Reporting, Ascii, Trim, Number64, StatusCode;
    hide ToLower;
    var d := LineDone(c, line);
    LineCoherent(c, line);
    if c.state == HeaderLines && line == [] {
      HeadersSerial(c);
    } else if c.state == ChunkTrailer && line == [] {
      TrailerSerial(c);
    } else if c.state == StartLine {
      StatusSerial(c, line);
    } else if c.state == ChunkSize {
      SizeSerial(c, line);
    } else {
      QuietSerial(c, d);
    }
  }

  lemma TrailerSerial(c: Core)
    requires Serial(c) && !BeforeBody(c.state) && !c.done
    ensures Serial(MessageFinished(c))
  {
    hide ExchangeComplete;
    ExchangeSerial(c);
  }

  lemma StatusSerial(c: Core, line: Text)
    requires Serial(c) && c.state == StartLine && c.active.Some?
    ensures Serial(StatusLine(c, line))
  {
    hide Failed, Ordered, Grouped, Reporting, Ascii, StatusCode;
    FailedSerial(c, ProtocolError);
    if |line| >= 12 && IsVersion(line[..8]) && line[8] == SPACE {
      var d := c.(message := c.message.(minor := line[7] - 48));
      QuietSerial(c, d);
      FailedSerial(d, ProtocolError);
      var e := StatusLine(c, line);
      if StatusCode(line[9..12]).Some? {
        QuietSerial(c, e);
      }
    }
  }

  lemma SizeSerial(c: Core, line: Text)
    requires Serial(c) && c.state == ChunkSize
    ensures Serial(SizeLine(c, line))
  {
    hide Failed, Ordered, Grouped, Reporting, Number64, Trim;
    FailedSerial(c, ProtocolError);
    if Number64(Trim(line[..Find(line, SEMICOLON)]), 16).Some? {
      QuietSerial(c, SizeLine(c, line));
    }
  }

  lemma DataSerial(c: Core, data: Text)
    requires Serial(c) && TakesBody(c.state)
    ensures Serial(EmitData(c, data))
  {
    hide Increasing, Rising, Add;
    if data != [] {
      TailAdd(c.events, Data(c.active.value, data));
      DataKeepsClosed(c.events, c.active.value, data);
    }
  }

  lemma DataKeepsClosed(events: seq<Event>, id: uint32, data: Text)
    ensures forall i :: StreamClosed(i) in events ==> StreamClosed(i) in Add(events, Data(id, data))
  {
    forall i | StreamClosed(i) in events
      ensures StreamClosed(i) in Add(events, Data(id, data))
    {
      var k :| 0 <= k < |events| && events[k] == StreamClosed(i);
      assert Add(events, Data(id, data))[k] == StreamClosed(i);
    }
  }

  lemma BodySerial(c: Core, data: Text)
    requires Serial(c) && TakesBody(c.state) && (c.state != BodyUntilClose ==> |data| <= c.message.remaining)
    ensures Serial(BodyTaken(c, data))
  {
    hide EmitData, MessageFinished, Ordered, Grouped, Reporting;
    DataSerial(c, data);
    EmitKeeps(c, data);
    if c.state != BodyUntilClose {
      var d := EmitData(c, data);
      var e := d.(message := d.message.(remaining := c.message.remaining - |data|));
      if |data| < c.message.remaining {
        QuietSerial(d, e);
      } else if c.state == ChunkData {
        QuietSerial(d, e.(state := ChunkCrlf));
      } else {
        QuietSerial(d, e.(state := BodyUntilClose));
        TrailerSerial(e.(state := BodyUntilClose));
        FinishedIgnores(e);
      }
    }
  }

  lemma FinishedIgnores(c: Core)
    requires c.client && c.active.Some? && !c.done
    ensures MessageFinished(c.(state := BodyUntilClose)) == MessageFinished(c)
  {
    hide Flushed, Add, Without;
  }

  /** Input, octet by octet. */
  lemma {:induction false} FedSerial(p: Parser, input: Text)
    requires Serial(p.core)
    ensures Serial(FedAll(p, input).core)
    decreases |input|
  {
    hide LineDone, BodyTaken, Failed, Serial;
    if input != [] {
      SerialParts(p.core);
      OctetSerial(p, input[0]);
      FedSerial(Fed(p, input[0]), input[1..]);
    }
  }

  lemma OctetSerial(p: Parser, b: byte)
    requires Serial(p.core)
    ensures Serial(Fed(p, b).core)
  {
    hide LineDone, BodyTaken, Failed, Ordered, Grouped, Reporting;
    FailedSerial(p.core, ProtocolError);
    if TakesBody(p.core.state) {
      if p.core.state == BodyUntilClose || p.core.message.remaining > 0 {
        BodySerial(p.core, [b]);
      }
    } else if TakesLines(p.core.state) && !Unexpected(p.core) {
      LineSerial(p.core, Stripped(p.pending));
    }
  }

  // ---- Calls ----------------------------------------------------------------

  /** Identifiers have not run out. */
  predicate CanOpen(c: Core) {
    c.nextId < 0xffff_fffe
  }

  lemma OpenedSerial(c: Core)
    requires Serial(c) && CanOpen(c)
    ensures Serial(Opened(c))
  {
    hide TailOf;
    var d := Opened(c);
    OpenedOrdered(c);
    assert d.order == c.order + [c.nextId];
    assert Grouped(d) by {
      hide Increasing, Rising;
    }
  }

  lemma OneMore(order: seq<uint32>, id: uint32)
    requires Increasing(order) && forall i :: i in order ==> i < id
    ensures Increasing(order + [id])
    ensures forall i :: i in order + [id] <==> i in order || i == id
  {
    forall i, j | 0 <= i < j < |order + [id]|
      ensures (order + [id])[i] < (order + [id])[j]
    {
      assert order[i] in order;
    }
  }

  lemma OpenedOrdered(c: Core)
    requires Ordered(c) && CanOpen(c)
    ensures Ordered(Opened(c))
  {
    hide Increasing;
    OneMore(c.order, c.nextId);
    var d := Opened(c);
    assert d.nextId == c.nextId + 2 && c.nextId !in c.streams;
  }

  /** Changes to a stream's record that keep it on or off the wire. */
  lemma RecordSerial(c: Core, id: uint32, info: StreamInfo)
    requires Serial(c) && id in c.streams
    requires !info.noBody && info.headSent == c.streams[id].headSent
    ensures Serial(c.(streams := c.streams[id := info]))
  {
    hide Increasing, Rising, TailOf;
  }

  lemma StagedSerial(c: Core, id: uint32, verb: Text, path: Text, authority: Text, headers: seq<Header>, endStream: bool)
    requires Serial(c)
    ensures Serial(RequestStaged(c, id, verb, path, authority, headers, endStream))
  {
    hide Flushed, RequestHead, RequestFields, NeedsChunks, AsksToClose, Grouped, Reporting;
    if id in c.streams && !c.streams[id].headSent {
      var info := WithRequest(c.streams[id], verb, path, authority, headers, endStream);
      RecordSerial(c, id, info);
      FlushedSerial(c.(streams := c.streams[id := info]));
    }
  }

  /** The exchange in flight may add to the wire. */
  lemma WriteSerial(c: Core, id: uint32, bytes: Text)
    requires Serial(c) && c.active == Some(id)
    ensures Serial(c.Write(id, bytes))
  {
    hide Increasing, TailOf;
    var d := c.Write(id, bytes);
    assert id in c.order;
    assert Rising(d.wire);
    assert Grouped(d);
  }

  lemma DataSentSerial(p: Parser, id: uint32, data: Text, endStream: bool)
    requires Serial(p.core)
    ensures Serial(DataSent(p, id, data, endStream).core)
  {
    hide Framed, ResponseComplete, Grouped, Reporting, Increasing;
    var c := p.core;
    if Accepts(c, id) {
      var info := c.streams[id];
      var d := BodyWritten(c, id, data, endStream);
      if c.active == Some(id) {
        WriteSerial(c, id, Framed(info, data, endStream));
      } else {
        RecordSerial(c, id, info.(staged := info.staged + Framed(info, data, endStream)));
      }
      if endStream {
        RecordSerial(d, id, d.streams[id].(requestComplete := true));
      }
    }
  }

  lemma EofSerial(c: Core)
    requires Serial(c)
    ensures Serial(AtEof(c))
  {
    hide Failed, ConnectionDone, ExchangeComplete, Ordered, Grouped, Reporting;
    var d := c.(eof := true);
    EofMark(c);
    FailedSerial(d, ConnectionReset);
    if !c.eof && c.state == BodyUntilClose {
      ClosedByPeer(d);
    } else if !c.eof && c.state == StartLine {
      IdleDone(d);
    }
  }

  lemma EofMark(c: Core)
    requires Serial(c)
    ensures Serial(c.(eof := true))
  {
    hide Increasing, Rising, TailOf;
  }

  lemma IdleDone(c: Core)
    requires Serial(c) && c.state == StartLine
    ensures Serial(ConnectionDone(c))
  {
    hide Ordered, Rising, TailOf;
    ConnectionDoneSerial(c);
  }

  /** A body that lasts until the connection closes is complete then. */
  lemma ClosedByPeer(c: Core)
    requires Serial(c) && c.state == BodyUntilClose
    ensures Serial(ExchangeComplete(c.(done := true), c.active.value)) && c.active.Some?
  {
    hide Add, TailOf, Increasing, Rising, Without;
    var id := c.active.value;
    ForgottenSerial(c);
    ConnectionDoneSerial(AfterExchange(c, id));
    ClosedIs(c, id);
  }

  lemma ClosedIs(c: Core, id: uint32)
    requires c.active == Some(id)
    ensures ExchangeComplete(c.(done := true), id) == ConnectionDone(AfterExchange(c, id))
  {
    hide Add, Without;
  }

  // ---- Runs -----------------------------------------------------------------

  datatype Move =
    | Open
    | Request(id: uint32, verb: Text, path: Text, authority: Text, headers: seq<Header>, endStream: bool)
    | Body(id: uint32, data: Text, endStream: bool)
    | Read(input: Text)
    | Eof

  function After(p: Parser, m: Move): Parser {
    match m
    case Open => p.(core := Opened(p.core))
    case Request(id, verb, path, authority, headers, endStream) =>
      p.(core := RequestStaged(p.core, id, verb, path, authority, headers, endStream))
    case Body(id, data, endStream) => DataSent(p, id, data, endStream)
    case Read(input) => FedAll(p, input)
    case Eof => Parser(AtEof(p.core), if AtEof(p.core).state == Finished then [] else p.pending)
  }

  function Run(moves: seq<Move>): Parser {
    if moves == [] then Parser(FreshCore(true), []) else After(Run(moves[..|moves| - 1]), moves[|moves| - 1])
  }

  lemma {:induction false} NextIdGrows(p: Parser, input: Text)
    requires p.core.client
    ensures SameId(p.core, FedAll(p, input).core)
    decreases |input|
  {
    hide Fed;
    if input != [] {
      OctetKeepsId(p, input[0]);
      NextIdGrows(Fed(p, input[0]), input[1..]);
    }
  }

  predicate SameId(c: Core, d: Core) {
    d.nextId == c.nextId && d.client == c.client
  }

  lemma ExchangeKeepsId(c: Core)
    ensures SameId(c, Failed(c, ProtocolError))
    ensures c.client ==> SameId(c, MessageFinished(c))
    ensures forall id :: SameId(c, ExchangeComplete(c, id))
  {
    hide Add, Flushed, Without;
    FlushKeepsId();
  }

  lemma ResponseKeepsId(c: Core, id: uint32)
    requires id in c.streams
    ensures SameId(c, ResponseBody(c, id))
  {
    hide Failed, ExchangeComplete, HeaderValue, Ascii, Number64, HasNoBody, IsChunked;
    ExchangeKeepsId(c);
    forall n: nat
      ensures SameId(c, ExchangeComplete(c.(message := c.message.(remaining := n)), id))
    {
      ExchangeKeepsId(c.(message := c.message.(remaining := n)));
    }
  }

  lemma HeadersKeepId(c: Core)
    requires c.client
    ensures SameId(c, HeadersComplete(c))
  {
    hide Failed, ResponseBody, Add, Announced, Closes;
    ExchangeKeepsId(c);
    if c.active.Some? && c.active.value in c.streams {
      ResponseKeepsId(HeadersReported(c, c.active.value, Closes(c.message)), c.active.value);
    }
  }

  lemma LineKeepsId(c: Core, line: Text)
    requires c.client && TakesLines(c.state)
    ensures SameId(c, LineDone(c, line))
  {
    hide HeadersComplete, MessageFinished, Add, Ascii, Trim, Number64, StatusCode, ToLower;
    ExchangeKeepsId(c);
    HeadersKeepId(c);
  }

  lemma OctetKeepsId(p: Parser, b: byte)
    requires p.core.client
    ensures SameId(p.core, Fed(p, b).core)
  {
    hide LineDone, Failed, MessageFinished, EmitData, Stripped;
    var c := p.core;
    ExchangeKeepsId(c);
    if TakesLines(c.state) {
      LineKeepsId(c, Stripped(p.pending));
    } else if TakesBody(c.state) {
      EmitKeeps(c, [b]);
      ExchangeKeepsId(EmitData(c, [b]).(message := c.message.(remaining := 0)));
    }
  }

  lemma FlushKeepsId()
    ensures forall c :: SameId(c, Flushed(c))
  {
  }

  lemma MoveSerial(p: Parser, m: Move)
    requires Serial(p.core) && (m.Open? ==> CanOpen(p.core))
    ensures Serial(After(p, m).core)
    ensures After(p, m).core.nextId == p.core.nextId + if m.Open? then 2 else 0
  {
    hide Serial, Opened, RequestStaged, DataSent, AtEof, FedAll;
    SerialParts(p.core);
    match m
    case Open =>
      OpenedSerial(p.core);
      OpenedId(p.core);
    case Request(id, verb, path, authority, headers, endStream) =>
      StagedSerial(p.core, id, verb, path, authority, headers, endStream);
      CallsKeepId(p, m);
    case Body(id, data, endStream) =>
      DataSentSerial(p, id, data, endStream);
      CallsKeepId(p, m);
    case Read(input) =>
      FedSerial(p, input);
      NextIdGrows(p, input);
    case Eof =>
      EofSerial(p.core);
      CallsKeepId(p, m);
  }

  lemma OpenedId(c: Core)
    requires CanOpen(c)
    ensures Opened(c).nextId == c.nextId + 2
  {
  }

  lemma CallsKeepId(p: Parser, m: Move)
    requires p.core.client && (m.Request? || m.Body? || m.Eof?)
    ensures After(p, m).core.nextId == p.core.nextId
  {
    hide Add, Flushed, Without, RequestHead, RequestFields, NeedsChunks, AsksToClose, Framed, FedAll;
    FlushKeepsId();
  }

  /** How many streams a run opens. */
  function Opens(moves: seq<Move>): nat {
    if moves == [] then 0 else Opens(moves[..|moves| - 1]) + if moves[|moves| - 1].Open? then 1 else 0
  }

  /** In every state a client can reach before its identifiers run out. */
  lemma {:induction false} AlwaysSerial(moves: seq<Move>)
    requires Opens(moves) < 0x7fff_ffff
    ensures Serial(Run(moves).core) && Run(moves).core.nextId == 1 + 2 * Opens(moves)
  {
    hide Serial, After;
    if moves == [] {
      FreshSerial();
    } else {
      var front := moves[..|moves| - 1];
      AlwaysSerial(front);
      MoveSerial(Run(front), moves[|moves| - 1]);
    }
  }

  lemma FreshSerial()
    ensures Serial(FreshCore(true)) && FreshCore(true).nextId == 1
  {
  }

  /**
   Serialization. The events are complete exchanges with growing identifiers, perhaps one
   that is not complete, and one goaway or error at the end; the wire is grouped by stream,
   in growing order; and until the connection is over, everything on the wire belongs to an
   exchange that is complete or to the one in flight.
   */
  lemma ClientSerialization(moves: seq<Move>)
    requires Opens(moves) < 0x7fff_ffff
    ensures var c := Run(moves).core;
            && TailOf(c.events) != Wrong
            && (c.done <==> TailOf(c.events) == Over)
            && Rising(c.wire)
            && (!c.done ==> forall p :: p in c.wire ==> StreamClosed(p.id) in c.events || c.active == Some(p.id))
  {
    hide Run, Ordered, Increasing, Coherent, TailOf;
    AlwaysSerial(moves);
  }
}
