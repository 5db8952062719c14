/** The HTTP/1.1 engine: one exchange at a time over a buffer of 16384 octets. */
module Http1Engine {
  import opened Bits
  import opened Wrappers
  import opened Headers
  import opened Http1Text
  import opened Http1Core
  import opened Http1Feed
  import opened Http1Calls

  class Engine {
    const client: bool
    var state: ParseState
    const inputBuffer: array<byte>
    var inputBuffered: nat
    var pendingOut: Text

    var streams: map<uint32, StreamInfo>
    var order: seq<uint32>
    var nextId: uint32
    var active: Option<uint32>

    var message: Message

    var done: bool
    var goaway: bool
    var eofSeen: bool
    var lastId: uint32
    var events: seq<Event>

    /** Everything written, and how much of it has been taken away. */
    ghost var wire: seq<Piece>
    ghost var written: nat
    /** Every event so far, and how many have been fetched. */
    ghost var emitted: seq<Event>
    ghost var fetched: nat

    ghost function View(): Core
      reads this
    {
      Core(client, state, streams, order, nextId, active, message, done, goaway, eofSeen, lastId, wire, Joined(emitted))
    }

    /** Queues are what has not been taken away yet. */
    ghost predicate Books()
      reads this`wire, this`written, this`pendingOut, this`emitted, this`fetched, this`events
    {
      && written <= |Flat(wire)| && pendingOut == Flat(wire)[written..]
      && fetched <= |emitted| && events == emitted[fetched..]
    }

    constructor (client: bool)
      ensures View() == FreshCore(client) && Books() && fresh(inputBuffer)
      ensures inputBuffer.Length == CAPACITY && inputBuffered == 0
    {
      this.client := client;
      state, inputBuffered, pendingOut := StartLine, 0, [];
      streams, order, nextId, active := map[], [], 1, None;
      message := Message(0, 1, 0, [], []);
      done, goaway, eofSeen, lastId, events := false, false, false, 0, [];
      wire, written, emitted, fetched := [], 0, [], 0;
      inputBuffer := new byte[CAPACITY];
    }

    // ---- Queues -------------------------------------------------------------

    method Push(e: Event)
      requires Books()
      modifies this`events, this`emitted
      ensures Books() && View() == old(View()).Emit(e)
    {
      events := events + [e];
      emitted := emitted + [e];
      assert emitted[..|emitted| - 1] == old(emitted);
    }

    method AppendPending(id: uint32, bytes: Text)
      requires Books()
      modifies this`pendingOut, this`wire
      ensures Books() && View() == old(View()).Write(id, bytes)
    {
      pendingOut := pendingOut + bytes;
      wire := wire + [Piece(id, bytes)];
      assert wire[..|wire| - 1] == old(wire);
    }

    method NextEvent() returns (e: Option<Event>)
      requires Books()
      modifies this`events, this`fetched
      ensures Books() && View() == old(View())
      ensures old(events) == [] ==> e == None && events == []
      ensures old(events) != [] ==> e == Some(old(events)[0]) && events == old(events)[1..]
    {
      if events == [] {
        return None;
      }
      e := Some(events[0]);
      events := events[1..];
      fetched := fetched + 1;
    }

    method OutputEnd(n: nat)
      requires Books()
      modifies this`pendingOut, this`written
      ensures Books() && View() == old(View())
      ensures pendingOut == old(pendingOut)[Min(n, |old(pendingOut)|)..]
    {
      var taken := Min(n, |pendingOut|);
      pendingOut := pendingOut[taken..];
      written := written + taken;
    }

    // ---- Ends and exchanges -------------------------------------------------

    method Fail(fault: Fault)
      requires Books()
      modifies this`done, this`state, this`active, this`events, this`emitted
      ensures Books() && View() == Failed(old(View()), fault)
    {
      hide Flat, Joined, Add, Books;
      if done {
        return;
      }
      Push(ConnectionError(fault));
      done, state, active := true, Finished, None;
    }

    method MarkConnectionDone()
      requires Books()
      modifies this`done, this`state, this`active, this`goaway, this`events, this`emitted
      ensures Books() && View() == ConnectionDone(old(View()))
    {
      hide Flat, Joined, Add, Books;
      done, state, active := true, Finished, None;
      if !goaway {
        goaway := true;
        Push(Goaway(lastId));
      }
    }

    method EraseStreamOrder(id: uint32)
      modifies this`order
      ensures order == Without(old(order), id)
    {
      var i := 0;
      assert order[..0] + Without(order[0..], id) == Without(order, id);
      while i < |order|
        invariant i <= |order| && order == old(order)
        invariant order[..i] + Without(order[i..], id) == Without(order, id)
      {
        if order[i] == id {
          order := order[..i] + order[i + 1..];
          assert old(order)[i..][1..] == old(order)[i + 1..];
          return;
        }
        assert order[i..][1..] == order[i + 1..];
        assert order[..i + 1] + Without(order[i + 1..], id) == order[..i] + ([order[i]] + Without(order[i + 1..], id));
        i := i + 1;
      }
      assert order[..i] == order;
    }

    /** The oldest stream still there, if its request head is. */
    method FindPending() returns (id: Option<uint32>)
      ensures id == FirstPending(order, streams)
      ensures id.Some? ==> id.value in streams
    {
      var i := 0;
      assert order[0..] == order;
      while i < |order|
        invariant i <= |order| && FirstPending(order[i..], streams) == FirstPending(order, streams)
      {
        assert order[i..][1..] == order[i + 1..];
        if order[i] in streams {
          return if streams[order[i]].head == [] then None else Some(order[i]);
        }
        i := i + 1;
      }
      return None;
    }

    /** Requests go out in the order their streams were opened, one at a time. */
    method FlushPending()
      requires Books()
      modifies this`pendingOut, this`wire, this`streams, this`active, this`state
      ensures Books() && View() == Flushed(old(View()))
    {
      hide Flat, Joined, Add, FirstPending;
      if active.Some? || done {
        return;
      }
      var next := FindPending();
      if next.Some? {
        var id := next.value;
        var info := streams[id];
        AppendPending(id, info.head + info.staged);
        streams := streams[id := info.(head := [], staged := [], headSent := true)];
        active := Some(id);
        state := StartLine;
      }
    }

    method CompleteRequest(id: uint32)
      requires Books()
      modifies this`events, this`emitted, this`lastId, this`streams, this`state
      ensures Books() && View() == RequestRead(old(View()), id)
    {
      hide Flat, Joined, Add, Books;
      Push(StreamClosed(id));
      lastId := id;
      if id in streams {
        streams := streams[id := streams[id].(requestBodyDone := true)];
      }
      state := AwaitingResponse;
    }

    method Forget(id: uint32) returns (info: Option<StreamInfo>)
      modifies this`lastId, this`streams, this`order, this`active
      ensures View() == Forgotten(old(View()), id)
      ensures info == if id in old(streams) then Some(old(streams)[id]) else None
    {
      hide Joined, Add, Without;
      lastId := id;
      info := None;
      if id in streams {
        info := Some(streams[id]);
      }
      streams := streams - {id};
      EraseStreamOrder(id);
      if active == Some(id) {
        active := None;
      }
    }

    method CompleteExchange(id: uint32)
      requires Books()
      modifies this`events, this`emitted, this`lastId, this`streams, this`order, this`active, this`done
      modifies this`goaway, this`pendingOut, this`wire, this`state
      ensures Books() && View() == ExchangeComplete(old(View()), id)
    {
      hide Flushed, ConnectionDone, Add, Flat, Joined, Forgotten, Books;
      Push(StreamClosed(id));
      var info := Forget(id);
      if (info.Some? && info.value.closeAfter) || done {
        MarkConnectionDone();
      } else {
        state := StartLine;
        FlushPending();
      }
    }

    method FinishMessage()
      requires Books()
      modifies this`events, this`emitted, this`lastId, this`streams, this`order, this`active, this`done
      modifies this`goaway, this`pendingOut, this`wire, this`state
      ensures Books() && View() == MessageFinished(old(View()))
    {
      hide RequestRead, ExchangeComplete, Flat, Joined, Add;
      if active == None {
        Fail(ProtocolError);
      } else if client {
        CompleteExchange(active.value);
      } else {
        CompleteRequest(active.value);
      }
    }

    // ---- Lines --------------------------------------------------------------

    method HandleStatusLine(line: Text)
      requires Books()
      modifies this`message, this`state, this`done, this`active, this`events, this`emitted
      ensures Books() && View() == StatusLine(old(View()), line)
    {
      hide Failed, Ascii, StatusCode;
      if |line| < 12 || !IsVersion(line[..8]) || line[8] != SPACE {
        Fail(ProtocolError);
        return;
      }
      message := message.(minor := line[7] - 48);
      var code := StatusCode(line[9..12]);
      if code == None {
        Fail(ProtocolError);
      } else if 100 <= code.value < 200 && code.value != 101 {
        state := SkipInterim;
      } else {
        message := message.(status := code.value, headers := []);
        state := HeaderLines;
      }
    }

    /** A request line opens the next stream. */
    method HandleRequestLine(line: Text)
      requires Books()
      modifies this`message, this`state, this`done, this`active, this`events, this`emitted, this`nextId, this`order
      modifies this`streams
      ensures Books() && View() == RequestLine(old(View()), line)
    {
      hide Failed, Ascii, RequestParts, RequestOpened, Flat, Joined, Books;
      var parts := RequestParts(line);
      if parts == None {
        Fail(ProtocolError);
        return;
      }
      var (verb, target, version) := parts.value;
      if !IsVersion(version) {
        Fail(ProtocolError);
        return;
      }
      message := message.(minor := version[7] - 48);
      if target == [] {
        Fail(ProtocolError);
        return;
      }
      OpenRequest(verb, target);
    }

    method AssignStream(verb: Text)
      modifies this`active, this`nextId, this`order, this`streams
      ensures View() == Assigned(old(View()), verb)
    {
      hide Joined;
      var id := nextId;
      var info := if id in streams then streams[id] else NEW_STREAM;
      nextId := NextId(id);
      streams := streams[id := info.(verb := verb)];
      order := order + [id];
      active := Some(id);
    }

    method OpenRequest(verb: Text, target: Text)
      requires Books()
      modifies this`message, this`state, this`active, this`events, this`emitted, this`nextId, this`order, this`streams
      ensures Books() && View() == RequestOpened(old(View()), verb, target)
    {
      hide Add, Flat, Joined, Books, Assigned;
      Push(NewStream(nextId));
      AssignStream(verb);
      message := message.(target := target, headers := []);
      state := HeaderLines;
    }

    method HandleHeaderLine(line: Text)
      modifies this`message
      ensures View() == HeaderLine(old(View()), line)
    {
      var colon := Find(line, COLON);
      if colon < |line| && colon > 0 {
        var name := LowerCase(line[..colon]);
        var value := TrimOws(line[colon + 1..]);
        message := message.(headers := message.headers + [Header(name, value)]);
      }
    }

    method HandleSizeLine(line: Text)
      requires Books()
      modifies this`message, this`state, this`done, this`active, this`events, this`emitted
      ensures Books() && View() == SizeLine(old(View()), line)
    {
      hide Failed;
      var hex := TrimOws(line[..Find(line, SEMICOLON)]);
      var size := Number64(hex, 16);
      if size == None {
        Fail(ProtocolError);
      } else {
        message := message.(remaining := size.value);
        state := if size.value == 0 then ChunkTrailer else ChunkData;
      }
    }

    method Send100Continue(id: uint32)
      requires Books()
      modifies this`pendingOut, this`wire
      ensures Books() && View() == Continue(old(View()), id)
    {
      hide SameIgnoringCase, Ascii;
      var expectation := FindHeaderCi(message.headers, Ascii("expect"));
      var same := IEquals(expectation, Ascii("100-continue"));
      if same {
        AppendPending(id, Ascii("HTTP/1.1 100 Continue\r\n\r\n"));
      }
    }

    /** Whether the connection ends with the message whose headers are complete. */
    method ClosesConnection() returns (close: bool)
      ensures close == Closes(message)
    {
      hide SameIgnoringCase, Ascii;
      var connection := FindHeaderCi(message.headers, Ascii("connection"));
      close := IEquals(connection, Ascii("close"));
      if !close && message.minor == 0 {
        var keep := IEquals(connection, Ascii("keep-alive"));
        close := !keep;
      }
    }

    method ReportHeaders(id: uint32, close: bool)
      requires Books() && id in streams
      modifies this`events, this`emitted, this`streams
      ensures Books() && View() == HeadersReported(old(View()), id, close)
      ensures id in streams
    {
      hide Add, Announced, Flat, Joined, Books;
      var info := streams[id];
      streams := streams[id := info.(closeAfter := info.closeAfter || close)];
      Push(HeadersArrived(id, Announced(client, info.verb, message)));
    }

    method HandleHeadersComplete()
      requires Books()
      modifies this`events, this`emitted, this`lastId, this`streams, this`order, this`active, this`done
      modifies this`goaway, this`pendingOut, this`wire, this`state, this`message
      ensures Books() && View() == HeadersComplete(old(View()))
    {
      hide Failed, ResponseBody, RequestBody, HeadersReported, Closes, Joined, Books;
      if active == None || active.value !in streams {
        Fail(ProtocolError);
        return;
      }
      var id := active.value;
      var close := ClosesConnection();
      ReportHeaders(id, close);
      if client {
        ChooseResponseBody(id);
      } else {
        ChooseRequestBody(id);
      }
    }

    /** How the body of a response is delimited. */
    method ChooseResponseBody(id: uint32)
      requires Books() && id in streams
      modifies this`events, this`emitted, this`lastId, this`streams, this`order, this`active, this`done
      modifies this`goaway, this`pendingOut, this`wire, this`state, this`message
      ensures Books() && View() == ResponseBody(old(View()), id)
    {
      hide Failed, ExchangeComplete, HasNoBody, Contains, Ascii, Number64, Books, Joined;
      if HasNoBody(streams[id].verb, message.status) {
        CompleteExchange(id);
        return;
      }
      var encoding := FindHeaderCi(message.headers, Ascii("transfer-encoding"));
      var length := FindHeaderCi(message.headers, Ascii("content-length"));
      if Contains(encoding, Ascii("chunked")) {
        state := ChunkSize;
      } else if length != [] {
        var n := Number64(length, 10);
        if n == None {
          Fail(ProtocolError);
          return;
        }
        message := message.(remaining := n.value);
        if n.value == 0 {
          CompleteExchange(id);
          return;
        }
        state := BodyLength;
      } else {
        state := BodyUntilClose;
      }
    }

    method ChooseRequestBody(id: uint32)
      requires Books()
      modifies this`events, this`emitted, this`lastId, this`streams, this`active, this`done, this`pendingOut
      modifies this`wire, this`state, this`message
      ensures Books() && View() == RequestBody(old(View()), id)
    {
      hide Failed, RequestRead, Continue, Contains, Ascii, Number64, Books, Joined;
      var encoding := FindHeaderCi(message.headers, Ascii("transfer-encoding"));
      var length := FindHeaderCi(message.headers, Ascii("content-length"));
      if Contains(encoding, Ascii("chunked")) {
        state := ChunkSize;
        Send100Continue(id);
      } else if length != [] {
        var n := Number64(length, 10);
        if n == None {
          Fail(ProtocolError);
          return;
        }
        message := message.(remaining := n.value);
        if n.value == 0 {
          CompleteRequest(id);
          return;
        }
        state := BodyLength;
        Send100Continue(id);
      } else {
        CompleteRequest(id);
      }
    }

    // ---- Parsing ------------------------------------------------------------

    /** The engine as a reader of octets: its state, and the input it has yet to handle. */
    ghost function Now(): Parser
      requires inputBuffered <= inputBuffer.Length
      reads this, inputBuffer
    {
      Parser(View(), if state == Finished then [] else inputBuffer[..inputBuffered])
    }

    ghost predicate Valid()
      reads this, inputBuffer
    {
      && Books() && Coherent(View())
      && inputBuffer.Length == CAPACITY && inputBuffered <= CAPACITY
      && Holding(View(), inputBuffer[..inputBuffered])
    }

    /** Move the unhandled octets to the front. */
    method Compact(offset: nat)
      requires offset <= inputBuffered <= inputBuffer.Length
      modifies this`inputBuffered, inputBuffer
      ensures inputBuffered == old(inputBuffered) - offset
      ensures inputBuffer[..inputBuffered] == old(inputBuffer[offset..inputBuffered])
    {
      if offset == 0 {
        return;
      }
      var left := inputBuffered - offset;
      forall k | 0 <= k < left {
        inputBuffer[k] := inputBuffer[offset + k];
      }
      inputBuffered := left;
    }

    /** The end of the line that starts at `offset`, if it has one. */
    method FindLine(offset: nat) returns (end: Option<nat>)
      requires offset <= inputBuffered <= inputBuffer.Length
      ensures end == None ==> NoLine(inputBuffer[offset..inputBuffered])
      ensures end.Some? ==> offset <= end.value < inputBuffered && inputBuffer[end.value] == LF
                            && NoLine(inputBuffer[offset..end.value])
    {
      for i := offset to inputBuffered
        invariant NoLine(inputBuffer[offset..i])
      {
        if inputBuffer[i] == LF {
          return Some(i);
        }
        assert inputBuffer[offset..i + 1] == inputBuffer[offset..i] + [inputBuffer[i]];
      }
      return None;
    }

    /**
     The line at `offset`. If it is not complete, what there is of it moves to the front,
     and a line that fills the buffer is an error.
     */
    method TakeLine(offset: nat) returns (line: Option<Text>, next: nat)
      requires Books() && !done && offset <= inputBuffered <= inputBuffer.Length == CAPACITY
      modifies this`inputBuffered, inputBuffer, this`done, this`state, this`active, this`events, this`emitted
      ensures Books()
      ensures line.Some? ==>
                && View() == old(View()) && inputBuffered == old(inputBuffered)
                && inputBuffer[..inputBuffered] == old(inputBuffer[..inputBuffered])
                && offset < next <= inputBuffered
                && IsLine(inputBuffer[offset..next], line.value)
      ensures line == None ==>
                && NoLine(old(inputBuffer[offset..inputBuffered]))
                && inputBuffered == old(inputBuffered) - offset
                && inputBuffer[..inputBuffered] == old(inputBuffer[offset..inputBuffered])
                && View() == if inputBuffered == CAPACITY then Failed(old(View()), ProtocolError) else old(View())
    {
      hide Failed, Joined, Books;
      var end := FindLine(offset);
      if end == None {
        Compact(offset);
        if inputBuffered == inputBuffer.Length {
          Fail(ProtocolError);
        }
        return None, offset;
      }
      next := end.value + 1;
      line := Some(Stripped(inputBuffer[offset..end.value]));
      assert inputBuffer[offset..next] == inputBuffer[offset..end.value] + [LF];
    }

    /** A complete line, in whatever state wants one. */
    method HandleLine(line: Text)
      requires Books() && TakesLines(state)
      modifies this`events, this`emitted, this`lastId, this`streams, this`order, this`active, this`done
      modifies this`goaway, this`pendingOut, this`wire, this`state, this`message, this`nextId
      ensures Books() && View() == LineDone(old(View()), line)
    {
      hide StatusLine, RequestLine, HeadersComplete, HeaderLine, SizeLine, MessageFinished, Joined, Books;
      match state {
        case StartLine =>
          if client {
            HandleStatusLine(line);
          } else {
            HandleRequestLine(line);
          }
        case SkipInterim =>
          if line == [] {
            state := StartLine;
          }
        case HeaderLines =>
          if line == [] {
            HandleHeadersComplete();
          } else {
            HandleHeaderLine(line);
          }
        case ChunkSize => HandleSizeLine(line);
        case ChunkCrlf => state := ChunkSize;
        case ChunkTrailer =>
          if line == [] {
            FinishMessage();
          }
      }
    }

    method Report(data: Text)
      requires Books()
      modifies this`events, this`emitted
      ensures Books() && View() == EmitData(old(View()), data)
    {
      if active.Some? && data != [] {
        Push(Data(active.value, data));
      }
    }

    /** Body octets: as many of those available as belong to it. */
    method HandleBody(available: Text) returns (take: nat)
      requires Books() && TakesBody(state)
      modifies this`events, this`emitted, this`lastId, this`streams, this`order, this`active, this`done
      modifies this`goaway, this`pendingOut, this`wire, this`state, this`message
      ensures take == Share(old(View()), |available|)
      ensures Books() && View() == BodyTaken(old(View()), available[..take])
    {
      hide EmitData, MessageFinished, Joined, Books;
      take := if state == BodyUntilClose then |available| else Min(|available|, message.remaining);
      ghost var c := View();
      EmitKeeps(c, available[..take]);
      Report(available[..take]);
      if state != BodyUntilClose {
        message := message.(remaining := message.remaining - take);
        if message.remaining == 0 {
          if state == ChunkData {
            state := ChunkCrlf;
          } else {
            FinishMessage();
          }
        }
      }
    }

    /** One line at `offset`; or, if there is none, whatever can be said about what is there. */
    method ParseLine(offset: nat) returns (next: nat, stop: bool)
      requires Books() && Coherent(View()) && TakesLines(state)
      requires offset < inputBuffered <= CAPACITY == inputBuffer.Length
      modifies this, inputBuffer
      ensures Books() && Coherent(View()) && inputBuffered <= CAPACITY
      ensures !stop ==>
                && offset < next <= inputBuffered == old(inputBuffered)
                && inputBuffer[..inputBuffered] == old(inputBuffer[..inputBuffered])
                && FedAll(Parser(View(), []), inputBuffer[next..inputBuffered])
                   == FedAll(Parser(old(View()), []), old(inputBuffer[offset..inputBuffered]))
      ensures stop ==> Valid() && Now() == FedAll(Parser(old(View()), []), old(inputBuffer[offset..inputBuffered]))
    {
      hide Failed, LineDone, FedAll, Fed, Joined, Books, Coherent, Flat, Holding, IsLine;
      ghost var c, rest := View(), inputBuffer[offset..inputBuffered];
      CoherentUse(c) by { assert TakesLines(c.state); }
      if client && state == StartLine && active == None {
        Fail(ProtocolError);
        UnexpectedFails(c, rest);
        FailedHolds(c, inputBuffer[..inputBuffered]);
        return offset, true;
      }
      var line;
      line, next := TakeLine(offset);
      if line == None {
        LineWaits(c, rest);
        return offset, true;
      }
      assert rest[..next - offset] == inputBuffer[offset..next] && rest[next - offset..] == inputBuffer[next..inputBuffered];
      LineFeeds(c, rest, next - offset, line.value);
      HandleLine(line.value);
      stop := false;
    }

    /** Body octets at `offset`. */
    method ParseBody(offset: nat) returns (next: nat)
      requires Books() && Coherent(View()) && TakesBody(state)
      requires offset < inputBuffered <= CAPACITY == inputBuffer.Length
      modifies this
      ensures Books() && Coherent(View()) && offset < next <= inputBuffered == old(inputBuffered)
      ensures FedAll(Parser(View(), []), inputBuffer[next..inputBuffered])
           == FedAll(Parser(old(View()), []), inputBuffer[offset..inputBuffered])
    {
      hide BodyTaken, FedAll, Fed, Joined, Books, Coherent, Flat;
      ghost var c, rest := View(), inputBuffer[offset..inputBuffered];
      CoherentUse(c) by { assert TakesBody(c.state); }
      BodyFeeds(c, rest);
      var take := HandleBody(inputBuffer[offset..inputBuffered]);
      next := offset + take;
      assert rest[take..] == inputBuffer[next..inputBuffered];
    }

    /** Handle everything in the buffer that can be handled. */
    method ParseAvailable()
      requires Books() && Coherent(View()) && inputBuffered <= CAPACITY == inputBuffer.Length
      modifies this, inputBuffer
      ensures Valid() && Now() == FedAll(Parser(old(View()), []), old(inputBuffer[..inputBuffered]))
    {
      hide Failed, LineDone, BodyTaken, FedAll, Fed, Joined, Books, Coherent, Flat, Holding;
      ghost var all, start := inputBuffer[..inputBuffered], View();
      var offset: nat := 0;
      assert inputBuffer[0..inputBuffered] == all;
      while state != Finished && state != AwaitingResponse && offset < inputBuffered
        invariant Books() && Coherent(View()) && offset <= inputBuffered <= CAPACITY == inputBuffer.Length
        invariant FedAll(Parser(View(), []), inputBuffer[offset..inputBuffered]) == FedAll(Parser(start, []), all)
        decreases inputBuffered - offset
      {
        if TakesBody(state) {
          offset := ParseBody(offset);
        } else {
          var stop;
          offset, stop := ParseLine(offset);
          if stop {
            return;
          }
        }
      }
      RestHolds(View(), inputBuffer[offset..inputBuffered]);
      Compact(offset);
    }

    /** The caller has put `n` octets into the buffer: they are read as if one at a time. */
    method InputEnd(n: nat)
      requires Valid() && inputBuffered + n <= CAPACITY
      modifies this, inputBuffer
      ensures Valid() && Now() == FedAll(old(Now()), old(inputBuffer[inputBuffered..inputBuffered + n]))
    {
      hide FedAll, Fed, Joined, Books, Coherent, Flat, Holding;
      ghost var c, held, input := View(), inputBuffer[..inputBuffered], inputBuffer[inputBuffered..inputBuffered + n];
      HeldCounts(c, held, input);
      if n == 0 {
        assert input == [];
        FedNothing(Now());
        return;
      }
      inputBuffered := inputBuffered + n;
      assert inputBuffer[..inputBuffered] == held + input;
      ParseAvailable();
    }

    /**
     Read input in whatever pieces fit: any division into reads that the buffer has room for.
     Nothing is left unread, unless the buffer is full of input that is held for the next
     request or comes after the end.
     */
    method Feed(input: Text) returns (consumed: nat)
      requires Valid()
      modifies this, inputBuffer
      ensures Valid() && consumed <= |input|
      ensures Now() == FedAll(old(Now()), input[..consumed])
      ensures consumed < |input| ==> inputBuffered == CAPACITY && (state == AwaitingResponse || state == Finished)
    {
      hide FedAll, Fed, Joined, Books, Coherent, Flat, Holding;
      consumed := 0;
      ghost var start := Now();
      FedNothing(start);
      assert input[..0] == [];
      while consumed < |input| && inputBuffered < CAPACITY
        invariant Valid() && consumed <= |input|
        invariant Now() == FedAll(start, input[..consumed])
        decreases |input| - consumed
      {
        assert consumed + 1 <= |input| && inputBuffered + 1 <= CAPACITY;
        var n: nat :| 1 <= n && consumed + n <= |input| && inputBuffered + n <= CAPACITY;
        ReadPiece(input[consumed..consumed + n]);
        FedConcat(start, input[..consumed], input[consumed..consumed + n]);
        assert input[..consumed] + input[consumed..consumed + n] == input[..consumed + n];
        consumed := consumed + n;
      }
      if consumed < |input| {
        FullMeansHeld(View(), inputBuffer[..inputBuffered]);
      }
    }

    /** One read: the octets go into the buffer, and the engine is told. */
    method ReadPiece(piece: Text)
      requires Valid() && inputBuffered + |piece| <= CAPACITY
      modifies this, inputBuffer
      ensures Valid() && Now() == FedAll(old(Now()), piece)
    {
      hide FedAll, Fed, Joined, Books, Coherent, Flat, Holding;
      ghost var held := inputBuffer[..inputBuffered];
      forall k | 0 <= k < |piece| {
        inputBuffer[inputBuffered + k] := piece[k];
      }
      assert inputBuffer[..inputBuffered] == held;
      assert inputBuffer[inputBuffered..inputBuffered + |piece|] == piece;
      InputEnd(|piece|);
    }

    // ---- Calls --------------------------------------------------------------

    method OpenStream() returns (id: uint32)
      modifies this`nextId, this`order, this`streams
      ensures id == old(nextId) && View() == Opened(old(View()))
    {
      id := nextId;
      nextId := NextId(nextId);
      if id !in streams {
        streams := streams[id := NEW_STREAM];
      }
      order := order + [id];
    }

    /** The lines of a header block. */
    static method Serialize(fields: seq<Header>) returns (t: Text)
      ensures t == FieldLines(fields)
    {
      t := [];
      for i := 0 to |fields|
        invariant t == FieldLines(fields[..i])
      {
        assert fields[..i + 1][..i] == fields[..i];
        t := t + (fields[i].name + [COLON, SPACE] + fields[i].value + CRLF);
      }
      assert fields[..|fields|] == fields;
    }

    static method Staged(info: StreamInfo, verb: Text, path: Text, authority: Text, headers: seq<Header>, endStream: bool)
      returns (r: StreamInfo)
      ensures r == WithRequest(info, verb, path, authority, headers, endStream)
    {
      hide RequestFields, NeedsChunks, AsksToClose, RequestHead;
      var head := RequestText(verb, path, RequestFields(authority, headers, endStream));
      r := info.(
        verb := verb,
        head := head,
        chunked := info.chunked || NeedsChunks(headers, endStream),
        closeAfter := AsksToClose(headers),
        requestComplete := info.requestComplete || endStream);
    }

    /** Stage a request head; it goes out when no earlier exchange is in flight. */
    method SendRequestHeaders(id: uint32, verb: Text, path: Text, authority: Text, headers: seq<Header>, endStream: bool)
      requires Valid()
      modifies this`streams, this`pendingOut, this`wire, this`active, this`state
      ensures Valid() && View() == RequestStaged(old(View()), id, verb, path, authority, headers, endStream)
    {
      if id !in streams || streams[id].headSent {
        return;
      }
      hide Flushed, WithRequest, Joined, Books, Coherent, Holding;
      var info := Staged(streams[id], verb, path, authority, headers, endStream);
      ghost var c := View();
      streams := streams[id := info];
      StreamsDoNotMatter(c, streams, inputBuffer[..inputBuffered]);
      FlushedHolds(View(), inputBuffer[..inputBuffered]);
      FlushPending();
    }

    static method RequestText(verb: Text, path: Text, fields: seq<Header>) returns (head: Text)
      ensures head == RequestHead(verb, path, fields)
    {
      hide Ascii, FieldLines;
      var lines := Serialize(fields);
      head := verb + [SPACE] + path + Ascii(" HTTP/1.1") + CRLF + lines + CRLF;
    }

    static method ResponseText(status: int, reason: Text, fields: seq<Header>) returns (head: Text)
      ensures head == ResponseHead(status, reason, fields)
    {
      hide Ascii, FieldLines;
      var lines := Serialize(fields);
      head := Ascii("HTTP/1.1 ") + DecimalText(status) + [SPACE] + reason + CRLF + lines + CRLF;
    }

    method Release(id: uint32) returns (info: Option<StreamInfo>)
      modifies this`lastId, this`streams, this`order, this`active
      ensures View() == Released(old(View()), id)
      ensures info == if id in old(streams) then Some(old(streams)[id]) else None
    {
      hide Joined;
      ForgottenAll(View(), id);
      info := Forget(id);
      active := None;
    }

    /** A response is out; on a connection that goes on, the input held so far is parsed. */
    method CompleteResponse(id: uint32)
      requires Valid()
      modifies this, inputBuffer
      ensures Valid() && Now() == ResponseComplete(old(Now()), id)
    {
      hide Joined, Books, Coherent, Holding, FedAll, Released, ConnectionDone, Released;
      ghost var c, held := View(), inputBuffer[..inputBuffered];
      var info := Release(id);
      if (info.Some? && (info.value.closeAfter || !info.value.requestBodyDone)) || done {
        MarkConnectionDone();
        DoneHolds(Released(c, id), held);
      } else {
        state := StartLine;
        ReleasedCoherent(c, id);
        HeldIs(c, held);
        ParseAvailable();
      }
    }

    method SendResponseHeaders(id: uint32, status: int, reason: Text, headers: seq<Header>, endStream: bool)
      requires Valid()
      modifies this, inputBuffer
      ensures Valid() && Now() == ResponseSent(old(Now()), id, status, reason, headers, endStream)
    {
      hide Joined, Books, Coherent, Holding, ResponseComplete, ResponseWritten;
      if id !in streams || streams[id].headSent {
        return;
      }
      ghost var c := View();
      WriteResponse(id, status, reason, headers, endStream);
      WrittenKeeps(c, id, status, reason, headers, endStream);
      OutputDoesNotMatter(c, View(), inputBuffer[..inputBuffered]);
      if endStream {
        CompleteResponse(id);
      }
    }

    method WriteResponse(id: uint32, status: int, reason: Text, headers: seq<Header>, endStream: bool)
      requires Books() && id in streams
      modifies this`streams, this`pendingOut, this`wire
      ensures Books() && View() == ResponseWritten(old(View()), id, status, reason, headers, endStream)
    {
      hide Joined, Books, ResponseFields, AsksToClose, Bodiless, ResponseHead, Answered;
      var info := streams[id];
      info := info.(closeAfter := info.closeAfter || AsksToClose(headers));
      var head := ResponseText(status, reason, ResponseFields(info, status, headers, endStream));
      AppendPending(id, head);
      streams := streams[id := Answered(info, status, headers, endStream)];
    }

    /** Accept body octets for the exchange in flight, framed as its head announced. */
    method SendData(id: uint32, data: Text, endStream: bool) returns (accepted: nat)
      requires Valid()
      modifies this, inputBuffer
      ensures accepted == Accepted(old(View()), id, data)
      ensures Valid() && Now() == DataSent(old(Now()), id, data, endStream)
    {
      if id !in streams || streams[id].requestComplete || !streams[id].headSent {
        return 0;
      }
      hide Joined, Books, Coherent, Holding, ResponseComplete, Framed;
      ghost var c := View();
      var info := streams[id];
      if info.noBody {
        if endStream && !client {
          CompleteResponse(id);
        }
        return 0;
      }
      WriteBody(id, data, endStream);
      OutputDoesNotMatter(c, View(), inputBuffer[..inputBuffered]);
      if endStream {
        if client {
          ghost var d := View();
          streams := streams[id := streams[id].(requestComplete := true)];
          OutputDoesNotMatter(d, View(), inputBuffer[..inputBuffered]);
        } else {
          CompleteResponse(id);
        }
      }
      return |data|;
    }

    /** Put framed octets on the wire, or behind a head that is not there yet. */
    method WriteBody(id: uint32, data: Text, endStream: bool)
      requires Books() && id in streams
      modifies this`streams, this`pendingOut, this`wire
      ensures Books() && View() == BodyWritten(old(View()), id, data, endStream)
    {
      hide Joined, Books;
      var framed := [];
      if streams[id].chunked {
        if data != [] {
          framed := HexText(|data|) + CRLF + data + CRLF;
        }
        if endStream {
          framed := framed + LAST_CHUNK;
        } else {
          assert framed + [] == framed;
        }
      } else {
        framed := data;
      }
      assert framed == Framed(streams[id], data, endStream);
      if active == Some(id) {
        AppendPending(id, framed);
      } else {
        streams := streams[id := streams[id].(staged := streams[id].staged + framed)];
      }
    }

    /** The peer has closed the connection. */
    method Eof()
      requires Valid()
      modifies this
      ensures Valid() && View() == AtEof(old(View())) && inputBuffered == old(inputBuffered)
    {
      hide Joined, Books, Coherent, Holding, AtEof;
      EofHolds(View(), inputBuffer[..inputBuffered]);
      HandleEof();
    }

    method HandleEof()
      requires Books()
      modifies this`eofSeen, this`events, this`emitted, this`lastId, this`streams, this`order, this`active
      modifies this`done, this`goaway, this`pendingOut, this`wire, this`state
      ensures Books() && View() == AtEof(old(View()))
    {
      hide Joined, Books, Failed, ConnectionDone, ExchangeComplete;
      if eofSeen {
        return;
      }
      eofSeen := true;
      match state {
        case BodyUntilClose =>
          done := true;
          if active.Some? {
            CompleteExchange(active.value);
          } else {
            MarkConnectionDone();
          }
        case StartLine =>
          if client && active.Some? {
            Fail(ConnectionReset);
          } else {
            MarkConnectionDone();
          }
        case Finished =>
        case _ => Fail(ConnectionReset);
      }
    }
  }

  /**
   Independence of the reads: two engines in the same state that read the same input, each
   in whatever pieces fit, end with the same state, the same events and the same output.
   */
  method SameInputSameEvents(a: Engine, b: Engine, input: Text)
    requires a != b && a.inputBuffer != b.inputBuffer
    requires a.Valid() && b.Valid() && a.Now() == b.Now()
    modifies a, b, a.inputBuffer, b.inputBuffer
    ensures a.Valid() && b.Valid() && a.View() == b.View()
  {
    hide FedAll, Fed;
    ghost var start := a.Now();
    var consumed := a.Feed(input);
    FeedIsWhole(start, input, consumed);
    var consumed' := b.Feed(input);
    FeedIsWhole(start, input, consumed');
  }

  /** What is left unread makes no difference to the state. */
  lemma FeedIsWhole(start: Parser, input: Text, consumed: nat)
    requires consumed <= |input|
    requires var c := FedAll(start, input[..consumed]).core;
             consumed < |input| ==> c.state == AwaitingResponse || c.state == Finished
    ensures FedAll(start, input).core == FedAll(start, input[..consumed]).core
  {
    hide FedAll, Fed;
    var p := FedAll(start, input[..consumed]);
    assert input[..consumed] + input[consumed..] == input;
    FedConcat(start, input[..consumed], input[consumed..]);
    if consumed == |input| {
      assert input[..consumed] == input;
    } else if p.core.state == Finished {
      FinishedStays(p, input[consumed..]);
    } else {
      AwaitingHolds(p.core, p.pending, input[consumed..]);
    }
  }
}
