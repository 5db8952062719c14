/**
 Chunked bodies (section 4.1 of RFC 7230), from one engine to another: whatever calls a
 body is sent in, and whatever reads it arrives in, it comes out whole and ends once.
 */
module Http1Chunked {
  import opened Bits
  import opened Wrappers
  import opened Headers
  import opened Http1Text
  import opened Http1Core
  import opened Http1Feed
  import opened Http1Calls

  /** The octets of a body sent in these pieces, the last with the end of the stream. */
  function ChunkedBody(pieces: seq<Text>): Text
    requires pieces != []
  {
    if |pieces| == 1 then Chunk(pieces[0], true) else Chunk(pieces[0], false) + ChunkedBody(pieces[1..])
  }

  // ---- Reading a chunk ------------------------------------------------------

  lemma NoSuchOctet(t: Text, b: byte)
    requires b !in t
    ensures Find(t, b) == |t|
  {
  }

  lemma NothingToTrim(t: Text)
    requires forall b :: b in t ==> !IsBlank(b)
    ensures Trim(t) == t
  {
  }

  lemma SizeLineReads(c: Core, n: nat)
    requires n <= MAX_UINT64
    ensures SizeLine(c, HexText(n))
         == c.(message := c.message.(remaining := n), state := if n == 0 then ChunkTrailer else ChunkData)
  {
    var t := HexText(n);
    HexComesBack(n);
    NoSuchOctet(t, SEMICOLON);
    assert t[..|t|] == t;
    NothingToTrim(t);
  }

  /** A line as it is written. */
  lemma LineReads(c: Core, line: Text, rest: Text)
    requires TakesLines(c.state) && !Unexpected(c) && !c.done
    requires NoLine(line) && |line| + 1 < CAPACITY
    ensures FedAll(Parser(c, []), line + CRLF + rest) == FedAll(Parser(LineDone(c, line), []), rest)
  {
    hide LineDone, FedAll, Fed;
    var whole := line + [CR];
    assert line + CRLF + rest == whole + [LF] + rest;
    assert Stripped(whole) == line;
    WholeLine(c, whole, rest);
  }

  /** A line that does not fit the buffer with its carriage return is an error, whatever follows. */
  lemma LongLineFails(c: Core, line: Text, rest: Text)
    requires TakesLines(c.state) && !Unexpected(c) && !c.done
    requires NoLine(line) && |line| + 1 >= CAPACITY
    ensures FedAll(Parser(c, []), line + CRLF + rest) == Parser(Failed(c, ProtocolError), [])
  {
    hide FedAll, Fed;
    var all := line + CRLF + rest;
    var start := all[..CAPACITY];
    assert start == (line + [CR])[..CAPACITY];
    assert [] + start == start;
    PartialLine(c, [], start);
    assert all == start + all[CAPACITY..];
    FedConcat(Parser(c, []), start, all[CAPACITY..]);
    FinishedStays(Parser(Failed(c, ProtocolError), []), all[CAPACITY..]);
  }

  /** A connection in the middle of a chunked message. */
  predicate InChunks(c: Core) {
    c.state == ChunkSize && c.active.Some? && !c.done
  }

  /** After a chunk: its data reported, and the next size awaited. */
  function ChunkRead(c: Core, data: Text): Core {
    EmitData(c, data).(message := c.message.(remaining := 0), state := ChunkSize)
  }

  lemma ChunkReads(c: Core, data: Text, rest: Text)
    requires InChunks(c) && 0 < |data| <= MAX_UINT64
    ensures FedAll(Parser(c, []), Chunk(data, false) + rest) == FedAll(Parser(ChunkRead(c, data), []), rest)
  {
    hide FedAll, Fed, HexText, EmitData, SizeLine, BodyTaken;
    var size := HexText(|data|);
    var more := data + (CRLF + rest);
    HexComesBack(|data|);
    HexOf64Bits(|data|);
    assert Chunk(data, false) + rest == size + CRLF + more;
    LineReads(c, size, more);
    SizeLineReads(c, |data|);
    var d := c.(message := c.message.(remaining := |data|), state := ChunkData);
    assert LineDone(c, size) == d;
    DataReads(d, data, CRLF + rest);
    var e := EmitData(d, data).(message := c.message.(remaining := 0), state := ChunkCrlf);
    EmitKeeps(d, data);
    LineReads(e, [], rest);
    assert [] + CRLF + rest == CRLF + rest;
    EmitElsewhere(c, d, data);
  }

  lemma DataReads(d: Core, data: Text, rest: Text)
    requires d.state == ChunkData && d.message.remaining == |data| > 0
    ensures FedAll(Parser(d, []), data + rest)
         == FedAll(Parser(EmitData(d, data).(message := d.message.(remaining := 0), state := ChunkCrlf), []), rest)
  {
    hide FedAll, Fed, EmitData;
    BodyOctets(d, data);
    FedConcat(Parser(d, []), data, rest);
    EmitKeeps(d, data);
  }

  lemma EmitElsewhere(c: Core, d: Core, data: Text)
    requires d == c.(message := d.message, state := d.state)
    ensures EmitData(d, data) == EmitData(c, data).(message := d.message, state := d.state)
  {
  }

  /** The message ended. */
  function LastChunkRead(c: Core): Core {
    MessageFinished(c.(message := c.message.(remaining := 0), state := ChunkTrailer))
  }

  lemma LastChunkReads(c: Core)
    requires InChunks(c)
    ensures FedAll(Parser(c, []), LAST_CHUNK) == Parser(LastChunkRead(c), [])
  {
    hide FedAll, Fed, HexText, SizeLine, MessageFinished;
    assert HexText(0) == [48] by { ZeroIs(); }
    assert LAST_CHUNK == HexText(0) + CRLF + CRLF;
    LineReads(c, HexText(0), CRLF);
    SizeLineReads(c, 0);
    var d := c.(message := c.message.(remaining := 0), state := ChunkTrailer);
    assert LineDone(c, HexText(0)) == d;
    LineReads(d, [], []);
    assert [] + CRLF + [] == CRLF;
    FedNothing(Parser(LineDone(d, []), []));
  }

  lemma ZeroIs()
    ensures HexText(0) == [48]
  {
  }

  // ---- A whole body ---------------------------------------------------------

  function BodyRead(c: Core, body: Text): Core {
    LastChunkRead(if body == [] then c else ChunkRead(c, body))
  }

  lemma ChunksJoin(c: Core, a: Text, b: Text)
    requires a != [] && b != []
    ensures ChunkRead(ChunkRead(c, a), b) == ChunkRead(c, a + b)
  {
    hide EmitData;
    DataJoins(c, a, b);
    EmitKeeps(c, a);
    EmitKeeps(c, a + b);
    EmitElsewhere(EmitData(c, a), ChunkRead(c, a), b);
  }

  /** The pieces come out joined, and the message ends once, after all of them. */
  lemma {:induction false} BodyComesBack(c: Core, pieces: seq<Text>)
    requires InChunks(c) && pieces != [] && forall p :: p in pieces ==> |p| <= MAX_UINT64
    ensures FedAll(Parser(c, []), ChunkedBody(pieces)) == Parser(BodyRead(c, Concat(pieces)), [])
    decreases |pieces|
  {
    hide FedAll, Fed, ChunkRead, LastChunkRead;
    var first := pieces[0];
    var d := if first == [] then c else ChunkRead(c, first);
    ReadKeepsInChunks(c, first);
    if |pieces| == 1 {
      FirstChunk(c, first, LAST_CHUNK);
      LastChunkReads(d);
      assert Chunk(first, false) + LAST_CHUNK == Chunk(first, true);
      assert Concat(pieces[1..]) == [] && first + [] == first;
    } else {
      var rest := pieces[1..];
      FirstChunk(c, first, ChunkedBody(rest));
      BodyComesBack(d, rest);
      JoinBodies(c, first, Concat(rest));
    }
  }

  lemma FirstChunk(c: Core, data: Text, rest: Text)
    requires InChunks(c) && |data| <= MAX_UINT64
    ensures FedAll(Parser(c, []), Chunk(data, false) + rest)
         == FedAll(Parser(if data == [] then c else ChunkRead(c, data), []), rest)
  {
    hide FedAll, ChunkRead;
    if data == [] {
      assert Chunk(data, false) + rest == rest;
    } else {
      ChunkReads(c, data, rest);
    }
  }

  lemma ReadKeepsInChunks(c: Core, data: Text)
    requires InChunks(c)
    ensures InChunks(ChunkRead(c, data))
  {
  }

  lemma JoinBodies(c: Core, a: Text, b: Text)
    ensures BodyRead(if a == [] then c else ChunkRead(c, a), b) == BodyRead(c, a + b)
  {
    hide ChunkRead, LastChunkRead;
    if a == [] {
      assert a + b == b;
    } else if b == [] {
      assert a + b == a;
    } else {
      ChunksJoin(c, a, b);
    }
  }

  /** What the application sees of it. */
  lemma BodyEvents(c: Core, body: Text)
    requires InChunks(c)
    ensures var before := if body == [] then c.events else Add(c.events, Data(c.active.value, body));
            var after := BodyRead(c, body).events;
            after == before + [StreamClosed(c.active.value)]
            || after == before + [StreamClosed(c.active.value), Goaway(c.active.value)]
  {
    hide FirstPending, Without;
    var id := c.active.value;
    var d := (if body == [] then c else ChunkRead(c, body)).(message := c.message.(remaining := 0), state := ChunkTrailer);
    assert d.Emit(StreamClosed(id)).events == d.events + [StreamClosed(id)];
  }

  // ---- The sender -----------------------------------------------------------

  /** The exchange in flight takes a body, and takes it in chunks. */
  predicate Sending(c: Core, id: uint32) {
    Accepts(c, id) && !c.streams[id].noBody && c.streams[id].chunked && c.active == Some(id)
  }

  /** Calls of send_data, one for each piece, the last with the end of the stream. */
  function Calls(p: Parser, id: uint32, pieces: seq<Text>): Parser
    requires pieces != []
    decreases |pieces|
  {
    if |pieces| == 1 then DataSent(p, id, pieces[0], true)
    else Calls(DataSent(p, id, pieces[0], false), id, pieces[1..])
  }

  function ChunkPieces(id: uint32, pieces: seq<Text>): seq<Piece>
    requires pieces != []
  {
    if |pieces| == 1 then [Piece(id, Chunk(pieces[0], true))]
    else [Piece(id, Chunk(pieces[0], false))] + ChunkPieces(id, pieces[1..])
  }

  /** What is on the wire for a body is its chunks; then the message is complete. */
  lemma {:induction false} CallsWrite(p: Parser, id: uint32, pieces: seq<Text>)
    requires Sending(p.core, id) && pieces != []
    ensures var c := p.core.(wire := p.core.wire + ChunkPieces(id, pieces));
            Calls(p, id, pieces) ==
              if c.client then p.(core := c.(streams := c.streams[id := c.streams[id].(requestComplete := true)]))
              else ResponseComplete(p.(core := c), id)
    decreases |pieces|
  {
    hide ResponseComplete, Chunk;
    if |pieces| > 1 {
      var q := DataSent(p, id, pieces[0], false);
      assert q == p.(core := p.core.Write(id, Chunk(pieces[0], false)));
      CallsWrite(q, id, pieces[1..]);
      var one, rest := [Piece(id, Chunk(pieces[0], false))], ChunkPieces(id, pieces[1..]);
      assert p.core.wire + one + rest == p.core.wire + (one + rest);
    }
  }

  lemma {:induction false} FlatConcat(a: seq<Piece>, b: seq<Piece>)
    ensures Flat(a + b) == Flat(a) + Flat(b)
  {
    if b == [] {
      assert a + b == a;
    } else {
      var front, last := b[..|b| - 1], b[|b| - 1];
      FlatConcat(a, front);
      assert (a + b)[..|a + b| - 1] == a + front && (a + b)[|a + b| - 1] == last;
      hide Flat;
      assert Flat(a) + Flat(front) + last.bytes == Flat(a) + (Flat(front) + last.bytes);
    }
  }

  lemma {:induction false} ChunkPiecesFlat(id: uint32, pieces: seq<Text>)
    requires pieces != []
    ensures Flat(ChunkPieces(id, pieces)) == ChunkedBody(pieces)
  {
    hide Chunk;
    var one := if |pieces| == 1 then Piece(id, Chunk(pieces[0], true)) else Piece(id, Chunk(pieces[0], false));
    assert [one][..0] == [];
    assert Flat([one]) == one.bytes;
    if |pieces| > 1 {
      ChunkPiecesFlat(id, pieces[1..]);
      FlatConcat([one], ChunkPieces(id, pieces[1..]));
    }
  }

  // ---- Output is only ever added to -----------------------------------------

  predicate Grows(c: Core, d: Core) {
    c.wire <= d.wire
  }

  lemma SameWire(c: Core, d: Core, e: Core)
    requires d.wire == c.wire && Grows(d, e)
    ensures Grows(c, e)
  {
  }

  lemma EndsGrow(c: Core)
    ensures Grows(c, Failed(c, ProtocolError)) && Grows(c, ConnectionDone(c)) && Grows(c, Flushed(c))
  {
    hide Add, FirstPending;
  }

  lemma ExchangeGrows(c: Core, id: uint32)
    ensures Grows(c, RequestRead(c, id)) && Grows(c, Continue(c, id)) && Grows(c, ExchangeComplete(c, id))
  {
    hide Add, Without, Flushed, ConnectionDone, SameIgnoringCase, HeaderValue, Ascii;
    var d := Forgotten(c.Emit(StreamClosed(id)), id);
    EndsGrow(d);
    EndsGrow(d.(state := StartLine));
  }

  lemma FinishedGrows(c: Core)
    ensures Grows(c, MessageFinished(c))
  {
    hide Failed, ExchangeComplete, RequestRead;
    EndsGrow(c);
    ExchangeGrows(c, if c.active.Some? then c.active.value else 0);
  }

  lemma ResponseBodyGrows(c: Core, id: uint32)
    requires id in c.streams
    ensures Grows(c, ResponseBody(c, id))
  {
    hide Failed, ExchangeComplete, HeaderValue, Ascii, Number64, HasNoBody, IsChunked, Grows;
    EndsGrow(c);
    ExchangeGrows(c, id);
    StateGrows(c, ChunkSize);
    StateGrows(c, BodyUntilClose);
    var n := Number64(HeaderValue(c.message.headers, Ascii("content-length")), 10);
    if n.Some? {
      var d := c.(message := c.message.(remaining := n.value));
      ExchangeGrows(d, id);
      SameWire(c, d, ExchangeComplete(d, id));
      StateGrows(d, BodyLength);
      SameWire(c, d, d.(state := BodyLength));
    }
  }

  lemma StateGrows(c: Core, state: ParseState)
    ensures Grows(c, c.(state := state))
  {
  }

  lemma RequestBodyGrows(c: Core, id: uint32)
    ensures Grows(c, RequestBody(c, id))
  {
    hide Failed, RequestRead, Continue, HeaderValue, Ascii, Number64, IsChunked, Grows;
    EndsGrow(c);
    ExchangeGrows(c, id);
    ExchangeGrows(c.(state := ChunkSize), id);
    SameWire(c, c.(state := ChunkSize), Continue(c.(state := ChunkSize), id));
    var n := Number64(HeaderValue(c.message.headers, Ascii("content-length")), 10);
    if n.Some? {
      var d := c.(message := c.message.(remaining := n.value));
      ExchangeGrows(d, id);
      SameWire(c, d, RequestRead(d, id));
      ExchangeGrows(d.(state := BodyLength), id);
      SameWire(c, d.(state := BodyLength), Continue(d.(state := BodyLength), id));
    }
  }

  lemma HeadersGrow(c: Core)
    ensures Grows(c, HeadersComplete(c))
  {
    hide Failed, ResponseBody, RequestBody, Add, Announced, Closes;
    EndsGrow(c);
    if c.active.Some? && c.active.value in c.streams {
      var d := HeadersReported(c, c.active.value, Closes(c.message));
      ResponseBodyGrows(d, c.active.value);
      RequestBodyGrows(d, c.active.value);
    }
  }

  lemma LineGrows(c: Core, line: Text)
    requires TakesLines(c.state)
    ensures Grows(c, LineDone(c, line))
  {
    hide HeadersComplete, MessageFinished, Add, Ascii, Trim, Number64, StatusCode, ToLower, RequestParts;
    HeadersGrow(c);
    FinishedGrows(c);
  }

  lemma BodyGrows(c: Core, data: Text)
    requires TakesBody(c.state) && (c.state != BodyUntilClose ==> |data| <= c.message.remaining)
    ensures Grows(c, BodyTaken(c, data))
  {
    hide Grows, EmitData, MessageFinished;
    var d := EmitData(c, data);
    EmitKeeps(c, data);
    SelfGrows(d);
    SameWire(c, d, d);
    if c.state != BodyUntilClose {
      var e := d.(message := d.message.(remaining := c.message.remaining - |data|));
      FinishedGrows(e);
      SameWire(c, e, MessageFinished(e));
      SelfGrows(e);
      SameWire(c, e, e);
      SelfGrows(e.(state := ChunkCrlf));
      SameWire(c, e.(state := ChunkCrlf), e.(state := ChunkCrlf));
    }
  }

  lemma SelfGrows(c: Core)
    ensures Grows(c, c)
  {
  }

  lemma OctetGrows(p: Parser, b: byte)
    ensures Grows(p.core, Fed(p, b).core)
  {
    hide LineDone, Failed, BodyTaken, Grows;
    var c := p.core;
    SelfGrows(c);
    EndsGrow(c);
    if TakesLines(c.state) {
      LineGrows(c, Stripped(p.pending));
    } else if TakesBody(c.state) && (c.state == BodyUntilClose || c.message.remaining > 0) {
      BodyGrows(c, [b]);
    }
  }

  lemma {:induction false} InputGrows(p: Parser, input: Text)
    ensures Grows(p.core, FedAll(p, input).core)
    decreases |input|
  {
    hide Fed;
    if input != [] {
      OctetGrows(p, input[0]);
      InputGrows(Fed(p, input[0]), input[1..]);
    }
  }

  lemma ResponseGrows(p: Parser, id: uint32)
    ensures Grows(p.core, ResponseComplete(p, id).core)
  {
    hide FedAll, Add, Without;
    InputGrows(Parser(Released(p.core, id).(state := StartLine), []), p.pending);
  }

  /** A longer wire has more octets, after the same ones. */
  lemma {:induction false} FlatGrows(a: seq<Piece>, b: seq<Piece>)
    requires a <= b
    ensures Flat(a) <= Flat(b)
  {
    FlatConcat(a, b[|a|..]);
    assert a + b[|a|..] == b;
  }

  /** The octets that calls for a body add to what an engine has written; on a client, all of them. */
  lemma BodyIsWritten(sender: Parser, id: uint32, pieces: seq<Text>)
    requires Sending(sender.core, id) && pieces != []
    ensures Flat(sender.core.wire) + ChunkedBody(pieces) <= Flat(Calls(sender, id, pieces).core.wire)
    ensures sender.core.client ==>
              Flat(sender.core.wire) + ChunkedBody(pieces) == Flat(Calls(sender, id, pieces).core.wire)
  {
    hide ResponseComplete, Flat, ChunkPieces, ChunkedBody, Calls;
    var c := sender.core.(wire := sender.core.wire + ChunkPieces(id, pieces));
    CallsWrite(sender, id, pieces);
    ResponseGrows(sender.(core := c), id);
    FlatConcat(sender.core.wire, ChunkPieces(id, pieces));
    ChunkPiecesFlat(id, pieces);
    FlatGrows(c.wire, Calls(sender, id, pieces).core.wire);
  }

  /**
   From call to event: what one engine, client or server, writes for a chunked body, given
   to another in the middle of that message, in any reads, is reported whole and ends once.
   */
  lemma ChunkedRoundTrip(sender: Parser, id: uint32, pieces: seq<Text>, receiver: Core, input: seq<Text>)
    requires Sending(sender.core, id) && InChunks(receiver)
    requires pieces != [] && forall p :: p in pieces ==> |p| <= MAX_UINT64
    requires |Concat(input)| == |ChunkedBody(pieces)|
    requires Flat(sender.core.wire) + Concat(input) <= Flat(Calls(sender, id, pieces).core.wire)
    ensures FedReads(Parser(receiver, []), input) == Parser(BodyRead(receiver, Concat(pieces)), [])
  {
    hide FedAll, FedReads, BodyRead, Calls, Flat, ChunkedBody, Concat;
    BodyIsWritten(sender, id, pieces);
    SameBehind(Flat(sender.core.wire), Concat(input), ChunkedBody(pieces), Flat(Calls(sender, id, pieces).core.wire));
    ReadsAreOctets(Parser(receiver, []), input);
    BodyComesBack(receiver, pieces);
  }

  lemma SameBehind(a: Text, b: Text, c: Text, all: Text)
    requires a + b <= all && a + c <= all && |b| == |c|
    ensures b == c
  {
    assert b == all[|a|..|a| + |b|] && c == all[|a|..|a| + |c|];
  }

  lemma SamePrefix(a: Text, b: Text, c: Text)
    requires a + b == a + c
    ensures b == c
  {
    assert b == (a + b)[|a|..];
  }
}