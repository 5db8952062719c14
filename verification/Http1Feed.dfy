/**
 The HTTP/1.1 parser one octet at a time: the reference the buffered parser is proved
 against. Nothing in it depends on how the input was cut into reads.
 */
module Http1Feed {
  import opened Bits
  import opened Wrappers
  import opened Headers
  import opened Http1Text
  import opened Http1Core

  const CAPACITY: nat := 16384

  /** The engine and what it holds: an unfinished line, or input it does not look at yet. */
  datatype Parser = Parser(core: Core, pending: Text)

  /** Without the line's carriage return. */
  function Stripped(line: Text): Text {
    if line != [] && line[|line| - 1] == CR then line[..|line| - 1] else line
  }

  /** Input while no exchange is in flight. */
  predicate Unexpected(c: Core) {
    c.state == StartLine && c.client && c.active.None?
  }

  function Fed(p: Parser, b: byte): Parser {
    var c := p.core;
    if c.state == Finished then p
    else if c.state == AwaitingResponse then Parser(c, p.pending + [b])
    else if TakesBody(c.state) then
      if c.state == BodyUntilClose || c.message.remaining > 0 then Parser(BodyTaken(c, [b]), p.pending) else p
    else if Unexpected(c) then Parser(Failed(c, ProtocolError), [])
    else if b == LF then Parser(LineDone(c, Stripped(p.pending)), [])
    else if |p.pending| + 1 == CAPACITY then Parser(Failed(c, ProtocolError), [])
    else Parser(c, p.pending + [b])
  }

  function FedAll(p: Parser, input: Text): Parser
    decreases |input|
  {
    if input == [] then p else FedAll(Fed(p, input[0]), input[1..])
  }

  lemma {:induction false} FedConcat(p: Parser, a: Text, b: Text)
    ensures FedAll(p, a + b) == FedAll(FedAll(p, a), b)
    decreases |a|
  {
    if a == [] {
      assert a + b == b;
    } else {
      assert (a + b)[0] == a[0] && (a + b)[1..] == a[1..] + b;
      FedConcat(Fed(p, a[0]), a[1..], b);
    }
  }

  lemma FedNothing(p: Parser)
    ensures FedAll(p, []) == p
  {
  }

  /** In any sequence of reads, the octets are what counts. */
  function FedReads(p: Parser, pieces: seq<Text>): Parser
    decreases |pieces|
  {
    if pieces == [] then p else FedReads(FedAll(p, pieces[0]), pieces[1..])
  }

  function Concat(pieces: seq<Text>): Text {
    if pieces == [] then [] else pieces[0] + Concat(pieces[1..])
  }

  lemma {:induction false} ReadsAreOctets(p: Parser, pieces: seq<Text>)
    ensures FedReads(p, pieces) == FedAll(p, Concat(pieces))
    decreases |pieces|
  {
    if pieces != [] {
      FedConcat(p, pieces[0], Concat(pieces[1..]));
      ReadsAreOctets(FedAll(p, pieces[0]), pieces[1..]);
    }
  }

  // ---- Whole stretches of input ---------------------------------------------

  predicate NoLine(t: Text) {
    LF !in t
  }

  lemma {:induction false} FinishedStays(p: Parser, input: Text)
    requires p.core.state == Finished
    ensures FedAll(p, input) == p
  {
    if input != [] {
      FinishedStays(p, input[1..]);
    }
  }

  lemma {:induction false} AwaitingHolds(c: Core, pending: Text, input: Text)
    requires c.state == AwaitingResponse
    ensures FedAll(Parser(c, pending), input) == Parser(c, pending + input)
    decreases |input|
  {
    if input == [] {
      assert pending + [] == pending;
    } else {
      AwaitingHolds(c, pending + [input[0]], input[1..]);
      assert pending + [input[0]] + input[1..] == pending + input;
    }
  }

  lemma UnexpectedFails(c: Core, input: Text)
    requires Unexpected(c) && input != []
    ensures FedAll(Parser(c, []), input) == Parser(Failed(c, ProtocolError), [])
  {
    if Failed(c, ProtocolError).state == Finished {
      FinishedStays(Parser(Failed(c, ProtocolError), []), input[1..]);
    }
  }

  /** A line that is not complete yet; it may only fill the buffer. */
  lemma {:induction false} PartialLine(c: Core, pending: Text, input: Text)
    requires TakesLines(c.state) && !Unexpected(c) && !c.done
    requires NoLine(input) && |pending + input| <= CAPACITY && |pending| < CAPACITY
    ensures FedAll(Parser(c, pending), input)
         == if |pending + input| == CAPACITY then Parser(Failed(c, ProtocolError), []) else Parser(c, pending + input)
    decreases |input|
  {
    hide LineDone;
    if input == [] {
      assert pending + [] == pending;
    } else {
      var more := pending + [input[0]];
      assert more + input[1..] == pending + input;
      if |more| == CAPACITY {
        FinishedStays(Parser(Failed(c, ProtocolError), []), input[1..]);
      } else {
        PartialLine(c, more, input[1..]);
      }
    }
  }

  /** A whole line. */
  lemma WholeLine(c: Core, line: Text, rest: Text)
    requires TakesLines(c.state) && !Unexpected(c) && !c.done
    requires NoLine(line) && |line| < CAPACITY
    ensures FedAll(Parser(c, []), line + [LF] + rest) == FedAll(Parser(LineDone(c, Stripped(line)), []), rest)
  {
    hide LineDone, FedAll, Stripped;
    assert line + [LF] + rest == line + ([LF] + rest);
    FedConcat(Parser(c, []), line, [LF] + rest);
    PartialLine(c, [], line);
    assert [] + line == line;
    FedOne(Parser(c, line), LF, rest);
  }

  lemma FedOne(p: Parser, b: byte, rest: Text)
    ensures FedAll(p, [b] + rest) == FedAll(Fed(p, b), rest)
  {
    assert ([b] + rest)[1..] == rest;
  }

  lemma DataJoins(c: Core, a: Text, b: Text)
    ensures EmitData(EmitData(c, a), b) == EmitData(c, a + b)
  {
    if a == [] {
      assert a + b == b;
    } else if b == [] {
      assert a + b == a;
    } else if c.active.Some? {
      AddJoins(c.events, c.active.value, a, b);
    }
  }

  lemma AddJoins(events: seq<Event>, id: uint32, a: Text, b: Text)
    ensures Add(Add(events, Data(id, a)), Data(id, b)) == Add(events, Data(id, a + b))
  {
    var one := Add(events, Data(id, a));
    var k := |one| - 1;
    assert one[k].Data? && one[k].id == id;
    assert Add(one, Data(id, b)) == one[..k] + [Data(id, one[k].data + b)];
    if k < |events| {
      assert one[k].data + b == events[k].data + (a + b);
    }
  }

  lemma BodyStep(c: Core, data: Text)
    requires TakesBody(c.state) && |data| > 1 && (c.state != BodyUntilClose ==> |data| <= c.message.remaining)
    ensures var d := BodyTaken(c, data[..1]);
            && d.state == c.state && (c.state != BodyUntilClose ==> |data[1..]| <= d.message.remaining)
            && BodyTaken(d, data[1..]) == BodyTaken(c, data)
  {
    hide MessageFinished, EmitData;
    DataJoins(c, data[..1], data[1..]);
    assert data[..1] + data[1..] == data;
    EmitKeeps(c, data[..1]);
    EmitKeeps(c, data);
    EmitFrame(c, c.message.(remaining := if c.state == BodyUntilClose then c.message.remaining else c.message.remaining - 1), data[..1], data[1..]);
  }

  /** Reporting data changes nothing else. */
  lemma EmitKeeps(c: Core, data: Text)
    ensures var d := EmitData(c, data);
            d.state == c.state && d.message == c.message && d.active == c.active && d == c.(events := d.events)
  {
  }

  lemma EmitFrame(c: Core, m: Message, a: Text, b: Text)
    ensures EmitData(EmitData(c, a).(message := m), b) == EmitData(EmitData(c, a), b).(message := m)
  {
  }

  /** Body octets, however many at a time. */
  lemma {:induction false} BodyOctets(c: Core, data: Text)
    requires TakesBody(c.state) && data != [] && (c.state != BodyUntilClose ==> |data| <= c.message.remaining)
    ensures FedAll(Parser(c, []), data) == Parser(BodyTaken(c, data), [])
    decreases |data|
  {
    hide BodyTaken;
    var p := Fed(Parser(c, []), data[0]);
    assert data[..1] == [data[0]];
    assert p == Parser(BodyTaken(c, data[..1]), []);
    if |data| > 1 {
      BodyStep(c, data);
      BodyOctets(p.core, data[1..]);
    } else {
      assert data == data[..1] && data[1..] == [];
    }
  }

  // ---- States between calls -------------------------------------------------

  /** A connection that is not over and has no exchange waits for one; a body is not empty. */
  predicate Coherent(c: Core) {
    && (c.done <==> c.state == Finished)
    && (c.active.None? <== c.done)
    && (c.active.None? && !c.done ==> c.state == StartLine)
    && (c.state == BodyLength || c.state == ChunkData ==> c.message.remaining > 0)
  }

  /** What can be left in the buffer when everything that can be handled has been. */
  ghost predicate Holding(c: Core, buffer: Text) {
    && |buffer| <= CAPACITY
    && (TakesLines(c.state) ==> NoLine(buffer) && |buffer| < CAPACITY && (Unexpected(c) ==> buffer == []))
    && (TakesBody(c.state) ==> buffer == [])
  }

  lemma FlushedCoherent(c: Core)
    requires Coherent(c)
    ensures Coherent(Flushed(c)) && (c.active.Some? ==> Flushed(c) == c)
  {
  }

  lemma ExchangeCoherent(c: Core)
    requires Coherent(c) && c.active.Some?
    ensures Coherent(ExchangeComplete(c, c.active.value))
  {
    hide Flushed, ConnectionDone, Add, Without;
    var d := Forgotten(c.Emit(StreamClosed(c.active.value)), c.active.value);
    DoneCoherent(d);
    if !c.done {
      FlushedCoherent(d.(state := StartLine));
    }
  }

  lemma DoneCoherent(c: Core)
    ensures Coherent(ConnectionDone(c))
  {
  }

  lemma FinishedCoherent(c: Core)
    requires c.active.Some? ==> Coherent(c)
    requires !c.done
    ensures Coherent(MessageFinished(c))
  {
    hide ExchangeComplete, Add;
    if c.active.Some? && c.client {
      ExchangeCoherent(c);
    }
  }

  lemma ResponseCoherent(c: Core, id: uint32)
    requires Coherent(c) && c.active == Some(id) && id in c.streams
    ensures Coherent(ResponseBody(c, id))
  {
    hide ExchangeComplete, HasNoBody, IsChunked, HeaderValue, Ascii;
    ExchangeCoherent(c);
    forall n: nat
      ensures Coherent(ExchangeComplete(c.(message := c.message.(remaining := n)), id)) <== n == 0
    {
      if n == 0 {
        ExchangeCoherent(c.(message := c.message.(remaining := n), state := StartLine));
        ExchangeIgnores(c.(message := c.message.(remaining := n)), id);
      }
    }
  }

  /** Completing an exchange does not depend on the state it was in. */
  lemma ExchangeIgnores(c: Core, id: uint32)
    requires !c.done
    ensures ExchangeComplete(c.(state := StartLine), id) == ExchangeComplete(c, id)
  {
    hide Flushed, Add, Without;
  }

  lemma RequestCoherent(c: Core, id: uint32)
    requires Coherent(c) && c.active == Some(id)
    ensures Coherent(RequestBody(c, id))
  {
    hide Add, IsChunked, HeaderValue, Ascii, SameIgnoringCase;
  }

  lemma HeadersCoherent(c: Core)
    requires Coherent(c) && !c.done
    ensures Coherent(HeadersComplete(c))
  {
    hide ResponseBody, RequestBody, Add, Announced, Closes;
    if c.active.Some? && c.active.value in c.streams {
      var id := c.active.value;
      var d := HeadersReported(c, id, Closes(c.message));
      if c.client {
        ResponseCoherent(d, id);
      } else {
        RequestCoherent(d, id);
      }
    }
  }

  /** Lines and body octets lead from coherent states to coherent states. */
  lemma LineCoherent(c: Core, line: Text)
    requires Coherent(c) && TakesLines(c.state) && !Unexpected(c)
    ensures Coherent(LineDone(c, line))
  {
    hide HeadersComplete, MessageFinished, Add, Ascii, Trim, Number64, StatusCode, RequestParts, ToLower;
    if c.state == HeaderLines {
      HeadersCoherent(c);
    } else if c.state == ChunkTrailer {
      FinishedCoherent(c);
    }
  }

  lemma BodyCoherent(c: Core, data: Text)
    requires Coherent(c) && TakesBody(c.state) && (c.state != BodyUntilClose ==> |data| <= c.message.remaining)
    ensures Coherent(BodyTaken(c, data))
  {
    hide MessageFinished, Add, EmitData;
    EmitKeeps(c, data);
    if c.state == BodyLength && |data| == c.message.remaining {
      var e := EmitData(c, data).(message := c.message.(remaining := 0));
      FinishedAnywhere(e);
    }
  }

  lemma FinishedAnywhere(c: Core)
    requires !c.done && c.active.Some? && c.state == BodyLength
    ensures Coherent(MessageFinished(c))
  {
    hide Add, ExchangeComplete;
    if c.client {
      ExchangeCoherent(c.(state := StartLine));
      ExchangeIgnores(c, c.active.value);
    }
  }

  /** Input held from before counts as if it came with the new input. */
  lemma HeldCounts(c: Core, held: Text, input: Text)
    requires Coherent(c) && Holding(c, held)
    ensures FedAll(Parser(c, []), held + input) == FedAll(Parser(c, if c.state == Finished then [] else held), input)
  {
    hide LineDone, BodyTaken, Failed;
    FedConcat(Parser(c, []), held, input);
    if c.state == Finished {
      FinishedStays(Parser(c, []), held);
    } else if c.state == AwaitingResponse {
      AwaitingHolds(c, [], held);
      assert [] + held == held;
    } else if TakesLines(c.state) && held != [] {
      PartialLine(c, [], held);
      assert [] + held == held;
    }
  }

  // ---- What one turn of the buffered parser amounts to ----------------------

  /** A line with its end, and without. */
  predicate IsLine(whole: Text, line: Text) {
    whole != [] && whole[|whole| - 1] == LF && NoLine(whole[..|whole| - 1]) && line == Stripped(whole[..|whole| - 1])
  }

  lemma CoherentUse(c: Core)
    requires Coherent(c) && c.state != Finished && c.state != AwaitingResponse
    ensures !c.done && (TakesLines(c.state) <==> !TakesBody(c.state))
    ensures TakesBody(c.state) ==> forall n: nat :: n > 0 ==> Share(c, n) > 0
  {
  }

  lemma BodyFeeds(c: Core, rest: Text)
    requires Coherent(c) && TakesBody(c.state) && rest != []
    ensures var take := Share(c, |rest|);
            && Coherent(BodyTaken(c, rest[..take]))
            && FedAll(Parser(c, []), rest) == FedAll(Parser(BodyTaken(c, rest[..take]), []), rest[take..])
  {
    hide FedAll, Fed, BodyTaken;
    var take := Share(c, |rest|);
    BodyCoherent(c, rest[..take]);
    BodyOctets(c, rest[..take]);
    FedConcat(Parser(c, []), rest[..take], rest[take..]);
    assert rest[..take] + rest[take..] == rest;
  }

  lemma LineFeeds(c: Core, rest: Text, n: nat, line: Text)
    requires Coherent(c) && TakesLines(c.state) && !Unexpected(c)
    requires n <= |rest| <= CAPACITY && IsLine(rest[..n], line)
    ensures Coherent(LineDone(c, line))
    ensures FedAll(Parser(c, []), rest) == FedAll(Parser(LineDone(c, line), []), rest[n..])
  {
    hide FedAll, Fed, LineDone, Stripped;
    LineCoherent(c, line);
    var text := rest[..n][..n - 1];
    assert rest == text + [LF] + rest[n..];
    WholeLine(c, text, rest[n..]);
  }

  lemma LineWaits(c: Core, rest: Text)
    requires Coherent(c) && TakesLines(c.state) && !Unexpected(c)
    requires NoLine(rest) && |rest| <= CAPACITY
    ensures var d := if |rest| == CAPACITY then Failed(c, ProtocolError) else c;
            && Coherent(d) && Holding(d, rest)
            && FedAll(Parser(c, []), rest) == Parser(d, if d.state == Finished then [] else rest)
  {
    PartialLine(c, [], rest);
    assert [] + rest == rest;
  }

  lemma FailedHolds(c: Core, buffer: Text)
    requires Coherent(c) && !c.done && |buffer| <= CAPACITY
    ensures var d := Failed(c, ProtocolError); d.state == Finished && Coherent(d) && Holding(d, buffer)
  {
  }

  lemma RestHolds(c: Core, rest: Text)
    requires Coherent(c) && |rest| <= CAPACITY
    requires c.state == Finished || c.state == AwaitingResponse || rest == []
    ensures Holding(c, rest)
    ensures FedAll(Parser(c, []), rest) == Parser(c, if c.state == Finished then [] else rest)
  {
    if c.state == Finished {
      FinishedStays(Parser(c, []), rest);
    } else if c.state == AwaitingResponse {
      AwaitingHolds(c, [], rest);
      assert [] + rest == rest;
    }
  }

  /** Neither coherence nor what may be held depends on the streams, their order, or the output. */
  lemma StreamsDoNotMatter(c: Core, streams: map<uint32, StreamInfo>, buffer: Text)
    requires Coherent(c) && Holding(c, buffer)
    ensures Coherent(c.(streams := streams)) && Holding(c.(streams := streams), buffer)
  {
  }

  lemma FullMeansHeld(c: Core, buffer: Text)
    requires Coherent(c) && Holding(c, buffer) && |buffer| == CAPACITY
    ensures c.state == AwaitingResponse || c.state == Finished
  {
  }
}
