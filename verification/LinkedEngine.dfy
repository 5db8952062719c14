/**
 The engine class as one end of a link: whatever it makes of the octets it receives is a
 run of the link, though the output it has handed over and the events it has been asked
 for are gone from its buffers.
 */
module LinkedEngine {
  import opened Bits
  import opened Wrappers
  import opened Frames
  import opened FlowControl
  import opened FrameParsers
  import opened Http2Core
  import opened Http2Engine
  import opened Reassembly
  import Requests
  import T = TwoEngines

  /** An engine's state with the events fetched and the octets handed over put back. */
  function Behind(s: Core, told: seq<Event>, taken: seq<byte>): Core {
    s.(events := told + s.events, out := taken + s.out)
  }

  lemma EmitBehind(s: Core, es: seq<Event>, told: seq<Event>, taken: seq<byte>)
    ensures Behind(s.Emit(es), told, taken) == Behind(s, told, taken).Emit(es)
  {
    assert told + (s.events + es) == told + s.events + es;
  }

  lemma WriteBehind(s: Core, f: Frame, told: seq<Event>, taken: seq<byte>)
    ensures Behind(s.Write(f), told, taken) == Behind(s, told, taken).Write(f)
  {
    hide FrameBytes;
    assert taken + (s.out + FrameBytes(f)) == taken + s.out + FrameBytes(f);
  }

  lemma AddedBehind(s: Core, s': Core, told: seq<Event>, taken: seq<byte>)
    requires s.events <= s'.events
    ensures Behind(s, told, taken).events <= Behind(s', told, taken).events
    ensures Behind(s', told, taken).events[|Behind(s, told, taken).events|..] == s'.events[|s.events|..]
  {
  }

  lemma UpdatedBehind(s: Core, id: uint32, credit: Option<uint32>, told: seq<Event>, taken: seq<byte>)
    ensures Behind(Updated(s, id, credit), told, taken) == Updated(Behind(s, told, taken), id, credit)
  {
    hide FrameBytes, WindowUpdateFrame;
    if credit.Some? {
      WriteBehind(s, WindowUpdateFrame(id, credit.value), told, taken);
    }
  }

  lemma FlowBehind(s: Core, id: uint32, n: uint32, told: seq<Event>, taken: seq<byte>)
    ensures Behind(AfterFlow(s, id, n), told, taken) == AfterFlow(Behind(s, told, taken), id, n)
  {
    hide AfterReceive, Updated;
    var r := AfterReceive(s.flow, id, n);
    var t := s.(flow := r.flow);
    assert Behind(t, told, taken) == Behind(s, told, taken).(flow := r.flow);
    if r.ok {
      UpdatedBehind(t, 0, r.conn, told, taken);
      UpdatedBehind(Updated(t, 0, r.conn), id, r.stream, told, taken);
    } else {
      EmitBehind(t, [ConnectionError(FlowControlFault)], told, taken);
    }
  }

  lemma DataBehind(s: Core, h: FrameHeader, chunk: seq<byte>, told: seq<Event>, taken: seq<byte>)
    ensures Behind(AfterData(s, h, chunk), told, taken) == AfterData(Behind(s, told, taken), h, chunk)
  {
    hide AfterFlow, AfterEnd;
    EmitBehind(s, [DataReceived(h.streamId, chunk)], told, taken);
    FlowBehind(s.Emit([DataReceived(h.streamId, chunk)]), h.streamId, Length32(chunk), told, taken);
    var t := AfterFlow(s.Emit([DataReceived(h.streamId, chunk)]), h.streamId, Length32(chunk));
    EmitBehind(t.(flow := AfterEnd(t.flow, h.streamId)), [StreamClosed(h.streamId)], told, taken);
  }

  lemma HeaderBehind(s: Core, h: FrameHeader, told: seq<Event>, taken: seq<byte>)
    ensures Behind(AfterHeader(s, h), told, taken) == AfterHeader(Behind(s, told, taken), h)
  {
    hide FrameBytes, SettingsFrame;
    WriteBehind(s, SettingsFrame([], true), told, taken);
    EmitBehind(s, [StreamClosed(h.streamId)], told, taken);
  }

  lemma HeadersBehind(s: Core, server: bool, h: FrameHeader, chunk: seq<byte>, told: seq<Event>, taken: seq<byte>)
    ensures Behind(AfterHeaders(s, server, h, chunk), told, taken) == AfterHeaders(Behind(s, told, taken), server, h, chunk)
  {
    hide EndsHeaders, LowFlag;
    var s' := AfterHeaders(s, server, h, chunk);
    EmitBehind(s.(flow := s'.flow), s'.events[|s.events|..], told, taken);
  }

  lemma GoawayBehind(s: Core, h: FrameHeader, chunk: seq<byte>, told: seq<Event>, taken: seq<byte>)
    requires |chunk| >= h.length
    ensures Behind(AfterGoaway(s, h, chunk), told, taken) == AfterGoaway(Behind(s, told, taken), h, chunk)
  {
    hide FromBe32;
    EmitBehind(s, [ConnectionError(FrameSizeFault)], told, taken);
    if h.length >= 8 {
      var info := GoawayInfo(FromBe32(chunk[..4]), FromBe32(chunk[4..8]));
      EmitBehind(s.(goaway := Some(info)), [GoawayReceived(info)], told, taken);
    }
  }

  lemma ChunkBehind(s: Core, server: bool, h: FrameHeader, chunk: seq<byte>, s': Core, told: seq<Event>, taken: seq<byte>)
    requires Atomic(h.kind) ==> |chunk| >= h.length
    requires AfterChunk(s, server, h, chunk, s')
    ensures AfterChunk(Behind(s, told, taken), server, h, chunk, Behind(s', told, taken))
  {
    hide AfterData, AfterHeaders, AfterGoaway, SizeEvents, UpdateEvents, AfterSizes, AfterUpdate, Increment, Sizes;
    if h.kind == DATA {
      DataBehind(s, h, chunk, told, taken);
    } else if h.kind == HEADERS {
      HeadersBehind(s, server, h, chunk, told, taken);
    } else if h.kind == RST_STREAM {
      EmitBehind(s, [StreamReset(h.streamId)], told, taken);
    } else if h.kind == SETTINGS {
      AddedBehind(s, s', told, taken);
    } else if h.kind == GOAWAY {
      GoawayBehind(s, h, chunk, told, taken);
    } else if h.kind == WINDOW_UPDATE && |chunk| >= 4 {
      EmitBehind(s, [ConnectionError(ProtocolFault)], told, taken);
      if Increment(chunk) != 0 {
        AddedBehind(s, s', told, taken);
      }
    }
  }

  /** What has left the buffers makes no difference to a call-back. */
  lemma CallbackBehind(s: Core, server: bool, cb: Callback, s': Core, told: seq<Event>, taken: seq<byte>)
    requires AfterCallback(s, server, cb, s')
    ensures AfterCallback(Behind(s, told, taken), server, cb, Behind(s', told, taken))
  {
    hide AfterChunk, AfterHeader, Behind;
    match cb
    case OnHeader(h) => HeaderBehind(s, h, told, taken);
    case OnChunk(h, chunk, n) =>
      if n > 0 {
        ChunkBehind(s, server, h, chunk, s', told, taken);
      }
  }

  lemma {:induction false} ReachesBehind(
    s: Core, server: bool, log: seq<Callback>, s': Core, told: seq<Event>, taken: seq<byte>)
    requires Reaches(s, server, log, s')
    ensures Reaches(Behind(s, told, taken), server, log, Behind(s', told, taken))
  {
    hide AfterCallback, Behind;
    if log != [] {
      var m :| Reaches(s, server, log[..|log| - 1], m) && AfterLast(m, server, log, s');
      ReachesBehind(s, server, log[..|log| - 1], m, told, taken);
      CallbackBehind(m, server, log[|log| - 1], s', told, taken);
      assert AfterLast(Behind(m, told, taken), server, log, Behind(s', told, taken));
    }
  }

  // ---- Input as moves -------------------------------------------------------

  lemma AccountedGrows(p: Progress, cb: Callback)
    requires Legal(p, cb)
    ensures Accounted(p, []) <= Accounted(After(p, cb), [])
  {
    hide HeaderBytes, FrameBytes, FramesBytes;
    match cb
    case OnHeader(h) => AccountedHeader(p, h, HeaderBytes(h));
    case OnChunk(_, _, _) => AccountedChunk(p, cb);
  }

  /** What the parser has made of octets of the other end's is a run of the link. */
  lemma {:induction false} InputIsMoves(l: T.Link, more: seq<Callback>, after: Core) returns (moves: seq<T.Move>)
    requires LegalLog(l.x.log + more) && AllFit(more) && Reaches(l.x.core, l.x.server, more, after)
    requires Accounted(Replay(l.x.log + more), []) <= FramesBytes(l.y.sent)
    ensures T.IsRun(l, moves)
    ensures var m := T.Run(l, moves);
            m.x.core == after && m.x.log == l.x.log + more && m.x.server == l.x.server && m.y == l.y
    decreases |more|
  {
    hide AfterCallback, Accounted, FramesBytes, Legal, FrameParsers.After, T.Replies;
    if more == [] {
      moves := [];
      assert l.x.log + [] == l.x.log;
    } else {
      var front, cb := more[..|more| - 1], more[|more| - 1];
      var log := l.x.log + front;
      assert more == front + [cb] && l.x.log + more == log + [cb] && (log + [cb])[..|log|] == log;
      AccountedGrows(Replay(log), cb);
      var core :| Reaches(l.x.core, l.x.server, front, core) && AfterLast(core, l.x.server, more, after);
      assert cb in more && forall c :: c in front ==> c in more;
      var before := InputIsMoves(l, front, core);
      var move := T.Move(true, T.Hear(cb, after));
      moves := before + [move];
      assert moves[..|moves| - 1] == before && moves[|moves| - 1] == move;
      assert T.Can(T.Run(l, before), T.Hear(cb, after));
    }
  }

  // ---- Sends as moves -------------------------------------------------------

  lemma {:induction false} MovesConcat(l: T.Link, first: seq<T.Move>, rest: seq<T.Move>)
    requires T.IsRun(l, first) && T.IsRun(T.Run(l, first), rest)
    ensures T.IsRun(l, first + rest) && T.Run(l, first + rest) == T.Run(T.Run(l, first), rest)
    decreases |rest|
  {
    hide T.Can, T.After;
    if rest == [] {
      assert first + rest == first;
    } else {
      var front := rest[..|rest| - 1];
      MovesConcat(l, first, front);
      assert (first + rest)[..|first + rest| - 1] == first + front;
    }
  }

  lemma OneMove(l: T.Link, act: T.Act)
    requires T.Can(l, act)
    ensures T.IsRun(l, [T.Move(true, act)]) && T.Run(l, [T.Move(true, act)]) == T.Do(l, act)
  {
    hide T.Can, T.Do;
    var moves := [T.Move(true, act)];
    assert moves[..0] == [] && T.IsRun(l, moves[..0]) && T.Run(l, moves[..0]) == l;
  }

  /** An end that has sent `k` octets on a stream, in these frames. */
  function HasSent(x: T.Side, id: uint32, k: nat, frames: seq<Frame>): T.Side {
    x.(core := x.core.(flow := AfterSend(x.core.flow, id, k), out := x.core.out + FramesBytes(frames)),
       sent := x.sent + frames)
  }

  lemma OneSend(l: T.Link, id: uint32, payload: seq<byte>, endStream: bool)
    ensures T.Do(l, T.Send(id, payload, endStream)).x == HasSent(l.x, id, |payload|, [DataFrame(id, payload, endStream)])
    ensures T.Do(l, T.Send(id, payload, endStream)).y == l.y
  {
    hide DataFrame, AfterSend;
    FramesBytesOne(DataFrame(id, payload, endStream));
  }

  lemma SentInParts(x: T.Side, id: uint32, j: nat, k: nat, first: seq<Frame>, rest: seq<Frame>)
    ensures HasSent(HasSent(x, id, j, first), id, k, rest) == HasSent(x, id, j + k, first + rest)
  {
    hide FramesBytes, AfterSend;
    Requests.SendInParts(x.core.flow, id, j, k);
    FramesBytesConcat(first, rest);
    assert x.core.out + FramesBytes(first) + FramesBytes(rest) == x.core.out + (FramesBytes(first) + FramesBytes(rest));
    assert x.sent + first + rest == x.sent + (first + rest);
  }

  lemma NothingSent(x: T.Side, id: uint32)
    ensures HasSent(x, id, 0, []) == x
  {
    assert x.core.out + [] == x.core.out && x.sent + [] == x.sent;
  }

  lemma SendableInParts(f: Flow, id: uint32, j: nat, k: nat)
    requires 0 < j && j + k <= Sendable(f, id, j + k)
    ensures j <= Sendable(f, id, j) && k <= Sendable(AfterSend(f, id, j), id, k)
  {
  }

  lemma {:induction false} FramesAreMoves(l: T.Link, id: uint32, data: seq<byte>, from: nat, upto: nat, endStream: bool)
    returns (moves: seq<T.Move>)
    requires 0 < id < 0x8000_0000 && from <= upto <= |data|
    requires upto - from <= Sendable(l.x.core.flow, id, upto - from)
    ensures T.IsRun(l, moves)
    ensures T.Run(l, moves) == l.(x := HasSent(l.x, id, upto - from, DataFrames(id, data, from, upto, endStream)))
    decreases upto - from
  {
    hide T.IsRun, T.Run, T.Do, DataFrames, DataFrame, HasSent, AfterSend, Sendable;
    if from == upto {
      moves := [];
      NoDataFrames(id, data, from, endStream);
      NothingSent(l.x, id);
      NoMoves(l);
    } else {
      var to := Min(upto, from + MAX_FRAME);
      var payload, last := data[from..to], endStream && to == |data|;
      DataFramesStep(id, data, from, upto, endStream);
      SendableInParts(l.x.core.flow, id, to - from, upto - to);
      OneMove(l, T.Send(id, payload, last));
      OneSend(l, id, payload, last);
      var m := T.Do(l, T.Send(id, payload, last));
      SentFlow(l.x, id, |payload|, [DataFrame(id, payload, last)]);
      var rest := FramesAreMoves(m, id, data, to, upto, endStream);
      SentInParts(l.x, id, to - from, upto - to, [DataFrame(id, payload, last)], DataFrames(id, data, to, upto, endStream));
      moves := [T.Move(true, T.Send(id, payload, last))] + rest;
      MovesConcat(l, [T.Move(true, T.Send(id, payload, last))], rest);
    }
  }

  lemma SentFlow(x: T.Side, id: uint32, k: nat, frames: seq<Frame>)
    ensures HasSent(x, id, k, frames).core.flow == AfterSend(x.core.flow, id, k)
  {
  }

  lemma NoMoves(l: T.Link)
    ensures T.IsRun(l, []) && T.Run(l, []) == l
  {
  }

  /** A call of send_data is a run of the link, one move for each frame. */
  lemma SendIsMoves(l: T.Link, id: uint32, data: seq<byte>, endStream: bool) returns (moves: seq<T.Move>)
    requires 0 < id < 0x8000_0000
    ensures T.IsRun(l, moves)
    ensures var sent := Sendable(l.x.core.flow, id, |data|);
            T.Run(l, moves) == l.(x := HasSent(l.x, id, sent, SendFrames(id, data, sent, endStream)))
  {
    hide T.IsRun, T.Run, T.Do, DataFrames, DataFrame, HasSent, AfterSend;
    if data != [] {
      moves := FramesAreMoves(l, id, data, 0, Sendable(l.x.core.flow, id, |data|), endStream);
    } else if endStream {
      moves := [T.Move(true, T.Send(id, [], true))];
      OneMove(l, T.Send(id, [], true));
      OneSend(l, id, [], true);
    } else {
      moves := [];
      NothingSent(l.x, id);
      NoMoves(l);
    }
  }

  // ---- The class ------------------------------------------------------------

  /** The engine is this end of the link, with these events and octets gone from it. */
  ghost predicate Stands(e: Engine, x: T.Side, told: seq<Event>, taken: seq<byte>)
    reads e, e.pendingOut, e.parser
  {
    x.server == e.isServer && x.log == e.parser.log && x.core == Behind(e.View(), told, taken)
  }

  /** Octets of the other end's, put into the engine's buffer and announced: a run of the link. */
  method Hear(e: Engine, n: nat, ghost l: T.Link, ghost told: seq<Event>, ghost taken: seq<byte>)
    returns (ghost moves: seq<T.Move>)
    requires e.Valid() && e.phase != AwaitingPreface && e.inputBuffered + n <= CAPACITY
    requires Stands(e, l.x, told, taken)
    requires e.parser.Input() + e.inputBuffer[..e.inputBuffered + n] <= FramesBytes(l.y.sent)
    modifies e, e.pendingOut, e.inputBuffer, e.parser, e.parser.headerBuffer
    ensures e.Valid() && e.phase == old(e.phase)
    ensures e.parser.Input() + e.inputBuffer[..e.inputBuffered]
         == old(e.parser.Input() + e.inputBuffer[..e.inputBuffered + n])
    ensures T.IsRun(l, moves) && T.Run(l, moves).y == l.y && Stands(e, T.Run(l, moves).x, told, taken)
  {
    hide T.IsRun, T.Run, Behind, LegalLog, Replay, Accounted, Reaches, FramesBytes;
    ghost var s, log := e.View(), e.parser.log;
    ghost var octets := e.parser.Input() + e.inputBuffer[..e.inputBuffered + n];
    ghost var head := if e.isServer then PREFACE else [];
    assert e.Received() + e.inputBuffer[e.inputBuffered..e.inputBuffered + n] == head + octets;
    e.InputEnd(n);
    ghost var more := e.parser.log[|log|..];
    assert e.parser.log == log + more;
    SameTail(head, e.parser.Input() + e.inputBuffer[..e.inputBuffered], octets);
    CompleteIsFirst(Replay(e.parser.log), e.parser.headerBuffer[..e.parser.headerPos]);
    ReachesBehind(s, e.isServer, more, e.View(), told, taken);
    moves := InputIsMoves(l, more, Behind(e.View(), told, taken));
  }

  lemma SameTail(head: seq<byte>, a: seq<byte>, b: seq<byte>)
    requires head + a == head + b
    ensures a == b
  {
    assert a == (head + a)[|head|..];
  }

  lemma CompleteIsFirst(p: Progress, seen: seq<byte>)
    ensures Accounted(p, []) <= Accounted(p, seen)
  {
  }

  /** So is a call of send_data. */
  method Send(e: Engine, id: uint32, data: seq<byte>, endStream: bool, ghost l: T.Link, ghost told: seq<Event>,
              ghost taken: seq<byte>)
    returns (sent: nat, ghost moves: seq<T.Move>)
    requires Stands(e, l.x, told, taken) && 0 < id < 0x8000_0000
    modifies e`connSend, e`streams, e.pendingOut
    ensures sent == Sendable(old(e.Windows()), id, |data|)
    ensures T.IsRun(l, moves) && T.Run(l, moves).y == l.y && Stands(e, T.Run(l, moves).x, told, taken)
  {
    hide T.IsRun, T.Run, SendFrames, FramesBytes, AfterSend, Sendable;
    sent := e.SendData(id, data, endStream);
    moves := SendIsMoves(l, id, data, endStream);
    assert e.View().out == old(e.View().out) + FramesBytes(SendFrames(id, data, sent, endStream));
  }
}
