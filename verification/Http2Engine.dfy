/** The HTTP/2 engine: octets in, windows, events and octets out. */
module Http2Engine {
  import opened Bits
  import opened Wrappers
  import opened Frames
  import opened FlowControl
  import opened FrameParsers
  import opened Http2Core
  import opened Reassembly
  import FlowFaults

  datatype Phase = Idle | AwaitingPreface | PrefaceSent | Ready

  /** "PRI * HTTP/2.0", blank line, "SM", blank line (section 3.5 of RFC 7540). */
  const PREFACE: seq<byte> := [
    0x50, 0x52, 0x49, 0x20, 0x2a, 0x20, 0x48, 0x54, 0x54, 0x50, 0x2f, 0x32, 0x2e, 0x30,
    0x0d, 0x0a, 0x0d, 0x0a, 0x53, 0x4d, 0x0d, 0x0a, 0x0d, 0x0a]

  const PREFACE_LENGTH: nat := 24

  const CAPACITY: nat := 16384

  /** The streams while a new initial size is being applied: those in `rest` are still to come. */
  function Shifted(f: Flow, size: uint32, rest: set<uint32>): map<uint32, StreamFlow> {
    map id | id in f.streams ::
      if id in rest then f.streams[id] else f.streams[id].(send := f.streams[id].send + size - f.peerInitial)
  }

  lemma ShiftedStep(f: Flow, size: uint32, rest: set<uint32>, id: uint32)
    requires id in rest && id in f.streams
    ensures id in Shifted(f, size, rest) && Shifted(f, size, rest)[id] == f.streams[id]
    ensures Shifted(f, size, rest)[id := f.streams[id].(send := f.streams[id].send + size - f.peerInitial)]
         == Shifted(f, size, rest - {id})
  {
  }

  lemma ShiftedEnds(f: Flow, size: uint32)
    ensures Shifted(f, size, f.streams.Keys) == f.streams
    ensures Shifted(f, size, {}) == AfterSettings(f, size).streams
    ensures Risen(f, size) - f.streams.Keys == {}
  {
  }

  /** What a server waiting for the preface does with the input it has. */
  ghost predicate Awaited(input: seq<byte>, s: Core, settings: seq<Setting>, s': Core, phase: Phase, log: seq<Callback>) {
    if PREFACE <= input then
      phase == Ready && Reaches(WriteAll(s, OpeningFrames(settings, s.flow.initial)), true, log, s')
    else
      && phase == AwaitingPreface && log == []
      && s' == s.Emit(if |input| < PREFACE_LENGTH then [] else [ConnectionError(ProtocolFault)])
  }

  /** Waiting for the preface, or answering it, raises no flow-control error either. */
  lemma AwaitedSound(input: seq<byte>, s: Core, settings: seq<Setting>, s': Core, phase: Phase, log: seq<Callback>)
    requires Awaited(input, s, settings, s', phase, log) && FlowFaults.Sound(s) && AllFit(log)
    ensures FlowFaults.Sound(s')
  {
    hide Reaches, OpeningFrames, Balanced;
    if PREFACE <= input {
      FlowFaults.InputSound(WriteAll(s, OpeningFrames(settings, s.flow.initial)), true, log, s');
    }
  }

  class Engine {
    const isServer: bool
    var phase: Phase
    var nextStreamId: uint32

    var connSend: int
    var connRecv: int
    var connConsumed: uint32
    var peerInitial: uint32
    var initial: uint32
    var streams: map<uint32, StreamFlow>
    var localSettings: seq<Setting>

    var goaway: Option<GoawayInfo>
    var events: seq<Event>

    const inputBuffer: array<byte>
    var inputBuffered: nat
    const pendingOut: OutputBuffer
    const parser: FrameParser

    ghost function Windows(): Flow
      reads this
    {
      Flow(connSend, connRecv, connConsumed, peerInitial, initial, streams)
    }

    ghost function View(): Core
      reads this, pendingOut
    {
      Core(Windows(), events, pendingOut.data, goaway)
    }

    /** Whatever stays in the buffer is the beginning of a payload that is only taken whole. */
    ghost predicate Stalled()
      reads this, parser
    {
      && parser.readingPayload && Atomic(parser.currentHeader.kind) && parser.payloadBytesRead == 0
      && inputBuffered < parser.currentHeader.length
    }

    ghost predicate Parsing()
      reads this, inputBuffer, parser, parser.headerBuffer
    {
      && inputBuffer != parser.headerBuffer
      && inputBuffer.Length == CAPACITY && inputBuffered <= CAPACITY
      && parser.Valid() && AllAnswered(parser.log) && AllFit(parser.log)
    }

    /** Before the client's preface has come, nothing is parsed. */
    ghost predicate Awaiting()
      requires Parsing()
      reads this, inputBuffer, parser, parser.headerBuffer
    {
      isServer && parser.log == [] && parser.Input() == [] && !(PREFACE <= inputBuffer[..inputBuffered])
    }

    ghost predicate Valid()
      reads this, inputBuffer, parser, parser.headerBuffer
    {
      && Parsing()
      && if phase == AwaitingPreface then Awaiting() else inputBuffered > 0 ==> Stalled()
    }

    /** All the octets received so far. */
    ghost function Received(): seq<byte>
      requires Parsing()
      reads this, inputBuffer, parser, parser.headerBuffer
    {
      (if isServer && phase != AwaitingPreface then PREFACE else []) + (parser.Input() + inputBuffer[..inputBuffered])
    }

    constructor (server: bool)
      ensures Valid() && Received() == []
      ensures isServer == server && Windows() == FreshFlow(DEFAULT_WINDOW)
      ensures events == [] && pendingOut.data == [] && localSettings == [] && goaway == None
      ensures phase == if server then AwaitingPreface else Idle
      ensures nextStreamId == if server then 2 else 1
      ensures fresh(inputBuffer) && fresh(pendingOut) && fresh(parser) && fresh(parser.headerBuffer)
    {
      isServer := server;
      phase := if server then AwaitingPreface else Idle;
      nextStreamId := if server then 2 else 1;
      connSend, connRecv, connConsumed := DEFAULT_WINDOW, DEFAULT_WINDOW, 0;
      peerInitial, initial, streams, localSettings := DEFAULT_WINDOW, DEFAULT_WINDOW, map[], [];
      goaway, events, inputBuffered := None, [], 0;
      inputBuffer := new byte[CAPACITY];
      pendingOut := new OutputBuffer();
      parser := new FrameParser();
    }

    // ---- Sending ------------------------------------------------------------

    method WritePreface()
      modifies pendingOut
      ensures pendingOut.data == old(pendingOut.data) + PREFACE
    {
      pendingOut.data := pendingOut.data + PREFACE;
    }

    method WriteSettings()
      modifies pendingOut
      ensures View() == WriteAll(old(View()), OpeningFrames(localSettings, initial))
    {
      hide FrameBytes;
      ghost var out := pendingOut.data;
      pendingOut.EncodeSettingsFrame(localSettings, false);
      ghost var a := SettingsFrame(localSettings, false);
      FramesBytesOne(a);
      if initial > DEFAULT_WINDOW {
        pendingOut.EncodeWindowUpdateFrame(0, initial - DEFAULT_WINDOW);
        ghost var b := WindowUpdateFrame(0, initial - DEFAULT_WINDOW);
        FramesBytesOne(b);
        FramesBytesConcat([a], [b]);
        assert out + FrameBytes(a) + FrameBytes(b) == out + (FrameBytes(a) + FrameBytes(b));
      } else {
        assert [a] + [] == [a];
      }
    }

    /** SETTINGS only speaks for streams; the connection's extra grant goes out with them. */
    method SetInitialWindowSize(size: uint32)
      modifies this`initial, this`localSettings, this`connRecv
      ensures initial == size && localSettings == old(localSettings) + [Setting(INITIAL_WINDOW_SIZE, size)]
      ensures connRecv == old(connRecv) + if size > DEFAULT_WINDOW then size - DEFAULT_WINDOW else 0
      ensures old(Windows()) == FreshFlow(DEFAULT_WINDOW) ==> Windows() == FreshFlow(size)
    {
      initial := size;
      localSettings := localSettings + [Setting(INITIAL_WINDOW_SIZE, size)];
      if size > DEFAULT_WINDOW {
        connRecv := connRecv + (size - DEFAULT_WINDOW);
      }
    }

    method GetOrInit(id: uint32) returns (s: StreamFlow)
      modifies this`streams
      ensures Windows() == old(Windows()).Touched(id) && s == streams[id]
    {
      if id !in streams {
        streams := streams[id := StreamFlow(0, peerInitial, initial, false)];
      }
      s := streams[id];
      assert streams == streams[id := s];
    }

    method OpenStream() returns (id: uint32)
      modifies this`phase, this`nextStreamId, this`streams, pendingOut
      ensures id == old(nextStreamId) && nextStreamId == (id + 2) % 0x1_0000_0000
      ensures Windows() == AfterOpen(old(Windows()), id)
      ensures var opening := !isServer && old(phase) == Idle;
              && phase == (if opening then PrefaceSent else old(phase))
              && pendingOut.data == old(pendingOut.data) +
                   if opening then PREFACE + FramesBytes(OpeningFrames(localSettings, initial)) else []
    {
      hide FramesBytes, OpeningFrames;
      id := nextStreamId;
      ghost var f := Windows();
      if !isServer && phase == Idle {
        ghost var out := pendingOut.data;
        WritePreface();
        WriteSettings();
        phase := PrefaceSent;
        assert out + PREFACE + FramesBytes(OpeningFrames(localSettings, initial))
            == out + (PREFACE + FramesBytes(OpeningFrames(localSettings, initial)));
      }
      var s := GetOrInit(id);
      streams := streams[id := s.(known := true, send := peerInitial)];
      assert streams == AfterOpen(f, id).streams;
      nextStreamId := (nextStreamId + 2) % 0x1_0000_0000;
    }

    function StreamSendWindow(id: uint32): (w: int)
      reads this
      ensures w == Windows().Entry(id).send
    {
      if id in streams then streams[id].send else peerInitial
    }

    /** Send as much as the windows allow, in frames of at most 16384 octets. */
    method SendData(id: uint32, data: seq<byte>, endStream: bool) returns (sent: nat)
      modifies this`connSend, this`streams, pendingOut
      ensures sent == Sendable(old(Windows()), id, |data|)
      ensures Windows() == AfterSend(old(Windows()), id, sent)
      ensures pendingOut.data == old(pendingOut.data) + FramesBytes(SendFrames(id, data, sent, endStream))
    {
      hide FrameBytes;
      if data == [] {
        if endStream {
          pendingOut.EncodeDataFrame(id, [], true);
          FramesBytesOne(DataFrame(id, [], true));
        }
        return 0;
      }
      var available := Min(connSend, StreamSendWindow(id));
      if available <= 0 {
        return 0;
      }
      var total := Min(|data|, available);
      var offset := WriteChunks(id, data, total, endStream);
      connSend := connSend - total;
      var s := GetOrInit(id);
      streams := streams[id := s.(send := s.send - total)];
      return total;
    }

    method WriteChunks(id: uint32, data: seq<byte>, total: nat, endStream: bool) returns (offset: nat)
      requires 0 < total <= |data|
      modifies pendingOut
      ensures pendingOut.data == old(pendingOut.data) + FramesBytes(DataFrames(id, data, 0, total, endStream))
    {
      hide FrameBytes, DataFrame;
      offset := 0;
      ghost var all := old(pendingOut.data) + FramesBytes(DataFrames(id, data, 0, total, endStream));
      while offset < total
        invariant offset <= total
        invariant pendingOut.data + FramesBytes(DataFrames(id, data, offset, total, endStream)) == all
      {
        ghost var here, frames := pendingOut.data, DataFrames(id, data, offset, total, endStream);
        var size := Min(total - offset, MAX_FRAME);
        offset := offset + size;
        var last := offset == |data| && endStream;
        pendingOut.EncodeDataFrame(id, data[offset - size..offset], last);
        assert frames[1..] == DataFrames(id, data, offset, total, endStream);
        assert here + (FrameBytes(frames[0]) + FramesBytes(frames[1..])) == here + FrameBytes(frames[0]) + FramesBytes(frames[1..]);
      }
      assert pendingOut.data + [] == pendingOut.data;
    }

    /** Header blocks are not split; the stream's flow state is not touched. */
    method SendHeadersFrame(id: uint32, block: seq<byte>, endStream: bool)
      modifies pendingOut
      ensures View() == old(View()).Write(HeadersFrame(id, block, true, endStream))
    {
      pendingOut.EncodeHeadersFrame(id, block, true, endStream);
    }

    method SendGoaway(lastId: uint32, code: uint32, debug: seq<byte>)
      modifies pendingOut
      ensures View() == old(View()).Write(GoawayFrame(lastId, code, debug))
    {
      pendingOut.EncodeGoawayFrame(lastId, code, debug);
    }

    /** The caller has written `n` octets of the output. */
    method OutputEnd(n: nat)
      modifies pendingOut
      ensures pendingOut.data == old(pendingOut.data)[Min(n, |old(pendingOut.data)|)..]
    {
      pendingOut.data := pendingOut.data[Min(n, |pendingOut.data|)..];
    }

    /** The oldest event, if there is one. */
    method NextEvent() returns (e: Option<Event>)
      modifies this`events
      ensures old(events) == [] ==> e == None && events == []
      ensures old(events) != [] ==> e == Some(old(events)[0]) && events == old(events)[1..]
    {
      if events == [] {
        return None;
      }
      e := Some(events[0]);
      events := events[1..];
    }

    // ---- Notifications ------------------------------------------------------

    method NotifyStreamWindowAvailable(id: uint32)
      modifies this`events
      ensures events == old(events) + if connSend > 0 then [StreamWindow(id)] else []
    {
      if connSend > 0 {
        events := events + [StreamWindow(id)];
      }
    }

    method NotifyConnectionWindowAvailable()
      modifies this`events
      ensures old(events) + [ConnectionWindow] <= events
      ensures Wakes(events[|old(events)| + 1..], OpenStreams(Windows()))
    {
      events := events + [ConnectionWindow];
      ghost var head := events;
      ghost var woken: set<uint32> := {};
      var rest := streams.Keys;
      assert events[|head|..] == [];
      while rest != {}
        invariant rest <= streams.Keys && head <= events
        invariant woken == (set id | id in streams && id !in rest && streams[id].send > 0)
        invariant Wakes(events[|head|..], woken)
      {
        var id :| id in rest;
        rest := rest - {id};
        if streams[id].send > 0 {
          WakesMore(events[|head|..], woken, id);
          events := events + [StreamWindow(id)];
          woken := woken + {id};
          assert events[|head|..] == events[|head|..|events| - 1] + [StreamWindow(id)];
        }
      }
      assert woken == OpenStreams(Windows());
    }

    // ---- Receiving ----------------------------------------------------------

    method HandleFrameHeader(h: FrameHeader)
      modifies this`events, pendingOut
      ensures View() == AfterHeader(old(View()), h)
    {
      if h.kind == SETTINGS {
        if h.flags % 2 == 0 {
          pendingOut.EncodeSettingsFrame([], true);
        }
      } else if h.flags % 2 != 0 && h.length == 0 && (h.kind == DATA || h.kind == HEADERS) {
        events := events + [StreamClosed(h.streamId)];
      }
    }

    /** Consumption on the connection, credited back once it reaches the threshold. */
    method CreditConnection(received: uint32, threshold: uint32)
      modifies this`connRecv, this`connConsumed, pendingOut
      ensures var w := Window(old(connRecv) + received, old(connConsumed));
              && Window(connRecv, connConsumed) == Consume(w, received, threshold)
              && View().out == Updated(old(View()), 0, Due(w, received, threshold)).out
    {
      hide FrameBytes, WindowUpdateFrame;
      connConsumed := Add32(connConsumed, received);
      if connConsumed >= threshold {
        pendingOut.EncodeWindowUpdateFrame(0, connConsumed);
        connRecv := connRecv + connConsumed;
        connConsumed := 0;
      }
    }

    method CreditStream(id: uint32, received: uint32, threshold: uint32)
      requires id in streams
      modifies this`streams, pendingOut
      ensures var s := old(streams[id]);
              var w := Window(s.recv + received, s.consumed);
              var w' := Consume(w, received, threshold);
              && streams == old(streams)[id := s.(recv := w'.recv, consumed := w'.consumed)]
              && View().out == Updated(old(View()), id, Due(w, received, threshold)).out
    {
      hide FrameBytes, WindowUpdateFrame;
      var s := streams[id];
      s := s.(consumed := Add32(s.consumed, received));
      if s.consumed >= threshold {
        pendingOut.EncodeWindowUpdateFrame(id, s.consumed);
        s := s.(recv := s.recv + s.consumed, consumed := 0);
      }
      streams := streams[id := s];
    }

    method UpdateFlowControl(id: uint32, received: uint32)
      modifies this`connRecv, this`connConsumed, this`streams, this`events, pendingOut
      ensures View() == AfterFlow(old(View()), id, received)
    {
      hide FrameBytes, WindowUpdateFrame, Due, Consume;
      ghost var f := Windows();
      connRecv := connRecv - received;
      var s := GetOrInit(id);
      streams := streams[id := s.(recv := s.recv - received)];
      assert streams == f.With(id, s.(recv := s.recv - received)).streams;
      if connRecv < 0 || s.recv - received < 0 {
        events := events + [ConnectionError(FlowControlFault)];
        return;
      }
      CreditConnection(received, initial / 2);
      CreditStream(id, received, initial / 2);
      assert streams == f.With(id, streams[id]).streams;
    }

    method HandleWindowUpdate(id: uint32, payload: seq<byte>)
      modifies this`connSend, this`streams, this`events
      ensures AfterWindowUpdate(old(View()), id, payload, View())
    {
      if |payload| < 4 {
        return;
      }
      var increment := FromBe32(payload[..4]) % 0x8000_0000;
      if increment == 0 {
        events := events + [ConnectionError(ProtocolFault)];
        return;
      }
      hide FromBe32, Wakes;
      if id == 0 {
        var before := connSend;
        connSend := connSend + increment;
        if before <= 0 && connSend > 0 {
          NotifyConnectionWindowAvailable();
          assert events[|old(events)|..][1..] == events[|old(events)| + 1..];
        }
      } else {
        var s := GetOrInit(id);
        var before := s.send;
        streams := streams[id := s.(send := s.send + increment)];
        if before <= 0 && before + increment > 0 {
          NotifyStreamWindowAvailable(id);
        }
      }
    }

    method ApplyPeerInitialWindowSize(size: uint32)
      modifies this`peerInitial, this`streams, this`events
      ensures Windows() == AfterSettings(old(Windows()), size)
      ensures old(events) <= events && Wakes(events[|old(events)|..], Risen(old(Windows()), size))
    {
      var rest := streams.Keys;
      ghost var f, e, woken: set<uint32> := Windows(), events, {};
      hide Wakes, Shifted, Risen;
      assert events[|e|..] == [];
      NoWakes();
      ShiftedEnds(f, size);
      while rest != {}
        invariant Windows() == f.(streams := Shifted(f, size, rest))
        invariant rest <= f.streams.Keys && e <= events
        invariant woken == Risen(f, size) - rest
        invariant Wakes(events[|e|..], woken)
      {
        var id :| id in rest;
        ShiftedStep(f, size, rest, id);
        woken := ApplyTo(id, size, f, woken, e);
        rest := rest - {id};
      }
      assert woken == Risen(f, size) by { hide *; }
      peerInitial := size;
    }

    /** Shift one stream's window by the change of the initial size. */
    method ApplyTo(id: uint32, size: uint32, ghost f: Flow, ghost woken: set<uint32>, ghost e: seq<Event>)
      returns (ghost woken': set<uint32>)
      requires id in streams && id in f.streams && id !in woken && streams[id] == f.streams[id]
      requires connSend == f.connSend && peerInitial == f.peerInitial
      requires e <= events && Wakes(events[|e|..], woken)
      modifies this`streams, this`events
      ensures streams == old(streams)[id := f.streams[id].(send := f.streams[id].send + size - f.peerInitial)]
      ensures e <= events && Wakes(events[|e|..], woken')
      ensures woken' == if id in Risen(f, size) then woken + {id} else woken
    {
      hide Wakes;
      var before, delta := streams[id].send, size - peerInitial;
      streams := streams[id := streams[id].(send := before + delta)];
      woken' := woken;
      if before <= 0 && before + delta > 0 {
        NotifyStreamWindowAvailable(id);
        if connSend > 0 {
          WakesMore(old(events)[|e|..], woken, id);
          woken' := woken + {id};
          assert events[|e|..] == old(events)[|e|..] + [StreamWindow(id)];
        } else {
          assert events == old(events);
        }
      }
    }

    method HandleSettingsPayload(payload: seq<byte>)
      modifies this`peerInitial, this`streams, this`events
      ensures AfterSettingsPayload(old(View()), payload, View())
    {
      hide Wakes, Risen, FromBe16, FromBe32, SizeEvents, AfterSettings;
      var i := 0;
      ghost var f, e, done: seq<uint32> := Windows(), events, [];
      NoSizes(f);
      assert payload[0..] == payload && events[|e|..] == [];
      while i + 6 <= |payload|
        invariant i <= |payload| && e <= events
        invariant done + Sizes(payload[i..]) == Sizes(payload)
        invariant Windows() == AfterSizes(f, done)
        invariant SizeEvents(f, done, events[|e|..])
      {
        SizesStep(payload, i);
        var id, value := FromBe16(payload[i..i + 2]), FromBe32(payload[i + 2..i + 6]);
        if id == INITIAL_WINDOW_SIZE {
          ghost var before := events;
          ApplyPeerInitialWindowSize(value);
          assert events[|e|..] == before[|e|..] + events[|before|..];
          SizeEventsMore(f, done, value, before[|e|..], events[|before|..]);
          assert done + [value] + Sizes(payload[i + 6..]) == done + ([value] + Sizes(payload[i + 6..]));
          done := done + [value];
        } else {
          assert [] + Sizes(payload[i + 6..]) == Sizes(payload[i + 6..]);
        }
        i := i + 6;
      }
      assert done + [] == done;
    }

    method HandleGoawayPayload(payload: seq<byte>, length: nat)
      requires |payload| >= length
      modifies this`goaway, this`events
      ensures forall h: FrameHeader :: h.length == length ==> View() == AfterGoaway(old(View()), h, payload)
    {
      if length < 8 {
        return;
      }
      hide FromBe32;
      var lastId := FromBe32(payload[..4]);
      if lastId >= 0x8000_0000 {
        events := events + [ConnectionError(FrameSizeFault)];
        return;
      }
      var info := GoawayInfo(lastId, FromBe32(payload[4..8]));
      goaway := Some(info);
      events := events + [GoawayReceived(info)];
    }

    method HandleHeadersChunk(h: FrameHeader, chunk: seq<byte>)
      modifies this`streams, this`events
      ensures View() == AfterHeaders(old(View()), isServer, h, chunk)
    {
      ghost var f, e := Windows(), events;
      var s := GetOrInit(h.streamId);
      var isNew := isServer && !s.known;
      if isNew {
        streams := streams[h.streamId := s.(known := true)];
        events := events + [NewStream(h.streamId)];
      }
      assert streams == f.With(h.streamId, s.(known := s.known || isNew)).streams;
      ghost var first: seq<Event> := if isNew then [NewStream(h.streamId)] else [];
      assert events == e + first;
      if h.flags / 4 % 2 != 0 {
        events := events + [HeadersReceived(h.streamId, chunk)];
      }
      ghost var second: seq<Event> := if EndsHeaders(h) then [HeadersReceived(h.streamId, chunk)] else [];
      assert events == e + (first + second);
      if h.flags % 2 != 0 {
        events := events + [StreamClosed(h.streamId)];
      }
      ghost var third: seq<Event> := if LowFlag(h) then [StreamClosed(h.streamId)] else [];
      assert events == e + (first + second + third);
    }

    method HandleDataChunk(h: FrameHeader, chunk: seq<byte>)
      modifies this`connRecv, this`connConsumed, this`streams, this`events, pendingOut
      ensures View() == AfterData(old(View()), h, chunk)
    {
      hide AfterFlow;
      events := events + [DataReceived(h.streamId, chunk)];
      UpdateFlowControl(h.streamId, |chunk| % 0x1_0000_0000);
      if h.flags % 2 != 0 {
        streams := streams - {h.streamId};
        events := events + [StreamClosed(h.streamId)];
      }
    }

    /** One call-back of the parser with payload; the engine says how much of it it takes. */
    method HandlePayloadChunk(h: FrameHeader, chunk: seq<byte>) returns (taken: nat)
      requires chunk != []
      modifies this, pendingOut
      ensures AfterCallback(old(View()), isServer, OnChunk(h, chunk, taken), View())
      ensures phase == old(phase) && nextStreamId == old(nextStreamId) && inputBuffered == old(inputBuffered)
      ensures localSettings == old(localSettings)
    {
      hide AfterData, AfterHeaders, AfterSettingsPayload, AfterGoaway, AfterWindowUpdate;
      if h.kind == DATA {
        HandleDataChunk(h, chunk);
      } else if h.kind == HEADERS {
        HandleHeadersChunk(h, chunk);
      } else if h.kind == RST_STREAM {
        events := events + [StreamReset(h.streamId)];
      } else if h.kind == SETTINGS {
        if |chunk| < h.length {
          return 0;
        }
        HandleSettingsPayload(chunk);
      } else if h.kind == GOAWAY {
        if |chunk| < h.length {
          return 0;
        }
        HandleGoawayPayload(chunk, h.length);
      } else if h.kind == WINDOW_UPDATE {
        if |chunk| < h.length {
          return 0;
        }
        HandleWindowUpdate(h.streamId, chunk);
      }
      return |chunk|;
    }

    // ---- Input --------------------------------------------------------------

    /** Where the caller puts the octets it reads, behind those kept from before. */
    method InputBegin() returns (from: nat, space: nat)
      requires Valid()
      ensures from == inputBuffered && space == CAPACITY - inputBuffered
      ensures space == 0 && phase != AwaitingPreface ==> parser.currentHeader.length > CAPACITY
    {
      return inputBuffered, inputBuffer.Length - inputBuffered;
    }

    /** Handle what the parser reported, call-back by call-back. */
    method Dispatch(log: seq<Callback>)
      requires forall cb :: cb in log ==> cb.OnChunk? ==> cb.offered != [] && cb.taken == Accept(cb.h, cb.offered)
      modifies this, pendingOut
      ensures Reaches(old(View()), isServer, log, View())
      ensures phase == old(phase) && nextStreamId == old(nextStreamId) && inputBuffered == old(inputBuffered)
      ensures localSettings == old(localSettings)
    {
      hide AfterCallback, AfterHeader, AfterChunk, Accept;
      ghost var s := View();
      for i := 0 to |log|
        invariant Reaches(s, isServer, log[..i], View())
        invariant phase == old(phase) && nextStreamId == old(nextStreamId) && inputBuffered == old(inputBuffered)
        invariant localSettings == old(localSettings)
      {
        ghost var m := View();
        match log[i] {
          case OnHeader(h) =>
            HandleFrameHeader(h);
            HeaderCallback(m, isServer, h, View());
          case OnChunk(h, chunk, expected) =>
            var taken := HandlePayloadChunk(h, chunk);
            ChunkTaken(m, isServer, h, chunk, taken, View());
        }
        ReachesMore(s, isServer, log, i, m, View());
      }
      assert log[..|log|] == log;
    }

    /** Move `inputBuffer[from + consumed..inputBuffered]` to the front. */
    method Slide(from: nat, consumed: nat)
      requires from + consumed <= inputBuffered <= inputBuffer.Length
      modifies this`inputBuffered, inputBuffer
      ensures inputBuffered == old(inputBuffered) - from - consumed
      ensures inputBuffer[..inputBuffered] == old(inputBuffer[from + consumed..inputBuffered])
    {
      var kept := inputBuffered - from - consumed;
      forall k | 0 <= k < kept {
        inputBuffer[k] := inputBuffer[from + consumed + k];
      }
      inputBuffered := kept;
    }

    /** Parse the buffered octets from `from` on, handle what they contain, and keep the rest. */
    method Process(from: nat)
      requires Parsing() && from <= inputBuffered
      modifies this, pendingOut, inputBuffer, parser, parser.headerBuffer
      ensures phase == old(phase) && nextStreamId == old(nextStreamId) && localSettings == old(localSettings)
      ensures Parsing() && (inputBuffered > 0 ==> Stalled())
      ensures parser.Input() + inputBuffer[..inputBuffered] == old(parser.Input() + inputBuffer[from..inputBuffered])
      ensures old(parser.log) <= parser.log
      ensures Reaches(old(View()), isServer, parser.log[|old(parser.log)|..], View())
    {
      hide LegalLog, Replay, AfterCallback, Reaches, Accounted;
      var seen := |parser.log|;
      var input := inputBuffer[from..inputBuffered];
      var consumed := parser.Consume(input, Answer);
      LogHonours(parser.log, seen, |input|);
      LegalChunks(parser.log);
      if consumed < |input| {
        StalledAfter(parser.log);
      }
      assert input == input[..consumed] + input[consumed..];
      Slide(from, consumed);
      assert inputBuffer[..inputBuffered] == input[consumed..];
      Dispatch(parser.log[seen..]);
    }

    method TryConsumeClientPreface() returns (ok: bool)
      requires PREFACE_LENGTH <= inputBuffered <= inputBuffer.Length
      modifies this`events
      ensures ok == (PREFACE <= inputBuffer[..inputBuffered])
      ensures View() == if ok then old(View()) else old(View()).Emit([ConnectionError(ProtocolFault)])
    {
      ok := inputBuffer[..PREFACE_LENGTH] == PREFACE;
      assert inputBuffer[..inputBuffered][..PREFACE_LENGTH] == inputBuffer[..PREFACE_LENGTH];
      if !ok {
        events := events + [ConnectionError(ProtocolFault)];
      }
    }

    /** The preface completed: answer it, and process what came behind it. */
    method Start()
      requires Parsing() && phase == AwaitingPreface && isServer && parser.log == [] && parser.Input() == []
      requires PREFACE <= inputBuffer[..inputBuffered]
      modifies this, pendingOut, inputBuffer, parser, parser.headerBuffer
      ensures Valid() && phase == Ready
      ensures Received() == old(inputBuffer[..inputBuffered])
      ensures Reaches(WriteAll(old(View()), OpeningFrames(old(localSettings), old(initial))), isServer, parser.log, View())
    {
      hide Reaches, OpeningFrames, Accounted, LegalLog, Replay, AllAnswered;
      WriteSettings();
      phase := Ready;
      ghost var s, all := View(), inputBuffer[..inputBuffered];
      assert all == PREFACE + inputBuffer[PREFACE_LENGTH..inputBuffered] by {
        assert all[..PREFACE_LENGTH] == PREFACE;
      }
      var remaining := inputBuffered - PREFACE_LENGTH;
      if remaining > 0 {
        Process(PREFACE_LENGTH);
        assert parser.log[0..] == parser.log;
      } else {
        inputBuffered := 0;
        ReachesSelf(s, isServer);
        assert Received() == PREFACE + (parser.Input() + []);
      }
    }

    /** What the preface's arrival, whole or not, does to a server that waits for it. */
    method Await()
      requires Parsing() && phase == AwaitingPreface && isServer && parser.log == [] && parser.Input() == []
      modifies this, pendingOut, inputBuffer, parser, parser.headerBuffer
      ensures Valid() && Received() == old(inputBuffer[..inputBuffered])
      ensures Awaited(old(inputBuffer[..inputBuffered]), old(View()), old(localSettings), View(), phase, parser.log)
    {
      hide Reaches, OpeningFrames, Accounted;
      assert Received() == inputBuffer[..inputBuffered];
      if inputBuffered >= PREFACE_LENGTH {
        var ok := TryConsumeClientPreface();
        if ok {
          Start();
        }
      } else {
        assert View() == View().Emit([]);
      }
    }

    /**
     The caller has put `n` octets into the buffer. A server first waits for the client's
     preface; after that, the octets are parsed and their callbacks handled.
     */
    method InputEnd(n: nat)
      requires Valid() && inputBuffered + n <= CAPACITY
      modifies this, pendingOut, inputBuffer, parser, parser.headerBuffer
      ensures Valid() && Received() == old(Received() + inputBuffer[inputBuffered..inputBuffered + n])
      ensures old(phase) != AwaitingPreface ==>
                && phase == old(phase) && old(parser.log) <= parser.log
                && Reaches(old(View()), isServer, parser.log[|old(parser.log)|..], View())
      ensures old(phase) == AwaitingPreface && n > 0 ==>
                Awaited(old(inputBuffer[..inputBuffered + n]), old(View()), old(localSettings), View(), phase, parser.log)
      ensures FlowFaults.Sound(old(View())) ==> FlowFaults.Sound(View())
    {
      hide Reaches, OpeningFrames, Accounted, Awaited, FlowFaults.Sound;
      ghost var s := View();
      if n == 0 {
        ReachesSelf(View(), isServer);
        assert inputBuffer[inputBuffered..inputBuffered + 0] == [] && parser.log[|parser.log|..] == [];
        return;
      }
      Buffer(n);
      if phase == AwaitingPreface {
        Await();
        if FlowFaults.Sound(s) {
          AwaitedSound(old(inputBuffer[..inputBuffered + n]), s, old(localSettings), View(), phase, parser.log);
        }
      } else {
        assert inputBuffer[0..inputBuffered] == inputBuffer[..inputBuffered];
        Process(0);
        if FlowFaults.Sound(s) {
          FlowFaults.InputSound(s, isServer, parser.log[|old(parser.log)|..], View());
        }
      }
    }

    method Buffer(n: nat)
      requires Valid() && inputBuffered + n <= CAPACITY
      modifies this`inputBuffered
      ensures inputBuffered == old(inputBuffered) + n && Parsing()
      ensures Received() == old(Received() + inputBuffer[inputBuffered..inputBuffered + n])
      ensures phase == AwaitingPreface ==> parser.Input() == [] && Received() == inputBuffer[..inputBuffered]
    {
      hide LegalLog, Replay, Accounted;
      ghost var before, added := inputBuffer[..inputBuffered], inputBuffer[inputBuffered..inputBuffered + n];
      inputBuffered := inputBuffered + n;
      assert inputBuffer[..inputBuffered] == before + added;
      ghost var head, all := if isServer && phase != AwaitingPreface then PREFACE else [], parser.Input();
      assert head + (all + before) + added == head + (all + (before + added));
    }
  }

  lemma StartedIsConsistent(e: Engine)
    requires e.Valid() && e.phase != AwaitingPreface
    ensures Consistent(e.parser.log, e.parser.headerBuffer[..e.parser.headerPos], e.inputBuffer[..e.inputBuffered])
    ensures Everything(e.parser.log, e.parser.headerBuffer[..e.parser.headerPos], e.inputBuffer[..e.inputBuffered])
         == e.parser.Input() + e.inputBuffer[..e.inputBuffered]
  {
  }

  lemma WaitingHasNoPreface(e: Engine)
    requires e.Valid() && e.phase == AwaitingPreface
    ensures e.parser.log == [] && e.isServer && !(PREFACE <= e.Received())
  {
    assert e.Received() == e.inputBuffer[..e.inputBuffered];
  }

  /**
   Two engines that have received the same octets, in whatever reads, have handled the same
   SETTINGS, GOAWAY and WINDOW_UPDATE payloads and taken the same DATA on every stream.
   */
  lemma SameInputSameFrames(a: Engine, b: Engine, id: uint32)
    requires a.Valid() && b.Valid() && a.isServer == b.isServer && a.Received() == b.Received()
    ensures Handled(a.parser.log) == Handled(b.parser.log)
    ensures Taken(a.parser.log, id) == Taken(b.parser.log, id)
  {
    hide LegalLog, Replay, Accounted, Consistent, Everything;
    if a.phase == AwaitingPreface || b.phase == AwaitingPreface {
      if a.phase == AwaitingPreface {
        WaitingHasNoPreface(a);
      }
      if b.phase == AwaitingPreface {
        WaitingHasNoPreface(b);
      }
    } else {
      StartedIsConsistent(a);
      StartedIsConsistent(b);
      var input, input' := a.parser.Input() + a.inputBuffer[..a.inputBuffered], b.parser.Input() + b.inputBuffer[..b.inputBuffered];
      assert input == input' by {
        var n := if a.isServer then PREFACE_LENGTH else 0;
        assert a.Received()[n..] == input && b.Received()[n..] == input';
      }
      ReadsDoNotMatter(a.parser.log, a.parser.headerBuffer[..a.parser.headerPos], a.inputBuffer[..a.inputBuffered],
                       b.parser.log, b.parser.headerBuffer[..b.parser.headerPos], b.inputBuffer[..b.inputBuffered], id);
    }
  }
}
