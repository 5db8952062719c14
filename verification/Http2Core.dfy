/**
 What the HTTP/2 engine does with each callback of its frame parser, as functions and
 relations on the part of its state a callback can reach.
 */
module Http2Core {
  import opened Bits
  import opened Wrappers
  import opened Frames
  import opened FlowControl
  import opened FrameParsers

  datatype ConnectionFault = ProtocolFault | FlowControlFault | FrameSizeFault

  /** `headers` events carry the block as received; decoding it is the HPACK context's business. */
  datatype Event =
    | NewStream(id: uint32)
    | HeadersReceived(id: uint32, block: seq<byte>)
    | DataReceived(id: uint32, data: seq<byte>)
    | StreamClosed(id: uint32)
    | StreamReset(id: uint32)
    | GoawayReceived(info: GoawayInfo)
    | ConnectionError(fault: ConnectionFault)
    | StreamWindow(id: uint32)
    | ConnectionWindow

  datatype GoawayInfo = GoawayInfo(lastId: uint32, code: uint32)

  datatype Core = Core(flow: Flow, events: seq<Event>, out: seq<byte>, goaway: Option<GoawayInfo>) {
    function Emit(es: seq<Event>): Core {
      this.(events := events + es)
    }

    function Write(f: Frame): Core {
      this.(out := out + FrameBytes(f))
    }
  }

  /** END_STREAM and ACK are the same bit. */
  predicate LowFlag(h: FrameHeader) {
    h.flags % 2 == 1
  }

  predicate EndsHeaders(h: FrameHeader) {
    h.flags / 4 % 2 == 1
  }

  /** SETTINGS, GOAWAY and WINDOW_UPDATE are only taken whole. */
  predicate Atomic(kind: byte) {
    kind == SETTINGS || kind == GOAWAY || kind == WINDOW_UPDATE
  }

  /** How much of a payload chunk the engine takes. */
  function Accept(h: FrameHeader, chunk: seq<byte>): (taken: nat)
    ensures taken == 0 || taken == |chunk|
  {
    if Atomic(h.kind) && |chunk| < h.length then 0 else |chunk|
  }

  /** The engine's answers do not depend on what came before. */
  function Answer(past: seq<Callback>, h: FrameHeader, chunk: seq<byte>): nat {
    Accept(h, chunk)
  }

  // ---- Headers --------------------------------------------------------------

  function AfterHeader(s: Core, h: FrameHeader): Core {
    if h.kind == SETTINGS then
      if LowFlag(h) then s else s.Write(SettingsFrame([], true))
    else if LowFlag(h) && h.length == 0 && (h.kind == DATA || h.kind == HEADERS) then
      s.Emit([StreamClosed(h.streamId)])
    else s
  }

  // ---- Payload --------------------------------------------------------------

  function Updated(s: Core, id: uint32, credit: Option<uint32>): Core {
    if credit.Some? then s.Write(WindowUpdateFrame(id, credit.value)) else s
  }

  /** The receive-side bookkeeping of a DATA chunk. */
  function AfterFlow(s: Core, id: uint32, n: uint32): Core {
    var r := AfterReceive(s.flow, id, n);
    var t := s.(flow := r.flow);
    if r.ok then Updated(Updated(t, 0, r.conn), id, r.stream) else t.Emit([ConnectionError(FlowControlFault)])
  }

  function Length32(chunk: seq<byte>): uint32 {
    |chunk| % 0x1_0000_0000
  }

  function AfterData(s: Core, h: FrameHeader, chunk: seq<byte>): Core {
    var t := AfterFlow(s.Emit([DataReceived(h.streamId, chunk)]), h.streamId, Length32(chunk));
    if LowFlag(h) then t.(flow := AfterEnd(t.flow, h.streamId)).Emit([StreamClosed(h.streamId)]) else t
  }

  function AfterHeaders(s: Core, server: bool, h: FrameHeader, chunk: seq<byte>): Core {
    var entry := s.flow.Entry(h.streamId);
    var isNew := server && !entry.known;
    s.(flow := s.flow.With(h.streamId, entry.(known := entry.known || isNew)))
     .Emit((if isNew then [NewStream(h.streamId)] else [])
           + (if EndsHeaders(h) then [HeadersReceived(h.streamId, chunk)] else [])
           + (if LowFlag(h) then [StreamClosed(h.streamId)] else []))
  }

  function AfterGoaway(s: Core, h: FrameHeader, chunk: seq<byte>): Core
    requires |chunk| >= h.length
  {
    if h.length < 8 then s
    else if FromBe32(chunk[..4]) >= 0x8000_0000 then s.Emit([ConnectionError(FrameSizeFault)])
    else
      var info := GoawayInfo(FromBe32(chunk[..4]), FromBe32(chunk[4..8]));
      s.(goaway := Some(info)).Emit([GoawayReceived(info)])
  }

  // ---- Wake-ups -------------------------------------------------------------

  /** One notification for each of the streams, in some order: the map is iterated in any. */
  ghost predicate Wakes(added: seq<Event>, ids: set<uint32>) {
    && |added| == |ids|
    && (forall e :: e in added ==> e.StreamWindow? && e.id in ids)
    && (forall id :: id in ids ==> StreamWindow(id) in added)
  }

  function OpenStreams(f: Flow): set<uint32> {
    set id | id in f.streams && f.streams[id].send > 0
  }

  /** The streams a new SETTINGS_INITIAL_WINDOW_SIZE makes writable. */
  function Risen(f: Flow, size: uint32): set<uint32> {
    if f.connSend > 0 then
      set id | id in f.streams && f.streams[id].send <= 0 && f.streams[id].send + size - f.peerInitial > 0
    else {}
  }

  /** What a WINDOW_UPDATE increment adds to the event queue. */
  ghost predicate UpdateEvents(f: Flow, id: uint32, increment: nat, added: seq<Event>) {
    if id == 0 then
      if f.connSend <= 0 && f.connSend + increment > 0 then
        added != [] && added[0] == ConnectionWindow && Wakes(added[1..], OpenStreams(f))
      else added == []
    else
      var send := f.Entry(id).send;
      added == if send <= 0 && send + increment > 0 && f.connSend > 0 then [StreamWindow(id)] else []
  }

  function Increment(chunk: seq<byte>): uint31
    requires |chunk| >= 4
  {
    FromBe32(chunk[..4]) % 0x8000_0000
  }

  ghost predicate AfterWindowUpdate(s: Core, id: uint32, chunk: seq<byte>, s': Core) {
    if |chunk| < 4 then s' == s
    else if Increment(chunk) == 0 then s' == s.Emit([ConnectionError(ProtocolFault)])
    else
      && s.events <= s'.events
      && UpdateEvents(s.flow, id, Increment(chunk), s'.events[|s.events|..])
      && s' == s.(flow := AfterUpdate(s.flow, id, Increment(chunk)), events := s'.events)
  }

  /** The initial window sizes among the settings of a payload, in order. */
  function Sizes(payload: seq<byte>): seq<uint32> {
    if |payload| < 6 then []
    else (if FromBe16(payload[..2]) == INITIAL_WINDOW_SIZE then [FromBe32(payload[2..6])] else []) + Sizes(payload[6..])
  }

  function AfterSizes(f: Flow, sizes: seq<uint32>): Flow {
    if sizes == [] then f else AfterSettings(AfterSizes(f, sizes[..|sizes| - 1]), sizes[|sizes| - 1])
  }

  ghost predicate SizeEvents(f: Flow, sizes: seq<uint32>, added: seq<Event>) {
    if sizes == [] then added == []
    else
      var front, size := sizes[..|sizes| - 1], sizes[|sizes| - 1];
      var n := |added| - |Risen(AfterSizes(f, front), size)|;
      && n >= 0
      && SizeEvents(f, front, added[..n])
      && Wakes(added[n..], Risen(AfterSizes(f, front), size))
  }

  ghost predicate AfterSettingsPayload(s: Core, chunk: seq<byte>, s': Core) {
    && s.events <= s'.events
    && SizeEvents(s.flow, Sizes(chunk), s'.events[|s.events|..])
    && s' == s.(flow := AfterSizes(s.flow, Sizes(chunk)), events := s'.events)
  }

  /** A chunk that is taken. */
  ghost predicate AfterChunk(s: Core, server: bool, h: FrameHeader, chunk: seq<byte>, s': Core)
    requires Atomic(h.kind) ==> |chunk| >= h.length
  {
    if h.kind == DATA then s' == AfterData(s, h, chunk)
    else if h.kind == HEADERS then s' == AfterHeaders(s, server, h, chunk)
    else if h.kind == RST_STREAM then s' == s.Emit([StreamReset(h.streamId)])
    else if h.kind == SETTINGS then AfterSettingsPayload(s, chunk, s')
    else if h.kind == GOAWAY then s' == AfterGoaway(s, h, chunk)
    else if h.kind == WINDOW_UPDATE then AfterWindowUpdate(s, h.streamId, chunk, s')
    else s' == s
  }

  ghost predicate AfterCallback(s: Core, server: bool, cb: Callback, s': Core) {
    match cb
    case OnHeader(h) => s' == AfterHeader(s, h)
    case OnChunk(h, chunk, taken) =>
      && taken == Accept(h, chunk)
      && if taken == 0 then s' == s else AfterChunk(s, server, h, chunk, s')
  }

  ghost predicate AfterLast(s: Core, server: bool, log: seq<Callback>, s': Core)
    requires log != []
  {
    AfterCallback(s, server, log[|log| - 1], s')
  }

  /** A run over a log of callbacks. */
  ghost predicate Reaches(s: Core, server: bool, log: seq<Callback>, s': Core) {
    if log == [] then s' == s
    else exists m :: Reaches(s, server, log[..|log| - 1], m) && AfterLast(m, server, log, s')
  }

  /** The opening SETTINGS, with a WINDOW_UPDATE when the connection grant exceeds the default. */
  function OpeningFrames(settings: seq<Setting>, initial: uint32): seq<Frame> {
    [SettingsFrame(settings, false)]
    + if initial > DEFAULT_WINDOW then [WindowUpdateFrame(0, initial - DEFAULT_WINDOW)] else []
  }

  function WriteAll(s: Core, frames: seq<Frame>): Core {
    s.(out := s.out + FramesBytes(frames))
  }

  // ---- Building runs --------------------------------------------------------

  lemma NoWakes()
    ensures Wakes([], {})
  {
  }

  /** One more notification, for a stream not yet notified. */
  lemma WakesMore(added: seq<Event>, ids: set<uint32>, id: uint32)
    requires Wakes(added, ids) && id !in ids
    ensures Wakes(added + [StreamWindow(id)], ids + {id})
  {
    assert (added + [StreamWindow(id)])[|added|] == StreamWindow(id);
    forall i | i in ids + {id}
      ensures StreamWindow(i) in added + [StreamWindow(id)]
    {
    }
  }

  lemma NoSizes(f: Flow)
    ensures AfterSizes(f, []) == f && SizeEvents(f, [], [])
  {
  }

  lemma SizesStep(payload: seq<byte>, i: nat)
    requires i + 6 <= |payload|
    ensures Sizes(payload[i..]) ==
            (if FromBe16(payload[i..i + 2]) == INITIAL_WINDOW_SIZE then [FromBe32(payload[i + 2..i + 6])] else [])
            + Sizes(payload[i + 6..])
  {
    hide FromBe16, FromBe32;
    assert payload[i..][..2] == payload[i..i + 2] && payload[i..][2..6] == payload[i + 2..i + 6];
    assert payload[i..][6..] == payload[i + 6..];
  }

  lemma SizeEventsMore(f: Flow, sizes: seq<uint32>, size: uint32, added: seq<Event>, wake: seq<Event>)
    requires SizeEvents(f, sizes, added) && Wakes(wake, Risen(AfterSizes(f, sizes), size))
    ensures AfterSizes(f, sizes + [size]) == AfterSettings(AfterSizes(f, sizes), size)
    ensures SizeEvents(f, sizes + [size], added + wake)
  {
    hide Risen, AfterSettings;
    var all := added + wake;
    assert (sizes + [size])[..|sizes|] == sizes;
    assert |wake| == |Risen(AfterSizes(f, sizes), size)|;
    assert all[..|added|] == added && all[|added|..] == wake;
  }

  lemma HeaderCallback(s: Core, server: bool, h: FrameHeader, s': Core)
    requires s' == AfterHeader(s, h)
    ensures AfterCallback(s, server, OnHeader(h), s')
  {
  }

  lemma ChunkTaken(s: Core, server: bool, h: FrameHeader, chunk: seq<byte>, taken: nat, s': Core)
    requires AfterCallback(s, server, OnChunk(h, chunk, taken), s')
    ensures taken == Accept(h, chunk)
  {
  }

  lemma ReachesSelf(s: Core, server: bool)
    ensures Reaches(s, server, [], s)
  {
  }

  lemma ReachesMore(s: Core, server: bool, log: seq<Callback>, i: nat, m: Core, s': Core)
    requires i < |log| && Reaches(s, server, log[..i], m) && AfterCallback(m, server, log[i], s')
    ensures Reaches(s, server, log[..i + 1], s')
  {
    var more := log[..i + 1];
    assert more[..|more| - 1] == log[..i];
    assert AfterLast(m, server, more, s');
  }

  // ---- What the writers' payloads mean to the readers -----------------------

  /** The initial window sizes of a list of settings. */
  function Announced(settings: seq<Setting>): seq<uint32> {
    if settings == [] then []
    else (if settings[0].id == INITIAL_WINDOW_SIZE then [settings[0].value] else []) + Announced(settings[1..])
  }

  /** A SETTINGS payload reads back as the settings written. */
  lemma {:induction false} SettingsComeBack(settings: seq<Setting>)
    ensures Sizes(SettingsBytes(settings)) == Announced(settings)
  {
    if settings != [] {
      var payload, entry := SettingsBytes(settings), settings[0];
      var head, value, rest := Be16(entry.id), Be32(entry.value), SettingsBytes(settings[1..]);
      assert payload[..2] == head && payload[2..6] == value && payload[6..] == rest;
      Be32Inverse(entry.value);
      SettingsComeBack(settings[1..]);
      hide Be32, FromBe32, SettingsBytes;
      assert FromBe16(head) == entry.id;
    }
  }

  /** So does an increment, reduced to 31 bits. */
  lemma IncrementComesBack(id: uint32, increment: uint32)
    ensures Increment(WindowUpdateFrame(id, increment).payload) == increment % 0x8000_0000
  {
    hide Be32, FromBe32;
    Be32Inverse(increment % 0x8000_0000);
    assert Be32(increment % 0x8000_0000)[..4] == Be32(increment % 0x8000_0000);
  }

  // ---- Sending --------------------------------------------------------------

  const MAX_FRAME: nat := 16384

  /** The DATA frames for `data[from..upto]`; END_STREAM is on the one that reaches the end of the data. */
  function DataFrames(id: uint32, data: seq<byte>, from: nat, upto: nat, endStream: bool): seq<Frame>
    requires from <= upto <= |data|
    decreases upto - from
  {
    if from == upto then []
    else
      var to := if upto - from <= MAX_FRAME then upto else from + MAX_FRAME;
      [DataFrame(id, data[from..to], endStream && to == |data|)] + DataFrames(id, data, to, upto, endStream)
  }

  /** Everything a send of `data` writes when `k` octets go out. */
  function SendFrames(id: uint32, data: seq<byte>, k: nat, endStream: bool): seq<Frame>
    requires k <= |data|
  {
    if data == [] then if endStream then [DataFrame(id, [], true)] else []
    else DataFrames(id, data, 0, k, endStream)
  }

  function Payloads(frames: seq<Frame>): seq<byte> {
    if frames == [] then [] else frames[0].payload + Payloads(frames[1..])
  }

  lemma DataFrameIs(id: uint32, payload: seq<byte>, endStream: bool)
    requires |payload| <= MAX_FRAME
    ensures var f := DataFrame(id, payload, endStream);
            f.Valid() && f.header.kind == DATA && f.payload == payload && (LowFlag(f.header) <==> endStream)
  {
  }

  lemma DataFramesStep(id: uint32, data: seq<byte>, from: nat, upto: nat, endStream: bool)
    requires from < upto <= |data|
    ensures var to := Min(upto, from + MAX_FRAME);
            DataFrames(id, data, from, upto, endStream)
            == [DataFrame(id, data[from..to], endStream && to == |data|)] + DataFrames(id, data, to, upto, endStream)
  {
  }

  /** The frames of a send carry exactly the octets accepted. */
  lemma {:induction false} DataFramesCarry(id: uint32, data: seq<byte>, from: nat, upto: nat, endStream: bool)
    requires from <= upto <= |data|
    ensures Payloads(DataFrames(id, data, from, upto, endStream)) == data[from..upto]
    decreases upto - from
  {
    hide DataFrame, DataFrames;
    if from == upto {
      NoDataFrames(id, data, from, endStream);
    } else {
      var to := Min(upto, from + MAX_FRAME);
      DataFramesStep(id, data, from, upto, endStream);
      DataFramesCarry(id, data, to, upto, endStream);
      DataFrameIs(id, data[from..to], endStream && to == |data|);
      var frames, rest := DataFrames(id, data, from, upto, endStream), DataFrames(id, data, to, upto, endStream);
      assert frames[1..] == rest;
      assert data[from..upto] == data[from..to] + data[to..upto];
    }
  }

  lemma NoDataFrames(id: uint32, data: seq<byte>, from: nat, endStream: bool)
    requires from <= |data|
    ensures DataFrames(id, data, from, from, endStream) == []
  {
  }

  /** A frame of a send: DATA, neither empty nor above the maximum size. */
  ghost predicate Proper(f: Frame) {
    f.Valid() && f.header.kind == DATA && 1 <= |f.payload| <= MAX_FRAME
  }

  /** END_STREAM is on the last frame of a send, and only if nothing is left over. */
  lemma {:induction false} DataFramesEnd(id: uint32, data: seq<byte>, from: nat, upto: nat, endStream: bool)
    requires from <= upto <= |data|
    ensures var frames := DataFrames(id, data, from, upto, endStream);
            && (frames == [] <==> from == upto)
            && forall i :: 0 <= i < |frames| ==>
                 && Proper(frames[i])
                 && (LowFlag(frames[i].header) <==> endStream && upto == |data| && i == |frames| - 1)
    decreases upto - from
  {
    hide DataFrame, DataFrames, LowFlag, Proper;
    if from == upto {
      NoDataFrames(id, data, from, endStream);
    } else {
      var to := Min(upto, from + MAX_FRAME);
      DataFramesStep(id, data, from, upto, endStream);
      DataFramesEnd(id, data, to, upto, endStream);
      DataFrameIs(id, data[from..to], endStream && to == |data|);
      var frames, rest := DataFrames(id, data, from, upto, endStream), DataFrames(id, data, to, upto, endStream);
      ProperOne(frames[0]);
      forall i | 1 <= i < |frames|
        ensures Proper(frames[i])
        ensures LowFlag(frames[i].header) <==> endStream && upto == |data| && i == |frames| - 1
      {
        assert frames[i] == rest[i - 1];
      }
    }
  }

  lemma ProperOne(f: Frame)
    requires f.Valid() && f.header.kind == DATA && 1 <= |f.payload| <= MAX_FRAME
    ensures Proper(f)
  {
  }
}
