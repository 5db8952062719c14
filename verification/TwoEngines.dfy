/**
 Two HTTP/2 engines joined by octets: each hears, in whatever pieces, what the other has
 written. Every step of theirs is a step of the flow-control protocol, or none; so the
 windows are conserved and neither engine ever reports a flow-control error.
 */
module TwoEngines {
  import opened Bits
  import opened Wrappers
  import opened Frames
  import opened FlowControl
  import opened FrameParsers
  import opened Http2Core
  import opened Reassembly
  import opened Wire
  import FlowFaults
  import P = TwoParty

  /** An engine, what its parser has reported, and the frames it has written. */
  datatype Side = Side(server: bool, core: Core, log: seq<Callback>, sent: seq<Frame>)

  /** Both ends of a connection; `x` is the one that acts next. */
  datatype Link = Link(x: Side, y: Side) {
    function Swap(): Link {
      Link(y, x)
    }
  }

  /** Streams whose END_STREAM DATA has been handled. */
  function EndedBy(log: seq<Callback>): set<uint32> {
    if log == [] then {}
    else
      var cb := log[|log| - 1];
      EndedBy(log[..|log| - 1])
      + if cb.OnChunk? && cb.h.kind == DATA && cb.taken > 0 && LowFlag(cb.h) then {cb.h.streamId as uint32} else {}
  }

  // ---- Steps ----------------------------------------------------------------

  datatype Act =
    | Send(id: uint32, payload: seq<byte>, endStream: bool) // one DATA frame
    | Write(frame: Frame)                                   // HEADERS or GOAWAY
    | Open(id: uint32)
    | Hear(cb: Callback, after: Core)                       // the next call-back of the parser

  /** The frames a call-back makes the engine write. */
  function Replies(s: Core, cb: Callback): seq<Frame> {
    match cb
    case OnHeader(h) => if h.kind == SETTINGS && !LowFlag(h) then [SettingsFrame([], true)] else []
    case OnChunk(h, chunk, taken) =>
      if h.kind == DATA && taken > 0 then
        var r := AfterReceive(s.flow, h.streamId, Length32(chunk));
        Grants(0, r.conn) + Grants(h.streamId, r.stream)
      else []
  }

  function Grants(id: uint32, credit: Option<uint32>): seq<Frame> {
    if credit.Some? then [WindowUpdateFrame(id, credit.value)] else []
  }

  /**
   What can happen: sends within the windows, other frames, new streams; and whatever the
   parser reports of what the other end has written.
   */
  ghost predicate Can(l: Link, act: Act) {
    match act
    case Send(id, payload, endStream) =>
      && 0 < id < 0x8000_0000 && |payload| <= MAX_FRAME
      && if payload == [] then endStream else |payload| <= Sendable(l.x.core.flow, id, |payload|)
    case Write(f) => f.Valid() && (f.header.kind == HEADERS || f.header.kind == GOAWAY)
    case Open(id) => l.x.core.flow.Entry(id).send == l.x.core.flow.peerInitial
    case Hear(cb, after) =>
      && LegalLog(l.x.log + [cb]) && Offers(cb, MAX_CHUNK)
      && AfterCallback(l.x.core, l.x.server, cb, after)
      && Accounted(Replay(l.x.log + [cb]), []) <= FramesBytes(l.y.sent)
  }

  function Do(l: Link, act: Act): Link {
    match act
    case Send(id, payload, endStream) =>
      var f := DataFrame(id, payload, endStream);
      l.(x := l.x.(core := l.x.core.(flow := AfterSend(l.x.core.flow, id, |payload|)).Write(f), sent := l.x.sent + [f]))
    case Write(f) => l.(x := l.x.(core := l.x.core.Write(f), sent := l.x.sent + [f]))
    case Open(id) => l.(x := l.x.(core := l.x.core.(flow := AfterOpen(l.x.core.flow, id))))
    case Hear(cb, after) =>
      l.(x := l.x.(core := after, log := l.x.log + [cb], sent := l.x.sent + Replies(l.x.core, cb)))
  }

  // ---- The protocol state of a link -----------------------------------------

  /** What one end has handled are frames, and parts of one, that the other has written. */
  ghost predicate Heard(x: Side, y: Side) {
    && LegalLog(x.log) && AllAnswered(x.log) && Linked(Replay(x.log), y.sent)
    && (forall f :: f in x.sent ==> Honest(f))
    && x.core.out == FramesBytes(x.sent)
  }

  ghost predicate Joined(l: Link) {
    Heard(l.x, l.y) && Heard(l.y, l.x)
  }

  /** One end, as the protocol sees it: the other end's log says what is still in flight. */
  function EndOf(x: Side, y: Side): P.End
    requires LegalLog(y.log) && Linked(Replay(y.log), x.sent)
  {
    P.End(x.core.flow, InFlight(x.sent, Replay(y.log)), EndedBy(x.log))
  }

  function NetOf(l: Link): P.Net
    requires Joined(l)
  {
    P.Net(EndOf(l.x, l.y), EndOf(l.y, l.x))
  }

  /** The step is one of the protocol's, or leaves it where it is. */
  ghost predicate Simulates(n: P.Net, m: P.Net) {
    m == n || exists act :: Simulated(n, m, act)
  }

  ghost predicate Simulated(n: P.Net, m: P.Net, act: P.Action) {
    P.Sane(n) && P.Allowed(n, act) && (act.Send? ==> act.size < 0x1_0000_0000) && m == P.Next(n, act)
  }

  // ---- Writing --------------------------------------------------------------

  lemma WritesFrames(x: Side, y: Side, core: Core, frames: seq<Frame>)
    requires Heard(x, y) && LegalLog(y.log) && Linked(Replay(y.log), x.sent)
    requires core.out == x.core.out + FramesBytes(frames) && forall f :: f in frames ==> Honest(f)
    ensures var x' := x.(core := core, sent := x.sent + frames);
            && Heard(x', y) && Linked(Replay(y.log), x'.sent)
            && EndOf(x', y) == P.End(core.flow, EndOf(x, y).out + AllMessages(frames), EndedBy(x.log))
  {
    hide Honest, AllMessages, LegalLog, Replay, InFlight, Linked;
    FramesBytesConcat(x.sent, frames);
    InFlightGrows(x.sent, frames, Replay(y.log));
  }

  lemma DataFrameMeans(id: uint32, payload: seq<byte>, endStream: bool)
    requires 0 < id < 0x8000_0000 && |payload| <= MAX_FRAME
    ensures var f := DataFrame(id, payload, endStream);
            Honest(f) && AllMessages([f]) == [P.Data(id, |payload|, endStream)]
  {
    MessagesOne(DataFrame(id, payload, endStream));
  }

  lemma SendSimulates(l: Link, id: uint32, payload: seq<byte>, endStream: bool)
    requires Joined(l) && P.Sane(NetOf(l)) && Can(l, Send(id, payload, endStream))
    ensures var m := Do(l, Send(id, payload, endStream));
            Joined(m) && Simulates(NetOf(l), NetOf(m))
  {
    hide Honest, AllMessages, LegalLog, Replay, InFlight, Linked, DataFrame, AfterSend;
    var f, act := DataFrame(id, payload, endStream), Send(id, payload, endStream);
    var core := l.x.core.(flow := AfterSend(l.x.core.flow, id, |payload|)).Write(f);
    FramesBytesOne(f);
    DataFrameMeans(id, payload, endStream);
    WritesFrames(l.x, l.y, core, [f]);
    assert Simulated(NetOf(l), NetOf(Do(l, act)), P.Send(id, |payload|, endStream));
  }

  lemma WriteSimulates(l: Link, f: Frame)
    requires Joined(l) && Can(l, Write(f))
    ensures var m := Do(l, Write(f)); Joined(m) && NetOf(m) == NetOf(l)
  {
    FramesBytesOne(f);
    MessagesOne(f);
    WritesFrames(l.x, l.y, l.x.core.Write(f), [f]);
    hide LegalLog, Replay, InFlight, Linked;
    assert EndOf(l.x, l.y).out + [] == EndOf(l.x, l.y).out;
  }

  lemma OpenSimulates(l: Link, id: uint32)
    requires Joined(l) && P.Sane(NetOf(l)) && Can(l, Open(id))
    ensures var m := Do(l, Open(id)); Joined(m) && Simulates(NetOf(l), NetOf(m))
  {
    hide LegalLog, Replay, InFlight, Linked, Honest;
    assert Simulated(NetOf(l), NetOf(Do(l, Open(id))), P.Open(id));
  }

  // ---- Hearing --------------------------------------------------------------

  /** The other end's frames say what the parser can report next. */
  lemma HearingIsLinked(l: Link, cb: Callback, after: Core)
    requires Joined(l) && Can(l, Hear(cb, after))
    ensures Legal(Replay(l.x.log), cb) && AsAnswered(cb)
    ensures var log := l.x.log + [cb];
            && LegalLog(log) && Replay(log) == FrameParsers.After(Replay(l.x.log), cb)
            && AllAnswered(log) && Linked(Replay(log), l.y.sent)
  {
    hide Honest, AfterChunk, AfterHeader, Accounted, Linked, Legal;
    var log := l.x.log + [cb];
    assert log[..|l.x.log|] == l.x.log;
    LastIsLegal(log);
    LogSnoc(l.x.log, cb);
    ReplaySound(log);
    HonestIsValid(l.y.sent);
    PrefixIsLinked(Replay(log), l.y.sent);
  }

  lemma LastIsLegal(log: seq<Callback>)
    requires LegalLog(log) && log != []
    ensures LegalLog(log[..|log| - 1]) && Legal(Replay(log[..|log| - 1]), log[|log| - 1])
  {
  }

  lemma HonestIsValid(frames: seq<Frame>)
    requires forall f :: f in frames ==> Honest(f)
    ensures forall f :: f in frames ==> f.Valid()
  {
  }

  /** What is left of the link to show once the replies and the frame heard are known. */
  lemma HearingJoins(l: Link, cb: Callback, after: Core)
    requires Joined(l) && Can(l, Hear(cb, after))
    requires after.out == l.x.core.out + FramesBytes(Replies(l.x.core, cb))
    requires forall f :: f in Replies(l.x.core, cb) ==> Honest(f)
    ensures var m := Do(l, Hear(cb, after));
            && Joined(m) && Linked(Replay(l.x.log + [cb]), l.y.sent)
            && NetOf(m) == P.Net(
                 P.End(after.flow, EndOf(l.x, l.y).out + AllMessages(Replies(l.x.core, cb)), EndedBy(l.x.log + [cb])),
                 EndOf(l.y, l.x).(out := InFlight(l.y.sent, Replay(l.x.log + [cb]))))
  {
    HearingIsLinked(l, cb, after);
    WritesFrames(l.x, l.y, after, Replies(l.x.core, cb));
    hide Replies, Honest, AllMessages, LegalLog, Replay, InFlight, Linked, AfterCallback, FramesBytes;
  }

  lemma EndedMore(log: seq<Callback>, cb: Callback)
    ensures EndedBy(log + [cb]) == EndedBy(log)
              + if cb.OnChunk? && cb.h.kind == DATA && cb.taken > 0 && LowFlag(cb.h) then {cb.h.streamId as uint32} else {}
  {
    assert (log + [cb])[..|log|] == log;
  }

  lemma AckIsSilent()
    ensures var ack := SettingsFrame([], true);
            Honest(ack) && AllMessages([ack]) == [] && FramesBytes([ack]) == FrameBytes(ack)
  {
    MessagesOne(SettingsFrame([], true));
    FramesBytesOne(SettingsFrame([], true));
  }

  /** SETTINGS are announced by the header; a frame without payload is done with it. */
  lemma HeaderReplies(s: Core, h: FrameHeader)
    ensures var r := Replies(s, OnHeader(h));
            && AfterHeader(s, h).out == s.out + FramesBytes(r) && AfterHeader(s, h).flow == s.flow
            && AllMessages(r) == [] && forall f :: f in r ==> Honest(f)
  {
    hide Honest, AllMessages, FramesBytes, FrameBytes;
    AckIsSilent();
    assert FramesBytes([]) == [] && AllMessages([]) == [] by { NoMessages(); }
    assert s.out + [] == s.out;
  }

  lemma NoMessages()
    ensures FramesBytes([]) == [] && AllMessages([]) == []
  {
  }

  lemma SameSettings(f: Flow)
    ensures AfterSettings(f, f.peerInitial) == f
  {
    assert AfterSettings(f, f.peerInitial).streams == f.streams;
  }

  lemma HeaderSimulates(l: Link, h: FrameHeader, after: Core)
    requires Joined(l) && P.Sane(NetOf(l)) && P.Balance(NetOf(l)) && Can(l, Hear(OnHeader(h), after))
    ensures var m := Do(l, Hear(OnHeader(h), after));
            Joined(m) && Simulates(NetOf(l), NetOf(m))
  {
    hide Honest, AllMessages, LegalLog, Replay, InFlight, Linked, AfterHeader, P.Balance, Replies;
    var cb, n := OnHeader(h), NetOf(l);
    HeaderReplies(l.x.core, h);
    HearingIsLinked(l, cb, after);
    HearingJoins(l, cb, after);
    EndedMore(l.x.log, cb);
    assert EndedBy(l.x.log) + {} == EndedBy(l.x.log);
    HonestIsValid(l.y.sent);
    assert n.x.out + [] == n.x.out;
    var p := Replay(l.x.log);
    CurrentIsNone(p, h);
    HeaderTakes(l.y.sent, p, h);
    if h.length == 0 {
      assert l.y.sent[|p.done|] in l.y.sent;
      EmptySimulates(n, l.y.sent[|p.done|], InFlight(l.y.sent, FrameParsers.After(p, cb)));
    }
  }

  lemma CurrentIsNone(p: Progress, h: FrameHeader)
    requires Legal(p, OnHeader(h))
    ensures p.current.None?
  {
  }

  /** A frame without payload: DATA and SETTINGS are messages still, though they change nothing. */
  lemma EmptySimulates(n: P.Net, f: Frame, rest: seq<P.Message>)
    requires P.Sane(n) && P.Balance(n) && f.payload == [] && n.y.out == Messages(f, 0) + rest
    ensures Simulates(n, n.(y := n.y.(out := rest)))
  {
    var m := n.(y := n.y.(out := rest));
    if Messages(f, 0) == [] {
      assert n.y.out == rest;
    } else {
      assert n.y.out[1..] == rest;
      if f.header.kind == SETTINGS {
        SameSettings(n.x.flow);
      }
      assert Simulated(n, m, P.Receive(0));
    }
  }

  // ---- Chunks ---------------------------------------------------------------

  lemma GrantsMean(id: uint32, credit: Option<uint32>)
    requires id < 0x8000_0000 && ValidCredit(credit)
    ensures AllMessages(Grants(id, credit)) == P.Credits(id, credit)
    ensures forall f :: f in Grants(id, credit) ==> Honest(f)
  {
    if credit.Some? {
      MessagesOne(WindowUpdateFrame(id, credit.value));
      IncrementComesBack(id, credit.value);
      hide Be32, FromBe32, Increment;
    }
  }

  lemma GrantsWritten(s: Core, id: uint32, credit: Option<uint32>)
    ensures Updated(s, id, credit).out == s.out + FramesBytes(Grants(id, credit))
    ensures Updated(s, id, credit) == s.(out := Updated(s, id, credit).out)
  {
    hide FrameBytes, WindowUpdateFrame;
    if credit.Some? {
      FramesBytesOne(WindowUpdateFrame(id, credit.value));
    } else {
      assert s.out + [] == s.out;
    }
  }

  /** What a chunk of DATA that fits makes the engine write, and what it does to the windows. */
  lemma DataReplies(s: Core, h: FrameHeader, chunk: seq<byte>)
    requires h.kind == DATA && 0 < |chunk| <= MAX_CHUNK && Balanced(s.flow)
    requires AfterReceive(s.flow, h.streamId, |chunk|).ok
    ensures var r := AfterReceive(s.flow, h.streamId, |chunk|);
            var replies := Replies(s, OnChunk(h, chunk, |chunk|));
            && AfterData(s, h, chunk).out == s.out + FramesBytes(replies)
            && AfterData(s, h, chunk).flow == (if LowFlag(h) then AfterEnd(r.flow, h.streamId) else r.flow)
            && AllMessages(replies) == P.Credits(0, r.conn) + P.Credits(h.streamId, r.stream)
            && forall f :: f in replies ==> Honest(f)
  {
    hide Honest, AllMessages, FramesBytes, AfterReceive, AfterEnd, Balanced, Grants, Updated, ValidCredit;
    var r := AfterReceive(s.flow, h.streamId, |chunk|);
    ReceiveKeepsBalance(s.flow, h.streamId, |chunk|);
    GrantsMean(0, r.conn);
    GrantsMean(h.streamId, r.stream);
    MessagesConcat(Grants(0, r.conn), Grants(h.streamId, r.stream));
    FramesBytesConcat(Grants(0, r.conn), Grants(h.streamId, r.stream));
    var t := s.Emit([DataReceived(h.streamId, chunk)]).(flow := r.flow);
    GrantsWritten(t, 0, r.conn);
    GrantsWritten(Updated(t, 0, r.conn), h.streamId, r.stream);
    assert s.out + FramesBytes(Grants(0, r.conn)) + FramesBytes(Grants(h.streamId, r.stream))
        == s.out + (FramesBytes(Grants(0, r.conn)) + FramesBytes(Grants(h.streamId, r.stream)));
  }

  /** DATA in flight loses what was taken of it. */
  lemma TakingIs(n: P.Net, f: Frame, k: nat, taken: nat, rest: seq<P.Message>, x: P.End)
    requires P.Sane(n) && f.header.kind == DATA && k + taken <= |f.payload| && 1 <= taken <= MAX_CHUNK
    requires n.y.out == Messages(f, k) + rest
    requires var r := AfterReceive(n.x.flow, f.header.streamId, taken);
             && x.flow == (if LowFlag(f.header) then AfterEnd(r.flow, f.header.streamId) else r.flow)
             && x.out == n.x.out + (P.Credits(0, r.conn) + P.Credits(f.header.streamId, r.stream))
             && x.ended == n.x.ended + if LowFlag(f.header) then {f.header.streamId as uint32} else {}
    ensures Simulates(n, P.Net(x, n.y.(out := (if k + taken < |f.payload| then Messages(f, k + taken) else []) + rest)))
  {
    hide AfterReceive, AfterEnd, P.Credits;
    var m := P.Net(x, n.y.(out := (if k + taken < |f.payload| then Messages(f, k + taken) else []) + rest));
    var d := n.y.out[0];
    assert n.y.out[1..] == rest && d == P.Data(f.header.streamId, |f.payload| - k, LowFlag(f.header)) && d in n.y.out;
    var r := AfterReceive(n.x.flow, f.header.streamId, taken);
    assert n.x.out + P.Credits(0, r.conn) + P.Credits(d.id, r.stream) == x.out;
    assert n.x.ended + {} == n.x.ended;
    assert P.Next(n, P.Receive(taken)) == m;
    assert Simulated(n, m, P.Receive(taken));
  }

  lemma DataSimulates(l: Link, h: FrameHeader, chunk: seq<byte>, after: Core)
    requires var act := Hear(OnChunk(h, chunk, |chunk|), after);
             Joined(l) && P.Sane(NetOf(l)) && P.Balance(NetOf(l)) && Can(l, act)
    requires h.kind == DATA
    ensures var m := Do(l, Hear(OnChunk(h, chunk, |chunk|), after));
            Joined(m) && Simulates(NetOf(l), NetOf(m))
  {
    hide Honest, AllMessages, LegalLog, Replay, InFlight, Linked, AfterData, P.Balance, Replies, Messages, AfterReceive;
    var cb, n, p := OnChunk(h, chunk, |chunk|), NetOf(l), Replay(l.x.log);
    HearingIsLinked(l, cb, after);
    HonestIsValid(l.y.sent);
    ChunkTakes(l.y.sent, p, cb);
    ChunkIsData(l.x.core, l.x.server, h, chunk, after);
    var f, k := l.y.sent[|p.done|], |p.current.value.payload|;
    var rest := AllMessages(l.y.sent[|p.done| + 1..]);
    Room(n, f, k, |chunk|, rest);
    DataReplies(l.x.core, h, chunk);
    HearingJoins(l, cb, after);
    EndedMore(l.x.log, cb);
    TakingIs(n, f, k, |chunk|, rest, NetOf(Do(l, Hear(cb, after))).x);
  }

  /** The protocol's room for the chunk. */
  lemma Room(n: P.Net, f: Frame, k: nat, taken: nat, rest: seq<P.Message>)
    requires P.Sane(n) && P.Balance(n) && f.header.kind == DATA && k + taken <= |f.payload| && 1 <= taken <= MAX_CHUNK
    requires n.y.out == Messages(f, k) + rest
    ensures AfterReceive(n.x.flow, f.header.streamId, taken).ok && Balanced(n.x.flow)
  {
    hide AfterReceive;
    assert n.y.out[0] == P.Data(f.header.streamId, |f.payload| - k, LowFlag(f.header));
    P.RoomForData(n, taken);
  }

  lemma RefusedReplies(s: Core, server: bool, h: FrameHeader, chunk: seq<byte>, after: Core)
    requires AfterCallback(s, server, OnChunk(h, chunk, 0), after)
    ensures after == s && Replies(s, OnChunk(h, chunk, 0)) == []
  {
    hide AfterChunk;
  }

  /** A chunk that is not taken leaves everything where it is. */
  lemma RefusedSimulates(l: Link, h: FrameHeader, chunk: seq<byte>, after: Core)
    requires var act := Hear(OnChunk(h, chunk, 0), after);
             Joined(l) && Can(l, act)
    ensures var m := Do(l, Hear(OnChunk(h, chunk, 0), after));
            Joined(m) && NetOf(m) == NetOf(l)
  {
    hide Honest, AllMessages, FramesBytes, LegalLog, Replay, InFlight, Linked, Messages, Replies, AfterCallback, EndedBy;
    var cb, n, p := OnChunk(h, chunk, 0), NetOf(l), Replay(l.x.log);
    RefusedReplies(l.x.core, l.x.server, h, chunk, after);
    HearingIsLinked(l, cb, after);
    HonestIsValid(l.y.sent);
    NoMessages();
    assert n.x.out + [] == n.x.out && l.x.core.out + [] == l.x.core.out;
    HearingJoins(l, cb, after);
    EndedMore(l.x.log, cb);
    assert EndedBy(l.x.log) + {} == EndedBy(l.x.log);
    ChunkTakes(l.y.sent, p, cb);
    PartLeft(l.y.sent, p);
  }

  lemma PartLeft(sent: seq<Frame>, p: Progress)
    requires Linked(p, sent) && p.current.Some?
    ensures |p.done| < |sent| && |p.current.value.payload| < |sent[|p.done|].payload|
  {
  }

  /** A frame of the other end's that is taken whole. */
  lemma WholeChunk(l: Link, h: FrameHeader, chunk: seq<byte>, after: Core)
    requires var act := Hear(OnChunk(h, chunk, |chunk|), after);
             Joined(l) && Can(l, act)
    requires Atomic(h.kind) && chunk != []
    ensures var p := Replay(l.x.log);
            && Linked(p, l.y.sent) && Linked(Replay(l.x.log + [OnChunk(h, chunk, |chunk|)]), l.y.sent)
            && |p.done| < |l.y.sent|
            && var f := l.y.sent[|p.done|];
               && f.header == h && f.payload == chunk && Honest(f)
               && InFlight(l.y.sent, p)
                    == Messages(f, 0) + InFlight(l.y.sent, Replay(l.x.log + [OnChunk(h, chunk, |chunk|)]))
  {
    hide Honest, AllMessages, LegalLog, Replay, InFlight, Linked, Messages, AfterChunk;
    var cb, p := OnChunk(h, chunk, |chunk|), Replay(l.x.log);
    HearingIsLinked(l, cb, after);
    HonestIsValid(l.y.sent);
    ChunkTakes(l.y.sent, p, cb);
    var f, k := l.y.sent[|p.done|], |p.current.value.payload|;
    assert f in l.y.sent;
    assert chunk[..|chunk|] == chunk;
    assert k == 0 && |f.payload| == |chunk|;
    assert f.payload[0..|chunk|] == f.payload;
    assert [] + AllMessages(l.y.sent[|p.done| + 1..]) == AllMessages(l.y.sent[|p.done| + 1..]);
  }

  lemma OneSize(f: Flow, size: uint32)
    ensures AfterSizes(f, [size]) == AfterSettings(f, size)
  {
    assert [size][..0] == [];
  }

  /** Credit and SETTINGS of honest frames. */
  lemma CreditSimulates(n: P.Net, f: Frame, rest: seq<P.Message>, flow: Flow)
    requires P.Sane(n) && Honest(f) && f.payload != [] && n.y.out == Messages(f, 0) + rest
    requires f.header.kind == SETTINGS ==> flow == AfterSizes(n.x.flow, Sizes(f.payload))
    requires f.header.kind == WINDOW_UPDATE ==> flow == AfterUpdate(n.x.flow, f.header.streamId, Increment(f.payload))
    requires f.header.kind == SETTINGS || f.header.kind == WINDOW_UPDATE
    ensures Simulates(n, P.Net(n.x.(flow := flow), n.y.(out := rest)))
  {
    hide AfterUpdate, AfterSettings, AfterSizes, Increment, Sizes, P.Sane;
    var m := P.Net(n.x.(flow := flow), n.y.(out := rest));
    assert n.y.out[1..] == rest;
    if f.header.kind == SETTINGS {
      assert Sizes(f.payload) == [Sizes(f.payload)[0]];
      OneSize(n.x.flow, Sizes(f.payload)[0]);
      assert n.y.out[0] == P.Settings(Sizes(f.payload)[0]);
    } else {
      assert n.y.out[0] == P.Update(f.header.streamId, Increment(f.payload));
    }
    assert Simulated(n, m, P.Receive(0));
  }

  /** What a frame that is taken whole does to the windows; it makes the engine write nothing. */
  lemma AtomicFlow(s: Core, server: bool, h: FrameHeader, chunk: seq<byte>, after: Core)
    requires AfterCallback(s, server, OnChunk(h, chunk, |chunk|), after) && Atomic(h.kind) && chunk != []
    requires h.kind == WINDOW_UPDATE ==> |chunk| == 4 && Increment(chunk) >= 1
    ensures after.out == s.out && Replies(s, OnChunk(h, chunk, |chunk|)) == []
    ensures h.kind == GOAWAY ==> after.flow == s.flow
    ensures h.kind == SETTINGS ==> after.flow == AfterSizes(s.flow, Sizes(chunk))
    ensures h.kind == WINDOW_UPDATE ==> after.flow == AfterUpdate(s.flow, h.streamId, Increment(chunk))
  {
    hide SizeEvents, UpdateEvents, Increment, AfterSizes, AfterGoaway, AfterUpdate, Sizes;
    if h.kind == GOAWAY {
      GoawayKeeps(s, h, chunk);
    }
  }

  lemma AtomicSimulates(l: Link, h: FrameHeader, chunk: seq<byte>, after: Core)
    requires var act := Hear(OnChunk(h, chunk, |chunk|), after);
             Joined(l) && P.Sane(NetOf(l)) && Can(l, act)
    requires Atomic(h.kind) && chunk != []
    ensures var m := Do(l, Hear(OnChunk(h, chunk, |chunk|), after));
            Joined(m) && Simulates(NetOf(l), NetOf(m))
  {
    hide Honest, AllMessages, FramesBytes, LegalLog, Replay, InFlight, Linked, Replies, AfterCallback, EndedBy,
      AfterSizes, AfterUpdate, Sizes, Increment, P.Sane, Messages;
    var cb, n, p := OnChunk(h, chunk, |chunk|), NetOf(l), Replay(l.x.log);
    WholeChunk(l, h, chunk, after);
    if h.kind == WINDOW_UPDATE {
      HonestCredit(l.y.sent[|p.done|]);
    }
    NoMessages();
    AtomicFlow(l.x.core, l.x.server, h, chunk, after);
    assert n.x.out + [] == n.x.out && l.x.core.out + [] == l.x.core.out;
    HearingJoins(l, cb, after);
    EndedMore(l.x.log, cb);
    assert EndedBy(l.x.log) + {} == EndedBy(l.x.log);
    var f, rest := l.y.sent[|p.done|], InFlight(l.y.sent, Replay(l.x.log + [cb]));
    if h.kind == GOAWAY {
      GoawayIsSilent(f);
      assert [] + rest == rest;
    } else {
      CreditSimulates(n, f, rest, after.flow);
    }
  }

  lemma HonestCredit(f: Frame)
    requires Honest(f) && f.header.kind == WINDOW_UPDATE
    ensures |f.payload| == 4 && Increment(f.payload) >= 1
  {
  }

  lemma GoawayIsSilent(f: Frame)
    requires f.header.kind == GOAWAY
    ensures Messages(f, 0) == []
  {
  }

  lemma GoawayKeeps(s: Core, h: FrameHeader, chunk: seq<byte>)
    requires |chunk| >= h.length
    ensures AfterGoaway(s, h, chunk).flow == s.flow && AfterGoaway(s, h, chunk).out == s.out
  {
    hide FromBe32;
  }

  lemma HeadersTrack(s: Core, server: bool, h: FrameHeader, chunk: seq<byte>, after: Core) returns (known: bool)
    requires AfterCallback(s, server, OnChunk(h, chunk, |chunk|), after) && h.kind == HEADERS && chunk != []
    ensures after.flow == s.flow.Heard(h.streamId, known) && after.out == s.out
    ensures Replies(s, OnChunk(h, chunk, |chunk|)) == []
  {
    var entry := s.flow.Entry(h.streamId);
    known := entry.known || (server && !entry.known);
  }

  /** HEADERS track their stream and mean nothing else to flow control. */
  lemma HeadersSimulates(l: Link, h: FrameHeader, chunk: seq<byte>, after: Core)
    requires var act := Hear(OnChunk(h, chunk, |chunk|), after);
             Joined(l) && P.Sane(NetOf(l)) && Can(l, act)
    requires h.kind == HEADERS && chunk != []
    ensures var m := Do(l, Hear(OnChunk(h, chunk, |chunk|), after));
            Joined(m) && Simulates(NetOf(l), NetOf(m))
  {
    hide Honest, AllMessages, FramesBytes, LegalLog, Replay, InFlight, Linked, Replies, AfterCallback, EndedBy;
    var cb, n, p := OnChunk(h, chunk, |chunk|), NetOf(l), Replay(l.x.log);
    var known := HeadersTrack(l.x.core, l.x.server, h, chunk, after);
    HearingIsLinked(l, cb, after);
    HonestIsValid(l.y.sent);
    NoMessages();
    assert n.x.out + [] == n.x.out && l.x.core.out + [] == l.x.core.out;
    HearingJoins(l, cb, after);
    EndedMore(l.x.log, cb);
    assert EndedBy(l.x.log) + {} == EndedBy(l.x.log);
    ChunkTakes(l.y.sent, p, cb);
    assert Simulated(n, NetOf(Do(l, Hear(cb, after))), P.Headers(h.streamId, known));
  }

  lemma ChunkSimulates(l: Link, h: FrameHeader, chunk: seq<byte>, taken: nat, after: Core)
    requires var act := Hear(OnChunk(h, chunk, taken), after);
             Joined(l) && P.Sane(NetOf(l)) && P.Balance(NetOf(l)) && Can(l, act)
    ensures var m := Do(l, Hear(OnChunk(h, chunk, taken), after));
            Joined(m) && Simulates(NetOf(l), NetOf(m))
  {
    hide Honest, AllMessages, LegalLog, Replay, InFlight, Linked, AfterChunk, P.Balance, P.Sane, Messages, Replies, EndedBy;
    KindIs(l, h, chunk, taken, after);
    if taken == 0 {
      RefusedSimulates(l, h, chunk, after);
    } else if h.kind == DATA {
      DataSimulates(l, h, chunk, after);
    } else if h.kind == HEADERS {
      HeadersSimulates(l, h, chunk, after);
    } else {
      AtomicSimulates(l, h, chunk, after);
    }
  }

  lemma KindIs(l: Link, h: FrameHeader, chunk: seq<byte>, taken: nat, after: Core)
    requires Joined(l) && Can(l, Hear(OnChunk(h, chunk, taken), after))
    ensures taken == 0 || taken == |chunk|
    ensures h.kind == DATA || h.kind == HEADERS || Atomic(h.kind)
  {
    hide AllMessages, LegalLog, Replay, InFlight, Linked, AfterChunk, Messages;
    HearingIsLinked(l, OnChunk(h, chunk, taken), after);
    HonestIsValid(l.y.sent);
    ChunkTakes(l.y.sent, Replay(l.x.log), OnChunk(h, chunk, taken));
    assert l.y.sent[|Replay(l.x.log).done|] in l.y.sent;
  }

  // ---- Runs -----------------------------------------------------------------

  /** What holds of a link: it is a balanced state of the protocol, and nobody has reported a fault. */
  ghost predicate Secure(l: Link) {
    && Joined(l) && P.Sane(NetOf(l)) && P.Balance(NetOf(l))
    && FlowFaults.Sound(l.x.core) && FlowFaults.Sound(l.y.core)
  }

  lemma SimulationBalances(n: P.Net, m: P.Net)
    requires P.Sane(n) && P.Balance(n) && Simulates(n, m)
    ensures P.Sane(m) && P.Balance(m)
  {
    hide P.Balance, P.Next, P.Sane, P.Allowed;
    if m != n {
      var act :| Simulated(n, m, act);
      P.NextBalances(n, act);
      P.BalanceIsSane(m);
    }
  }

  /** Whatever one end does, in whatever pieces it hears, is a step of the protocol or none. */
  lemma DoSimulates(l: Link, act: Act)
    requires Joined(l) && P.Sane(NetOf(l)) && P.Balance(NetOf(l)) && Can(l, act)
    ensures Joined(Do(l, act)) && Simulates(NetOf(l), NetOf(Do(l, act)))
  {
    hide Joined, Can, Do, Simulates, P.Balance, P.Sane;
    match act
    case Send(id, payload, endStream) => SendSimulates(l, id, payload, endStream);
    case Write(f) =>
      WriteSimulates(l, f);
      SameSimulates(NetOf(l), NetOf(Do(l, act)));
    case Open(id) => OpenSimulates(l, id);
    case Hear(cb, after) =>
      match cb {
        case OnHeader(h) => HeaderSimulates(l, h, after);
        case OnChunk(h, chunk, taken) => ChunkSimulates(l, h, chunk, taken, after);
      }
  }

  lemma SameSimulates(n: P.Net, m: P.Net)
    requires m == n
    ensures Simulates(n, m)
  {
  }

  lemma DoStaysSound(l: Link, act: Act)
    requires FlowFaults.Sound(l.x.core) && Can(l, act)
    ensures FlowFaults.Sound(Do(l, act).x.core)
  {
    hide FlowFaults.Sound, LegalLog, Replay, Accounted, AfterCallback, DataFrame;
    var s := l.x.core;
    match act
    case Send(id, payload, endStream) =>
      var out := s.out + FrameBytes(DataFrame(id, payload, endStream));
      FlowFaults.CallsSound(s, id, |payload|, out, 0);
    case Write(f) =>
      FlowFaults.CallsSound(s, 0, 0, s.out + FrameBytes(f), 0);
      assert s.events[0..] == s.events;
    case Open(id) =>
      FlowFaults.CallsSound(s, id, 0, s.out, 0);
    case Hear(cb, after) =>
      FlowFaults.CallbackSound(s, l.x.server, cb, after);
  }

  lemma DoSecure(l: Link, act: Act)
    requires Secure(l) && Can(l, act)
    ensures Secure(Do(l, act))
  {
    hide Joined, Can, Do, Simulates, P.Balance, P.Sane, FlowFaults.Sound;
    DoSimulates(l, act);
    SimulationBalances(NetOf(l), NetOf(Do(l, act)));
    DoStaysSound(l, act);
    OtherUntouched(l, act);
  }

  lemma OtherUntouched(l: Link, act: Act)
    ensures Do(l, act).y == l.y
  {
  }

  lemma SwapSecure(l: Link)
    requires Secure(l)
    ensures Secure(l.Swap())
  {
    hide Heard, EndOf, P.Conserved, P.SaneOut, FlowFaults.Sound;
    assert NetOf(l.Swap()) == NetOf(l).Swap();
  }

  /** One end acts. */
  datatype Move = Move(byX: bool, act: Act)

  function View(l: Link, m: Move): Link {
    if m.byX then l else l.Swap()
  }

  function After(l: Link, m: Move): Link {
    if m.byX then Do(l, m.act) else Do(l.Swap(), m.act).Swap()
  }

  ghost predicate IsRun(l: Link, moves: seq<Move>) {
    moves == [] || (IsRun(l, moves[..|moves| - 1]) && Can(View(Run(l, moves[..|moves| - 1]), moves[|moves| - 1]), moves[|moves| - 1].act))
  }

  function Run(l: Link, moves: seq<Move>): Link {
    if moves == [] then l else After(Run(l, moves[..|moves| - 1]), moves[|moves| - 1])
  }

  /** The settings an engine starts with: its initial window size, set once or not at all. */
  predicate Opening(settings: seq<Setting>, initial: uint32) {
    && DEFAULT_WINDOW <= initial < 0x8000_0000
    && (settings == [Setting(INITIAL_WINDOW_SIZE, initial)] || (settings == [] && initial == DEFAULT_WINDOW))
  }

  /** An engine that has written its SETTINGS and heard nothing. */
  function Start(server: bool, settings: seq<Setting>, initial: uint32): Side {
    var frames := OpeningFrames(settings, initial);
    Side(server, Core(FreshFlow(initial), [], FramesBytes(frames), None), [], frames)
  }

  lemma OpeningMeans(settings: seq<Setting>, initial: uint32)
    requires Opening(settings, initial)
    ensures forall f :: f in OpeningFrames(settings, initial) ==> Honest(f)
    ensures AllMessages(OpeningFrames(settings, initial)) == P.Fresh(initial).out
  {
    hide AllMessages, Messages;
    var first := SettingsFrame(settings, false);
    SettingsMean(settings, initial);
    MessagesOne(first);
    if initial > DEFAULT_WINDOW {
      var second := WindowUpdateFrame(0, initial - DEFAULT_WINDOW);
      MessagesConcat([first], [second]);
      GrantsMean(0, Some(initial - DEFAULT_WINDOW));
    } else {
      assert [first] + [] == [first];
      assert [P.Settings(initial)] + [] == [P.Settings(initial)];
    }
  }

  lemma SettingsMean(settings: seq<Setting>, initial: uint32)
    requires Opening(settings, initial)
    ensures var f := SettingsFrame(settings, false); Honest(f) && Messages(f, 0) == [P.Settings(initial)]
  {
    hide SettingsBytes, Sizes;
    SettingsComeBack(settings);
    SettingsEnd(settings);
    assert Announced(settings) == if settings == [] then [] else [initial] by {
      if settings != [] {
        assert settings[1..] == [];
      }
    }
  }

  lemma NothingHeard(server: bool, settings: seq<Setting>, initial: uint32)
    requires Opening(settings, initial)
    ensures LegalLog([]) && Replay([]) == Progress([], None)
    ensures var x := Start(server, settings, initial);
            Linked(Replay([]), x.sent) && InFlight(x.sent, Replay([])) == P.Fresh(initial).out && EndedBy([]) == {}
  {
    OpeningMeans(settings, initial);
    hide AllMessages;
    assert Start(server, settings, initial).sent[0..] == Start(server, settings, initial).sent;
  }

  /** Two engines that have just written their SETTINGS. */
  lemma StartSecure(settings: seq<Setting>, a: uint32, settings': seq<Setting>, b: uint32)
    requires Opening(settings, a) && Opening(settings', b)
    ensures Secure(Link(Start(false, settings, a), Start(true, settings', b)))
  {
    hide Honest, InFlight, OpeningFrames, FramesBytes, P.Fresh, P.Conserved, FreshFlow, Balanced;
    var l := Link(Start(false, settings, a), Start(true, settings', b));
    NothingHeard(false, settings, a);
    NothingHeard(true, settings', b);
    OpeningMeans(settings, a);
    OpeningMeans(settings', b);
    FreshIs(a);
    FreshIs(b);
    assert NetOf(l) == P.Net(P.Fresh(a), P.Fresh(b));
    P.FreshConserved(a, b);
    P.FreshConserved(b, a);
    P.BalanceIsSane(NetOf(l));
    FreshSound(l.x.core, a);
    FreshSound(l.y.core, b);
  }

  lemma FreshIs(a: uint32)
    ensures P.Fresh(a) == P.End(FreshFlow(a), P.Fresh(a).out, {})
  {
  }

  lemma FreshSound(s: Core, initial: uint32)
    requires DEFAULT_WINDOW <= initial < 0x8000_0000 && s.flow == FreshFlow(initial) && s.events == []
    ensures FlowFaults.Sound(s)
  {
    FreshBalanced(initial);
  }

  /** In every state two engines can reach over octet channels. */
  lemma {:induction false} AlwaysSecure(
    settings: seq<Setting>, a: uint32, settings': seq<Setting>, b: uint32, moves: seq<Move>)
    requires Opening(settings, a) && Opening(settings', b)
    requires IsRun(Link(Start(false, settings, a), Start(true, settings', b)), moves)
    ensures Secure(Run(Link(Start(false, settings, a), Start(true, settings', b)), moves))
  {
    hide Secure, Can, Do, Start;
    var start := Link(Start(false, settings, a), Start(true, settings', b));
    if moves == [] {
      StartSecure(settings, a, settings', b);
    } else {
      var front, m := moves[..|moves| - 1], moves[|moves| - 1];
      AlwaysSecure(settings, a, settings', b, front);
      var l := Run(start, front);
      if m.byX {
        DoSecure(l, m.act);
      } else {
        SwapSecure(l);
        DoSecure(l.Swap(), m.act);
        SwapSecure(Do(l.Swap(), m.act));
      }
    }
  }

  /** No engine that talks to another ever reports a flow-control error. */
  lemma NoFlowControlError(
    settings: seq<Setting>, a: uint32, settings': seq<Setting>, b: uint32, moves: seq<Move>)
    requires Opening(settings, a) && Opening(settings', b)
    requires IsRun(Link(Start(false, settings, a), Start(true, settings', b)), moves)
    ensures var l := Run(Link(Start(false, settings, a), Start(true, settings', b)), moves);
            && ConnectionError(FlowControlFault) !in l.x.core.events
            && ConnectionError(FlowControlFault) !in l.y.core.events
  {
    hide Run, IsRun, Joined, P.Sane, P.Balance, Start;
    AlwaysSecure(settings, a, settings', b, moves);
  }

  /** Everything one end has written has been handled by the other. */
  ghost predicate AllHeard(x: Side, y: Side) {
    LegalLog(y.log) && Replay(y.log) == Progress(x.sent, None)
  }

  /**
   Progress: when each end has handled all that the other has written, each has more than
   half of the other's grant to send, on the connection and on every stream it has not ended.
   */
  lemma AllHeardMeansWritable(l: Link, id: uint32)
    requires Secure(l) && AllHeard(l.x, l.y) && AllHeard(l.y, l.x)
    ensures l.x.core.flow.connSend > l.y.core.flow.initial / 2
    ensures id != 0 && id !in EndedBy(l.y.log) ==> l.x.core.flow.Entry(id).send > l.y.core.flow.initial / 2
  {
    hide P.Balance, P.Sane, Heard, FlowFaults.Sound;
    P.QuietMeansWritable(NetOf(l), id);
  }
}
