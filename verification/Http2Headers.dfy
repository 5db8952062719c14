/**
 Header lists through the HTTP/2 engine: the blocks it passes on, in the order of their
 frames, are what the peer's HPACK encoder produced, so decoding them gives the lists sent.
 */
module Http2Headers {
  import opened Bits
  import opened Wrappers
  import opened Frames
  import opened FlowControl
  import opened FrameParsers
  import opened Http2Core
  import opened Reassembly
  import HpackTable
  import HpackBlocks

  /** HEADERS frames arrive in one piece each. */
  ghost predicate WholeHeaders(log: seq<Callback>) {
    forall cb :: cb in log ==> Whole(cb)
  }

  ghost predicate Whole(cb: Callback) {
    cb.OnChunk? && cb.h.kind == HEADERS ==> |cb.offered| == cb.h.length
  }

  predicate CarriesBlock(h: FrameHeader) {
    h.kind == HEADERS && EndsHeaders(h) && h.length > 0
  }

  /** The header blocks among complete frames, in order. */
  function HeaderBlocks(frames: seq<Frame>): seq<seq<byte>> {
    if frames == [] then []
    else
      var f := frames[|frames| - 1];
      HeaderBlocks(frames[..|frames| - 1]) + if CarriesBlock(f.header) then [f.payload] else []
  }

  /** The header blocks among what was taken. */
  function TakenBlock(cb: Callback): seq<seq<byte>> {
    if cb.OnChunk? && CarriesBlock(cb.h) && cb.taken > 0 then [cb.offered] else []
  }

  function TakenBlocks(log: seq<Callback>): seq<seq<byte>> {
    if log == [] then [] else TakenBlocks(log[..|log| - 1]) + TakenBlock(log[|log| - 1])
  }

  /** The blocks reported to the application. */
  function Blocks(events: seq<Event>): seq<seq<byte>> {
    if events == [] then []
    else
      var e := events[|events| - 1];
      Blocks(events[..|events| - 1]) + if e.HeadersReceived? then [e.block] else []
  }

  // ---- From frames to chunks ------------------------------------------------

  /** Of the frame under way nothing has been taken, if it is a HEADERS frame. */
  ghost predicate NotBegun(p: Progress) {
    p.current.Some? && p.current.value.header.kind == HEADERS ==> p.current.value.payload == []
  }

  lemma BlockStep(p: Progress, cb: Callback)
    requires Legal(p, cb) && AsAnswered(cb) && Whole(cb) && NotBegun(p)
    ensures NotBegun(After(p, cb))
    ensures HeaderBlocks(After(p, cb).done) == HeaderBlocks(p.done) + TakenBlock(cb)
  {
    if cb.OnChunk? && cb.h.kind == HEADERS {
      assert [] + cb.offered[..cb.taken] == cb.offered[..cb.taken] == cb.offered;
    }
    var more := After(p, cb).done;
    if |more| > |p.done| {
      assert more[..|more| - 1] == p.done;
    } else {
      assert HeaderBlocks(p.done) + [] == HeaderBlocks(p.done);
    }
  }

  lemma {:induction false} BlocksTaken(log: seq<Callback>)
    requires LegalLog(log) && AllAnswered(log) && WholeHeaders(log)
    ensures TakenBlocks(log) == HeaderBlocks(Replay(log).done) && NotBegun(Replay(log))
  {
    hide Legal, After, TakenBlock, AsAnswered, Whole;
    if log != [] {
      BlocksTaken(log[..|log| - 1]);
      assert AsAnswered(log[|log| - 1]) && Whole(log[|log| - 1]);
      BlockStep(Replay(log[..|log| - 1]), log[|log| - 1]);
    }
  }

  // ---- From chunks to events ------------------------------------------------

  lemma {:induction false} BlocksConcat(a: seq<Event>, b: seq<Event>)
    ensures Blocks(a + b) == Blocks(a) + Blocks(b)
  {
    if b == [] {
      assert a + b == a;
    } else {
      var front := b[..|b| - 1];
      BlocksConcat(a, front);
      assert (a + b)[..|a + b| - 1] == a + front && (a + b)[|a + b| - 1] == b[|b| - 1];
    }
  }

  lemma {:induction false} NoBlocks(events: seq<Event>)
    requires forall e :: e in events ==> !e.HeadersReceived?
    ensures Blocks(events) == []
  {
    if events != [] {
      NoBlocks(events[..|events| - 1]);
    }
  }

  /** A step that reports no headers. */
  ghost predicate Headerless(s: Core, s': Core) {
    s.events <= s'.events && forall e :: e in s'.events[|s.events|..] ==> !e.HeadersReceived?
  }

  lemma OthersAreHeaderless(s: Core, server: bool, h: FrameHeader, chunk: seq<byte>, s': Core)
    requires Atomic(h.kind) ==> |chunk| >= h.length
    requires AfterChunk(s, server, h, chunk, s') && h.kind != HEADERS
    ensures Headerless(s, s')
  {
    hide AfterSizes, FromBe32, Increment, AfterUpdate, AfterReceive, AfterEnd;
    if h.kind == SETTINGS {
      SizesAreQuiet(s.flow, Sizes(chunk), s'.events[|s.events|..]);
    } else if h.kind == WINDOW_UPDATE && |chunk| >= 4 && Increment(chunk) != 0 {
      UpdateIsHeaderless(s.flow, h.streamId, Increment(chunk), s'.events[|s.events|..]);
    }
  }

  lemma UpdateIsHeaderless(f: Flow, id: uint32, increment: nat, added: seq<Event>)
    requires UpdateEvents(f, id, increment, added)
    ensures forall e :: e in added ==> !e.HeadersReceived?
  {
    if added != [] {
      assert added == [added[0]] + added[1..];
    }
  }

  lemma BlockBetween(events: seq<Event>, first: seq<Event>, second: seq<Event>, third: seq<Event>)
    requires forall e :: e in first + third ==> !e.HeadersReceived?
    ensures Blocks(events + (first + second + third)) == Blocks(events) + Blocks(second)
  {
    hide Blocks;
    BlocksConcat(events, first + second + third);
    BlocksConcat(first + second, third);
    BlocksConcat(first, second);
    NoBlocks(first);
    NoBlocks(third);
  }

  lemma OneBlock(id: uint32, block: seq<byte>)
    ensures Blocks([HeadersReceived(id, block)]) == [block] && Blocks([]) == []
  {
    assert [HeadersReceived(id, block)][..0] == [];
  }

  lemma HeadersReport(s: Core, server: bool, h: FrameHeader, chunk: seq<byte>)
    ensures Blocks(AfterHeaders(s, server, h, chunk).events) == Blocks(s.events) + if EndsHeaders(h) then [chunk] else []
  {
    hide Blocks, EndsHeaders, LowFlag;
    var isNew := server && !s.flow.Entry(h.streamId).known;
    BlockBetween(s.events,
                 if isNew then [NewStream(h.streamId)] else [],
                 if EndsHeaders(h) then [HeadersReceived(h.streamId, chunk)] else [],
                 if LowFlag(h) then [StreamClosed(h.streamId)] else []);
    OneBlock(h.streamId, chunk);
  }

  lemma CallbackBlocks(s: Core, server: bool, cb: Callback, s': Core)
    requires AfterCallback(s, server, cb, s') && Whole(cb)
    ensures Blocks(s'.events) == Blocks(s.events) + TakenBlock(cb)
  {
    hide AfterChunk, AfterHeaders;
    if cb.OnChunk? && cb.taken > 0 && cb.h.kind == HEADERS {
      ChunkIsHeaders(s, server, cb.h, cb.offered, s');
      HeadersReport(s, server, cb.h, cb.offered);
    } else {
      if cb.OnChunk? && cb.taken > 0 {
        OthersAreHeaderless(s, server, cb.h, cb.offered, s');
      }
      assert Headerless(s, s');
      NoBlocks(s'.events[|s.events|..]);
      BlocksConcat(s.events, s'.events[|s.events|..]);
      assert s'.events == s.events + s'.events[|s.events|..];
    }
  }

  lemma ChunkIsHeaders(s: Core, server: bool, h: FrameHeader, chunk: seq<byte>, s': Core)
    requires h.kind == HEADERS && AfterChunk(s, server, h, chunk, s')
    ensures s' == AfterHeaders(s, server, h, chunk)
  {
  }

  lemma {:induction false} BlocksReported(s: Core, server: bool, log: seq<Callback>, s': Core)
    requires Reaches(s, server, log, s') && WholeHeaders(log)
    ensures Blocks(s'.events) == Blocks(s.events) + TakenBlocks(log)
  {
    hide AfterCallback, Whole;
    if log == [] {
      assert Blocks(s.events) + [] == Blocks(s.events);
    } else {
      var front := log[..|log| - 1];
      var m :| Reaches(s, server, front, m) && AfterLast(m, server, log, s');
      BlocksReported(s, server, front, m);
      assert Whole(log[|log| - 1]);
      CallbackBlocks(m, server, log[|log| - 1], s');
      assert Blocks(s.events) + TakenBlocks(front) + TakenBlock(log[|log| - 1]) == Blocks(s.events) + TakenBlocks(log);
    }
  }

  /**
   Header lists reach the application: if the HEADERS frames received carry the blocks of an
   encoder's run, decoding the blocks reported gives exactly the lists of that run and leaves
   the decoder with the encoder's table.
   */
  lemma HeadersReachApplication(
    c: HpackBlocks.Tables, d: HpackTable.DynTable, ms: seq<HpackBlocks.Message>,
    s: Core, server: bool, log: seq<Callback>, s': Core)
    requires c.Valid() && HpackBlocks.Reachable(d) && HpackBlocks.RunFits(c, d, ms)
    requires s.events == [] && LegalLog(log) && WholeHeaders(log) && AllAnswered(log) && Reaches(s, server, log, s')
    requires HeaderBlocks(Replay(log).done) == HpackBlocks.EncodedRun(c, d, ms).0
    ensures HpackBlocks.DecodedRun(c, d, Blocks(s'.events))
         == (HpackBlocks.EncodedRun(c, d, ms).1, Ok(HpackBlocks.SentLists(ms)))
  {
    hide Reaches, WholeHeaders, LegalLog, AllAnswered, HpackBlocks.EncodedRun, HpackBlocks.DecodedRun;
    BlocksTaken(log);
    BlocksReported(s, server, log, s');
    HpackBlocks.RunRoundTrip(c, d, ms);
    assert Blocks([]) == [] && [] + TakenBlocks(log) == TakenBlocks(log);
  }
}
