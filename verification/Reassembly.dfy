/**
 Reassembly: what the engine has been given, frame by frame, whatever the reads were.
 SETTINGS, GOAWAY and WINDOW_UPDATE frames are handled once each, in order, with their
 whole payload; the DATA of a stream is passed on octet for octet.
 */
module Reassembly {
  import opened Bits
  import opened Wrappers
  import opened Frames
  import opened FlowControl
  import opened FrameParsers
  import opened Http2Core

  /** A chunk of which the engine took what it takes. */
  ghost predicate AsAnswered(cb: Callback) {
    cb.OnChunk? ==> cb.taken == Accept(cb.h, cb.offered)
  }

  ghost predicate AllAnswered(log: seq<Callback>) {
    forall cb :: cb in log ==> AsAnswered(cb)
  }

  /** No chunk is larger than the engine's buffer. */
  ghost predicate AllFit(log: seq<Callback>) {
    forall cb :: cb in log ==> Offers(cb, MAX_CHUNK)
  }

  lemma LogHonours(log: seq<Callback>, seen: nat, limit: nat)
    requires seen <= |log| && AllAnswered(log[..seen]) && AllFit(log[..seen])
    requires AllHonour(log, seen, Answer, limit) && limit <= MAX_CHUNK
    ensures AllAnswered(log) && AllFit(log)
  {
    forall cb | cb in log
      ensures AsAnswered(cb) && Offers(cb, MAX_CHUNK)
    {
      var i :| 0 <= i < |log| && log[i] == cb;
      if i < seen {
        assert log[..seen][i] == cb;
      } else {
        assert Honours(log, i, Answer);
      }
    }
  }

  lemma {:induction false} LegalChunks(log: seq<Callback>)
    requires LegalLog(log)
    ensures forall cb :: cb in log && cb.OnChunk? ==> cb.offered != []
  {
    if log != [] {
      LegalChunks(log[..|log| - 1]);
      assert log == log[..|log| - 1] + [log[|log| - 1]];
    }
  }

  /** The last chunk refused: its frame is untouched, and goes on beyond what was offered. */
  lemma StalledAfter(log: seq<Callback>)
    requires LegalLog(log) && AllAnswered(log) && log != []
    requires var cb := log[|log| - 1]; cb.OnChunk? && cb.taken < |cb.offered|
    ensures var cb := log[|log| - 1];
            && cb.taken == 0 && Atomic(cb.h.kind) && |cb.offered| < cb.h.length
            && Replay(log).current.Some? && Replay(log).current.value.payload == []
  {
    HandledOnce(log);
    assert AsAnswered(log[|log| - 1]);
  }

  // ---- Frames that are only taken whole -------------------------------------

  /** The payloads handed to the SETTINGS, GOAWAY and WINDOW_UPDATE handlers, in order. */
  function Handled(log: seq<Callback>): seq<Frame> {
    if log == [] then []
    else
      var cb := log[|log| - 1];
      Handled(log[..|log| - 1])
      + if cb.OnChunk? && Atomic(cb.h.kind) && cb.taken > 0 then [Frame(cb.h, cb.offered)] else []
  }

  /** The frames of those kinds that have a payload. */
  function AtomicFrames(frames: seq<Frame>): seq<Frame> {
    if frames == [] then []
    else
      var f := frames[|frames| - 1];
      AtomicFrames(frames[..|frames| - 1]) + if Atomic(f.header.kind) && f.header.length > 0 then [f] else []
  }

  /** The current frame, if of such a kind, has had nothing taken yet. */
  ghost predicate Untouched(p: Progress) {
    p.current.Some? && Atomic(p.current.value.header.kind) ==> p.current.value.payload == []
  }

  lemma HandledStep(p: Progress, cb: Callback)
    requires Legal(p, cb) && AsAnswered(cb) && Untouched(p)
    ensures Untouched(After(p, cb))
    ensures AtomicFrames(After(p, cb).done) == AtomicFrames(p.done)
              + if cb.OnChunk? && Atomic(cb.h.kind) && cb.taken > 0 then [Frame(cb.h, cb.offered)] else []
  {
    if cb.OnChunk? && Atomic(cb.h.kind) {
      assert [] + cb.offered[..cb.taken] == cb.offered[..cb.taken];
      if cb.taken > 0 {
        assert cb.offered[..cb.taken] == cb.offered;
      }
    }
    var more := After(p, cb).done;
    if |more| > |p.done| {
      assert more[..|more| - 1] == p.done;
    } else {
      assert AtomicFrames(p.done) + [] == AtomicFrames(p.done);
    }
  }

  /** Each complete frame is handled exactly once, whole and in order; nothing else is. */
  lemma {:induction false} HandledOnce(log: seq<Callback>)
    requires LegalLog(log) && AllAnswered(log)
    ensures Handled(log) == AtomicFrames(Replay(log).done)
    ensures Untouched(Replay(log))
  {
    hide Legal, After;
    if log != [] {
      HandledOnce(log[..|log| - 1]);
      HandledStep(Replay(log[..|log| - 1]), log[|log| - 1]);
    }
  }

  // ---- DATA -----------------------------------------------------------------

  predicate IsData(h: FrameHeader, id: uint32) {
    h.kind == DATA && h.streamId == id
  }

  /** DATA octets taken for a stream. */
  function Taken(log: seq<Callback>, id: uint32): seq<byte> {
    if log == [] then []
    else
      var cb := log[|log| - 1];
      Taken(log[..|log| - 1], id) + if cb.OnChunk? && IsData(cb.h, id) then cb.offered[..Min(cb.taken, |cb.offered|)] else []
  }

  function StreamData(frames: seq<Frame>, id: uint32): seq<byte> {
    if frames == [] then []
    else
      var f := frames[|frames| - 1];
      StreamData(frames[..|frames| - 1], id) + if IsData(f.header, id) then f.payload else []
  }

  /** Of the frames complete and the one under way. */
  function ArrivedData(p: Progress, id: uint32): seq<byte> {
    StreamData(p.done, id) + match p.current case Some(f) => if IsData(f.header, id) then f.payload else [] case None => []
  }

  lemma ArrivedCompleted(p: Progress, f: Frame, id: uint32)
    ensures ArrivedData(Completed(p, f), id) == StreamData(p.done, id) + if IsData(f.header, id) then f.payload else []
  {
    assert (p.done + [f])[..|p.done|] == p.done;
  }

  lemma TakenStep(p: Progress, cb: Callback, id: uint32)
    requires Legal(p, cb)
    ensures ArrivedData(After(p, cb), id) == ArrivedData(p, id)
              + if cb.OnChunk? && IsData(cb.h, id) then cb.offered[..Min(cb.taken, |cb.offered|)] else []
  {
    match cb
    case OnHeader(h) =>
      ArrivedCompleted(p, Frame(h, []), id);
      assert ArrivedData(p, id) == StreamData(p.done, id) + [];
    case OnChunk(h, offered, taken) =>
      var f := p.current.value;
      ArrivedCompleted(p, Frame(h, f.payload + offered[..taken]), id);
      assert ArrivedData(p, id) == StreamData(p.done, id) + if IsData(f.header, id) then f.payload else [];
  }

  lemma {:induction false} TakenIsArrived(log: seq<Callback>, id: uint32)
    requires LegalLog(log)
    ensures Taken(log, id) == ArrivedData(Replay(log), id)
  {
    hide Legal, After;
    if log == [] {
      assert ArrivedData(Progress([], None), id) == [];
    } else {
      TakenIsArrived(log[..|log| - 1], id);
      TakenStep(Replay(log[..|log| - 1]), log[|log| - 1], id);
    }
  }

  /** The DATA octets reported to the application for a stream. */
  function Reported(events: seq<Event>, id: uint32): seq<byte> {
    if events == [] then []
    else
      var e := events[|events| - 1];
      Reported(events[..|events| - 1], id) + if e.DataReceived? && e.id == id then e.data else []
  }

  lemma ReportedLast(events: seq<Event>, id: uint32)
    requires events != []
    ensures var e := events[|events| - 1];
            Reported(events, id) == Reported(events[..|events| - 1], id) + if e.DataReceived? && e.id == id then e.data else []
  {
  }

  lemma {:induction false} ReportedConcat(a: seq<Event>, b: seq<Event>, id: uint32)
    ensures Reported(a + b, id) == Reported(a, id) + Reported(b, id)
  {
    if b == [] {
      assert a + b == a;
    } else {
      var front := b[..|b| - 1];
      ReportedConcat(a, front, id);
      assert (a + b)[..|a + b| - 1] == a + front && (a + b)[|a + b| - 1] == b[|b| - 1];
      hide Reported;
      ReportedLast(a + b, id);
      ReportedLast(b, id);
    }
  }

  lemma {:induction false} QuietEvents(events: seq<Event>, id: uint32)
    requires forall e :: e in events ==> !e.DataReceived?
    ensures Reported(events, id) == []
  {
    if events != [] {
      QuietEvents(events[..|events| - 1], id);
    }
  }

  /** Only wake-ups. */
  ghost predicate OnlyWakes(events: seq<Event>) {
    forall e :: e in events ==> e.StreamWindow?
  }

  lemma WakesAreWakes(added: seq<Event>, ids: set<uint32>)
    requires Wakes(added, ids)
    ensures OnlyWakes(added)
  {
  }

  lemma OnlyWakesConcat(events: seq<Event>, n: nat)
    requires n <= |events| && OnlyWakes(events[..n]) && OnlyWakes(events[n..])
    ensures OnlyWakes(events)
  {
    forall e | e in events
      ensures e.StreamWindow?
    {
      assert events == events[..n] + events[n..];
    }
  }

  lemma {:induction false} SizesAreQuiet(f: Flow, sizes: seq<uint32>, added: seq<Event>)
    requires SizeEvents(f, sizes, added)
    ensures OnlyWakes(added)
  {
    hide Risen, Wakes, OnlyWakes, AfterSizes;
    if sizes == [] {
      OnlyNothing();
    } else {
      var front := sizes[..|sizes| - 1];
      var n := |added| - |Risen(AfterSizes(f, front), sizes[|sizes| - 1])|;
      SizesAreQuiet(f, front, added[..n]);
      WakesAreWakes(added[n..], Risen(AfterSizes(f, front), sizes[|sizes| - 1]));
      OnlyWakesConcat(added, n);
    }
  }

  lemma OnlyNothing()
    ensures OnlyWakes([])
  {
  }

  /** Everything a callback adds to the queue besides DATA. */
  ghost predicate QuietStep(s: Core, s': Core) {
    s.events <= s'.events && forall e :: e in s'.events[|s.events|..] ==> !e.DataReceived?
  }

  lemma OtherChunksAreQuiet(s: Core, server: bool, h: FrameHeader, chunk: seq<byte>, s': Core)
    requires Atomic(h.kind) ==> |chunk| >= h.length
    requires AfterChunk(s, server, h, chunk, s') && h.kind != DATA
    ensures QuietStep(s, s')
  {
    hide AfterSizes, FromBe32, Increment, AfterUpdate;
    if h.kind == SETTINGS {
      SizesAreQuiet(s.flow, Sizes(chunk), s'.events[|s.events|..]);
    } else if h.kind == WINDOW_UPDATE && |chunk| >= 4 && Increment(chunk) != 0 {
      UpdateIsQuiet(s.flow, h.streamId, Increment(chunk), s'.events[|s.events|..]);
    }
  }

  lemma UpdateIsQuiet(f: Flow, id: uint32, increment: nat, added: seq<Event>)
    requires UpdateEvents(f, id, increment, added)
    ensures forall e :: e in added ==> !e.DataReceived?
  {
    if added != [] {
      assert added == [added[0]] + added[1..];
    }
  }

  lemma DataReported(s: Core, h: FrameHeader, chunk: seq<byte>, id: uint32)
    ensures Reported(AfterData(s, h, chunk).events, id)
         == Reported(s.events, id) + if h.streamId == id then chunk else []
  {
    hide AfterReceive, AfterEnd;
    var e := DataReceived(h.streamId, chunk);
    var after := AfterData(s, h, chunk).events;
    var rest := after[|s.events| + 1..];
    assert after == s.events + [e] + rest;
    QuietEvents(rest, id);
    ReportedConcat(s.events + [e], rest, id);
    ReportedConcat(s.events, [e], id);
    assert [e][..0] == [];
  }

  lemma CallbackReports(s: Core, server: bool, cb: Callback, s': Core, id: uint32)
    requires AfterCallback(s, server, cb, s')
    ensures Reported(s'.events, id) == Reported(s.events, id)
              + if cb.OnChunk? && IsData(cb.h, id) then cb.offered[..Min(cb.taken, |cb.offered|)] else []
  {
    hide AfterChunk, AfterData;
    if cb.OnChunk? && cb.taken > 0 && cb.h.kind == DATA {
      assert s' == AfterData(s, cb.h, cb.offered) by { ChunkIsData(s, server, cb.h, cb.offered, s'); }
      DataReported(s, cb.h, cb.offered, id);
      assert cb.offered[..|cb.offered|] == cb.offered;
    } else {
      if cb.OnChunk? && cb.taken > 0 {
        OtherChunksAreQuiet(s, server, cb.h, cb.offered, s');
      }
      assert QuietStep(s, s');
      QuietEvents(s'.events[|s.events|..], id);
      ReportedConcat(s.events, s'.events[|s.events|..], id);
      assert s'.events == s.events + s'.events[|s.events|..];
    }
  }

  lemma ChunkIsData(s: Core, server: bool, h: FrameHeader, chunk: seq<byte>, s': Core)
    requires h.kind == DATA && AfterChunk(s, server, h, chunk, s')
    ensures s' == AfterData(s, h, chunk)
  {
  }

  /** The application is told every DATA octet the parser took, once and in order. */
  lemma {:induction false} DataReachesApplication(s: Core, server: bool, log: seq<Callback>, s': Core, id: uint32)
    requires Reaches(s, server, log, s')
    ensures Reported(s'.events, id) == Reported(s.events, id) + Taken(log, id)
  {
    hide AfterCallback;
    if log == [] {
      assert Reported(s.events, id) + [] == Reported(s.events, id);
    } else {
      var front := log[..|log| - 1];
      var m :| Reaches(s, server, front, m) && AfterLast(m, server, log, s');
      DataReachesApplication(s, server, front, m, id);
      hide Reaches;
      var cb := log[|log| - 1];
      CallbackReports(m, server, cb, s', id);
      var more := if cb.OnChunk? && IsData(cb.h, id) then cb.offered[..Min(cb.taken, |cb.offered|)] else [];
      assert Taken(log, id) == Taken(front, id) + more;
      hide *;
      assert Reported(s.events, id) + Taken(front, id) + more == Reported(s.events, id) + (Taken(front, id) + more);
    }
  }

  // ---- Independence of the reads --------------------------------------------

  /** A parser's log, the header octets it holds, and the input kept for later. */
  ghost predicate Consistent(log: seq<Callback>, seen: seq<byte>, kept: seq<byte>) {
    && LegalLog(log) && AllAnswered(log) && Holds(Replay(log), seen)
    && (kept != [] ==>
          && Replay(log).current.Some?
          && Atomic(Replay(log).current.value.header.kind)
          && |kept| < Replay(log).current.value.header.length)
  }

  ghost function Everything(log: seq<Callback>, seen: seq<byte>, kept: seq<byte>): seq<byte>
    requires LegalLog(log)
  {
    Accounted(Replay(log), seen) + kept
  }

  lemma UnfinishedIsPartial(log: seq<Callback>, seen: seq<byte>, kept: seq<byte>)
    requires Consistent(log, seen, kept)
    ensures Partial(Rest(Replay(log), seen) + kept)
  {
    ReplaySound(log);
    HandledOnce(log);
    RestIsPartial(Replay(log), seen);
    if kept != [] {
      var f := Replay(log).current.value;
      assert (FrameBytes(f) + kept)[..9] == HeaderBytes(f.header);
      HeaderInverse(f.header);
    } else {
      assert Rest(Replay(log), seen) + kept == Rest(Replay(log), seen);
    }
  }

  /** The unfinished octets determine the frame under way, and so the DATA taken from it. */
  lemma UnfinishedData(log: seq<Callback>, seen: seq<byte>, kept: seq<byte>, id: uint32)
    requires Consistent(log, seen, kept)
    ensures var rest := Rest(Replay(log), seen) + kept;
            ArrivedData(Replay(log), id) == StreamData(Replay(log).done, id)
              + if |rest| >= 9 && IsData(ParsedHeader(rest[..9]), id) then rest[9..] else []
  {
    var rest := Rest(Replay(log), seen) + kept;
    if Replay(log).current.Some? {
      var f := Replay(log).current.value;
      assert rest[..9] == HeaderBytes(f.header);
      HeaderInverse(f.header);
      if kept == [] {
        assert rest[9..] == f.payload;
      }
    }
  }

  /**
   However the same input was cut into reads: the same frames, the same SETTINGS, GOAWAY
   and WINDOW_UPDATE payloads handled in the same order, the same DATA on every stream.
   */
  lemma ReadsDoNotMatter(log: seq<Callback>, seen: seq<byte>, kept: seq<byte>,
                         log': seq<Callback>, seen': seq<byte>, kept': seq<byte>, id: uint32)
    requires Consistent(log, seen, kept) && Consistent(log', seen', kept')
    requires Everything(log, seen, kept) == Everything(log', seen', kept')
    ensures Replay(log).done == Replay(log').done
    ensures Handled(log) == Handled(log')
    ensures Taken(log, id) == Taken(log', id)
  {
    hide Partial, ArrivedData, Consistent;
    EverythingIs(log, seen, kept);
    EverythingIs(log', seen', kept');
    var rest, rest' := Rest(Replay(log), seen) + kept, Rest(Replay(log'), seen') + kept';
    UnfinishedIsPartial(log, seen, kept);
    UnfinishedIsPartial(log', seen', kept');
    FramingUnique(Replay(log).done, Replay(log').done, rest, rest');
    HandledOnce(log);
    HandledOnce(log');
    TakenIsArrived(log, id);
    TakenIsArrived(log', id);
    UnfinishedData(log, seen, kept, id);
    UnfinishedData(log', seen', kept', id);
  }

  lemma EverythingIs(log: seq<Callback>, seen: seq<byte>, kept: seq<byte>)
    requires Consistent(log, seen, kept)
    ensures LegalLog(log) && AllAnswered(log) && Sound(Replay(log))
    ensures Everything(log, seen, kept) == FramesBytes(Replay(log).done) + (Rest(Replay(log), seen) + kept)
  {
    ReplaySound(log);
  }
}
