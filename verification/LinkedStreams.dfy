/**
 Ends of streams and of connections between two linked HTTP/2 engines: what one end is told
 is what the other has written.
 */
module LinkedStreams {
  import opened Bits
  import opened Frames
  import opened FrameParsers
  import opened Http2Core
  import opened Reassembly
  import opened Http2Streams
  import opened Wire
  import opened TwoEngines

  /** An end has been told the ends and the notices of what its parser has reported. */
  ghost predicate Told(x: Side, id: uint32) {
    && multiset(x.core.events)[StreamClosed(id)] == Ends(x.log, id)
    && Notices(x.core.events) == AllNotices(Handled(x.log))
  }

  lemma CallbackCounts(s: Core, server: bool, cb: Callback, s': Core, id: uint32)
    requires AfterCallback(s, server, cb, s') && (cb.OnChunk? ==> cb.offered != [])
    ensures multiset(s'.events)[StreamClosed(id)] == multiset(s.events)[StreamClosed(id)] + if IsEnd(cb, id) then 1 else 0
  {
    hide AfterCallback, Of, IsEnd;
    var isNew := server && !s.flow.Entry(id).known;
    CallbackSays(s, server, cb, s', id);
    SaysCounted(cb, id, isNew);
    CountOf(s.events, id, StreamClosed(id));
    CountOf(s'.events, id, StreamClosed(id));
  }

  lemma HandledMore(log: seq<Callback>, cb: Callback)
    ensures var more := if cb.OnChunk? && Atomic(cb.h.kind) && cb.taken > 0 then [Frame(cb.h, cb.offered)] else [];
            && Handled(log + [cb]) == Handled(log) + more
            && AllNotices(Handled(log + [cb])) == AllNotices(Handled(log)) + if more == [] then [] else Notice(more[0])
  {
    hide Notice;
    assert (log + [cb])[..|log|] == log;
    if cb.OnChunk? && Atomic(cb.h.kind) && cb.taken > 0 {
      assert (Handled(log) + [Frame(cb.h, cb.offered)])[..|Handled(log)|] == Handled(log);
    } else {
      assert Handled(log) + [] == Handled(log) && AllNotices(Handled(log)) + [] == AllNotices(Handled(log));
    }
  }

  lemma EndsMore(log: seq<Callback>, cb: Callback, id: uint32)
    ensures Ends(log + [cb], id) == Ends(log, id) + if IsEnd(cb, id) then 1 else 0
  {
    assert (log + [cb])[..|log|] == log;
  }

  lemma HearTells(x: Side, cb: Callback, after: Core, id: uint32)
    requires Told(x, id) && AfterCallback(x.core, x.server, cb, after)
    requires cb.OnChunk? ==> cb.offered != [] && |cb.offered| <= cb.h.length
    ensures Told(x.(core := after, log := x.log + [cb]), id)
  {
    hide AfterCallback, Notices, Notice, AllNotices, Handled, IsEnd, Ends;
    CallbackCounts(x.core, x.server, cb, after, id);
    CallbackNotices(x.core, x.server, cb, after);
    HandledMore(x.log, cb);
    EndsMore(x.log, cb, id);
  }

  lemma ChunkIsProper(log: seq<Callback>, cb: Callback)
    requires LegalLog(log + [cb])
    ensures cb.OnChunk? ==> cb.offered != [] && |cb.offered| <= cb.h.length
  {
    LegalIsProper(log + [cb]);
    assert cb in log + [cb];
  }

  lemma SameTold(x: Side, y: Side, id: uint32)
    requires Told(x, id) && y.log == x.log && y.core.events == x.core.events
    ensures Told(y, id)
  {
  }

  lemma DoTells(l: Link, act: Act, id: uint32)
    requires Told(l.x, id) && Can(l, act)
    ensures Told(Do(l, act).x, id) && Do(l, act).y == l.y
  {
    hide Told, LegalLog, Replay, Accounted, AfterCallback, FramesBytes, Replies, DataFrame;
    match act
    case Hear(cb, after) =>
      ChunkIsProper(l.x.log, cb);
      HearTells(l.x, cb, after, id);
      SameTold(l.x.(core := after, log := l.x.log + [cb]), Do(l, act).x, id);
    case _ =>
      SameTold(l.x, Do(l, act).x, id);
  }

  lemma {:induction false} AlwaysTold(l: Link, moves: seq<Move>, id: uint32)
    requires IsRun(l, moves) && Told(l.x, id) && Told(l.y, id)
    ensures Told(Run(l, moves).x, id) && Told(Run(l, moves).y, id)
  {
    hide Told, Can, Do;
    if moves != [] {
      var front, m := moves[..|moves| - 1], moves[|moves| - 1];
      AlwaysTold(l, front, id);
      DoTells(View(Run(l, front), m), m.act, id);
    }
  }

  lemma StartTold(server: bool, settings: seq<Setting>, initial: uint32, id: uint32)
    ensures Told(Start(server, settings, initial), id)
  {
  }

  // ---- What has been written ------------------------------------------------

  lemma {:induction false} NoticesOfMore(a: seq<Frame>, b: seq<Frame>)
    requires a <= b
    ensures AllNotices(AtomicFrames(a)) <= AllNotices(AtomicFrames(b))
    decreases |b|
  {
    hide Notice;
    if a != b {
      var front, f := b[..|b| - 1], b[|b| - 1];
      assert front[..|a|] == a;
      NoticesOfMore(a, front);
      if Atomic(f.header.kind) && f.header.length > 0 {
        assert (AtomicFrames(front) + [f])[..|AtomicFrames(front)|] == AtomicFrames(front);
      } else {
        assert AtomicFrames(front) + [] == AtomicFrames(front);
      }
    }
  }

  /** An END_STREAM that has come was sent. */
  lemma EndWasSent(p: Progress, sent: seq<Frame>, id: uint32)
    requires Linked(p, sent) && EndHasCome(p, id)
    ensures exists f :: f in sent && EndFrame(f, id)
  {
    hide EndsStream;
    if exists f :: f in p.done && EndFrame(f, id) {
      var f :| f in p.done && EndFrame(f, id);
      assert f in sent;
    } else {
      var f := sent[|p.done|];
      assert f in sent && EndFrame(f, id);
    }
  }

  lemma ToldIsSent(x: Side, y: Side, id: uint32)
    requires Heard(x, y) && Told(x, id)
    ensures StreamClosed(id) in x.core.events ==> exists f :: f in y.sent && EndFrame(f, id)
    ensures Notices(x.core.events) <= AllNotices(AtomicFrames(y.sent))
    ensures AllHeard(y, x) ==>
              && (StreamClosed(id) in x.core.events <==> exists f :: f in y.sent && EndFrame(f, id))
              && Notices(x.core.events) == AllNotices(AtomicFrames(y.sent))
  {
    hide LegalLog, AllAnswered, Honest, FramesBytes, EndFrame, Notices, AllNotices, AtomicFrames, Handled, Linked, Ends;
    EndsAreFrames(x.log, id);
    HandledOnce(x.log);
    LinkedIsFirst(Replay(x.log), y.sent);
    NoticesOfMore(Replay(x.log).done, y.sent);
    if EndHasCome(Replay(x.log), id) {
      EndWasSent(Replay(x.log), y.sent, id);
    }
  }

  lemma LinkedIsFirst(p: Progress, sent: seq<Frame>)
    requires Linked(p, sent)
    ensures p.done <= sent
  {
  }

  /**
   From call to event: in every state of two engines, an end of a stream that one reports was
   sent by the other, and once everything is handled every end sent has been reported; and
   the GOAWAYs reported are the first of those sent, all of them once everything is handled.
   */
  lemma EndsReachApplication(
    settings: seq<Setting>, a: uint32, settings': seq<Setting>, b: uint32, moves: seq<Move>, byX: bool, id: uint32)
    requires Opening(settings, a) && Opening(settings', b)
    requires IsRun(Link(Start(false, settings, a), Start(true, settings', b)), moves)
    ensures var l := Run(Link(Start(false, settings, a), Start(true, settings', b)), moves);
            var v := if byX then l else l.Swap();
            && (StreamClosed(id) in v.x.core.events ==> exists f :: f in v.y.sent && EndFrame(f, id))
            && Notices(v.x.core.events) <= AllNotices(AtomicFrames(v.y.sent))
            && (AllHeard(v.y, v.x) ==>
                  && (StreamClosed(id) in v.x.core.events <==> exists f :: f in v.y.sent && EndFrame(f, id))
                  && Notices(v.x.core.events) == AllNotices(AtomicFrames(v.y.sent)))
  {
    hide IsRun, Run, Told, Heard, EndFrame, Notices, AllNotices, AtomicFrames, AllHeard, Start, P.Sane, P.Balance, NetOf,
      FlowFaults.Sound;
    AlwaysSecure(settings, a, settings', b, moves);
    StartTold(false, settings, a, id);
    StartTold(true, settings', b, id);
    AlwaysTold(Link(Start(false, settings, a), Start(true, settings', b)), moves, id);
    var l := Run(Link(Start(false, settings, a), Start(true, settings', b)), moves);
    var v := if byX then l else l.Swap();
    ToldIsSent(v.x, v.y, id);
  }

  /** The frames of calls with `end_stream` end their stream, and no others do. */
  lemma EndsAreWritten(id: uint32, payload: seq<byte>, endStream: bool, i: uint32)
    requires 0 < id < 0x8000_0000
    ensures EndFrame(HeadersFrame(id, payload, true, endStream), i) <==> endStream && i == id
    ensures EndFrame(DataFrame(id, payload, endStream), i) <==> endStream && i == id
    ensures EndsHeaders(HeadersFrame(id, payload, true, endStream).header)
  {
  }
}
