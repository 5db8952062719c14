/**
 Header lists between two linked HTTP/2 engines: what one end reports is the beginning of
 what the other has sent, whatever else the two exchange.
 */
module LinkedHeaders {
  import opened Bits
  import opened Wrappers
  import opened Frames
  import opened FrameParsers
  import opened Http2Core
  import opened Reassembly
  import opened Http2Headers
  import opened Wire
  import opened TwoEngines
  import HpackTable
  import HpackBlocks

  /** An end has reported the blocks it has taken, if HEADERS frames reached it in one piece each. */
  ghost predicate Reported(x: Side) {
    WholeHeaders(x.log) ==> Blocks(x.core.events) == TakenBlocks(x.log)
  }

  lemma HearReports(x: Side, cb: Callback, after: Core)
    requires Reported(x) && AfterCallback(x.core, x.server, cb, after)
    ensures Reported(x.(core := after, log := x.log + [cb]))
  {
    hide AfterCallback, Whole, TakenBlock, Blocks;
    var log := x.log + [cb];
    if WholeHeaders(log) {
      assert forall c :: c in x.log ==> c in log;
      assert cb in log && log[..|x.log|] == x.log;
      CallbackBlocks(x.core, x.server, cb, after);
    }
  }

  lemma DoReports(l: Link, act: Act)
    requires Reported(l.x) && Can(l, act)
    ensures Reported(Do(l, act).x) && Do(l, act).y == l.y
  {
    hide Reported, LegalLog, Replay, Accounted, AfterCallback, FramesBytes, Replies, DataFrame;
    match act
    case Hear(cb, after) =>
      HearReports(l.x, cb, after);
      SameReported(l.x.(core := after, log := l.x.log + [cb]), Do(l, act).x);
    case _ =>
      SameReported(l.x, Do(l, act).x);
  }

  lemma SameReported(x: Side, y: Side)
    requires Reported(x) && y.log == x.log && y.core.events == x.core.events
    ensures Reported(y)
  {
  }

  lemma {:induction false} AlwaysReported(l: Link, moves: seq<Move>)
    requires IsRun(l, moves) && Reported(l.x) && Reported(l.y)
    ensures Reported(Run(l, moves).x) && Reported(Run(l, moves).y)
  {
    hide Reported, Can, Do;
    if moves != [] {
      var front, m := moves[..|moves| - 1], moves[|moves| - 1];
      AlwaysReported(l, front);
      DoReports(View(Run(l, front), m), m.act);
    }
  }

  /** The blocks of a list of frames begin with those of its beginning. */
  lemma {:induction false} BlocksOfMore(a: seq<Frame>, b: seq<Frame>)
    requires a <= b
    ensures HeaderBlocks(a) <= HeaderBlocks(b)
    decreases |b|
  {
    if a != b {
      assert b[..|b| - 1][..|a|] == a;
      BlocksOfMore(a, b[..|b| - 1]);
    }
  }

  /** What an end has reported are the first blocks the other has written; all, if it has handled all. */
  lemma ReportedIsSent(x: Side, y: Side)
    requires Heard(x, y) && Reported(x) && WholeHeaders(x.log)
    ensures Blocks(x.core.events) <= HeaderBlocks(y.sent)
    ensures AllHeard(y, x) ==> Blocks(x.core.events) == HeaderBlocks(y.sent)
  {
    hide LegalLog, AllAnswered, Honest, Blocks, HeaderBlocks, WholeHeaders, FramesBytes;
    BlocksTaken(x.log);
    BlocksOfMore(Replay(x.log).done, y.sent);
  }

  /**
   Header lists, from the calls on one engine to the events of the other: if all the blocks
   one end has written are an encoder's run, then in every state of the link the blocks the
   other has reported decode to the first of the lists sent, and to all of them once it has
   handled everything.
   */
  lemma ListsReachApplication(
    c: HpackBlocks.Tables, d: HpackTable.DynTable, ms: seq<HpackBlocks.Message>,
    settings: seq<Setting>, a: uint32, settings': seq<Setting>, b: uint32, moves: seq<Move>, byX: bool)
    requires c.Valid() && HpackBlocks.Reachable(d) && HpackBlocks.RunFits(c, d, ms)
    requires Opening(settings, a) && Opening(settings', b)
    requires IsRun(Link(Start(false, settings, a), Start(true, settings', b)), moves)
    requires var l := Run(Link(Start(false, settings, a), Start(true, settings', b)), moves);
             var v := if byX then l else l.Swap();
             HeaderBlocks(v.y.sent) == HpackBlocks.EncodedRun(c, d, ms).0 && WholeHeaders(v.x.log)
    ensures var l := Run(Link(Start(false, settings, a), Start(true, settings', b)), moves);
            var v := if byX then l else l.Swap();
            var blocks := Blocks(v.x.core.events);
            && |blocks| <= |ms| && (AllHeard(v.y, v.x) ==> |blocks| == |ms|)
            && HpackBlocks.DecodedRun(c, d, blocks)
                 == (HpackBlocks.EncodedRun(c, d, ms[..|blocks|]).1, Ok(HpackBlocks.SentLists(ms[..|blocks|])))
  {
    hide IsRun, Run, Start, HpackBlocks.EncodedRun, HpackBlocks.DecodedRun, HpackBlocks.RunFits, HpackBlocks.SentLists;
    hide HpackBlocks.Reachable, Blocks, HeaderBlocks, WholeHeaders, AllHeard;
    var l := Run(Link(Start(false, settings, a), Start(true, settings', b)), moves);
    var v := if byX then l else l.Swap();
    RunReports(settings, a, settings', b, moves, byX);
    HpackBlocks.FirstBlocks(c, d, ms, Blocks(v.x.core.events));
  }

  lemma RunReports(settings: seq<Setting>, a: uint32, settings': seq<Setting>, b: uint32, moves: seq<Move>, byX: bool)
    requires Opening(settings, a) && Opening(settings', b)
    requires IsRun(Link(Start(false, settings, a), Start(true, settings', b)), moves)
    ensures var l := Run(Link(Start(false, settings, a), Start(true, settings', b)), moves);
            var v := if byX then l else l.Swap();
            WholeHeaders(v.x.log) ==>
              && Blocks(v.x.core.events) <= HeaderBlocks(v.y.sent)
              && (AllHeard(v.y, v.x) ==> Blocks(v.x.core.events) == HeaderBlocks(v.y.sent))
  {
    hide IsRun, Run, Reported, Heard, WholeHeaders, HeaderBlocks, AllHeard, Start, P.Sane, P.Balance, NetOf,
      FlowFaults.Sound;
    var start := Link(Start(false, settings, a), Start(true, settings', b));
    AlwaysSecure(settings, a, settings', b, moves);
    StartReports(false, settings, a);
    StartReports(true, settings', b);
    AlwaysReported(start, moves);
    var l := Run(start, moves);
    var v := if byX then l else l.Swap();
    if WholeHeaders(v.x.log) {
      ReportedIsSent(v.x, v.y);
    }
  }

  lemma StartReports(server: bool, settings: seq<Setting>, initial: uint32)
    ensures Reported(Start(server, settings, initial))
  {
  }
}
