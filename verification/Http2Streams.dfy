/**
 What the HTTP/2 engine tells the application about each stream: its opening, its headers,
 its data, its end and its resets, in order, as the frames themselves say.
 */
module Http2Streams {
  import opened Bits
  import opened Frames
  import opened FlowControl
  import opened FrameParsers
  import opened Http2Core
  import opened Reassembly

  predicate Concerns(e: Event, id: uint32) {
    match e
    case NewStream(i) => i == id
    case HeadersReceived(i, _) => i == id
    case DataReceived(i, _) => i == id
    case StreamClosed(i) => i == id
    case StreamReset(i) => i == id
    case _ => false
  }

  /** The events about one stream. */
  function Of(events: seq<Event>, id: uint32): seq<Event> {
    if events == [] then []
    else Of(events[..|events| - 1], id) + if Concerns(events[|events| - 1], id) then [events[|events| - 1]] else []
  }

  // ---- What the frames say --------------------------------------------------

  /** HEADERS or DATA with END_STREAM (section 6.1 and 6.2 of RFC 7540). */
  predicate EndsStream(h: FrameHeader) {
    (h.kind == 0 || h.kind == 1) && h.flags % 2 == 1
  }

  /**
   What a call-back says about a stream: a header something only if it is the end of it and
   all of its frame, a chunk what it carries. `isNew`: this end does not know the stream yet.
   */
  function Says(cb: Callback, id: uint32, isNew: bool): seq<Event> {
    match cb
    case OnHeader(h) => if h.streamId == id && h.length == 0 && EndsStream(h) then [StreamClosed(id)] else []
    case OnChunk(h, chunk, taken) =>
      if h.streamId != id || taken == 0 then []
      else
        (if h.kind == 0 then [DataReceived(id, chunk)]
         else if h.kind == 1 then
           (if isNew then [NewStream(id)] else []) + (if h.flags / 4 % 2 == 1 then [HeadersReceived(id, chunk)] else [])
         else if h.kind == 3 then [StreamReset(id)]
         else [])
        + (if EndsStream(h) then [StreamClosed(id)] else [])
  }

  /** A server knows a stream from its HEADERS on, until DATA ends it. */
  function Knows(cb: Callback, id: uint32, server: bool, known: bool): bool {
    if !cb.OnChunk? || cb.h.streamId != id || cb.taken == 0 then known
    else if cb.h.kind == 1 then known || server
    else if cb.h.kind == 0 && EndsStream(cb.h) then false
    else known
  }

  function KnownAfter(log: seq<Callback>, id: uint32, server: bool, known: bool): bool {
    if log == [] then known
    else Knows(log[|log| - 1], id, server, KnownAfter(log[..|log| - 1], id, server, known))
  }

  /** The story of a stream, as a log tells it. */
  function Story(log: seq<Callback>, id: uint32, server: bool, known: bool): seq<Event> {
    if log == [] then []
    else
      var front := log[..|log| - 1];
      Story(front, id, server, known) + Says(log[|log| - 1], id, server && !KnownAfter(front, id, server, known))
  }

  // ---- Filtering ------------------------------------------------------------

  lemma {:induction false} OfConcat(a: seq<Event>, b: seq<Event>, id: uint32)
    ensures Of(a + b, id) == Of(a, id) + Of(b, id)
  {
    hide Concerns;
    if b == [] {
      assert a + b == a;
    } else {
      var front := b[..|b| - 1];
      OfConcat(a, front, id);
      assert (a + b)[..|a + b| - 1] == a + front && (a + b)[|a + b| - 1] == b[|b| - 1];
    }
  }

  lemma {:induction false} OfNone(events: seq<Event>, id: uint32)
    requires forall e :: e in events ==> !Concerns(e, id)
    ensures Of(events, id) == []
  {
    if events != [] {
      OfNone(events[..|events| - 1], id);
    }
  }

  lemma {:induction false} OfAll(events: seq<Event>, id: uint32)
    requires forall e :: e in events ==> Concerns(e, id)
    ensures Of(events, id) == events
  {
    hide Concerns;
    if events != [] {
      var front, last := events[..|events| - 1], events[|events| - 1];
      OfAll(front, id);
      assert events == front + [last];
    }
  }

  /** One more event, or perhaps one. */
  lemma OfMore(events: seq<Event>, e: Event, id: uint32)
    ensures Of(events + [e], id) == Of(events, id) + if Concerns(e, id) then [e] else []
  {
    assert (events + [e])[..|events|] == events;
  }

  /** A step that says nothing about the stream and leaves it as known as it was. */
  ghost predicate Silent(s: Core, s': Core, id: uint32) {
    && s.events <= s'.events
    && (forall e :: e in s'.events[|s.events|..] ==> !Concerns(e, id))
    && s'.flow.Entry(id).known == s.flow.Entry(id).known
  }

  lemma SilentSaysNothing(s: Core, s': Core, id: uint32)
    requires Silent(s, s', id)
    ensures Of(s'.events, id) == Of(s.events, id)
  {
    hide Concerns, Of;
    var added := s'.events[|s.events|..];
    assert s'.events == s.events + added;
    OfConcat(s.events, added, id);
    OfNone(added, id);
    assert Of(s.events, id) + [] == Of(s.events, id);
  }

  // ---- One call-back --------------------------------------------------------

  lemma ReceiveKeepsKnown(f: Flow, id: uint32, n: uint32, i: uint32)
    ensures AfterReceive(f, id, n).flow.Entry(i).known == f.Entry(i).known
  {
  }

  lemma FlowIsSilent(s: Core, h: uint32, n: uint32, id: uint32)
    ensures Silent(s, AfterFlow(s, h, n), id)
  {
    hide AfterReceive;
    ReceiveKeepsKnown(s.flow, h, n, id);
  }

  lemma DataSays(s: Core, h: FrameHeader, chunk: seq<byte>, id: uint32)
    requires h.kind == DATA
    ensures var s' := AfterData(s, h, chunk);
            && Of(s'.events, id) == Of(s.events, id)
                 + (if h.streamId != id then []
                    else [DataReceived(id, chunk)] + (if EndsStream(h) then [StreamClosed(id)] else []))
            && s'.flow.Entry(id).known == (if h.streamId == id && EndsStream(h) then false else s.flow.Entry(id).known)
  {
    hide Of, AfterFlow;
    var t := s.Emit([DataReceived(h.streamId, chunk)]);
    OfMore(s.events, DataReceived(h.streamId, chunk), id);
    FlowIsSilent(t, h.streamId, Length32(chunk), id);
    var u := AfterFlow(t, h.streamId, Length32(chunk));
    SilentSaysNothing(t, u, id);
    OfMore(u.events, StreamClosed(h.streamId), id);
  }

  lemma HeadersKnow(s: Core, server: bool, h: FrameHeader, chunk: seq<byte>, id: uint32)
    ensures AfterHeaders(s, server, h, chunk).flow.Entry(id).known
         == (s.flow.Entry(id).known || (h.streamId == id && server))
  {
  }

  lemma HeadersSay(s: Core, server: bool, h: FrameHeader, chunk: seq<byte>, id: uint32)
    requires h.kind == HEADERS && chunk != []
    ensures Of(AfterHeaders(s, server, h, chunk).events, id)
         == Of(s.events, id) + Says(OnChunk(h, chunk, |chunk|), id, server && !s.flow.Entry(id).known)
  {
    hide Of, EndsHeaders, LowFlag;
    var isNew := server && !s.flow.Entry(h.streamId).known;
    var added := (if isNew then [NewStream(h.streamId)] else [])
      + (if EndsHeaders(h) then [HeadersReceived(h.streamId, chunk)] else [])
      + (if LowFlag(h) then [StreamClosed(h.streamId)] else []);
    assert AfterHeaders(s, server, h, chunk).events == s.events + added;
    OfConcat(s.events, added, id);
    FlagsAre(h);
    if h.streamId == id {
      OfAll(added, id);
    } else {
      OfNone(added, id);
    }
  }

  lemma FlagsAre(h: FrameHeader)
    ensures (LowFlag(h) <==> h.flags % 2 == 1) && (EndsHeaders(h) <==> h.flags / 4 % 2 == 1)
  {
  }

  lemma SettingsKeepKnown(f: Flow, size: uint32, id: uint32)
    ensures AfterSettings(f, size).Entry(id).known == f.Entry(id).known
  {
  }

  lemma {:induction false} SizesAreSilent(f: Flow, sizes: seq<uint32>, added: seq<Event>, id: uint32)
    requires SizeEvents(f, sizes, added)
    ensures (forall e :: e in added ==> !Concerns(e, id)) && AfterSizes(f, sizes).Entry(id).known == f.Entry(id).known
  {
    hide AfterSettings, Risen;
    if sizes != [] {
      var front, size := sizes[..|sizes| - 1], sizes[|sizes| - 1];
      var n := |added| - |Risen(AfterSizes(f, front), size)|;
      SizesAreSilent(f, front, added[..n], id);
      SettingsKeepKnown(AfterSizes(f, front), size, id);
      assert added == added[..n] + added[n..];
    }
  }

  lemma UpdateIsSilent(f: Flow, i: uint32, increment: nat, added: seq<Event>, id: uint32)
    requires UpdateEvents(f, i, increment, added)
    ensures (forall e :: e in added ==> !Concerns(e, id)) && AfterUpdate(f, i, increment).Entry(id).known == f.Entry(id).known
  {
    if added != [] {
      assert added == [added[0]] + added[1..];
    }
  }

  lemma OthersSay(s: Core, server: bool, h: FrameHeader, chunk: seq<byte>, s': Core, id: uint32)
    requires Atomic(h.kind) ==> |chunk| >= h.length
    requires AfterChunk(s, server, h, chunk, s') && h.kind != DATA && h.kind != HEADERS
    ensures Of(s'.events, id) == Of(s.events, id)
              + if h.streamId == id && h.kind == RST_STREAM then [StreamReset(id)] else []
    ensures s'.flow.Entry(id).known == s.flow.Entry(id).known
  {
    hide Of, FromBe32, Increment, AfterSizes, AfterUpdate, Sizes, SizeEvents, UpdateEvents;
    assert Of(s.events, id) + [] == Of(s.events, id);
    if h.kind == RST_STREAM {
      OfMore(s.events, StreamReset(h.streamId), id);
    } else {
      if h.kind == SETTINGS {
        SizesAreSilent(s.flow, Sizes(chunk), s'.events[|s.events|..], id);
      } else if h.kind == WINDOW_UPDATE && |chunk| >= 4 && Increment(chunk) != 0 {
        UpdateIsSilent(s.flow, h.streamId, Increment(chunk), s'.events[|s.events|..], id);
      }
      assert Silent(s, s', id);
      SilentSaysNothing(s, s', id);
    }
  }

  lemma CallbackSays(s: Core, server: bool, cb: Callback, s': Core, id: uint32)
    requires AfterCallback(s, server, cb, s') && (cb.OnChunk? ==> cb.offered != [])
    ensures Of(s'.events, id) == Of(s.events, id) + Says(cb, id, server && !s.flow.Entry(id).known)
    ensures s'.flow.Entry(id).known == Knows(cb, id, server, s.flow.Entry(id).known)
  {
    hide Of, AfterData, AfterHeaders, AfterSettingsPayload, AfterGoaway, AfterWindowUpdate, FrameBytes, SettingsFrame;
    assert Of(s.events, id) + [] == Of(s.events, id);
    match cb
    case OnHeader(h) =>
      OfMore(s.events, StreamClosed(h.streamId), id);
    case OnChunk(h, chunk, taken) =>
      if taken > 0 {
        if h.kind == DATA {
          DataSays(s, h, chunk, id);
        } else if h.kind == HEADERS {
          HeadersSay(s, server, h, chunk, id);
          HeadersKnow(s, server, h, chunk, id);
        } else {
          OthersSay(s, server, h, chunk, s', id);
        }
      }
  }

  /** No chunk is empty. */
  ghost predicate NoneEmpty(log: seq<Callback>) {
    forall cb :: cb in log ==> cb.OnChunk? ==> cb.offered != []
  }

  lemma {:induction false} LegalIsNotEmpty(log: seq<Callback>)
    requires LegalLog(log)
    ensures NoneEmpty(log)
  {
    if log != [] {
      LegalIsNotEmpty(log[..|log| - 1]);
    }
  }

  /**
   Over any run of call-backs, what the application is told about a stream is exactly what
   the frames say: a server announces it before its first headers, and again only after DATA
   has ended it; every block, every piece of data, every end and every reset once, in order.
   */
  lemma {:induction false} StoryIsTold(s: Core, server: bool, log: seq<Callback>, s': Core, id: uint32)
    requires Reaches(s, server, log, s') && NoneEmpty(log)
    ensures Of(s'.events, id) == Of(s.events, id) + Story(log, id, server, s.flow.Entry(id).known)
    ensures s'.flow.Entry(id).known == KnownAfter(log, id, server, s.flow.Entry(id).known)
  {
    hide AfterCallback, Of, Says, Knows;
    if log == [] {
      assert Of(s.events, id) + [] == Of(s.events, id);
    } else {
      var front, known := log[..|log| - 1], s.flow.Entry(id).known;
      var m :| Reaches(s, server, front, m) && AfterLast(m, server, log, s');
      StoryIsTold(s, server, front, m, id);
      CallbackSays(m, server, log[|log| - 1], s', id);
      var more := Says(log[|log| - 1], id, server && !KnownAfter(front, id, server, known));
      assert Of(s.events, id) + Story(front, id, server, known) + more
          == Of(s.events, id) + (Story(front, id, server, known) + more);
    }
  }

  // ---- Ends and openings, counted -------------------------------------------

  /** The last of a stream: a chunk of a frame that ends it, or such a frame without payload. */
  predicate IsEnd(cb: Callback, id: uint32) {
    EndsStream(cb.h) && cb.h.streamId == id && if cb.OnHeader? then cb.h.length == 0 else cb.taken > 0
  }

  function Ends(log: seq<Callback>, id: uint32): nat {
    if log == [] then 0 else Ends(log[..|log| - 1], id) + if IsEnd(log[|log| - 1], id) then 1 else 0
  }

  /** HEADERS on a stream the server does not know. */
  function Openings(log: seq<Callback>, id: uint32, server: bool, known: bool): nat {
    if log == [] then 0
    else
      var front, cb := log[..|log| - 1], log[|log| - 1];
      Openings(front, id, server, known)
      + if cb.OnChunk? && cb.taken > 0 && cb.h.kind == 1 && cb.h.streamId == id
           && server && !KnownAfter(front, id, server, known) then 1 else 0
  }

  lemma {:induction false} CountOf(events: seq<Event>, id: uint32, e: Event)
    requires Concerns(e, id)
    ensures multiset(Of(events, id))[e] == multiset(events)[e]
  {
    if events != [] {
      var front, last := events[..|events| - 1], events[|events| - 1];
      CountOf(front, id, e);
      assert events == front + [last];
    }
  }

  lemma SaysCounted(cb: Callback, id: uint32, isNew: bool)
    ensures multiset(Says(cb, id, isNew))[StreamClosed(id)] == if IsEnd(cb, id) then 1 else 0
    ensures multiset(Says(cb, id, isNew))[NewStream(id)]
         == if cb.OnChunk? && cb.taken > 0 && cb.h.kind == 1 && cb.h.streamId == id && isNew then 1 else 0
  {
  }

  lemma {:induction false} StoryCounted(log: seq<Callback>, id: uint32, server: bool, known: bool)
    ensures multiset(Story(log, id, server, known))[StreamClosed(id)] == Ends(log, id)
    ensures multiset(Story(log, id, server, known))[NewStream(id)] == Openings(log, id, server, known)
  {
    hide Says, IsEnd;
    if log != [] {
      var front := log[..|log| - 1];
      StoryCounted(front, id, server, known);
      SaysCounted(log[|log| - 1], id, server && !KnownAfter(front, id, server, known));
    }
  }

  /** Every end is reported once, and every opening once, over any run of call-backs. */
  lemma EndsReported(s: Core, server: bool, log: seq<Callback>, s': Core, id: uint32)
    requires Reaches(s, server, log, s') && NoneEmpty(log)
    ensures multiset(s'.events)[StreamClosed(id)] == multiset(s.events)[StreamClosed(id)] + Ends(log, id)
    ensures multiset(s'.events)[NewStream(id)]
         == multiset(s.events)[NewStream(id)] + Openings(log, id, server, s.flow.Entry(id).known)
  {
    hide Reaches, NoneEmpty, Of, Story, Ends, Openings;
    var known := s.flow.Entry(id).known;
    StoryIsTold(s, server, log, s', id);
    StoryCounted(log, id, server, known);
    CountOf(s.events, id, StreamClosed(id));
    CountOf(s'.events, id, StreamClosed(id));
    CountOf(s.events, id, NewStream(id));
    CountOf(s'.events, id, NewStream(id));
  }

  /** A stream this end has opened is not announced to it as new, as long as no DATA has ended it. */
  lemma {:induction false} OwnStreamsAreKnown(log: seq<Callback>, id: uint32, server: bool)
    requires forall cb :: cb in log ==> !(cb.OnChunk? && cb.h.kind == 0 && IsEnd(cb, id))
    ensures KnownAfter(log, id, server, true) && Openings(log, id, server, true) == 0
  {
    if log != [] {
      OwnStreamsAreKnown(log[..|log| - 1], id, server);
    }
  }

  lemma OpenedIsNotNew(f: Flow, s: Core, server: bool, log: seq<Callback>, s': Core, id: uint32)
    requires s.flow == AfterOpen(f, id) && Reaches(s, server, log, s') && NoneEmpty(log)
    requires forall cb :: cb in log ==> !(cb.OnChunk? && cb.h.kind == 0 && IsEnd(cb, id))
    ensures multiset(s'.events)[NewStream(id)] == multiset(s.events)[NewStream(id)]
  {
    hide Reaches, NoneEmpty, Openings;
    EndsReported(s, server, log, s', id);
    OwnStreamsAreKnown(log, id, server);
  }

  // ---- Ends, whatever the reads ---------------------------------------------

  predicate EndFrame(f: Frame, id: uint32) {
    EndsStream(f.header) && f.header.streamId == id
  }

  /** A frame that ends the stream has arrived, or part of its payload has. */
  ghost predicate EndHasCome(p: Progress, id: uint32) {
    (exists f :: f in p.done && EndFrame(f, id))
    || (p.current.Some? && EndFrame(p.current.value, id) && p.current.value.payload != [])
  }

  lemma EndStep(p: Progress, cb: Callback, id: uint32)
    requires Legal(p, cb) && Sound(p)
    ensures EndHasCome(After(p, cb), id) <==> EndHasCome(p, id) || IsEnd(cb, id)
  {
    hide EndsStream;
    var q := After(p, cb);
    if |q.done| > |p.done| {
      var f := q.done[|p.done|];
      assert q.done == p.done + [f] && q.current.None?;
      assert f in q.done && forall g :: g in q.done <==> g in p.done || g == f;
      assert EndFrame(f, id) ==> EndHasCome(q, id);
      assert EndFrame(f, id) <==> IsEnd(cb, id);
    } else {
      assert q.done == p.done && q.current.Some?;
    }
  }

  /** An end is reported if, and only if, a frame that ends the stream has come; the reads decide how often. */
  lemma {:induction false} EndsAreFrames(log: seq<Callback>, id: uint32)
    requires LegalLog(log)
    ensures Ends(log, id) > 0 <==> EndHasCome(Replay(log), id)
  {
    hide Legal, FrameParsers.After, IsEnd, EndFrame;
    if log != [] {
      var front := log[..|log| - 1];
      EndsAreFrames(front, id);
      ReplaySound(front);
      EndStep(Replay(front), log[|log| - 1], id);
    }
  }

  // ---- The connection -------------------------------------------------------

  /** What SETTINGS, GOAWAY and WINDOW_UPDATE frames can make the engine report of the connection. */
  predicate IsNotice(e: Event) {
    e.GoawayReceived? || e == ConnectionError(ProtocolFault) || e == ConnectionError(FrameSizeFault)
  }

  function Notices(events: seq<Event>): seq<Event> {
    if events == [] then []
    else Notices(events[..|events| - 1]) + if IsNotice(events[|events| - 1]) then [events[|events| - 1]] else []
  }

  /** The number four octets stand for, the first the highest (section 2.2 of RFC 7540). */
  function Word(s: seq<byte>, i: nat): nat
    requires i + 4 <= |s|
  {
    16777216 * (s[i] as int) + 65536 * (s[i + 1] as int) + 256 * (s[i + 2] as int) + s[i + 3]
  }

  /** A frame that is taken whole, as far as its payload says something of the connection. */
  function Notice(f: Frame): seq<Event> {
    if f.header.kind == 7 && f.Valid() && |f.payload| >= 8 then
      if Word(f.payload, 0) >= 0x8000_0000 then [ConnectionError(FrameSizeFault)]
      else [GoawayReceived(GoawayInfo(Word(f.payload, 0), Word(f.payload, 4)))]
    else if f.header.kind == 8 && |f.payload| >= 4 && Word(f.payload, 0) % 0x8000_0000 == 0 then
      [ConnectionError(ProtocolFault)]
    else []
  }

  function AllNotices(frames: seq<Frame>): seq<Event> {
    if frames == [] then [] else AllNotices(frames[..|frames| - 1]) + Notice(frames[|frames| - 1])
  }

  lemma {:induction false} NoticesConcat(a: seq<Event>, b: seq<Event>)
    ensures Notices(a + b) == Notices(a) + Notices(b)
  {
    if b == [] {
      assert a + b == a;
    } else {
      var front := b[..|b| - 1];
      NoticesConcat(a, front);
      assert (a + b)[..|a + b| - 1] == a + front && (a + b)[|a + b| - 1] == b[|b| - 1];
    }
  }

  lemma {:induction false} NoNotices(events: seq<Event>)
    requires forall e :: e in events ==> !IsNotice(e)
    ensures Notices(events) == []
  {
    if events != [] {
      NoNotices(events[..|events| - 1]);
    }
  }

  lemma OneNotice(events: seq<Event>, e: Event)
    ensures Notices(events + [e]) == Notices(events) + if IsNotice(e) then [e] else []
  {
    assert (events + [e])[..|events|] == events;
  }

  lemma Unnoticed(s: Core, s': Core)
    requires s.events <= s'.events && forall e :: e in s'.events[|s.events|..] ==> !IsNotice(e)
    ensures Notices(s'.events) == Notices(s.events) + []
  {
    hide IsNotice, Notices;
    var added := s'.events[|s.events|..];
    assert s'.events == s.events + added;
    NoticesConcat(s.events, added);
    NoNotices(added);
  }

  /** The first four octets, and the next. */
  lemma WordsAre(s: seq<byte>)
    ensures |s| >= 4 ==> FromBe32(s[..4]) == Word(s, 0)
    ensures |s| >= 8 ==> FromBe32(s[4..8]) == Word(s, 4)
  {
  }

  lemma {:induction false} SizesAreUnnoticed(f: Flow, sizes: seq<uint32>, added: seq<Event>)
    requires SizeEvents(f, sizes, added)
    ensures forall e :: e in added ==> !IsNotice(e)
  {
    hide AfterSettings, Risen;
    if sizes != [] {
      var front, size := sizes[..|sizes| - 1], sizes[|sizes| - 1];
      var n := |added| - |Risen(AfterSizes(f, front), size)|;
      SizesAreUnnoticed(f, front, added[..n]);
      assert added == added[..n] + added[n..];
    }
  }

  lemma UpdateIsUnnoticed(f: Flow, i: uint32, increment: nat, added: seq<Event>)
    requires UpdateEvents(f, i, increment, added)
    ensures forall e :: e in added ==> !IsNotice(e)
  {
    if added != [] {
      assert added == [added[0]] + added[1..];
    }
  }

  lemma WholeIsNoticed(s: Core, server: bool, h: FrameHeader, chunk: seq<byte>, s': Core)
    requires Atomic(h.kind) && |chunk| == h.length && AfterChunk(s, server, h, chunk, s')
    ensures Notices(s'.events) == Notices(s.events) + Notice(Frame(h, chunk))
  {
    hide Notices, FromBe32, AfterSizes, AfterUpdate, SizeEvents, UpdateEvents, Sizes, Word;
    WordsAre(chunk);
    if h.kind == SETTINGS {
      SizesAreUnnoticed(s.flow, Sizes(chunk), s'.events[|s.events|..]);
      Unnoticed(s, s');
    } else if h.kind == WINDOW_UPDATE && |chunk| >= 4 && Increment(chunk) != 0 {
      UpdateIsUnnoticed(s.flow, h.streamId, Increment(chunk), s'.events[|s.events|..]);
      Unnoticed(s, s');
    } else if s' == s {
      Unnoticed(s, s');
    } else {
      OneNotice(s.events, s'.events[|s.events|]);
    }
  }

  lemma OthersAreUnnoticed(s: Core, server: bool, h: FrameHeader, chunk: seq<byte>, s': Core)
    requires !Atomic(h.kind) && AfterChunk(s, server, h, chunk, s')
    ensures Notices(s'.events) == Notices(s.events) + []
  {
    hide Notices, AfterData, AfterHeaders, IsNotice;
    DataIsUnnoticed(s, h, chunk);
    HeadersAreUnnoticed(s, server, h, chunk);
    ResetIsUnnoticed(s, h);
    Unnoticed(s, s');
  }

  lemma DataIsUnnoticed(s: Core, h: FrameHeader, chunk: seq<byte>)
    ensures var s' := AfterData(s, h, chunk);
            s.events <= s'.events && forall e :: e in s'.events[|s.events|..] ==> !IsNotice(e)
  {
    hide AfterReceive, AfterEnd, LowFlag;
  }

  lemma HeadersAreUnnoticed(s: Core, server: bool, h: FrameHeader, chunk: seq<byte>)
    ensures var s' := AfterHeaders(s, server, h, chunk);
            s.events <= s'.events && forall e :: e in s'.events[|s.events|..] ==> !IsNotice(e)
  {
    hide EndsHeaders, LowFlag;
  }

  lemma ResetIsUnnoticed(s: Core, h: FrameHeader)
    ensures var s' := s.Emit([StreamReset(h.streamId)]);
            s.events <= s'.events && forall e :: e in s'.events[|s.events|..] ==> !IsNotice(e)
  {
  }

  lemma CallbackNotices(s: Core, server: bool, cb: Callback, s': Core)
    requires AfterCallback(s, server, cb, s') && (cb.OnChunk? ==> cb.offered != [] && |cb.offered| <= cb.h.length)
    ensures Notices(s'.events) == Notices(s.events)
              + if cb.OnChunk? && Atomic(cb.h.kind) && cb.taken > 0 then Notice(Frame(cb.h, cb.offered)) else []
  {
    hide Notices, Notice, AfterChunk, FrameBytes, SettingsFrame;
    match cb
    case OnHeader(h) => Unnoticed(s, s');
    case OnChunk(h, chunk, taken) =>
      if taken == 0 {
        Unnoticed(s, s');
      } else if Atomic(h.kind) {
        WholeIsNoticed(s, server, h, chunk, s');
      } else {
        OthersAreUnnoticed(s, server, h, chunk, s');
      }
  }

  /** No chunk is empty, or longer than its frame. */
  ghost predicate Proper(log: seq<Callback>) {
    forall cb :: cb in log ==> cb.OnChunk? ==> cb.offered != [] && |cb.offered| <= cb.h.length
  }

  lemma {:induction false} LegalIsProper(log: seq<Callback>)
    requires LegalLog(log)
    ensures Proper(log)
  {
    if log != [] {
      LegalIsProper(log[..|log| - 1]);
    }
  }

  /** Over any run of call-backs, every GOAWAY handled is reported once and in order, as its octets say. */
  lemma {:induction false} NoticesReported(s: Core, server: bool, log: seq<Callback>, s': Core)
    requires Reaches(s, server, log, s') && Proper(log)
    ensures Notices(s'.events) == Notices(s.events) + AllNotices(Handled(log))
  {
    hide AfterCallback, Notices, Notice;
    if log == [] {
      assert Notices(s.events) + [] == Notices(s.events);
    } else {
      var front, cb := log[..|log| - 1], log[|log| - 1];
      var m :| Reaches(s, server, front, m) && AfterLast(m, server, log, s');
      NoticesReported(s, server, front, m);
      CallbackNotices(m, server, cb, s');
      var more := if cb.OnChunk? && Atomic(cb.h.kind) && cb.taken > 0 then [Frame(cb.h, cb.offered)] else [];
      assert Handled(log) == Handled(front) + more;
      if more != [] {
        assert Handled(log)[..|Handled(front)|] == Handled(front);
      } else {
        assert Handled(log) == Handled(front);
      }
      assert Notices(s.events) + AllNotices(Handled(front)) + (if more != [] then Notice(more[0]) else [])
          == Notices(s.events) + AllNotices(Handled(log));
    }
  }

  /** A GOAWAY that is written is reported with its last stream, in 31 bits, and its code. */
  lemma GoawayComesBack(lastId: uint32, code: uint32, debug: seq<byte>)
    requires |debug| + 8 < 0x100_0000
    ensures Notice(GoawayFrame(lastId, code, debug)) == [GoawayReceived(GoawayInfo(lastId % 0x8000_0000, code))]
  {
    var f := GoawayFrame(lastId, code, debug);
    Be32Inverse(lastId % 0x8000_0000);
    Be32Inverse(code);
    WordsAre(f.payload);
    assert f.payload[..4] == Be32(lastId % 0x8000_0000) && f.payload[4..8] == Be32(code);
    hide Be32, FromBe32, Word;
    assert f.Valid();
  }
}
