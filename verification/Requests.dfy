/**
 Requests with bodies that the windows do not let through at once: the registry that
 resumes them when it is told that a stream has become writable, and why it always is told.
 */
module Requests {
  import opened Bits
  import opened Frames
  import opened FlowControl
  import SendLedger
  import opened FrameParsers
  import opened Http2Core

  /** A registered request: its body, how much of it the engine has accepted, and in what frames. */
  datatype Request = Request(body: seq<byte>, offset: nat, sent: seq<Frame>) {
    predicate Unsent() {
      offset < |body|
    }
  }

  /** The engine and the registry. */
  datatype World = World(core: Core, requests: map<uint32, Request>)

  /** Offer the engine what is left of a body; END_STREAM goes with the end of it. */
  function TrySend(w: World, id: uint32): World
    requires id in w.requests
  {
    var r := w.requests[id];
    if !r.Unsent() then w
    else
      var rest := r.body[r.offset..];
      var k := Sendable(w.core.flow, id, |rest|);
      var frames := SendFrames(id, rest, k, true);
      World(w.core.(flow := AfterSend(w.core.flow, id, k), out := w.core.out + FramesBytes(frames)),
            w.requests[id := Request(r.body, r.offset + k, r.sent + frames)])
  }

  /** Register a request, send its header block, and as much of the body as possible. */
  function Executed(w: World, id: uint32, block: seq<byte>, body: seq<byte>): World {
    var v := World(w.core.Write(HeadersFrame(id, block, true, body == [])), w.requests[id := Request(body, 0, [])]);
    if body == [] then v else TrySend(v, id)
  }

  predicate Ends(e: Event, id: uint32) {
    e == StreamClosed(id) || e == StreamReset(id)
  }

  /** What the registry does with an event. */
  function Dispatched(w: World, e: Event): World {
    if e.StreamWindow? && e.id in w.requests then TrySend(w, e.id)
    else if (e.StreamClosed? || e.StreamReset?) && e.id in w.requests then w.(requests := w.requests - {e.id})
    else w
  }

  function Popped(w: World): World
    requires w.core.events != []
  {
    w.(core := w.core.(events := w.core.events[1..]))
  }

  /** The registry drains the queue. Dispatching never adds to it. */
  function Pumped(w: World): World
    decreases |w.core.events|
  {
    if w.core.events == [] then w else Pumped(Dispatched(Popped(w), w.core.events[0]))
  }

  // ---- No lost wake-up ------------------------------------------------------

  ghost predicate Closing(s: Core, id: uint32) {
    StreamClosed(id) in s.events || StreamReset(id) in s.events
  }

  /** If the stream is writable its owner will hear of it, or is about to hear that it is over. */
  ghost predicate Awake(s: Core, id: uint32) {
    || Closing(s, id)
    || (id in s.flow.streams
        && (s.flow.connSend > 0 && s.flow.Entry(id).send > 0 ==> StreamWindow(id) in s.events))
  }

  ghost predicate NoneLost(w: World) {
    forall id :: id in w.requests && w.requests[id].Unsent() ==> Awake(w.core, id)
  }

  lemma SendsKeepAwake(s: Core, i: uint32, n: nat, id: uint32)
    requires Awake(s, id)
    ensures Awake(s.(flow := AfterSend(s.flow, i, Sendable(s.flow, i, n))), id)
  {
  }

  lemma DataKeepsAwake(s: Core, h: FrameHeader, chunk: seq<byte>, id: uint32)
    requires Awake(s, id)
    ensures Awake(AfterData(s, h, chunk), id)
  {
    hide Due, Consume;
    var t := AfterData(s, h, chunk);
    assert s.events <= t.events;
    if LowFlag(h) && id == h.streamId {
      assert t.events[|t.events| - 1] == StreamClosed(id);
    }
  }

  lemma UpdateKeepsAwake(s: Core, i: uint32, chunk: seq<byte>, s': Core, id: uint32)
    requires Awake(s, id) && AfterWindowUpdate(s, i, chunk, s')
    ensures Awake(s', id)
  {
    if Closing(s, id) {
      assert s.events <= s'.events;
    } else if |chunk| >= 4 && Increment(chunk) > 0 {
      var added := s'.events[|s.events|..];
      assert s'.events == s.events + added;
      if i == 0 && s.flow.connSend <= 0 && s'.flow.connSend > 0 && s.flow.streams[id].send > 0 {
        assert StreamWindow(id) in added[1..];
        assert added == [added[0]] + added[1..];
      }
    }
  }

  /** One new initial window size: whoever becomes writable is told. */
  lemma SizeKeepsAwake(s: Core, size: uint32, wake: seq<Event>, id: uint32)
    requires Awake(s, id) && Wakes(wake, Risen(s.flow, size))
    ensures Awake(s.(flow := AfterSettings(s.flow, size)).Emit(wake), id)
  {
    if !Closing(s, id) && id in Risen(s.flow, size) {
      assert StreamWindow(id) in wake;
    }
  }

  lemma {:induction false} SizesKeepAwake(s: Core, sizes: seq<uint32>, added: seq<Event>, id: uint32)
    requires Awake(s, id) && SizeEvents(s.flow, sizes, added)
    ensures Awake(s.(flow := AfterSizes(s.flow, sizes)).Emit(added), id)
  {
    if sizes == [] {
      assert s.events + [] == s.events;
    } else {
      var front, size := sizes[..|sizes| - 1], sizes[|sizes| - 1];
      var n := |added| - |Risen(AfterSizes(s.flow, front), size)|;
      SizesKeepAwake(s, front, added[..n], id);
      var t := s.(flow := AfterSizes(s.flow, front)).Emit(added[..n]);
      SizeKeepsAwake(t, size, added[n..], id);
      assert s.events + added[..n] + added[n..] == s.events + added;
    }
  }

  /** Everything the engine can do with input. */
  lemma CallbackKeepsAwake(s: Core, server: bool, cb: Callback, s': Core, id: uint32)
    requires Awake(s, id) && AfterCallback(s, server, cb, s')
    ensures Awake(s', id)
  {
    hide AfterData, AfterWindowUpdate, SizeEvents, AfterSizes, Awake;
    match cb
    case OnHeader(h) => EmitKeepsAwake(s, s', id);
    case OnChunk(h, chunk, taken) =>
      if taken > 0 {
        if h.kind == DATA {
          DataKeepsAwake(s, h, chunk, id);
        } else if h.kind == HEADERS {
          HeadersKeepAwake(s, server, h, chunk, id);
        } else if h.kind == SETTINGS {
          SizesKeepAwake(s, Sizes(chunk), s'.events[|s.events|..], id);
          assert s'.events == s.events + s'.events[|s.events|..];
        } else if h.kind == WINDOW_UPDATE {
          UpdateKeepsAwake(s, h.streamId, chunk, s', id);
        } else {
          EmitKeepsAwake(s, s', id);
        }
      }
  }

  lemma EmitKeepsAwake(s: Core, s': Core, id: uint32)
    requires Awake(s, id) && s'.flow == s.flow && s.events <= s'.events
    ensures Awake(s', id)
  {
  }

  lemma HeadersKeepAwake(s: Core, server: bool, h: FrameHeader, chunk: seq<byte>, id: uint32)
    requires Awake(s, id)
    ensures Awake(AfterHeaders(s, server, h, chunk), id)
  {
    assert s.events <= AfterHeaders(s, server, h, chunk).events;
  }

  // ---- The registry's side --------------------------------------------------

  /** Something is known of the stream, or will be once this much has been offered. */
  ghost predicate Heard(s: Core, id: uint32, n: nat) {
    id in s.flow.streams || Closing(s, id) || Sendable(s.flow, id, n) > 0
  }

  /** Trying to send leaves nothing unsent, or a window exhausted. */
  lemma TrySendSettles(w: World, id: uint32)
    requires id in w.requests && w.requests[id].Unsent()
    requires Heard(w.core, id, |w.requests[id].body| - w.requests[id].offset)
    ensures var v := TrySend(w, id);
            v.requests[id].Unsent() ==> Awake(v.core, id)
  {
    SendLedger.SendIsMaximal(w.core.flow, id, |w.requests[id].body[w.requests[id].offset..]|);
  }

  lemma TrySendKeepsOthers(w: World, id: uint32, other: uint32)
    requires id in w.requests && Awake(w.core, other)
    ensures Awake(TrySend(w, id).core, other)
  {
    var r := w.requests[id];
    if r.Unsent() {
      SendsKeepAwake(w.core, id, |r.body[r.offset..]|, other);
    }
  }

  lemma TrySendKeepsNoneLost(w: World, id: uint32)
    requires id in w.requests
    requires w.requests[id].Unsent() ==> Heard(w.core, id, |w.requests[id].body| - w.requests[id].offset)
    requires forall i :: i in w.requests && i != id && w.requests[i].Unsent() ==> Awake(w.core, i)
    ensures NoneLost(TrySend(w, id))
  {
    hide Heard;
    var v := TrySend(w, id);
    forall i | i in v.requests && v.requests[i].Unsent()
      ensures Awake(v.core, i)
    {
      if i != id {
        TrySendKeepsOthers(w, id, i);
      } else {
        TrySendSettles(w, id);
      }
    }
  }

  /**
   A request can be registered without losing wake-ups if, and only if, its body is empty or
   its stream is tracked, is about to be reported over, or is tracked by the first send.
   */
  lemma ExecuteExact(w: World, id: uint32, block: seq<byte>, body: seq<byte>)
    requires NoneLost(w)
    ensures NoneLost(Executed(w, id, block, body)) <==> body == [] || Heard(w.core, id, |body|)
  {
    var v := World(w.core.Write(HeadersFrame(id, block, true, body == [])), w.requests[id := Request(body, 0, [])]);
    forall i | i in v.requests && i != id && v.requests[i].Unsent()
      ensures Awake(v.core, i)
    {
      assert Awake(w.core, i);
    }
    if body == [] {
      assert NoneLost(v);
    } else if Heard(w.core, id, |body|) {
      TrySendKeepsNoneLost(v, id);
    } else {
      UnheardIsLost(v, id);
    }
  }

  lemma UnheardIsLost(w: World, id: uint32)
    requires id in w.requests && w.requests[id].Unsent() && w.requests[id].offset == 0
    requires !Heard(w.core, id, |w.requests[id].body|)
    ensures !NoneLost(TrySend(w, id))
  {
    var v := TrySend(w, id);
    assert w.requests[id].body[0..] == w.requests[id].body;
    assert v.requests[id].Unsent() && !Awake(v.core, id);
  }

  /** Taking an event off the queue only concerns its own stream. */
  lemma DispatchKeepsNoneLost(w: World)
    requires NoneLost(w) && w.core.events != []
    ensures NoneLost(Dispatched(Popped(w), w.core.events[0]))
  {
    hide TrySend;
    var e, p := w.core.events[0], Popped(w);
    assert w.core.events == [e] + p.core.events;
    forall i | i in p.requests && p.requests[i].Unsent() && !(e == StreamWindow(i) || Ends(e, i))
      ensures Awake(p.core, i)
    {
      assert Awake(w.core, i);
    }
    if e.StreamWindow? && e.id in p.requests {
      if p.requests[e.id].Unsent() {
        assert Awake(w.core, e.id);
      }
      TrySendKeepsNoneLost(p, e.id);
    }
  }

  // ---- What a request's frames deliver --------------------------------------

  /**
   The frames sent so far carry exactly the accepted part of the body, none of them empty
   or above the maximum size; END_STREAM is on the one that completes it, and nowhere else.
   */
  ghost predicate Delivered(r: Request) {
    && r.offset <= |r.body|
    && Payloads(r.sent) == r.body[..r.offset]
    && (r.sent == [] <==> r.offset == 0)
    && forall i :: 0 <= i < |r.sent| ==>
         && Proper(r.sent[i])
         && (LowFlag(r.sent[i].header) <==> r.offset == |r.body| && i == |r.sent| - 1)
  }

  lemma {:induction false} PayloadsConcat(a: seq<Frame>, b: seq<Frame>)
    ensures Payloads(a + b) == Payloads(a) + Payloads(b)
  {
    if a == [] {
      assert a + b == b;
    } else {
      assert (a + b)[1..] == a[1..] + b;
      PayloadsConcat(a[1..], b);
    }
  }

  lemma ResumeDelivers(r: Request, id: uint32, k: nat)
    requires Delivered(r) && r.Unsent() && k <= |r.body| - r.offset
    ensures Delivered(Request(r.body, r.offset + k, r.sent + SendFrames(id, r.body[r.offset..], k, true)))
  {
    hide Payloads, Proper, LowFlag, DataFrames;
    var rest := r.body[r.offset..];
    var frames := SendFrames(id, rest, k, true);
    DataFramesCarry(id, rest, 0, k, true);
    DataFramesEnd(id, rest, 0, k, true);
    PayloadsConcat(r.sent, frames);
    assert r.body[..r.offset] + rest[0..k] == r.body[..r.offset + k];
    forall i | 0 <= i < |r.sent + frames|
      ensures Proper((r.sent + frames)[i])
      ensures LowFlag((r.sent + frames)[i].header) <==> r.offset + k == |r.body| && i == |r.sent + frames| - 1
    {
      if i < |r.sent| {
        assert (r.sent + frames)[i] == r.sent[i];
      } else {
        assert (r.sent + frames)[i] == frames[i - |r.sent|];
      }
    }
  }

  ghost predicate AllDelivered(w: World) {
    forall id :: id in w.requests ==> Delivered(w.requests[id])
  }

  lemma TrySendDelivers(w: World, id: uint32)
    requires id in w.requests && AllDelivered(w)
    ensures AllDelivered(TrySend(w, id))
  {
    hide Delivered, SendFrames;
    var r := w.requests[id];
    if r.Unsent() {
      ResumeDelivers(r, id, Sendable(w.core.flow, id, |r.body[r.offset..]|));
    }
  }

  lemma ExecuteDelivers(w: World, id: uint32, block: seq<byte>, body: seq<byte>)
    requires AllDelivered(w)
    ensures AllDelivered(Executed(w, id, block, body))
  {
    var v := World(w.core.Write(HeadersFrame(id, block, true, body == [])), w.requests[id := Request(body, 0, [])]);
    assert Delivered(Request(body, 0, []));
    assert AllDelivered(v);
    TrySendDelivers(v, id);
  }

  /**
   What executing writes: the header block, ending the stream exactly if there is no body, and
   then the frames that begin the body.
   */
  lemma ExecuteWrites(w: World, id: uint32, block: seq<byte>, body: seq<byte>)
    requires id < 0x8000_0000
    ensures var v, head := Executed(w, id, block, body), HeadersFrame(id, block, true, body == []);
            && id in v.requests && v.requests[id].body == body
            && v.core.out == w.core.out + FramesBytes([head] + v.requests[id].sent)
            && head.header.kind == 1 && head.header.streamId == id && head.payload == block
            && head.header.flags == 4 + (if body == [] then 1 else 0)
  {
    hide FrameBytes, SendFrames, AfterSend, Sendable;
    var v, head := Executed(w, id, block, body), HeadersFrame(id, block, true, body == []);
    FramesBytesOne(head);
    FramesBytesConcat([head], v.requests[id].sent);
    if body == [] {
      assert [head] + [] == [head];
    } else {
      var k := Sendable(w.core.flow, id, |body[0..]|);
      assert [] + SendFrames(id, body[0..], k, true) == SendFrames(id, body[0..], k, true);
      assert w.core.out + FrameBytes(head) + FramesBytes(v.requests[id].sent)
          == w.core.out + (FrameBytes(head) + FramesBytes(v.requests[id].sent));
    }
  }

  /** A request whose stream has ended is forgotten, and no other is. */
  lemma EndsForget(w: World, e: Event, id: uint32)
    ensures id in Dispatched(w, e).requests <==> id in w.requests && !Ends(e, id)
  {
    hide SendFrames, Sendable, AfterSend;
  }

  lemma DispatchDelivers(w: World, e: Event)
    requires AllDelivered(w)
    ensures AllDelivered(Dispatched(w, e)) && Dispatched(w, e).core.events == w.core.events
  {
    hide Delivered, SendFrames, Sendable;
    if e.StreamWindow? && e.id in w.requests {
      TrySendDelivers(w, e.id);
    }
  }

  // ---- One call, many frames ------------------------------------------------

  /** The windows after the frames have been sent one by one. */
  function SentFrames(f: Flow, id: uint32, frames: seq<Frame>): Flow
    decreases |frames|
  {
    if frames == [] then f else SentFrames(AfterSend(f, id, |frames[0].payload|), id, frames[1..])
  }

  /** A call that sends several frames counts as that many calls that send one: none passes a window. */
  lemma {:induction false} FramesOneByOne(f: Flow, id: uint32, data: seq<byte>, from: nat, upto: nat, endStream: bool)
    requires from <= upto <= |data| && upto - from <= Sendable(f, id, upto - from)
    ensures SentFrames(f, id, DataFrames(id, data, from, upto, endStream)) == AfterSend(f, id, upto - from)
    decreases upto - from
  {
    hide DataFrame, DataFrames;
    if from == upto {
      NoDataFrames(id, data, from, endStream);
    } else {
      var to := Min(upto, from + MAX_FRAME);
      DataFramesStep(id, data, from, upto, endStream);
      DataFrameIs(id, data[from..to], endStream && to == |data|);
      var frames := DataFrames(id, data, from, upto, endStream);
      assert frames[1..] == DataFrames(id, data, to, upto, endStream);
      FramesOneByOne(AfterSend(f, id, to - from), id, data, to, upto, endStream);
      SendInParts(f, id, to - from, upto - to);
    }
  }

  lemma SendInParts(f: Flow, id: uint32, j: nat, k: nat)
    ensures AfterSend(AfterSend(f, id, j), id, k) == AfterSend(f, id, j + k)
  {
    if j > 0 && k > 0 {
      assert AfterSend(AfterSend(f, id, j), id, k).streams == AfterSend(f, id, j + k).streams;
    }
  }

  // ---- Wake-ups, exactly ----------------------------------------------------

  predicate CanSend(f: Flow, id: uint32) {
    f.connSend > 0 && f.Entry(id).send > 0
  }

  /** A WINDOW_UPDATE tells exactly the streams that it makes writable. */
  lemma UpdateWakesExactly(f: Flow, i: uint32, increment: nat, added: seq<Event>, id: uint32)
    requires UpdateEvents(f, i, increment, added) && increment > 0
    requires id in f.streams || (i != 0 && id == i)
    ensures StreamWindow(id) in added <==> CanSend(AfterUpdate(f, i, increment), id) && !CanSend(f, id)
    ensures multiset(added)[StreamWindow(id)] <= 1
  {
    if i == 0 && added != [] {
      assert added == [added[0]] + added[1..];
      WokenOnce(added[1..], OpenStreams(f), id);
    }
  }

  /** So does a new initial window size. */
  lemma SizeWakesExactly(f: Flow, size: uint32, added: seq<Event>, id: uint32)
    requires Wakes(added, Risen(f, size)) && id in f.streams
    ensures StreamWindow(id) in added <==> CanSend(AfterSettings(f, size), id) && !CanSend(f, id)
    ensures multiset(added)[StreamWindow(id)] <= 1
  {
    WokenOnce(added, Risen(f, size), id);
  }

  /** As many notifications as streams, and one for each: none twice. */
  lemma {:induction false} WokenOnce(added: seq<Event>, ids: set<uint32>, id: uint32)
    requires Wakes(added, ids)
    ensures multiset(added)[StreamWindow(id)] <= 1
    decreases |added|
  {
    if added != [] {
      var front, last := added[..|added| - 1], added[|added| - 1];
      assert added == front + [last];
      LastIsNew(added, ids);
      assert forall e :: e in front ==> e in added && e != last by {
        IdsHas(front, last.id);
      }
      assert forall i :: i in ids - {last.id} ==> StreamWindow(i) in added;
      assert Wakes(front, ids - {last.id});
      WokenOnce(front, ids - {last.id}, id);
    }
  }

  lemma LastIsNew(added: seq<Event>, ids: set<uint32>)
    requires Wakes(added, ids) && added != []
    ensures added[|added| - 1].id !in Ids(added[..|added| - 1])
  {
    var front, last := added[..|added| - 1], added[|added| - 1];
    assert added == front + [last];
    IdsAreFew(front);
    forall id | id in ids
      ensures id in Ids(added)
    {
      IdsHas(added, id);
    }
    assert Ids(added) == ids && Ids(added) == Ids(front) + {last.id};
    assert last.id in Ids(front) ==> Ids(added) == Ids(front);
  }

  function Ids(events: seq<Event>): set<uint32> {
    set e | e in events && e.StreamWindow? :: e.id
  }

  lemma IdsHas(events: seq<Event>, id: uint32)
    ensures id in Ids(events) <==> StreamWindow(id) in events
  {
  }

  lemma {:induction false} IdsAreFew(events: seq<Event>)
    ensures |Ids(events)| <= |events|
  {
    if events != [] {
      var front, last := events[..|events| - 1], events[|events| - 1];
      IdsAreFew(front);
      assert events == front + [last];
      if last.StreamWindow? {
        assert Ids(events) == Ids(front) + {last.id};
      } else {
        assert Ids(events) == Ids(front);
      }
    }
  }

  // ---- Runs -----------------------------------------------------------------

  /** Everything that can happen, in any order. */
  datatype Move =
    | Input(cb: Callback, after: Core)
    | Execute(id: uint32, block: seq<byte>, body: seq<byte>)
    | Take // the oldest event, by the registry
    | Open(id: uint32)
    | Send(id: uint32, data: seq<byte>, endStream: bool)

  /** Streams are new when opened, and requests are made on streams whose fate will be reported. */
  ghost predicate Possible(w: World, server: bool, m: Move) {
    match m
    case Input(cb, after) => AfterCallback(w.core, server, cb, after)
    case Execute(id, _, body) => body == [] || Heard(w.core, id, |body|)
    case Take => w.core.events != []
    case Open(id) => id !in w.requests
    case Send(_, _, _) => true
  }

  function After(w: World, m: Move): World
    requires m.Take? ==> w.core.events != []
  {
    match m
    case Input(_, after) => w.(core := after)
    case Execute(id, block, body) => Executed(w, id, block, body)
    case Take => Dispatched(Popped(w), w.core.events[0])
    case Open(id) => w.(core := w.core.(flow := AfterOpen(w.core.flow, id)))
    case Send(id, data, endStream) =>
      var k := Sendable(w.core.flow, id, |data|);
      w.(core := w.core.(flow := AfterSend(w.core.flow, id, k),
                         out := w.core.out + FramesBytes(SendFrames(id, data, k, endStream))))
  }

  ghost predicate IsRun(w: World, server: bool, moves: seq<Move>)
    decreases |moves|, 0
  {
    moves == [] ||
    (IsRun(w, server, moves[..|moves| - 1])
     && Possible(Run(w, server, moves[..|moves| - 1]), server, moves[|moves| - 1]))
  }

  function Run(w: World, server: bool, moves: seq<Move>): World
    requires IsRun(w, server, moves)
    decreases |moves|, 1
  {
    if moves == [] then w else After(Run(w, server, moves[..|moves| - 1]), moves[|moves| - 1])
  }

  function Takes(n: nat): seq<Move> {
    seq(n, _ => Take)
  }

  lemma {:induction false} TakesMore(w: World, server: bool, n: nat)
    requires w.core.events != [] && IsRun(After(w, Take), server, Takes(n))
    ensures IsRun(w, server, Takes(n + 1))
    ensures Run(w, server, Takes(n + 1)) == Run(After(w, Take), server, Takes(n))
  {
    hide Dispatched;
    assert Takes(n + 1)[..n] == Takes(n);
    if n == 0 {
      assert IsRun(w, server, Takes(0));
    } else {
      assert Takes(n)[..n - 1] == Takes(n - 1);
      TakesMore(w, server, n - 1);
    }
  }

  /** Draining the queue is taking its events one by one; anything can happen in between instead. */
  lemma {:induction false} PumpIsTakes(w: World, server: bool)
    ensures IsRun(w, server, Takes(|w.core.events|))
    ensures Run(w, server, Takes(|w.core.events|)) == Pumped(w) && Pumped(w).core.events == []
    decreases |w.core.events|
  {
    if w.core.events != [] {
      DispatchKeepsQueue(Popped(w), w.core.events[0]);
      PumpIsTakes(After(w, Take), server);
      TakesMore(w, server, |w.core.events| - 1);
    }
  }

  lemma DispatchKeepsQueue(w: World, e: Event)
    ensures Dispatched(w, e).core.events == w.core.events
  {
    hide SendFrames, Sendable;
  }

  lemma MoveKeeps(w: World, server: bool, m: Move)
    requires Possible(w, server, m) && NoneLost(w) && AllDelivered(w)
    ensures NoneLost(After(w, m)) && AllDelivered(After(w, m))
  {
    hide Executed, Dispatched, AfterCallback, Delivered, FramesBytes;
    var v := After(w, m);
    match m
    case Execute(id, block, body) =>
      ExecuteExact(w, id, block, body);
      ExecuteDelivers(w, id, block, body);
    case Take =>
      DispatchKeepsNoneLost(w);
      DispatchDelivers(Popped(w), w.core.events[0]);
    case _ =>
      forall id | id in v.requests && v.requests[id].Unsent()
        ensures Awake(v.core, id)
      {
        assert Awake(w.core, id);
        OutsideKeepsAwake(w, server, m, id);
      }
  }

  lemma OutsideKeepsAwake(w: World, server: bool, m: Move, id: uint32)
    requires Possible(w, server, m) && (m.Input? || m.Open? || m.Send?)
    requires id in w.requests && Awake(w.core, id)
    ensures Awake(After(w, m).core, id)
  {
    hide AfterCallback, FramesBytes;
    if m.Input? {
      CallbackKeepsAwake(w.core, server, m.cb, m.after, id);
    } else if m.Send? {
      SendsKeepAwake(w.core, m.id, |m.data|, id);
    }
  }

  /**
   No wake-up is ever lost, and no body ever garbled, in any reachable state of the engine,
   its queue and the registry.
   */
  lemma {:induction false} NeverLost(core: Core, server: bool, moves: seq<Move>)
    requires IsRun(World(core, map[]), server, moves)
    ensures var w := Run(World(core, map[]), server, moves);
            NoneLost(w) && AllDelivered(w)
  {
    hide NoneLost, AllDelivered, Possible, After;
    if moves == [] {
      NothingLostYet(core);
    } else {
      NeverLost(core, server, moves[..|moves| - 1]);
      MoveKeeps(Run(World(core, map[]), server, moves[..|moves| - 1]), server, moves[|moves| - 1]);
    }
  }

  lemma NothingLostYet(core: Core)
    ensures NoneLost(World(core, map[])) && AllDelivered(World(core, map[]))
  {
  }

  /** So whenever the queue has been drained, an unfinished request is held up by a window. */
  lemma DrainedMeansBlocked(core: Core, server: bool, moves: seq<Move>, id: uint32)
    requires IsRun(World(core, map[]), server, moves)
    requires var w := Run(World(core, map[]), server, moves);
             w.core.events == [] && id in w.requests && w.requests[id].Unsent()
    ensures var f := Run(World(core, map[]), server, moves).core.flow;
            id in f.streams && (f.connSend <= 0 || f.Entry(id).send <= 0)
  {
    NeverLost(core, server, moves);
  }

  /**
   Executing on a stream the engine does not track is different: the WINDOW_UPDATE that
   makes such a stream writable does not say so.
   */
  lemma UntrackedIsLost(s: Core, id: uint32, chunk: seq<byte>, s': Core)
    requires id !in s.flow.streams && s.flow.peerInitial > 0 && s.flow.connSend <= 0
    requires forall e :: e in s.events ==> !Ends(e, id) && e != StreamWindow(id)
    requires AfterWindowUpdate(s, 0, chunk, s') && |chunk| >= 4 && s.flow.connSend + Increment(chunk) > 0
    ensures s'.flow.connSend > 0 && s'.flow.Entry(id).send > 0
    ensures forall e :: e in s'.events ==> !Ends(e, id) && e != StreamWindow(id)
  {
    hide Increment;
    var added := s'.events[|s.events|..];
    assert s'.events == s.events + added;
    assert added == [added[0]] + added[1..];
    assert StreamWindow(id) !in added[1..];
  }

  /** Neither does the SETTINGS frame that opens the windows of streams when those of new ones are closed. */
  lemma UntrackedMissesSettings(s: Core, id: uint32, chunk: seq<byte>, s': Core)
    requires id !in s.flow.streams && s.flow.peerInitial == 0 && s.flow.connSend > 0
    requires forall e :: e in s.events ==> !Ends(e, id) && e != StreamWindow(id)
    requires AfterSettingsPayload(s, chunk, s') && |Sizes(chunk)| == 1 && Sizes(chunk)[0] > 0
    ensures s'.flow.connSend > 0 && s'.flow.Entry(id).send > 0
    ensures forall e :: e in s'.events ==> !Ends(e, id) && e != StreamWindow(id)
  {
    var sizes, added := Sizes(chunk), s'.events[|s.events|..];
    hide Sizes;
    var risen := Risen(s.flow, sizes[0]);
    assert sizes[..0] == [] && AfterSizes(s.flow, []) == s.flow;
    assert SizeEvents(s.flow, sizes, added);
    var n := |added| - |risen|;
    assert SizeEvents(s.flow, [], added[..n]);
    assert n == 0 && added[n..] == added;
    assert Wakes(added, risen) && id !in risen;
    assert s'.events == s.events + added;
  }
}
