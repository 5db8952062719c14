/**
 Octets between two HTTP/2 engines, as the protocol's messages: what one has written and
 the other has not yet handled.
 */
module Wire {
  import opened Bits
  import opened Frames
  import opened FlowControl
  import opened FrameParsers
  import opened Http2Core
  import P = TwoParty

  /** A frame an engine writes. */
  predicate Honest(f: Frame) {
    && f.Valid()
    && if f.header.kind == DATA then f.header.streamId != 0
       else if f.header.kind == SETTINGS then f.payload == [] || (!LowFlag(f.header) && |Sizes(f.payload)| == 1)
       else if f.header.kind == WINDOW_UPDATE then |f.payload| == 4 && Increment(f.payload) >= 1
       else f.header.kind == HEADERS || f.header.kind == GOAWAY
  }

  /** The window size a SETTINGS payload announces; none means the default. */
  function Size(payload: seq<byte>): uint32 {
    if Sizes(payload) == [] then DEFAULT_WINDOW else Sizes(payload)[|Sizes(payload)| - 1]
  }

  /** What a frame means to flow control when `taken` octets of it have been handled. */
  function Messages(f: Frame, taken: nat): seq<P.Message>
    requires taken <= |f.payload|
  {
    if f.header.kind == DATA then [P.Data(f.header.streamId, |f.payload| - taken, LowFlag(f.header))]
    else if f.header.kind == WINDOW_UPDATE && |f.payload| >= 4 then [P.Update(f.header.streamId, Increment(f.payload))]
    else if f.header.kind == SETTINGS && !LowFlag(f.header) then [P.Settings(Size(f.payload))]
    else []
  }

  function AllMessages(frames: seq<Frame>): seq<P.Message> {
    if frames == [] then [] else Messages(frames[0], 0) + AllMessages(frames[1..])
  }

  lemma {:induction false} MessagesConcat(a: seq<Frame>, b: seq<Frame>)
    ensures AllMessages(a + b) == AllMessages(a) + AllMessages(b)
  {
    hide Messages;
    if a == [] {
      assert a + b == b;
    } else {
      assert (a + b)[1..] == a[1..] + b;
      MessagesConcat(a[1..], b);
    }
  }

  lemma MessagesOne(f: Frame)
    ensures AllMessages([f]) == Messages(f, 0)
  {
    hide Messages;
    assert [f][1..] == [];
    assert Messages(f, 0) + [] == Messages(f, 0);
  }

  // ---- What has been delivered ----------------------------------------------

  /** A parser's progress is through the frames sent. */
  ghost predicate Linked(p: Progress, sent: seq<Frame>) {
    && p.done <= sent
    && (p.current.Some? ==>
          && |p.done| < |sent|
          && p.current.value.header == sent[|p.done|].header
          && p.current.value.payload <= sent[|p.done|].payload
          && |p.current.value.payload| < |sent[|p.done|].payload|)
  }

  /** The first frames of a stretch of octets and of a longer one are the same. */
  lemma SameFirst(f: Frame, tail: seq<byte>, sent: seq<Frame>)
    requires f.Valid() && sent != [] && sent[0].Valid()
    requires FrameBytes(f) + tail <= FramesBytes(sent)
    ensures f == sent[0] && tail <= FramesBytes(sent[1..])
  {
    hide HeaderBytes, ParsedHeader, FramesBytes, Partial;
    var all := FramesBytes(sent);
    FirstFrame(sent, []);
    assert all + [] == all && FramesBytes(sent[1..]) + [] == FramesBytes(sent[1..]);
    var n := 9 + |f.payload|;
    HeaderInverse(f.header);
    assert all[..9] == HeaderBytes(f.header);
    assert all[9..n] == f.payload;
    assert all[n..][..|tail|] == tail;
  }

  /** Part of a frame, with its header at least. */
  lemma SamePart(f: Frame, sent: seq<Frame>)
    requires |f.payload| < f.header.length && sent != [] && sent[0].Valid()
    requires FrameBytes(f) <= FramesBytes(sent)
    ensures f.header == sent[0].header && f.payload <= sent[0].payload
  {
    hide HeaderBytes, ParsedHeader, FramesBytes, Partial;
    var all := FramesBytes(sent);
    FirstFrame(sent, []);
    assert all + [] == all;
    HeaderInverse(f.header);
    assert all[..9] == HeaderBytes(f.header);
    assert f.header == sent[0].header;
    assert all[9..9 + |f.payload|] == f.payload;
    SliceStart(all, 9, |f.payload|, |sent[0].payload|);
  }

  lemma SliceStart(s: seq<byte>, from: nat, n: nat, m: nat)
    requires n <= m && from + m <= |s|
    ensures s[from..from + n] == s[from..from + m][..n]
  {
  }

  /** The octets decide: whoever has consumed a prefix of what was written has the frames written. */
  lemma {:induction false} PrefixIsLinked(p: Progress, sent: seq<Frame>)
    requires Sound(p) && (forall f :: f in sent ==> f.Valid())
    requires Accounted(p, []) <= FramesBytes(sent)
    ensures Linked(p, sent)
    decreases |p.done|
  {
    hide FrameBytes;
    var rest := match p.current case Some(f) => FrameBytes(f) case None => [];
    FrameLength();
    if p.done == [] {
      assert FramesBytes([]) + rest == rest;
      if p.current.Some? {
        SamePart(p.current.value, sent);
      }
    } else {
      var f, q := p.done[0], p.(done := p.done[1..]);
      assert FramesBytes(p.done) + rest == FrameBytes(f) + (FramesBytes(p.done[1..]) + rest);
      SameFirst(f, FramesBytes(p.done[1..]) + rest, sent);
      PrefixIsLinked(q, sent[1..]);
      assert p.done == [f] + q.done && sent == [sent[0]] + sent[1..];
    }
  }

  lemma FrameLength()
    ensures forall f :: |FrameBytes(f)| >= 9
  {
  }

  // ---- What is in flight ----------------------------------------------------

  /** What the frames sent still mean to a receiver with this progress. */
  function InFlight(sent: seq<Frame>, p: Progress): seq<P.Message>
    requires Linked(p, sent)
  {
    match p.current
    case None => AllMessages(sent[|p.done|..])
    case Some(f) => Messages(sent[|p.done|], |f.payload|) + AllMessages(sent[|p.done| + 1..])
  }

  /** Writing a frame adds its messages at the end. */
  lemma InFlightGrows(sent: seq<Frame>, more: seq<Frame>, p: Progress)
    requires Linked(p, sent)
    ensures Linked(p, sent + more) && InFlight(sent + more, p) == InFlight(sent, p) + AllMessages(more)
  {
    hide Messages, AllMessages;
    var n := |p.done|;
    if p.current.Some? {
      assert (sent + more)[n + 1..] == sent[n + 1..] + more;
      MessagesConcat(sent[n + 1..], more);
    } else {
      assert (sent + more)[n..] == sent[n..] + more;
      MessagesConcat(sent[n..], more);
    }
  }

  /** A header takes up its frame: nothing changes, unless the frame is empty and so complete. */
  lemma HeaderTakes(sent: seq<Frame>, p: Progress, h: FrameHeader)
    requires Linked(p, sent) && p.current.None? && Linked(After(p, OnHeader(h)), sent)
    requires forall f :: f in sent ==> f.Valid()
    ensures |p.done| < |sent| && sent[|p.done|].header == h
    ensures var f, q := sent[|p.done|], After(p, OnHeader(h));
            InFlight(sent, p) == if h.length == 0 then Messages(f, 0) + InFlight(sent, q) else InFlight(sent, q)
  {
    hide Messages;
    var n, q := |p.done|, After(p, OnHeader(h));
    if h.length == 0 {
      assert q.done[n] == sent[n];
    }
    assert sent[n] in sent;
    assert sent[n..] == [sent[n]] + sent[n + 1..];
  }

  /** A chunk is the next part of its frame's payload, and takes that much off. */
  lemma ChunkTakes(sent: seq<Frame>, p: Progress, cb: Callback)
    requires Linked(p, sent) && cb.OnChunk? && Legal(p, cb) && Linked(After(p, cb), sent)
    requires forall f :: f in sent ==> f.Valid()
    ensures |p.done| < |sent| && p.current.Some?
    ensures var f, k := sent[|p.done|], |p.current.value.payload|;
            && f.header == cb.h && k + cb.taken <= |f.payload|
            && cb.offered[..cb.taken] == f.payload[k..k + cb.taken]
            && InFlight(sent, p) == Messages(f, k) + AllMessages(sent[|p.done| + 1..])
            && InFlight(sent, After(p, cb)) ==
                 (if k + cb.taken < |f.payload| then Messages(f, k + cb.taken) else []) + AllMessages(sent[|p.done| + 1..])
  {
    hide Messages, AllMessages;
    var n, f, k := |p.done|, sent[|p.done|], |p.current.value.payload|;
    var q, grown := After(p, cb), p.current.value.payload + cb.offered[..cb.taken];
    assert f in sent;
    if |grown| == cb.h.length {
      assert q.done[n] == Frame(cb.h, grown) == f;
      assert sent[|q.done|..] == sent[n + 1..];
      assert [] + AllMessages(sent[n + 1..]) == AllMessages(sent[n + 1..]);
    }
    assert grown[k..] == cb.offered[..cb.taken];
    assert grown <= f.payload;
    assert f.payload[..|grown|][k..] == f.payload[k..k + cb.taken];
  }
}
