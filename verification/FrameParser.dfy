/**
 The incremental frame parser. It reports headers and payload chunks to callbacks;
 the payload callback may take less than it is offered. What has been reported, as a
 log, determines the frames delivered, and accounts for every octet consumed.
 */
module FrameParsers {
  import opened Bits
  import opened Wrappers
  import opened Frames

  /** One call-back: a header, or a chunk offered and the number of octets taken. */
  datatype Callback = OnHeader(h: FrameHeader) | OnChunk(h: FrameHeader, offered: seq<byte>, taken: nat)

  /** Frames completed, and the one under way with the payload taken so far. */
  datatype Progress = Progress(done: seq<Frame>, current: Option<Frame>)

  function Completed(p: Progress, f: Frame): Progress {
    if |f.payload| == f.header.length then Progress(p.done + [f], None) else p.(current := Some(f))
  }

  ghost predicate Legal(p: Progress, cb: Callback) {
    match cb
    case OnHeader(h) => p.current.None?
    case OnChunk(h, offered, taken) =>
      && p.current.Some? && p.current.value.header == h
      && 0 < |offered| <= h.length - |p.current.value.payload|
      && taken <= |offered|
  }

  function After(p: Progress, cb: Callback): Progress
    requires Legal(p, cb)
  {
    match cb
    case OnHeader(h) => Completed(p, Frame(h, []))
    case OnChunk(h, offered, taken) => Completed(p, Frame(h, p.current.value.payload + offered[..taken]))
  }

  /** Callbacks come in an order frames allow. */
  ghost predicate LegalLog(log: seq<Callback>)
    decreases |log|, 0
  {
    log == [] || (LegalLog(log[..|log| - 1]) && Legal(Replay(log[..|log| - 1]), log[|log| - 1]))
  }

  /** What a log of callbacks has delivered. */
  function Replay(log: seq<Callback>): (p: Progress)
    requires LegalLog(log)
    decreases |log|, 1
  {
    if log == [] then Progress([], None) else After(Replay(log[..|log| - 1]), log[|log| - 1])
  }

  lemma LogSnoc(log: seq<Callback>, cb: Callback)
    requires LegalLog(log) && Legal(Replay(log), cb)
    ensures LegalLog(log + [cb]) && Replay(log + [cb]) == After(Replay(log), cb)
  {
    assert (log + [cb])[..|log|] == log;
  }

  /** Completed frames carry their whole payload; the current one is still short of it. */
  ghost predicate Sound(p: Progress) {
    && (forall f :: f in p.done ==> f.Valid())
    && (p.current.Some? ==> |p.current.value.payload| < p.current.value.header.length)
  }

  lemma {:induction false} ReplaySound(log: seq<Callback>)
    requires LegalLog(log)
    ensures Sound(Replay(log))
  {
    if log != [] {
      ReplaySound(log[..|log| - 1]);
    }
  }

  /** The octets a parser has consumed: delivered frames, and what it holds of the next. */
  function Accounted(p: Progress, seen: seq<byte>): seq<byte> {
    FramesBytes(p.done) + match p.current case Some(f) => FrameBytes(f) case None => seen
  }

  lemma AccountedCompleted(p: Progress, f: Frame)
    ensures Accounted(Completed(p, f), []) == FramesBytes(p.done) + FrameBytes(f)
  {
    FramesBytesConcat(p.done, [f]);
    FramesBytesOne(f);
  }

  /** Taking a chunk accounts for the octets taken. */
  lemma AccountedChunk(p: Progress, cb: Callback)
    requires cb.OnChunk? && Legal(p, cb)
    ensures Accounted(After(p, cb), []) == Accounted(p, []) + cb.offered[..cb.taken]
  {
    var f := p.current.value;
    var f' := Frame(cb.h, f.payload + cb.offered[..cb.taken]);
    AccountedCompleted(p, f');
    assert FrameBytes(f') == FrameBytes(f) + cb.offered[..cb.taken];
  }

  lemma AccountedHeader(p: Progress, h: FrameHeader, seen: seq<byte>)
    requires p.current.None? && HeaderBytes(h) == seen
    ensures Accounted(After(p, OnHeader(h)), []) == Accounted(p, seen)
  {
    AccountedCompleted(p, Frame(h, []));
  }

  /**
   What the payload call-back answers: how much of a chunk it takes. It may keep state, so
   the answer is a function of everything it has been called with before, too.
   */
  type Answers = (seq<Callback>, FrameHeader, seq<byte>) -> nat

  /** The `i`th call-back got the answer it should have. */
  ghost predicate Honours(log: seq<Callback>, i: nat, accept: Answers)
    requires i < |log|
  {
    log[i].OnChunk? ==> log[i].taken == accept(log[..i], log[i].h, log[i].offered)
  }

  /** So did all from the `seen`th on, none of them offering more than there was. */
  ghost predicate AllHonour(log: seq<Callback>, seen: nat, accept: Answers, limit: nat) {
    forall i :: seen <= i < |log| ==> Honours(log, i, accept) && Offers(log[i], limit)
  }

  ghost predicate Offers(cb: Callback, limit: nat) {
    cb.OnChunk? ==> |cb.offered| <= limit
  }

  lemma HonoursMore(before: seq<Callback>, log: seq<Callback>, seen: nat, accept: Answers, limit: nat)
    requires AllHonour(before, seen, accept, limit) && |log| == |before| + 1 && log[..|before|] == before
    requires Offers(log[|before|], limit)
    requires var cb := log[|before|]; cb.OnChunk? ==> cb.taken == accept(before, cb.h, cb.offered)
    ensures AllHonour(log, seen, accept, limit)
  {
    forall i | seen <= i < |log|
      ensures Honours(log, i, accept) && Offers(log[i], limit)
    {
      if i < |before| {
        assert Honours(before, i, accept);
        assert log[..i] == before[..i] && log[i] == before[i];
      }
    }
  }

  lemma NoneAnswered(log: seq<Callback>, accept: Answers, limit: nat)
    ensures AllHonour(log, |log|, accept, limit)
  {
  }

  class FrameParser {
    var readingPayload: bool
    const headerBuffer: array<byte>
    var headerPos: nat
    var currentHeader: FrameHeader
    var payloadBytesRead: nat
    /** Everything reported to the callbacks so far. */
    var log: seq<Callback>

    ghost predicate Valid()
      reads this, headerBuffer
    {
      && headerBuffer.Length == 9
      && LegalLog(log)
      && var current := Replay(log).current;
         if readingPayload then
           && current.Some? && current.value.header == currentHeader && headerPos == 0
           && |current.value.payload| == payloadBytesRead < currentHeader.length
         else
           current.None? && headerPos < 9
    }

    /** Every octet consumed so far. */
    ghost function Input(): seq<byte>
      requires Valid()
      reads this, headerBuffer
    {
      Accounted(Replay(log), headerBuffer[..headerPos])
    }

    constructor ()
      ensures Valid() && Input() == [] && log == [] && fresh(headerBuffer)
    {
      readingPayload, headerPos, payloadBytesRead := false, 0, 0;
      currentHeader := FrameHeader(0, 0, 0, 0, false);
      headerBuffer := new byte[9];
      log := [];
    }

    /** Collect header octets; the ninth completes the header and reports it. */
    method ReadHeader(buf: seq<byte>, offset: nat) returns (next: nat)
      requires Valid() && !readingPayload && offset < |buf|
      modifies this, headerBuffer
      ensures Valid() && offset < next <= |buf|
      ensures Input() == old(Input()) + buf[offset..next]
      ensures log == old(log) || (log != [] && log[..|log| - 1] == old(log) && log[|log| - 1].OnHeader?)
    {
      hide LegalLog, Replay, HeaderBytes, ParsedHeader;
      var toCopy := if 9 - headerPos <= |buf| - offset then 9 - headerPos else |buf| - offset;
      ghost var seen, p := headerBuffer[..headerPos], Replay(log);
      forall k | 0 <= k < toCopy {
        headerBuffer[headerPos + k] := buf[offset + k];
      }
      next := offset + toCopy;
      headerPos := headerPos + toCopy;
      assert headerBuffer[..headerPos] == seen + buf[offset..next];
      assert Accounted(p, seen + buf[offset..next]) == Accounted(p, seen) + buf[offset..next];
      if headerPos == 9 {
        assert headerBuffer[..] == headerBuffer[..9];
        var h := ParsedHeader(headerBuffer[..]);
        ParsedInverse(headerBuffer[..]);
        AccountedHeader(p, h, headerBuffer[..]);
        LogSnoc(log, OnHeader(h));
        log := log + [OnHeader(h)];
        currentHeader := h;
        headerPos := 0;
        payloadBytesRead := 0;
        readingPayload := h.length != 0;
        assert headerBuffer[..0] == [];
      }
    }

    /** Offer the callback as much of the payload as there is; it says how much it takes. */
    method ReadPayload(buf: seq<byte>, offset: nat, accept: Answers)
      returns (next: nat, offered: nat)
      requires Valid() && readingPayload && offset < |buf|
      requires forall past, h, c :: accept(past, h, c) <= |c|
      modifies this
      ensures Valid() && offset <= next <= offset + offered <= |buf|
      ensures Input() == old(Input()) + buf[offset..next]
      ensures offered == Min(old(currentHeader.length - payloadBytesRead), |buf| - offset)
      ensures log == old(log) + [OnChunk(old(currentHeader), buf[offset..offset + offered], next - offset)]
      ensures next - offset == accept(old(log), old(currentHeader), buf[offset..offset + offered])
      ensures next < offset + offered ==>
                readingPayload && currentHeader == old(currentHeader)
                && payloadBytesRead == old(payloadBytesRead) + (next - offset)
    {
      hide LegalLog, Replay, HeaderBytes, ParsedHeader;
      offered := Min(currentHeader.length - payloadBytesRead, |buf| - offset);
      var chunk := buf[offset..offset + offered];
      var consumed := accept(log, currentHeader, chunk);
      ghost var cb := OnChunk(currentHeader, chunk, consumed);
      AccountedChunk(Replay(log), cb);
      LogSnoc(log, cb);
      assert chunk[..consumed] == buf[offset..offset + consumed];
      assert headerBuffer[..0] == [];
      log := log + [OnChunk(currentHeader, chunk, consumed)];
      next := offset + consumed;
      payloadBytesRead := payloadBytesRead + consumed;
      if payloadBytesRead == currentHeader.length {
        readingPayload := false;
      }
    }

    /**
     Consume a buffer. Everything is consumed, unless the payload callback takes less
     than it is offered: then that callback is the last one, and nothing after it has
     been looked at.
     */
    method Consume(buf: seq<byte>, accept: Answers) returns (consumed: nat)
      requires Valid()
      requires forall past, h, c :: accept(past, h, c) <= |c|
      modifies this, headerBuffer
      ensures Valid() && consumed <= |buf|
      ensures Input() == old(Input()) + buf[..consumed]
      ensures old(log) <= log
      ensures AllHonour(log, |old(log)|, accept, |buf|)
      ensures consumed < |buf| ==>
                && log != []
                && var cb := log[|log| - 1];
                   && readingPayload && cb.OnChunk? && cb.h == currentHeader && cb.taken < |cb.offered|
                   && |cb.offered| - cb.taken == Min(currentHeader.length - payloadBytesRead, |buf| - consumed)
    {
      hide LegalLog, Replay, Accounted, AllHonour;
      NoneAnswered(log, accept, |buf|);
      var offset := 0;
      assert old(Input()) + buf[..0] == old(Input());
      while offset < |buf|
        invariant Valid() && offset <= |buf|
        invariant Input() == old(Input()) + buf[..offset]
        invariant old(log) <= log
        invariant AllHonour(log, |old(log)|, accept, |buf|)
        decreases |buf| - offset
      {
        var next;
        ghost var before := log;
        if !readingPayload {
          next := ReadHeader(buf, offset);
          if log != before {
            HonoursMore(before, log, |old(log)|, accept, |buf|);
          }
        } else {
          var offered;
          next, offered := ReadPayload(buf, offset, accept);
          HonoursMore(before, log, |old(log)|, accept, |buf|);
          if next < offset + offered {
            assert buf[..next] == buf[..offset] + buf[offset..next];
            return next;
          }
        }
        assert buf[..next] == buf[..offset] + buf[offset..next];
        offset := next;
      }
      assert buf[..offset] == buf;
      return offset;
    }
  }

  // ---- What the log delivers ------------------------------------------------

  /** Header octets held, or none inside a payload. */
  ghost predicate Holds(p: Progress, seen: seq<byte>) {
    if p.current.Some? then seen == [] else |seen| < 9
  }

  /** The unfinished part of the input. */
  function Rest(p: Progress, seen: seq<byte>): seq<byte> {
    match p.current case Some(f) => FrameBytes(f) case None => seen
  }

  lemma RestIsPartial(p: Progress, seen: seq<byte>)
    requires Sound(p) && Holds(p, seen)
    ensures Partial(Rest(p, seen))
  {
    if p.current.Some? {
      var f := p.current.value;
      assert FrameBytes(f)[..9] == HeaderBytes(f.header);
      HeaderInverse(f.header);
    }
  }

  /**
   Printing and parsing are inverse: if the octets consumed, in whatever pieces, are
   a list of frames followed by the beginning of another, the callbacks have been
   given exactly those frames, header for header and octet for octet.
   */
  lemma FramesComeBack(log: seq<Callback>, seen: seq<byte>, fs: seq<Frame>, rest: seq<byte>)
    requires LegalLog(log) && Holds(Replay(log), seen)
    requires forall f :: f in fs ==> f.Valid()
    requires Partial(rest)
    requires Accounted(Replay(log), seen) == FramesBytes(fs) + rest
    ensures Replay(log).done == fs && Rest(Replay(log), seen) == rest
  {
    ReplaySound(log);
    RestIsPartial(Replay(log), seen);
    FramingUnique(Replay(log).done, fs, Rest(Replay(log), seen), rest);
  }

  /** How the input was cut into reads does not matter. */
  lemma SplitIndependence(log: seq<Callback>, seen: seq<byte>, log': seq<Callback>, seen': seq<byte>)
    requires LegalLog(log) && Holds(Replay(log), seen)
    requires LegalLog(log') && Holds(Replay(log'), seen')
    requires Accounted(Replay(log), seen) == Accounted(Replay(log'), seen')
    ensures Replay(log).done == Replay(log').done
    ensures Rest(Replay(log), seen) == Rest(Replay(log'), seen')
  {
    ReplaySound(log');
    RestIsPartial(Replay(log'), seen');
    FramesComeBack(log, seen, Replay(log').done, Rest(Replay(log'), seen'));
  }
}
