/**
 Flow-control errors and the HTTP/2 engine: with a large enough initial window, none is
 ever reported, whatever octets arrive and whatever the application does.
 */
module FlowFaults {
  import opened Bits
  import opened Frames
  import opened FlowControl
  import opened SendLedger
  import opened FrameParsers
  import opened Http2Core
  import opened Reassembly
  import ReceiveLedger

  /** The receive side is balanced, and no flow-control error has been reported. */
  ghost predicate Sound(s: Core) {
    && Balanced(s.flow) && 32765 <= s.flow.initial
    && Http2Core.ConnectionError(FlowControlFault) !in s.events
  }

  /** What a step may change of all that: the windows by one event, the queue by other things. */
  ghost predicate Harmless(s: Core, s': Core) {
    && s.events <= s'.events
    && ConnectionError(FlowControlFault) !in s'.events[|s.events|..]
  }

  lemma StaysSound(s: Core, s': Core)
    requires Sound(s) && Harmless(s, s')
    requires Balanced(s'.flow) && s'.flow.initial == s.flow.initial
    ensures Sound(s')
  {
    assert s'.events == s.events + s'.events[|s.events|..];
  }

  /** One event on the windows, without an error. */
  lemma StepSound(s: Core, s': Core, e: SendLedger.Event)
    requires Sound(s) && Harmless(s, s') && s'.flow == Step(s.flow, e)
    requires e.Data? ==> e.chunk.size <= MAX_CHUNK
    ensures Sound(s') && ReceiveLedger.Fits(s.flow, e)
  {
    hide Balanced, Step, Harmless;
    ReceiveLedger.LargeWindowFits(s.flow, e);
    ReceiveLedger.StepBalanced(s.flow, e);
    StaysSound(s, s');
  }

  lemma DataSound(s: Core, h: FrameHeader, chunk: seq<byte>)
    requires Sound(s) && |chunk| <= MAX_CHUNK
    ensures Sound(AfterData(s, h, chunk))
  {
    hide Balanced, Due, Consume;
    var e, s' := Data(Chunk(h.streamId, |chunk|, LowFlag(h))), AfterData(s, h, chunk);
    ReceiveLedger.LargeWindowFits(s.flow, e);
    var added := [DataReceived(h.streamId, chunk)] + if LowFlag(h) then [StreamClosed(h.streamId)] else [];
    assert s'.events == s.events + added;
    StepSound(s, s', e);
  }

  lemma HeadersSound(s: Core, server: bool, h: FrameHeader, chunk: seq<byte>)
    requires Sound(s)
    ensures Sound(AfterHeaders(s, server, h, chunk))
  {
    hide Step;
    var s' := AfterHeaders(s, server, h, chunk);
    forall id | id in s'.flow.streams
      ensures FullStream(s'.flow, id)
    {
      if id in s.flow.streams {
        assert FullStream(s.flow, id);
      }
    }
    StaysSound(s, s');
  }

  lemma {:induction false} SizesSound(f: Flow, sizes: seq<uint32>)
    requires Balanced(f)
    ensures Balanced(AfterSizes(f, sizes)) && AfterSizes(f, sizes).initial == f.initial
  {
    hide Balanced;
    if sizes != [] {
      SizesSound(f, sizes[..|sizes| - 1]);
      OthersKeepBalance(AfterSizes(f, sizes[..|sizes| - 1]), 0, 0, sizes[|sizes| - 1]);
    }
  }

  lemma SettingsSound(s: Core, chunk: seq<byte>, s': Core)
    requires Sound(s) && AfterSettingsPayload(s, chunk, s')
    ensures Sound(s')
  {
    hide Balanced, SizeEvents, AfterSizes;
    SizesSound(s.flow, Sizes(chunk));
    SizesAreQuiet(s.flow, Sizes(chunk), s'.events[|s.events|..]);
    StaysSound(s, s');
  }

  lemma UpdateSound(s: Core, id: uint32, chunk: seq<byte>, s': Core)
    requires Sound(s) && AfterWindowUpdate(s, id, chunk, s')
    ensures Sound(s')
  {
    hide Balanced, Increment;
    if |chunk| >= 4 && Increment(chunk) != 0 {
      var added := s'.events[|s.events|..];
      if added != [] {
        assert added == [added[0]] + added[1..];
      }
      OthersKeepBalance(s.flow, id, Increment(chunk), 0);
      StaysSound(s, s');
    }
  }

  /** Every call-back of the parser, on any input. */
  lemma CallbackSound(s: Core, server: bool, cb: Callback, s': Core)
    requires Sound(s) && AfterCallback(s, server, cb, s') && Offers(cb, MAX_CHUNK)
    ensures Sound(s')
  {
    hide AfterData, AfterHeaders, AfterSettingsPayload, AfterWindowUpdate, Balanced, FromBe32;
    if cb.OnChunk? && cb.taken > 0 && cb.h.kind == DATA {
      DataSound(s, cb.h, cb.offered);
    } else if cb.OnChunk? && cb.taken > 0 && cb.h.kind == HEADERS {
      HeadersSound(s, server, cb.h, cb.offered);
    } else if cb.OnChunk? && cb.taken > 0 && cb.h.kind == SETTINGS {
      SettingsSound(s, cb.offered, s');
    } else if cb.OnChunk? && cb.taken > 0 && cb.h.kind == WINDOW_UPDATE {
      UpdateSound(s, cb.h.streamId, cb.offered, s');
    } else {
      StaysSound(s, s');
    }
  }

  /** And so every run of call-backs. */
  lemma {:induction false} InputSound(s: Core, server: bool, log: seq<Callback>, s': Core)
    requires Sound(s) && Reaches(s, server, log, s') && AllFit(log)
    ensures Sound(s')
  {
    hide Sound, AfterCallback, Offers;
    if log != [] {
      var front := log[..|log| - 1];
      var m :| Reaches(s, server, front, m) && AfterLast(m, server, log, s');
      InputSound(s, server, front, m);
      assert Offers(log[|log| - 1], MAX_CHUNK);
      CallbackSound(m, server, log[|log| - 1], s');
    }
  }

  /** The application's calls: sends, new streams, anything written, events fetched. */
  lemma CallsSound(s: Core, id: uint32, n: nat, out: seq<byte>, k: nat)
    requires Sound(s) && k <= |s.events|
    ensures Sound(s.(flow := AfterSend(s.flow, id, Sendable(s.flow, id, n)), out := out))
    ensures Sound(s.(flow := AfterOpen(s.flow, id), out := out))
    ensures Sound(s.(events := s.events[k..], out := out))
  {
    hide Balanced;
    OthersKeepBalance(s.flow, id, Sendable(s.flow, id, n), 0);
  }
}
