/** The registry of requests in progress, beside the engine that serves them. */
module RequestRegistry {
  import opened Bits
  import opened Frames
  import opened FlowControl
  import opened Http2Core
  import opened Http2Engine
  import opened Requests

  class Registry {
    var entries: map<uint32, Request>

    ghost function With(engine: Engine): World
      reads this, engine, engine.pendingOut
    {
      World(engine.View(), entries)
    }

    constructor ()
      ensures entries == map[]
    {
      entries := map[];
    }

    /** Offer the engine what is left of a body. */
    method TrySendRemaining(engine: Engine, id: uint32)
      requires id in entries && entries[id].offset <= |entries[id].body|
      modifies this, engine`connSend, engine`streams, engine.pendingOut
      ensures With(engine) == TrySend(old(With(engine)), id)
    {
      hide SendFrames, Sendable, AfterSend, FramesBytes;
      var r := entries[id];
      if r.offset >= |r.body| {
        return;
      }
      var rest := r.body[r.offset..];
      var sent := engine.SendData(id, rest, true);
      entries := entries[id := Request(r.body, r.offset + sent, r.sent + SendFrames(id, rest, sent, true))];
    }

    /** Register a request on its stream and start sending it. */
    method Execute(engine: Engine, id: uint32, block: seq<byte>, body: seq<byte>)
      modifies this, engine`connSend, engine`streams, engine.pendingOut
      ensures With(engine) == Executed(old(With(engine)), id, block, body)
    {
      hide TrySend, HeadersFrame, FrameBytes;
      entries := entries[id := Request(body, 0, [])];
      engine.SendHeadersFrame(id, block, body == []);
      if body != [] {
        TrySendRemaining(engine, id);
      }
    }

    method Dispatch(engine: Engine, e: Event)
      requires forall id :: id in entries ==> entries[id].offset <= |entries[id].body|
      modifies this, engine`connSend, engine`streams, engine.pendingOut
      ensures With(engine) == Dispatched(old(With(engine)), e)
    {
      hide TrySend;
      match e {
        case StreamWindow(id) =>
          if id in entries {
            TrySendRemaining(engine, id);
          }
        case StreamClosed(id) =>
          if id in entries {
            entries := entries - {id};
          }
        case StreamReset(id) =>
          if id in entries {
            entries := entries - {id};
          }
        case _ =>
      }
    }

    /** Drain the engine's events. */
    method Pump(engine: Engine)
      requires AllDelivered(With(engine))
      modifies this, engine`connSend, engine`streams, engine`events, engine.pendingOut
      ensures With(engine) == Pumped(old(With(engine)))
    {
      hide TrySend, Delivered;
      ghost var w := With(engine);
      while engine.events != []
        invariant Pumped(With(engine)) == Pumped(w) && AllDelivered(With(engine))
        decreases |engine.events|
      {
        ghost var before := With(engine);
        var e := engine.NextEvent();
        assert With(engine) == Popped(before);
        Offsets(With(engine));
        Dispatch(engine, e.value);
        DispatchDelivers(Popped(before), e.value);
      }
    }
  }

  lemma Offsets(w: World)
    requires AllDelivered(w)
    ensures forall id :: id in w.requests ==> w.requests[id].offset <= |w.requests[id].body|
  {
  }
}
