/**
 HTTP/2 flow control (section 6.9 of RFC 7540) as arithmetic on one engine's windows:
 what each event does to them. The engine class is proved against these functions,
 and the ledgers and protocols are built from them.
 */
module FlowControl {
  import opened Bits
  import opened Frames
  import opened Wrappers

  const DEFAULT_WINDOW: uint32 := 65535

  /** `send` bounds what we may send, `recv` what the peer may; `consumed` is not yet credited back. */
  datatype StreamFlow = StreamFlow(consumed: uint32, send: int, recv: int, known: bool)

  datatype Flow = Flow(
    connSend: int, connRecv: int, connConsumed: uint32,
    peerInitial: uint32, initial: uint32,
    streams: map<uint32, StreamFlow>)
  {
    /** The entry of a stream, tracked or about to be. */
    function Entry(id: uint32): StreamFlow {
      if id in streams then streams[id] else StreamFlow(0, peerInitial, initial, false)
    }

    function With(id: uint32, s: StreamFlow): Flow {
      this.(streams := streams[id := s])
    }

    function Touched(id: uint32): Flow {
      With(id, Entry(id))
    }

    /** HEADERS track their stream; a server marks it known. */
    function Heard(id: uint32, known: bool): Flow {
      With(id, Entry(id).(known := known))
    }

    function Threshold(): uint32 {
      initial / 2
    }
  }

  /** Before any frame, with the given initial window set once. */
  function FreshFlow(initial: uint32): Flow {
    Flow(DEFAULT_WINDOW, ConnGrant(initial), 0, DEFAULT_WINDOW, initial, map[])
  }

  /** What the peer may send on the connection: SETTINGS can only raise it, by a WINDOW_UPDATE. */
  function ConnGrant(initial: uint32): uint32 {
    if initial > DEFAULT_WINDOW then initial else DEFAULT_WINDOW
  }

  // ---- Sending --------------------------------------------------------------

  /** How much of `n` octets the windows let through. */
  function Sendable(f: Flow, id: uint32, n: nat): (k: nat)
    ensures k <= n
  {
    var available := Min(f.connSend, f.Entry(id).send);
    if available <= 0 then 0 else Min(n, available)
  }

  function AfterSend(f: Flow, id: uint32, k: nat): Flow {
    if k == 0 then f
    else f.With(id, f.Entry(id).(send := f.Entry(id).send - k)).(connSend := f.connSend - k)
  }

  /** Opening a stream tracks it with a full send window. */
  function AfterOpen(f: Flow, id: uint32): Flow {
    f.With(id, f.Entry(id).(known := true, send := f.peerInitial))
  }

  // ---- Credit from the peer -------------------------------------------------

  function AfterUpdate(f: Flow, id: uint32, increment: nat): Flow {
    if id == 0 then f.(connSend := f.connSend + increment)
    else f.With(id, f.Entry(id).(send := f.Entry(id).send + increment))
  }

  /** SETTINGS_INITIAL_WINDOW_SIZE shifts every tracked stream by the difference. */
  function AfterSettings(f: Flow, size: uint32): Flow {
    f.(peerInitial := size,
       streams := map id | id in f.streams :: f.streams[id].(send := f.streams[id].send + size - f.peerInitial))
  }

  // ---- Receiving ------------------------------------------------------------

  /** One receive window: what is left of it, and what has been consumed but not credited back. */
  datatype Window = Window(recv: int, consumed: uint32)

  function Add32(a: uint32, b: uint32): uint32 {
    (a + b) % 0x1_0000_0000
  }

  /** Consumption is credited back once it reaches the threshold. */
  function Due(w: Window, n: uint32, threshold: uint32): Option<uint32> {
    var consumed := Add32(w.consumed, n);
    if consumed >= threshold then Some(consumed) else None
  }

  function Consume(w: Window, n: uint32, threshold: uint32): Window {
    match Due(w, n, threshold)
    case Some(credit) => Window(w.recv - n + credit, 0)
    case None => Window(w.recv - n, Add32(w.consumed, n))
  }

  /** The WINDOW_UPDATEs a chunk triggers, for the connection and for its stream. */
  datatype Received = Received(flow: Flow, conn: Option<uint32>, stream: Option<uint32>, ok: bool)

  /** `n` octets of DATA: an error, or consumption and the credit it triggers. */
  function AfterReceive(f: Flow, id: uint32, n: uint32): Received {
    var s := f.Entry(id);
    if f.connRecv - n < 0 || s.recv - n < 0 then
      Received(f.With(id, s.(recv := s.recv - n)).(connRecv := f.connRecv - n), None, None, false)
    else
      var conn := Consume(Window(f.connRecv, f.connConsumed), n, f.Threshold());
      var own := Consume(Window(s.recv, s.consumed), n, f.Threshold());
      Received(
        f.With(id, s.(recv := own.recv, consumed := own.consumed))
         .(connRecv := conn.recv, connConsumed := conn.consumed),
        Due(Window(f.connRecv, f.connConsumed), n, f.Threshold()),
        Due(Window(s.recv, s.consumed), n, f.Threshold()),
        true)
  }

  /** END_STREAM on DATA forgets the stream, in both directions. */
  function AfterEnd(f: Flow, id: uint32): Flow {
    f.(streams := f.streams - {id})
  }

  // ---- The receive ledger ---------------------------------------------------

  /**
   Window and unreturned consumption add up to the grant, and what is not yet
   returned is below the threshold, or nothing.
   */
  predicate Full(w: Window, grant: uint31, threshold: uint32) {
    && w.recv + w.consumed == grant
    && (w.consumed < threshold || w.consumed == 0)
  }

  predicate Balanced(f: Flow) {
    && f.initial < 0x8000_0000
    && Full(Window(f.connRecv, f.connConsumed), ConnGrant(f.initial), f.Threshold())
    && forall id :: id in f.streams ==> FullStream(f, id)
  }

  predicate FullStream(f: Flow, id: uint32)
    requires id in f.streams && f.initial < 0x8000_0000
  {
    Full(Window(f.streams[id].recv, f.streams[id].consumed), f.initial, f.Threshold())
  }

  lemma FreshBalanced(initial: uint32)
    requires initial < 0x8000_0000
    ensures Balanced(FreshFlow(initial))
  {
  }

  /** Using a window within its grant keeps it full, and returns a valid increment. */
  lemma ConsumeKeepsFull(w: Window, n: uint32, grant: uint31, threshold: uint32)
    requires Full(w, grant, threshold) && n <= w.recv
    ensures Full(Consume(w, n, threshold), grant, threshold)
    ensures n > 0 && Due(w, n, threshold).Some? ==> 1 <= Due(w, n, threshold).value < 0x8000_0000
  {
    assert w.consumed + n <= grant;
  }

  /** A chunk that raises no error keeps the balance; its credits are valid increments. */
  lemma ReceiveKeepsBalance(f: Flow, id: uint32, n: uint32)
    requires Balanced(f) && AfterReceive(f, id, n).ok
    ensures Balanced(AfterReceive(f, id, n).flow)
    ensures n > 0 ==> ValidCredit(AfterReceive(f, id, n).conn) && ValidCredit(AfterReceive(f, id, n).stream)
  {
    hide Add32, Due, Consume;
    var s, t := f.Entry(id), f.Threshold();
    ConsumeKeepsFull(Window(f.connRecv, f.connConsumed), n, ConnGrant(f.initial), t);
    assert Full(Window(s.recv, s.consumed), f.initial, t) by {
      if id in f.streams {
        assert FullStream(f, id);
      }
    }
    ConsumeKeepsFull(Window(s.recv, s.consumed), n, f.initial, t);
    var g := AfterReceive(f, id, n).flow;
    forall i | i in g.streams
      ensures FullStream(g, i)
    {
      if i != id {
        assert FullStream(f, i);
      }
    }
  }

  /** An increment the peer may accept: from 1 to 2^31-1. */
  predicate ValidCredit(c: Option<uint32>) {
    c.Some? ==> 1 <= c.value < 0x8000_0000
  }

  /** Exactly the chunks that fit both grants, net of what is still consumed, are accepted. */
  lemma ReceiveErrorExact(f: Flow, id: uint32, n: uint32)
    requires Balanced(f)
    ensures AfterReceive(f, id, n).ok <==>
              f.connConsumed + n <= ConnGrant(f.initial) && f.Entry(id).consumed + n <= f.initial
  {
    hide Add32, Due, Consume;
    if id in f.streams {
      assert FullStream(f, id);
    }
  }

  /** The events that touch the other direction leave the balance alone. */
  lemma OthersKeepBalance(f: Flow, id: uint32, k: nat, size: uint32)
    requires Balanced(f)
    ensures Balanced(AfterSend(f, id, k)) && Balanced(AfterOpen(f, id)) && Balanced(AfterUpdate(f, id, k))
    ensures Balanced(AfterSettings(f, size)) && Balanced(AfterEnd(f, id)) && Balanced(f.Touched(id))
  {
    forall i | i in f.streams
      ensures FullStream(f, i)
    {
    }
  }

  lemma HeardKeepsBalance(f: Flow, id: uint32, known: bool)
    requires Balanced(f)
    ensures Balanced(f.Heard(id, known))
  {
    forall i | i in f.streams
      ensures FullStream(f, i)
    {
    }
  }

  /** A chunk of DATA as it is handled, with the END_STREAM flag of its frame. */
  datatype Chunk = Chunk(id: uint32, size: uint32, endStream: bool)

  function Amount(credit: Option<uint32>): uint32 {
    if credit.Some? then credit.value else 0
  }

  const MAX_CHUNK: uint32 := 16384 // the engine's input buffer
}
