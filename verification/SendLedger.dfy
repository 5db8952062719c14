/**
 The send side of flow control over whole runs: what the windows are worth at any
 time, in terms of the credit received and the octets sent.
 */
module SendLedger {
  import opened Bits
  import opened FlowControl

  /** Everything that happens to an engine's windows. */
  datatype Event =
    | Send(id: uint32, n: nat) // `n` octets offered
    | Open(id: uint32)
    | Update(id: uint32, increment: nat)
    | Settings(size: uint32)
    | Data(chunk: Chunk)
    | Headers(id: uint32, known: bool)

  function Step(f: Flow, e: Event): Flow {
    match e
    case Send(id, n) => AfterSend(f, id, Sendable(f, id, n))
    case Open(id) => AfterOpen(f, id)
    case Update(id, increment) => AfterUpdate(f, id, increment)
    case Settings(size) => AfterSettings(f, size)
    case Data(c) =>
      var g := AfterReceive(f, c.id, c.size).flow;
      if c.endStream then AfterEnd(g, c.id) else g
    case Headers(id, known) => f.Heard(id, known)
  }

  /** Credit received and octets sent; a stream's count from when its entry was opened or created. */
  datatype Sums = Sums(credited: nat, sent: nat)

  datatype Ledger = Ledger(conn: Sums, streams: map<uint32, Sums>) {
    function Of(id: uint32): Sums {
      if id in streams then streams[id] else Sums(0, 0)
    }

    function With(id: uint32, s: Sums): Ledger {
      this.(streams := streams[id := s])
    }

    function Credit(id: uint32, n: nat): Ledger {
      if id == 0 then this.(conn := conn.(credited := conn.credited + n))
      else With(id, Of(id).(credited := Of(id).credited + n))
    }

    function Spend(id: uint32, n: nat): Ledger {
      if n == 0 then this
      else With(id, Of(id).(sent := Of(id).sent + n)).(conn := conn.(sent := conn.sent + n))
    }
  }

  function Record(l: Ledger, f: Flow, e: Event): Ledger {
    match e
    case Send(id, n) => l.Spend(id, Sendable(f, id, n))
    case Open(id) => l.With(id, Sums(0, 0))
    case Update(id, increment) => l.Credit(id, increment)
    case Settings(size) => l
    case Data(c) => if c.endStream then l.(streams := l.streams - {c.id}) else l.With(c.id, l.Of(c.id))
    case Headers(id, _) => l.With(id, l.Of(id))
  }

  /** The send ledger. A stream's window is measured from the peer's current initial size. */
  ghost predicate Agrees(f: Flow, l: Ledger) {
    && f.connSend == DEFAULT_WINDOW + l.conn.credited - l.conn.sent
    && f.connSend >= 0
    && f.streams.Keys == l.streams.Keys
    && (forall id :: id in f.streams ==> AgreesOn(f, l, id))
  }

  ghost predicate AgreesOn(f: Flow, l: Ledger, id: uint32)
    requires id in f.streams && id in l.streams
  {
    f.streams[id].send - f.peerInitial == l.streams[id].credited - l.streams[id].sent
  }

  function Run(f: Flow, events: seq<Event>): Flow {
    if events == [] then f else Step(Run(f, events[..|events| - 1]), events[|events| - 1])
  }

  function Records(f: Flow, events: seq<Event>): Ledger {
    if events == [] then Ledger(Sums(0, 0), map[])
    else Record(Records(f, events[..|events| - 1]), Run(f, events[..|events| - 1]), events[|events| - 1])
  }

  /** DATA received can only track its stream or forget it, as far as sending goes. */
  lemma DataKeepsSend(f: Flow, c: Chunk)
    ensures var g := Step(f, Data(c));
            && g.connSend == f.connSend && g.peerInitial == f.peerInitial
            && g.streams.Keys == (if c.endStream then f.streams.Keys - {c.id} else f.streams.Keys + {c.id})
            && forall id :: id in g.streams ==> g.streams[id].send == f.Entry(id).send
  {
    hide Due, Consume;
  }

  lemma StepAgrees(f: Flow, l: Ledger, e: Event)
    requires Agrees(f, l)
    ensures Agrees(Step(f, e), Record(l, f, e))
  {
    hide AfterReceive;
    var g, m := Step(f, e), Record(l, f, e);
    if e.Data? {
      DataAgrees(f, l, e.chunk);
    } else {
      forall id | id in g.streams
        ensures id in m.streams && AgreesOn(g, m, id)
      {
        if id in f.streams {
          assert AgreesOn(f, l, id);
        }
      }
    }
  }

  lemma DataAgrees(f: Flow, l: Ledger, c: Chunk)
    requires Agrees(f, l)
    ensures Agrees(Step(f, Data(c)), Record(l, f, Data(c)))
  {
    var g, m := Step(f, Data(c)), Record(l, f, Data(c));
    DataKeepsSend(f, c);
    hide AfterReceive, Step;
    forall id | id in g.streams
      ensures id in m.streams && AgreesOn(g, m, id)
    {
      if id in f.streams {
        assert AgreesOn(f, l, id);
      }
    }
  }

  /** The ledger holds in every reachable state, however credit, SETTINGS and sends interleave. */
  lemma {:induction false} SendLedger(initial: uint32, events: seq<Event>)
    ensures Agrees(Run(FreshFlow(initial), events), Records(FreshFlow(initial), events))
  {
    if events != [] {
      SendLedger(initial, events[..|events| - 1]);
      StepAgrees(Run(FreshFlow(initial), events[..|events| - 1]), Records(FreshFlow(initial), events[..|events| - 1]),
                 events[|events| - 1]);
    }
  }

  /**
   A send never passes either window, and stops short of its data only by using one up.
   */
  lemma SendIsMaximal(f: Flow, id: uint32, n: nat)
    ensures var k := Sendable(f, id, n);
            && (k > 0 ==> k <= f.connSend && k <= f.Entry(id).send)
            && (k < n ==> AfterSend(f, id, k).connSend <= 0 || AfterSend(f, id, k).Entry(id).send <= 0)
  {
  }
}
