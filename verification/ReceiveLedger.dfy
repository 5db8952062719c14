/**
 The receive side of flow control over whole runs of everything that happens to an
 engine's windows: what they are worth, and when an error is reported.
 */
module ReceiveLedger {
  import opened Bits
  import opened FlowControl
  import opened SendLedger

  /** Octets received and credit returned for them; a stream's count from when its entry was created. */
  datatype Total = Total(received: nat, returned: nat)

  datatype Totals = Totals(conn: Total, streams: map<uint32, Total>) {
    function Of(id: uint32): Total {
      if id in streams then streams[id] else Total(0, 0)
    }

    /** A stream that is tracked from now on, if it was not before. */
    function Track(id: uint32): Totals {
      this.(streams := streams[id := Of(id)])
    }
  }

  const NOTHING := Totals(Total(0, 0), map[])

  /** Whether an event is handled without a flow-control error. */
  predicate Fits(f: Flow, e: Event) {
    e.Data? ==> AfterReceive(f, e.chunk.id, e.chunk.size).ok
  }

  function Counted(t: Totals, f: Flow, e: Event): Totals {
    match e
    case Send(id, n) => if Sendable(f, id, n) == 0 then t else t.Track(id)
    case Open(id) => t.Track(id)
    case Update(id, _) => if id == 0 then t else t.Track(id)
    case Settings(_) => t
    case Data(c) => CountedData(t, f, c)
    case Headers(id, _) => t.Track(id)
  }

  function CountedData(t: Totals, f: Flow, c: Chunk): Totals {
    var r, own := AfterReceive(f, c.id, c.size), t.Of(c.id);
    Totals(Total(t.conn.received + c.size, t.conn.returned + Amount(r.conn)),
           if c.endStream then t.streams - {c.id}
           else t.streams[c.id := Total(own.received + c.size, own.returned + Amount(r.stream))])
  }

  function Tally(f: Flow, events: seq<Event>): Totals {
    if events == [] then NOTHING
    else Counted(Tally(f, events[..|events| - 1]), Run(f, events[..|events| - 1]), events[|events| - 1])
  }

  predicate NoError(f: Flow, events: seq<Event>) {
    events == [] || (NoError(f, events[..|events| - 1]) && Fits(Run(f, events[..|events| - 1]), events[|events| - 1]))
  }

  /** Each receive window is its grant, plus the credit returned, minus the octets received. */
  ghost predicate Accounts(f: Flow, t: Totals) {
    && Balanced(f)
    && f.connRecv == ConnGrant(f.initial) + t.conn.returned - t.conn.received
    && f.streams.Keys == t.streams.Keys
    && forall id :: id in f.streams ==> AccountsFor(f, t, id)
  }

  ghost predicate AccountsFor(f: Flow, t: Totals, id: uint32)
    requires id in f.streams && id in t.streams
  {
    f.streams[id].recv == f.initial + t.streams[id].returned - t.streams[id].received
  }

  /** An error is reported exactly when more has been received than was granted and returned. */
  lemma ErrorExact(f: Flow, t: Totals, c: Chunk)
    requires Accounts(f, t)
    ensures Fits(f, Data(c)) <==>
              && t.conn.received + c.size <= ConnGrant(f.initial) + t.conn.returned
              && t.Of(c.id).received + c.size <= f.initial + t.Of(c.id).returned
  {
    hide Consume, Due, Balanced;
    if c.id in f.streams {
      assert AccountsFor(f, t, c.id);
    }
  }

  /** The step keeps the receive side full, and what it returns are valid increments. */
  lemma StepBalanced(f: Flow, e: Event)
    requires Balanced(f) && Fits(f, e)
    ensures Balanced(Step(f, e)) && Step(f, e).initial == f.initial
    ensures e.Data? && e.chunk.size > 0 ==>
              && ValidCredit(AfterReceive(f, e.chunk.id, e.chunk.size).conn)
              && ValidCredit(AfterReceive(f, e.chunk.id, e.chunk.size).stream)
  {
    hide Balanced, Consume, Due, ValidCredit;
    match e
    case Send(id, n) => OthersKeepBalance(f, id, Sendable(f, id, n), 0);
    case Open(id) => OthersKeepBalance(f, id, 0, 0);
    case Update(id, increment) => OthersKeepBalance(f, id, increment, 0);
    case Settings(size) => OthersKeepBalance(f, 0, 0, size);
    case Headers(id, known) => HeardKeepsBalance(f, id, known);
    case Data(c) =>
      ReceiveKeepsBalance(f, c.id, c.size);
      OthersKeepBalance(AfterReceive(f, c.id, c.size).flow, c.id, 0, 0);
  }

  lemma ReceivedAmounts(f: Flow, id: uint32, n: uint32)
    requires AfterReceive(f, id, n).ok
    ensures var r := AfterReceive(f, id, n);
            && r.flow.connRecv == f.connRecv - n + Amount(r.conn)
            && r.flow.streams.Keys == f.streams.Keys + {id}
            && r.flow.streams[id].recv == f.Entry(id).recv - n + Amount(r.stream)
            && forall i :: i in f.streams && i != id ==> r.flow.streams[i] == f.streams[i]
  {
  }

  lemma ChunkAccounts(f: Flow, t: Totals, c: Chunk)
    requires Accounts(f, t) && Fits(f, Data(c)) && !c.endStream
    ensures Accounts(Step(f, Data(c)), Counted(t, f, Data(c)))
  {
    var g, u := Step(f, Data(c)), Counted(t, f, Data(c));
    StepBalanced(f, Data(c));
    ReceivedAmounts(f, c.id, c.size);
    hide AfterReceive, Balanced, ConnGrant, Fits;
    forall id | id in g.streams
      ensures id in u.streams && AccountsFor(g, u, id)
    {
      if id in f.streams {
        assert AccountsFor(f, t, id);
      }
    }
  }

  /** A stream that is forgotten takes its totals with it. */
  lemma EndAccounts(f: Flow, t: Totals, id: uint32)
    requires Accounts(f, t)
    ensures Accounts(AfterEnd(f, id), t.(streams := t.streams - {id}))
  {
    OthersKeepBalance(f, id, 0, 0);
    hide Balanced;
    forall i | i in f.streams && i != id
      ensures AccountsFor(AfterEnd(f, id), t.(streams := t.streams - {id}), i)
    {
      assert AccountsFor(f, t, i);
    }
  }

  lemma DataAccounts(f: Flow, t: Totals, c: Chunk)
    requires Accounts(f, t) && Fits(f, Data(c))
    ensures Accounts(Step(f, Data(c)), Counted(t, f, Data(c)))
  {
    hide Accounts, AfterReceive;
    var d := c.(endStream := false);
    ChunkAccounts(f, t, d);
    if c.endStream {
      EndAccounts(Step(f, Data(d)), Counted(t, f, Data(d)), c.id);
      assert Counted(t, f, Data(d)).streams - {c.id} == Counted(t, f, Data(c)).streams;
    }
  }

  lemma StepAccounts(f: Flow, t: Totals, e: Event)
    requires Accounts(f, t) && Fits(f, e)
    ensures Accounts(Step(f, e), Counted(t, f, e))
  {
    hide AfterReceive, Balanced;
    if e.Data? {
      DataAccounts(f, t, e.chunk);
    } else {
      var g, u := Step(f, e), Counted(t, f, e);
      StepBalanced(f, e);
      forall id | id in g.streams
        ensures id in u.streams && AccountsFor(g, u, id)
      {
        if id in f.streams {
          assert AccountsFor(f, t, id);
        }
      }
    }
  }

  /**
   The receive ledger, over every run of events up to the first error: windows are grants
   plus returned credit minus received octets, and what is not yet returned is below the
   threshold.
   */
  lemma {:induction false} ReceiveLedger(initial: uint32, events: seq<Event>)
    requires initial < 0x8000_0000 && NoError(FreshFlow(initial), events)
    ensures var f := Run(FreshFlow(initial), events);
            f.initial == initial && Accounts(f, Tally(FreshFlow(initial), events))
  {
    hide Balanced, Step, Counted, Accounts, Fits;
    var start := FreshFlow(initial);
    if events == [] {
      NothingAccounts(initial);
    } else {
      var front, e := events[..|events| - 1], events[|events| - 1];
      ReceiveLedger(initial, front);
      StepAccounts(Run(start, front), Tally(start, front), e);
      AccountsBalance(Run(start, front), Tally(start, front));
      StepBalanced(Run(start, front), e);
    }
  }

  lemma NothingAccounts(initial: uint32)
    requires initial < 0x8000_0000
    ensures Accounts(FreshFlow(initial), NOTHING)
  {
    FreshBalanced(initial);
  }

  lemma AccountsBalance(f: Flow, t: Totals)
    requires Accounts(f, t)
    ensures Balanced(f)
  {
  }

  // ---- When an error can be reported at all ---------------------------------

  ghost predicate SmallChunks(events: seq<Event>) {
    forall e :: e in events && e.Data? ==> e.chunk.size <= MAX_CHUNK
  }

  /**
   No peer, honest or not, can make an engine with an initial window of at least 32765
   report a flow-control error, whatever the application does meanwhile: credit is returned
   before a chunk can exceed it.
   */
  lemma {:induction false} LargeWindowNeverErrs(initial: uint32, events: seq<Event>)
    requires 32765 <= initial < 0x8000_0000 && SmallChunks(events)
    ensures NoError(FreshFlow(initial), events)
    ensures var f := Run(FreshFlow(initial), events); Balanced(f) && f.initial == initial
  {
    hide Balanced, Step, Fits;
    if events == [] {
      FreshBalanced(initial);
    } else {
      var front, e := events[..|events| - 1], events[|events| - 1];
      LargeWindowNeverErrs(initial, front);
      assert e in events;
      LargeWindowFits(Run(FreshFlow(initial), front), e);
      StepBalanced(Run(FreshFlow(initial), front), e);
    }
  }

  /** The step of that argument: consumption below the threshold leaves room for a whole chunk. */
  lemma LargeWindowFits(f: Flow, e: Event)
    requires Balanced(f) && 32765 <= f.initial && (e.Data? ==> e.chunk.size <= MAX_CHUNK)
    ensures Fits(f, e)
  {
    hide AfterReceive;
    if e.Data? {
      ReceiveErrorExact(f, e.chunk.id, e.chunk.size);
      if e.chunk.id in f.streams {
        assert FullStream(f, e.chunk.id);
      }
    }
  }

  lemma RunTwo(f: Flow, c: Event, d: Event)
    ensures NoError(f, [c]) <==> Fits(f, c)
    ensures NoError(f, [c, d]) <==> Fits(f, c) && Fits(Step(f, c), d)
  {
    hide Fits, Step;
    assert [c][..0] == [] && [c, d][..1] == [c];
    assert Run(f, []) == f && NoError(f, []);
    assert Run(f, [c]) == Step(f, c);
  }

  /** A chunk just below the threshold is not credited back. */
  lemma NothingReturned(initial: uint32, n: uint32)
    requires 0 < n < initial / 2 && initial < 32768
    ensures var f, e := FreshFlow(initial), Data(Chunk(1, n, false));
            Fits(f, e) && Balanced(Step(f, e)) && Step(f, e).initial == initial && Step(f, e).Entry(1).consumed == n
  {
    FreshBalanced(initial);
    ReceiveKeepsBalance(FreshFlow(initial), 1, n);
  }

  /** The bound is exact: below it, two chunks on one stream are enough. */
  lemma SmallWindowErrs(initial: uint32) returns (events: seq<Event>)
    requires initial < 32765
    ensures |events| <= 2 && SmallChunks(events)
    ensures forall e :: e in events ==> e.Data? && e.chunk.id == 1 && e.chunk.size >= 1 && !e.chunk.endStream
    ensures !NoError(FreshFlow(initial), events)
  {
    hide AfterReceive, Balanced, NoError;
    var start, last := FreshFlow(initial), Data(Chunk(1, MAX_CHUNK, false));
    var first := Data(Chunk(1, if initial < MAX_CHUNK then 1 else initial / 2 - 1, false));
    RunTwo(start, last, last);
    RunTwo(start, first, last);
    FreshBalanced(initial);
    if initial < MAX_CHUNK {
      events := [last];
      ReceiveErrorExact(start, 1, MAX_CHUNK);
    } else {
      events := [first, last];
      NothingReturned(initial, first.chunk.size);
      ReceiveErrorExact(Step(start, first), 1, MAX_CHUNK);
    }
  }
}
