/**
 Two engines over two FIFO channels: flow control as a protocol. Nothing is ever lost
 between the windows: what a sender may still send, what is in flight, and the credit on
 its way back always add up to what the receiver will still take.
 */
module TwoParty {
  import opened Bits
  import opened Wrappers
  import opened FlowControl

  /** Frames as flow control sees them. DATA shrinks while it is being received. */
  datatype Message =
    | Data(id: uint32, size: nat, endStream: bool)
    | Update(id: uint32, increment: nat)
    | Settings(initial: uint32)

  /**
   One end and its outgoing channel. `ended`: streams it has handled END_STREAM DATA on, and
   so forgotten.
   */
  datatype End = End(flow: Flow, out: seq<Message>, ended: set<uint32>)

  datatype Net = Net(x: End, y: End) {
    function Swap(): Net {
      Net(y, x)
    }
  }

  /** What the end `x` can do next. */
  datatype Action =
    | Send(id: uint32, size: nat, endStream: bool) // one DATA frame
    | Open(id: uint32)                             // a stream that is new, or has only been heard of
    | Headers(id: uint32, known: bool)             // HEADERS handled
    | Receive(taken: nat)                          // the next frame, or `taken` octets of DATA: at most a buffer

  ghost predicate Allowed(n: Net, act: Action) {
    match act
    case Send(id, size, endStream) =>
      && id != 0
      && if size == 0 then endStream else size <= Sendable(n.x.flow, id, size)
    case Open(id) => n.x.flow.Entry(id).send == n.x.flow.peerInitial
    case Headers(_, _) => true
    case Receive(taken) =>
      && n.y.out != []
      && (n.y.out[0].Data? && n.y.out[0].size > 0 ==> 1 <= taken <= Min(n.y.out[0].size, MAX_CHUNK))
  }

  function Credits(id: uint32, credit: Option<uint32>): seq<Message> {
    if credit.Some? then [Update(id, credit.value)] else []
  }

  /** DATA arrives, in part or whole; each part carries the END_STREAM of its frame. */
  function Taking(n: Net, taken: nat): Net
    requires n.y.out != [] && n.y.out[0].Data? && 1 <= taken <= n.y.out[0].size < 0x1_0000_0000
  {
    var m := n.y.out[0];
    var r := AfterReceive(n.x.flow, m.id, taken);
    Net(n.x.(flow := if m.endStream then AfterEnd(r.flow, m.id) else r.flow,
             out := n.x.out + Credits(0, r.conn) + Credits(m.id, r.stream),
             ended := if m.endStream then n.x.ended + {m.id} else n.x.ended),
        n.y.(out := (if taken < m.size then [m.(size := m.size - taken)] else []) + n.y.out[1..]))
  }

  function Next(n: Net, act: Action): Net
    requires Allowed(n, act) && Sane(n)
  {
    match act
    case Send(id, size, endStream) =>
      n.(x := n.x.(flow := AfterSend(n.x.flow, id, size), out := n.x.out + [Data(id, size, endStream)]))
    case Open(id) => n.(x := n.x.(flow := AfterOpen(n.x.flow, id)))
    case Headers(id, known) => n.(x := n.x.(flow := n.x.flow.Heard(id, known)))
    case Receive(taken) =>
      match n.y.out[0]
      case Data(id, size, endStream) => if size == 0 then Drop(n) else Taking(n, taken)
      case Update(id, increment) => Drop(n).(x := n.x.(flow := AfterUpdate(n.x.flow, id, increment)))
      case Settings(initial) => Drop(n).(x := n.x.(flow := AfterSettings(n.x.flow, initial)))
  }

  function Drop(n: Net): Net
    requires n.y.out != []
  {
    n.(y := n.y.(out := n.y.out[1..]))
  }

  /** DATA is never on stream 0, and frames have a bounded length. */
  ghost predicate Sane(n: Net) {
    SaneOut(n.x.out) && SaneOut(n.y.out)
  }

  ghost predicate SaneOut(out: seq<Message>) {
    forall m :: m in out && m.Data? ==> m.id != 0 && m.size < 0x1_0000_0000
  }

  // ---- What is in flight ----------------------------------------------------

  function DataOf(m: Message, id: uint32): nat {
    if m.Data? && m.id == id then m.size else 0
  }

  function AnyData(m: Message): nat {
    if m.Data? then m.size else 0
  }

  function CreditOf(m: Message, id: uint32): nat {
    if m.Update? && m.id == id then m.increment else 0
  }

  function DataFor(out: seq<Message>, id: uint32): nat {
    if out == [] then 0 else DataOf(out[0], id) + DataFor(out[1..], id)
  }

  function AllData(out: seq<Message>): nat {
    if out == [] then 0 else AnyData(out[0]) + AllData(out[1..])
  }

  function CreditFor(out: seq<Message>, id: uint32): nat {
    if out == [] then 0 else CreditOf(out[0], id) + CreditFor(out[1..], id)
  }

  lemma {:induction false} SumsConcat(a: seq<Message>, b: seq<Message>, id: uint32)
    ensures DataFor(a + b, id) == DataFor(a, id) + DataFor(b, id)
    ensures AllData(a + b) == AllData(a) + AllData(b)
    ensures CreditFor(a + b, id) == CreditFor(a, id) + CreditFor(b, id)
  {
    if a == [] {
      assert a + b == b;
    } else {
      assert (a + b)[1..] == a[1..] + b;
      SumsConcat(a[1..], b, id);
    }
  }

  lemma SumsOne(m: Message, id: uint32)
    ensures DataFor([m], id) == DataOf(m, id) && AllData([m]) == AnyData(m) && CreditFor([m], id) == CreditOf(m, id)
  {
    assert [m][1..] == [];
  }

  // ---- The invariant --------------------------------------------------------

  /** The SETTINGS an end starts with have not been handled yet. */
  predicate Pending(out: seq<Message>) {
    out != [] && out[0].Settings?
  }

  /** What a stream's window will grow by when they are. */
  function Coming(x: End, y: End): int {
    if Pending(y.out) then y.flow.initial - DEFAULT_WINDOW else 0
  }

  /** Connection level, for DATA from x to y. */
  ghost predicate ConnConserved(x: End, y: End) {
    && x.flow.connSend >= 0
    && x.flow.connSend + AllData(x.out) + CreditFor(y.out, 0) == y.flow.connRecv
  }

  /** SETTINGS come first, once, and say what the receiver grants. */
  ghost predicate Announced(x: End, y: End) {
    && DEFAULT_WINDOW <= y.flow.initial
    && Balanced(y.flow)
    && (forall i :: 1 <= i < |y.out| ==> !y.out[i].Settings?)
    && (if Pending(y.out) then y.out[0].initial == y.flow.initial && x.flow.peerInitial == DEFAULT_WINDOW
        else x.flow.peerInitial == y.flow.initial)
  }

  /** What the sender may still send, and all that is on its way in either direction. */
  function Claims(x: End, y: End, id: uint32): int {
    x.flow.Entry(id).send + DataFor(x.out, id) + CreditFor(y.out, id) + Coming(x, y)
  }

  /**
   Stream level. Until the receiver has handled END_STREAM DATA the sender's claims cover the
   receiver's window; until the sender has, too, they are exactly that window.
   */
  ghost predicate StreamConserved(x: End, y: End, id: uint32) {
    && x.flow.Entry(id).send >= 0
    && (id !in y.ended ==> Claims(x, y, id) >= y.flow.Entry(id).recv)
    && (id !in x.ended && id !in y.ended ==> Claims(x, y, id) == y.flow.Entry(id).recv)
  }

  /** Conservation of the windows for DATA from x to y. */
  ghost predicate Conserved(x: End, y: End) {
    && SaneOut(x.out)
    && ConnConserved(x, y) && Announced(x, y)
    && forall id: uint32 :: id != 0 ==> StreamConserved(x, y, id)
  }

  // ---- One step, seen from the sender ---------------------------------------

  lemma AppendSettings(out: seq<Message>, more: seq<Message>)
    requires forall i :: 1 <= i < |out| ==> !out[i].Settings?
    requires forall m :: m in more ==> !m.Settings?
    ensures forall i :: 1 <= i < |out + more| ==> !(out + more)[i].Settings?
    ensures Pending(out + more) == Pending(out)
    ensures Pending(out) ==> (out + more)[0] == out[0]
  {
    if out == [] && more != [] {
      assert more[0] in more;
    }
  }

  lemma SendConserves(n: Net, id: uint32, size: nat, endStream: bool)
    requires Sane(n) && Allowed(n, Send(id, size, endStream)) && size < 0x1_0000_0000
    requires Conserved(n.x, n.y)
    ensures var m := Next(n, Send(id, size, endStream)); Conserved(m.x, m.y)
  {
    var m, data := Next(n, Send(id, size, endStream)), Data(id, size, endStream);
    forall i: uint32 | i != 0
      ensures StreamConserved(m.x, m.y, i)
    {
      assert StreamConserved(n.x, n.y, i);
      SumsConcat(n.x.out, [data], i);
      SumsOne(data, i);
    }
    SumsConcat(n.x.out, [data], 0);
    SumsOne(data, 0);
  }

  lemma TrackConserves(n: Net, act: Action)
    requires Sane(n) && Allowed(n, act) && (act.Open? || act.Headers?)
    requires Conserved(n.x, n.y)
    ensures var m := Next(n, act); Conserved(m.x, m.y)
  {
    var m := Next(n, act);
    forall i: uint32 | i != 0
      ensures StreamConserved(m.x, m.y, i)
    {
      assert StreamConserved(n.x, n.y, i);
    }
  }

  /** The flow changes only on the receiving side: sends and peer's initial size as before. */
  ghost predicate SendKept(f: Flow, g: Flow, id: uint32) {
    && g.connSend == f.connSend && g.peerInitial == f.peerInitial
    && g.Entry(id).send == f.Entry(id).send
  }

  lemma CreditsAreUpdates(id: uint32, conn: Option<uint32>, stream: Option<uint32>, i: uint32)
    ensures var more := Credits(0, conn) + Credits(id, stream);
            && (forall m :: m in more ==> m.Update?)
            && DataFor(more, i) == 0 && AllData(more) == 0
            && CreditFor(more, i) == (if i == 0 then Amount(conn) else 0) + (if i == id then Amount(stream) else 0)
  {
    SumsConcat(Credits(0, conn), Credits(id, stream), i);
    if conn.Some? {
      SumsOne(Update(0, conn.value), i);
    }
    if stream.Some? {
      SumsOne(Update(id, stream.value), i);
    }
  }

  lemma DropSettings(out: seq<Message>)
    requires out != [] && forall i :: 1 <= i < |out| ==> !out[i].Settings?
    ensures !Pending(out[1..]) && forall i :: 1 <= i < |out[1..]| ==> !out[1..][i].Settings?
  {
  }

  /** Credit or SETTINGS arriving at the sender, or an empty DATA frame. */
  lemma DropConserves(n: Net, taken: nat)
    requires Sane(n) && Allowed(n, Receive(taken)) && !(n.y.out[0].Data? && n.y.out[0].size > 0)
    requires Conserved(n.x, n.y)
    ensures var m := Next(n, Receive(taken)); Conserved(m.x, m.y)
  {
    var m := Next(n, Receive(taken));
    DropSettings(n.y.out);
    forall i: uint32 | i != 0
      ensures StreamConserved(m.x, m.y, i)
    {
      assert StreamConserved(n.x, n.y, i);
    }
  }

  lemma ReceiveKeepsSend(f: Flow, id: uint32, n: uint32, i: uint32)
    ensures var r := AfterReceive(f, id, n);
            && SendKept(f, r.flow, i)
            && (i != id ==> SendKept(f, AfterEnd(r.flow, id), i))
            && AfterEnd(r.flow, id).connSend == f.connSend && AfterEnd(r.flow, id).peerInitial == f.peerInitial
  {
    hide Consume, Due;
  }

  /** DATA for the sender: its own receive side is not what this direction is about. */
  lemma TakingConserves(n: Net, taken: nat)
    requires Sane(n) && Allowed(n, Receive(taken)) && n.y.out[0].Data? && n.y.out[0].size > 0
    requires Conserved(n.x, n.y)
    ensures var m := Next(n, Receive(taken)); Conserved(m.x, m.y)
  {
    var m, d := Taking(n, taken), n.y.out[0];
    var r := AfterReceive(n.x.flow, d.id, taken);
    TakingShapes(n, taken);
    forall i: uint32 | i != 0
      ensures StreamConserved(m.x, m.y, i)
    {
      assert StreamConserved(n.x, n.y, i);
      ReceiveKeepsSend(n.x.flow, d.id, taken, i);
      TakingCredits(n, taken, i);
      TakingData(n, taken, i);
    }
    ReceiveKeepsSend(n.x.flow, d.id, taken, d.id);
    TakingCredits(n, taken, 0);
    TakingData(n, taken, 0);
  }

  /** What a chunk does to the channel of its receiver, in sums... */
  lemma TakingCredits(n: Net, taken: nat, i: uint32)
    requires n.y.out != [] && n.y.out[0].Data? && 1 <= taken <= n.y.out[0].size < 0x1_0000_0000
    ensures var m, d := Taking(n, taken), n.y.out[0];
            var r := AfterReceive(n.x.flow, d.id, taken);
            && DataFor(m.x.out, i) == DataFor(n.x.out, i) && AllData(m.x.out) == AllData(n.x.out)
            && CreditFor(m.x.out, i) == CreditFor(n.x.out, i)
                 + (if i == 0 then Amount(r.conn) else 0) + (if i == d.id then Amount(r.stream) else 0)
  {
    hide AfterReceive, AfterEnd, DataFor, AllData, CreditFor, Credits;
    var d := n.y.out[0];
    var r := AfterReceive(n.x.flow, d.id, taken);
    var more := Credits(0, r.conn) + Credits(d.id, r.stream);
    CreditsAreUpdates(d.id, r.conn, r.stream, i);
    SumsConcat(n.x.out, more, i);
    assert n.x.out + Credits(0, r.conn) + Credits(d.id, r.stream) == n.x.out + more;
  }

  /** ... and of its sender. */
  lemma TakingData(n: Net, taken: nat, i: uint32)
    requires n.y.out != [] && n.y.out[0].Data? && 1 <= taken <= n.y.out[0].size < 0x1_0000_0000
    ensures var m, d := Taking(n, taken), n.y.out[0];
            && CreditFor(m.y.out, i) == CreditFor(n.y.out, i)
            && DataFor(m.y.out, i) == DataFor(n.y.out, i) - (if i == d.id then taken else 0)
            && AllData(m.y.out) == AllData(n.y.out) - taken
  {
    hide AfterReceive, AfterEnd, Credits;
    var d := n.y.out[0];
    var first := if taken < d.size then [d.(size := d.size - taken)] else [];
    SumsConcat(first, n.y.out[1..], i);
    if taken < d.size {
      SumsOne(d.(size := d.size - taken), i);
    }
  }

  lemma TakingShapes(n: Net, taken: nat)
    requires Sane(n) && n.y.out != [] && n.y.out[0].Data? && 1 <= taken <= n.y.out[0].size < 0x1_0000_0000
    ensures var m := Taking(n, taken);
            && Sane(m)
            && ((forall i :: 1 <= i < |n.y.out| ==> !n.y.out[i].Settings?) ==>
                  !Pending(m.y.out) && (forall i :: 1 <= i < |m.y.out| ==> !m.y.out[i].Settings?))
            && (forall e :: e in m.x.out && e.Data? ==> e in n.x.out)
  {
    hide AfterReceive, AfterEnd;
    var d := n.y.out[0];
    var r := AfterReceive(n.x.flow, d.id, taken);
    CreditsAreUpdates(d.id, r.conn, r.stream, 0);
    var more := Credits(0, r.conn) + Credits(d.id, r.stream);
    assert n.x.out + Credits(0, r.conn) + Credits(d.id, r.stream) == n.x.out + more;
  }

  lemma CreditsKeepSettings(out: seq<Message>, id: uint32, conn: Option<uint32>, stream: Option<uint32>)
    requires forall i :: 1 <= i < |out| ==> !out[i].Settings?
    ensures var all := out + Credits(0, conn) + Credits(id, stream);
            && (forall i :: 1 <= i < |all| ==> !all[i].Settings?)
            && Pending(all) == Pending(out) && (Pending(out) ==> all[0] == out[0])
  {
    CreditsAreUpdates(id, conn, stream, 0);
    assert out + Credits(0, conn) + Credits(id, stream) == out + (Credits(0, conn) + Credits(id, stream));
    AppendSettings(out, Credits(0, conn) + Credits(id, stream));
  }

  // ---- One step, seen from the receiver -------------------------------------

  /** What x sends does not concern what it receives. */
  lemma SendConservesBack(n: Net, id: uint32, size: nat, endStream: bool)
    requires Sane(n) && Allowed(n, Send(id, size, endStream)) && size < 0x1_0000_0000
    requires Conserved(n.y, n.x)
    ensures var m := Next(n, Send(id, size, endStream)); Conserved(m.y, m.x)
  {
    var m, data := Next(n, Send(id, size, endStream)), Data(id, size, endStream);
    OthersKeepBalance(n.x.flow, id, size, 0);
    AppendSettings(n.x.out, [data]);
    SumsConcat(n.x.out, [data], 0);
    SumsOne(data, 0);
    forall i: uint32 | i != 0
      ensures StreamConserved(m.y, m.x, i)
    {
      assert StreamConserved(n.y, n.x, i);
      SumsConcat(n.x.out, [data], i);
      SumsOne(data, i);
    }
  }

  lemma TrackConservesBack(n: Net, act: Action)
    requires Sane(n) && Allowed(n, act) && (act.Open? || act.Headers?)
    requires Conserved(n.y, n.x)
    ensures var m := Next(n, act); Conserved(m.y, m.x)
  {
    var m := Next(n, act);
    OthersKeepBalance(n.x.flow, act.id, 0, 0);
    if act.Headers? {
      HeardKeepsBalance(n.x.flow, act.id, act.known);
    }
    forall i: uint32 | i != 0
      ensures StreamConserved(m.y, m.x, i)
    {
      assert StreamConserved(n.y, n.x, i);
    }
  }

  lemma DropConservesBack(n: Net, taken: nat)
    requires Sane(n) && Allowed(n, Receive(taken)) && !(n.y.out[0].Data? && n.y.out[0].size > 0)
    requires Conserved(n.y, n.x)
    ensures var m := Next(n, Receive(taken)); Conserved(m.y, m.x)
  {
    var m, e := Next(n, Receive(taken)), n.y.out[0];
    OthersKeepBalance(n.x.flow, if e.Update? then e.id else 0, if e.Update? then e.increment else 0,
                      if e.Settings? then e.initial else 0);
    forall i: uint32 | i != 0
      ensures StreamConserved(m.y, m.x, i)
    {
      assert StreamConserved(n.y, n.x, i);
    }
  }

  lemma ReceiveAmounts(f: Flow, id: uint32, n: uint32)
    requires AfterReceive(f, id, n).ok && Balanced(f)
    ensures var r := AfterReceive(f, id, n);
            && r.flow.connRecv == f.connRecv - n + Amount(r.conn)
            && r.flow.Entry(id).recv == f.Entry(id).recv - n + Amount(r.stream) <= f.initial
            && r.flow.initial == f.initial
            && forall i :: i != id ==> r.flow.Entry(i).recv == f.Entry(i).recv
  {
    ReceiveKeepsBalance(f, id, n);
    assert FullStream(AfterReceive(f, id, n).flow, id);
  }

  /** There is always room for what can be read at once: no flow-control error. */
  lemma RoomForData(n: Net, taken: nat)
    requires Sane(n) && Allowed(n, Receive(taken)) && n.y.out[0].Data? && n.y.out[0].size > 0
    requires Conserved(n.y, n.x)
    ensures AfterReceive(n.x.flow, n.y.out[0].id, taken).ok
  {
    hide AfterReceive;
    var id := n.y.out[0].id;
    ReceiveErrorExact(n.x.flow, id, taken);
    if id in n.x.flow.streams {
      assert FullStream(n.x.flow, id);
    }
  }

  lemma TakingConservesConn(n: Net, taken: nat)
    requires Sane(n) && Allowed(n, Receive(taken)) && n.y.out[0].Data? && n.y.out[0].size > 0
    requires Conserved(n.y, n.x)
    ensures var m := Taking(n, taken); ConnConserved(m.y, m.x)
  {
    var d := n.y.out[0];
    RoomForData(n, taken);
    ReceiveAmounts(n.x.flow, d.id, taken);
    TakingData(n, taken, 0);
    TakingCredits(n, taken, 0);
    hide AfterReceive, Balanced, Credits;
  }

  lemma TakingAnnounces(n: Net, taken: nat)
    requires Sane(n) && Allowed(n, Receive(taken)) && n.y.out[0].Data? && n.y.out[0].size > 0
    requires Conserved(n.y, n.x)
    ensures var m := Taking(n, taken); Announced(m.y, m.x) && Coming(m.y, m.x) == Coming(n.y, n.x)
  {
    var d := n.y.out[0];
    var r := AfterReceive(n.x.flow, d.id, taken);
    RoomForData(n, taken);
    ReceiveAmounts(n.x.flow, d.id, taken);
    ReceiveKeepsBalance(n.x.flow, d.id, taken);
    OthersKeepBalance(r.flow, d.id, 0, 0);
    CreditsKeepSettings(n.x.out, d.id, r.conn, r.stream);
    hide AfterReceive, Balanced, Credits;
  }

  lemma TakingConservesStream(n: Net, taken: nat, i: uint32)
    requires Sane(n) && Allowed(n, Receive(taken)) && n.y.out[0].Data? && n.y.out[0].size > 0
    requires Conserved(n.y, n.x) && i != 0
    ensures var m := Taking(n, taken); StreamConserved(m.y, m.x, i)
  {
    var d := n.y.out[0];
    assert StreamConserved(n.y, n.x, i);
    RoomForData(n, taken);
    ReceiveAmounts(n.x.flow, d.id, taken);
    TakingAnnounces(n, taken);
    TakingData(n, taken, i);
    TakingCredits(n, taken, i);
    hide AfterReceive, Balanced, Credits, Announced, ConnConserved;
  }

  lemma TakingConservesBack(n: Net, taken: nat)
    requires Sane(n) && Allowed(n, Receive(taken)) && n.y.out[0].Data? && n.y.out[0].size > 0
    requires Conserved(n.y, n.x)
    ensures var m := Next(n, Receive(taken)); Conserved(m.y, m.x)
  {
    var m := Taking(n, taken);
    TakingConservesConn(n, taken);
    TakingAnnounces(n, taken);
    TakingShapes(n, taken);
    forall i: uint32 | i != 0
      ensures StreamConserved(m.y, m.x, i)
    {
      TakingConservesStream(n, taken, i);
    }
  }

  // ---- Runs -----------------------------------------------------------------

  /** An end acts: x, or y. */
  datatype Move = Move(byX: bool, act: Action)

  function View(n: Net, m: Move): Net {
    if m.byX then n else n.Swap()
  }

  ghost predicate Possible(n: Net, m: Move) {
    && Sane(n) && Allowed(View(n, m), m.act)
    && (m.act.Send? ==> m.act.size < 0x1_0000_0000)
  }

  function After(n: Net, m: Move): Net
    requires Possible(n, m)
  {
    if m.byX then Next(n, m.act) else Next(n.Swap(), m.act).Swap()
  }

  ghost predicate IsRun(n: Net, moves: seq<Move>)
    decreases |moves|, 0
  {
    moves == [] || (IsRun(n, moves[..|moves| - 1]) && Possible(Run(n, moves[..|moves| - 1]), moves[|moves| - 1]))
  }

  function Run(n: Net, moves: seq<Move>): Net
    requires IsRun(n, moves)
    decreases |moves|, 1
  {
    if moves == [] then n else After(Run(n, moves[..|moves| - 1]), moves[|moves| - 1])
  }

  /** An end that has just written its SETTINGS. */
  function Fresh(initial: uint32): End {
    End(FreshFlow(initial),
        [Settings(initial)] + if initial > DEFAULT_WINDOW then [Update(0, initial - DEFAULT_WINDOW)] else [],
        {})
  }

  ghost predicate Balance(n: Net) {
    Conserved(n.x, n.y) && Conserved(n.y, n.x)
  }

  lemma FreshConserved(a: uint32, b: uint32)
    requires DEFAULT_WINDOW <= a < 0x8000_0000 && DEFAULT_WINDOW <= b < 0x8000_0000
    ensures Conserved(Fresh(a), Fresh(b))
  {
    FreshBalanced(b);
    var out := Fresh(b).out;
    forall i: uint32
      ensures DataFor(Fresh(a).out, i) == 0 && AllData(Fresh(a).out) == 0
      ensures CreditFor(out, i) == if i == 0 then b - DEFAULT_WINDOW else 0
    {
      FreshSums(a, i);
      FreshSums(b, i);
    }
    forall i: uint32 | i != 0
      ensures StreamConserved(Fresh(a), Fresh(b), i)
    {
    }
  }

  lemma FreshSums(a: uint32, i: uint32)
    requires DEFAULT_WINDOW <= a
    ensures var out := Fresh(a).out;
            && DataFor(out, i) == 0 && AllData(out) == 0
            && CreditFor(out, i) == if i == 0 then a - DEFAULT_WINDOW else 0
  {
    SumsConcat([Settings(a)], Fresh(a).out[1..], i);
    SumsOne(Settings(a), i);
    if a > DEFAULT_WINDOW {
      SumsOne(Update(0, a - DEFAULT_WINDOW), i);
    }
  }

  /** Whichever end acts, both directions stay balanced. */
  lemma NextBalances(n: Net, act: Action)
    requires Sane(n) && Allowed(n, act) && (act.Send? ==> act.size < 0x1_0000_0000)
    requires Balance(n)
    ensures Balance(Next(n, act))
  {
    hide Conserved, Next, Sane, SaneOut;
    match act
    case Send(id, size, endStream) =>
      SendConserves(n, id, size, endStream);
      SendConservesBack(n, id, size, endStream);
    case Open(_) =>
      TrackConserves(n, act);
      TrackConservesBack(n, act);
    case Headers(_, _) =>
      TrackConserves(n, act);
      TrackConservesBack(n, act);
    case Receive(taken) =>
      if n.y.out[0].Data? && n.y.out[0].size > 0 {
        TakingConserves(n, taken);
        TakingConservesBack(n, taken);
      } else {
        DropConserves(n, taken);
        DropConservesBack(n, taken);
      }
  }

  lemma BalanceIsSane(n: Net)
    requires Balance(n)
    ensures Sane(n)
  {
  }

  /** Conservation, in both directions and at both levels, in every reachable state. */
  lemma {:induction false} AlwaysBalanced(a: uint32, b: uint32, moves: seq<Move>)
    requires DEFAULT_WINDOW <= a < 0x8000_0000 && DEFAULT_WINDOW <= b < 0x8000_0000
    requires IsRun(Net(Fresh(a), Fresh(b)), moves)
    ensures Balance(Run(Net(Fresh(a), Fresh(b)), moves))
  {
    hide Conserved, Next, Possible, Fresh;
    if moves == [] {
      FreshConserved(a, b);
      FreshConserved(b, a);
    } else {
      var front := moves[..|moves| - 1];
      AlwaysBalanced(a, b, front);
      MoveBalances(Run(Net(Fresh(a), Fresh(b)), front), moves[|moves| - 1]);
    }
  }

  lemma MoveBalances(n: Net, m: Move)
    requires Balance(n) && Possible(n, m)
    ensures Balance(After(n, m))
  {
    hide Conserved, Next, Allowed, SaneOut;
    NextBalances(View(n, m), m.act);
  }

  /** Neither engine ever sees a flow-control error, however DATA is cut on arrival. */
  lemma NoFlowControlError(a: uint32, b: uint32, moves: seq<Move>, byX: bool, taken: nat)
    requires DEFAULT_WINDOW <= a < 0x8000_0000 && DEFAULT_WINDOW <= b < 0x8000_0000
    requires IsRun(Net(Fresh(a), Fresh(b)), moves)
    requires Possible(Run(Net(Fresh(a), Fresh(b)), moves), Move(byX, Receive(taken)))
    ensures var n := View(Run(Net(Fresh(a), Fresh(b)), moves), Move(byX, Receive(taken)));
            n.y.out[0].Data? && n.y.out[0].size > 0 ==> AfterReceive(n.x.flow, n.y.out[0].id, taken).ok
  {
    hide Conserved, Next, Fresh;
    AlwaysBalanced(a, b, moves);
    var n := View(Run(Net(Fresh(a), Fresh(b)), moves), Move(byX, Receive(taken)));
    if n.y.out[0].Data? && n.y.out[0].size > 0 {
      RoomForData(n, taken);
    }
  }

  /**
   Why the equation needs streams that END_STREAM DATA has not come back on: forgetting the
   stream refills its send window, and the equation survives exactly when it was full.
   */
  lemma EndingRefills(n: Net, taken: nat)
    requires Sane(n) && Allowed(n, Receive(taken)) && n.y.out[0].Data? && n.y.out[0].size > 0 && n.y.out[0].endStream
    requires Conserved(n.x, n.y) && n.y.out[0].id !in n.x.ended && n.y.out[0].id !in n.y.ended
    ensures var m, id := Taking(n, taken), n.y.out[0].id;
            && m.x.flow.Entry(id).send == n.x.flow.peerInitial
            && (Claims(m.x, m.y, id) == m.y.flow.Entry(id).recv
                <==> n.x.flow.Entry(id).send == n.x.flow.peerInitial)
  {
    var id := n.y.out[0].id;
    TakingShapes(n, taken);
    TakingData(n, taken, id);
    TakingCredits(n, taken, id);
    ReceiveKeepsSend(n.x.flow, id, taken, id);
    assert StreamConserved(n.x, n.y, id);
    hide AfterReceive, Balanced, Credits;
  }

  /**
   On a stream that has not ended either way, all the DATA in flight fits the receiver's
   window at once, however much of it is read together.
   */
  lemma InFlightFits(n: Net, id: uint32)
    requires Conserved(n.x, n.y) && id != 0 && id !in n.x.ended && id !in n.y.ended
    ensures DataFor(n.x.out, id) <= n.y.flow.Entry(id).recv && AllData(n.x.out) <= n.y.flow.connRecv
  {
    assert StreamConserved(n.x, n.y, id);
  }

  /**
   Progress: once everything sent has arrived, more than half of the grant is free again, on
   the connection and on every stream the sender has not ended: nobody waits for ever.
   */
  lemma QuietMeansWritable(n: Net, id: uint32)
    requires Balance(n) && n.x.out == [] && n.y.out == []
    ensures n.x.flow.connSend > n.y.flow.initial / 2
    ensures id != 0 && id !in n.y.ended ==> n.x.flow.Entry(id).send > n.y.flow.initial / 2
  {
    if id != 0 {
      assert StreamConserved(n.x, n.y, id);
    }
    if id in n.y.flow.streams {
      assert FullStream(n.y.flow, id);
    }
  }
}
