/**
 Server-sent events: a parser that goes octet by octet, against a reference that cuts the
 stream into lines and reads each line as a field.
 */
module Sse {
  import opened Bits
  import opened Wrappers
  import opened Headers
  import opened Http1Text

  const BOM: Text := [0xEF, 0xBB, 0xBF]

  datatype SseEvent = SseEvent(id: Text, kind: Text, data: Text, retry: Option<int>)

  const NO_EVENT := SseEvent([], [], [], None)

  function StripUtf8Bom(chunk: Text): Text {
    if BOM <= chunk then chunk[3..] else chunk
  }

  predicate IsEnd(b: byte) {
    b == CR || b == LF
  }

  // ---- The reference: lines and fields --------------------------------------

  /** The position of the first line end, or the length. */
  function FirstEnd(t: Text): (i: nat)
    ensures i <= |t| && (i < |t| ==> IsEnd(t[i])) && forall j :: 0 <= j < i ==> !IsEnd(t[j])
  {
    if t == [] || IsEnd(t[0]) then 0
    else
      var i := FirstEnd(t[1..]);
      assert forall j :: 0 < j < 1 + i ==> t[j] == t[1..][j - 1];
      1 + i
  }

  /** What follows a line: LF, CR and CR LF each end one. */
  function Behind(t: Text, i: nat): (rest: Text)
    requires i < |t|
    ensures |rest| < |t|
  {
    if t[i] == CR && i + 1 < |t| && t[i + 1] == LF then t[i + 2..] else t[i + 1..]
  }

  function Lines(t: Text): seq<Text>
    decreases |t|
  {
    var i := FirstEnd(t);
    if i == |t| then [] else [t[..i]] + Lines(Behind(t, i))
  }

  /** The beginning of a line that has not ended. */
  function Unended(t: Text): Text
    decreases |t|
  {
    var i := FirstEnd(t);
    if i == |t| then t else Unended(Behind(t, i))
  }

  /** The event being collected and those complete. */
  datatype Reader = Reader(current: SseEvent, events: seq<SseEvent>)

  function FieldName(line: Text): Text {
    line[..Find(line, COLON)]
  }

  /** What follows the colon, less one space; nothing if there is no colon. */
  function FieldValue(line: Text): Text {
    var colon := Find(line, COLON);
    if colon == |line| then []
    else
      var value := line[colon + 1..];
      if value != [] && value[0] == SPACE then value[1..] else value
  }

  /** Signed 64-bit milliseconds. */
  function Milliseconds(n: nat): int {
    if n % 0x1_0000_0000_0000_0000 < 0x8000_0000_0000_0000 then n % 0x1_0000_0000_0000_0000
    else n % 0x1_0000_0000_0000_0000 - 0x1_0000_0000_0000_0000
  }

  function WithField(e: SseEvent, name: Text, value: Text): SseEvent {
    if name == Ascii("data") then e.(data := e.data + value + [LF])
    else if name == Ascii("event") then e.(kind := value)
    else if name == Ascii("id") then if 0 in value then e else e.(id := value)
    else if name == Ascii("retry") then
      match Number64(value, 10)
      case Some(n) => e.(retry := Some(Milliseconds(n)))
      case None => e
    else e
  }

  function Dispatchable(e: SseEvent): bool {
    e.data != [] || e.kind != [] || e.id != []
  }

  /** Without the line feed the last data field added. */
  function Finished(e: SseEvent): SseEvent {
    if e.data != [] && e.data[|e.data| - 1] == LF then e.(data := e.data[..|e.data| - 1]) else e
  }

  /** Identifier and retry time persist. */
  function Cleared(e: SseEvent): SseEvent {
    e.(kind := [], data := [])
  }

  /** An empty line ends an event, a colon starts a comment, anything else is a field. */
  function ReadLine(r: Reader, line: Text): Reader {
    if line == [] then
      Reader(Cleared(r.current), if Dispatchable(r.current) then r.events + [Finished(r.current)] else r.events)
    else if line[0] == COLON then r
    else r.(current := WithField(r.current, FieldName(line), FieldValue(line)))
  }

  function ReadLines(r: Reader, lines: seq<Text>): Reader {
    if lines == [] then r else ReadLine(ReadLines(r, lines[..|lines| - 1]), lines[|lines| - 1])
  }

  // ---- The octet machine ----------------------------------------------------

  datatype State = Init | LineStart | InFieldName | AfterColon | InFieldValue | InComment

  datatype Machine = Machine(state: State, lastWasCr: bool, reader: Reader, name: Text, value: Text)

  const FRESH := Machine(Init, false, Reader(NO_EVENT, []), [], [])

  function AtEnd(m: Machine): Reader {
    match m.state
    case Init => ReadLine(m.reader, [])
    case LineStart => ReadLine(m.reader, [])
    case InComment => m.reader
    case InFieldName => m.reader.(current := WithField(m.reader.current, m.name, []))
    case _ => m.reader.(current := WithField(m.reader.current, m.name, m.value))
  }

  function Octet(m: Machine, b: byte): Machine {
    if m.lastWasCr && b == LF then m.(lastWasCr := false)
    else if IsEnd(b) then Machine(LineStart, b == CR, AtEnd(m), [], [])
    else
      var n := m.(lastWasCr := false);
      match m.state
      case InComment => n
      case InFieldName => if b == COLON then n.(state := AfterColon) else n.(name := m.name + [b])
      case AfterColon => if b == SPACE then n.(state := InFieldValue) else n.(state := InFieldValue, value := m.value + [b])
      case InFieldValue => n.(value := m.value + [b])
      case _ => if b == COLON then n.(state := InComment) else n.(state := InFieldName, name := m.name + [b])
  }

  function Octets(m: Machine, t: Text): Machine
    decreases |t|
  {
    if t == [] then m else Octet(Octets(m, t[..|t| - 1]), t[|t| - 1])
  }

  /** Only the first chunk is looked at for a byte order mark, even if it is empty. */
  function Parsed(m: Machine, chunk: Text): Machine {
    if m.state == Init then Octets(m.(state := LineStart), StripUtf8Bom(chunk)) else Octets(m, chunk)
  }

  function ParsedAll(m: Machine, chunks: seq<Text>): Machine {
    if chunks == [] then m else Parsed(ParsedAll(m, chunks[..|chunks| - 1]), chunks[|chunks| - 1])
  }

  function Reset(m: Machine): Machine {
    Machine(Init, m.lastWasCr, Reader(NO_EVENT, m.reader.events), [], [])
  }

  class SseParser {
    var state: State
    var lastWasCr: bool
    var current: SseEvent
    var name: Text
    var value: Text
    /** Everything passed to the call-back. */
    var events: seq<SseEvent>

    ghost function View(): Machine
      reads this
    {
      Machine(state, lastWasCr, Reader(current, events), name, value)
    }

    constructor ()
      ensures View() == FRESH
    {
      state, lastWasCr, current, name, value, events := Init, false, NO_EVENT, [], [], [];
    }

    method ProcessField()
      modifies this`current
      ensures current == WithField(old(current), name, value)
    {
      if name == Ascii("data") {
        current := current.(data := current.data + value);
        current := current.(data := current.data + [LF]);
      } else if name == Ascii("event") {
        current := current.(kind := value);
      } else if name == Ascii("id") {
        if 0 !in value {
          current := current.(id := value);
        }
      } else if name == Ascii("retry") {
        var valid := AllDigits(value);
        if valid {
          var n := Number(value, 10);
          if n.value <= MAX_UINT64 {
            current := current.(retry := Some(Milliseconds(n.value)));
          }
        }
      }
    }

    method DispatchEvent()
      modifies this`current, this`events
      ensures Reader(current, events) == ReadLine(old(Reader(current, events)), [])
    {
      if current.data != [] || current.kind != [] || current.id != [] {
        if current.data != [] && current.data[|current.data| - 1] == LF {
          current := current.(data := current.data[..|current.data| - 1]);
        }
        events := events + [current];
      }
      current := current.(kind := [], data := []);
    }

    method Step(b: byte)
      modifies this
      ensures View() == Octet(old(View()), b)
    {
      hide WithField, ReadLine;
      if lastWasCr && b == LF {
        lastWasCr := false;
        return;
      }
      lastWasCr := b == CR;
      if b == LF || b == CR {
        match state {
          case Init => DispatchEvent();
          case LineStart => DispatchEvent();
          case InFieldName =>
            value := [];
            ProcessField();
          case InComment =>
          case _ => ProcessField();
        }
        name, value, state := [], [], LineStart;
      } else {
        match state {
          case InComment =>
          case InFieldName =>
            if b == COLON {
              state := AfterColon;
            } else {
              name := name + [b];
            }
          case AfterColon =>
            state := InFieldValue;
            if b != SPACE {
              value := value + [b];
            }
          case InFieldValue => value := value + [b];
          case _ =>
            if b == COLON {
              state := InComment;
            } else {
              name := name + [b];
              state := InFieldName;
            }
        }
      }
    }

    method Parse(chunk: Text)
      modifies this
      ensures View() == Parsed(old(View()), chunk)
    {
      hide Octet;
      var bytes := chunk;
      if state == Init {
        bytes := StripUtf8Bom(chunk);
        state := LineStart;
      }
      ghost var m := View();
      for i := 0 to |bytes|
        invariant View() == Octets(m, bytes[..i])
      {
        Step(bytes[i]);
        assert bytes[..i + 1][..i] == bytes[..i];
      }
      assert bytes[..|bytes|] == bytes;
    }

    /** Everything is forgotten except whether the last octet was a carriage return. */
    method ResetParser()
      modifies this
      ensures View() == Reset(old(View()))
    {
      state, name, value, current := Init, [], [], NO_EVENT;
    }
  }

  method AllDigits(t: Text) returns (all: bool)
    ensures all <==> Number(t, 10).Some?
  {
    if t == [] {
      return false;
    }
    all := true;
    for i := 0 to |t|
      invariant all && (i > 0 ==> Number(t[..i], 10).Some?)
    {
      assert t[..i + 1][..i] == t[..i];
      if t[i] < 48 || t[i] > 57 {
        NotANumber(t, i);
        return false;
      }
    }
    assert t[..|t|] == t;
  }

  lemma {:induction false} NotANumber(t: Text, i: nat)
    requires i < |t| && DigitValue(t[i], 10) == None
    ensures Number(t, 10) == None
  {
    if i < |t| - 1 {
      NotANumber(t[..|t| - 1], i);
    }
  }

  // ---- The machine refines the reference ------------------------------------

  predicate EndsWithCr(t: Text) {
    t != [] && t[|t| - 1] == CR
  }

  lemma FirstLine(t: Text)
    ensures var i := FirstEnd(t);
            if i < |t| then Lines(t) == [t[..i]] + Lines(Behind(t, i)) && Unended(t) == Unended(Behind(t, i))
            else Lines(t) == [] && Unended(t) == t
  {
  }

  lemma {:induction false} CrEndsLine(t: Text)
    requires EndsWithCr(t)
    ensures Unended(t) == []
    decreases |t|
  {
    hide Unended, Lines;
    FirstLine(t);
    var i := FirstEnd(t);
    assert i < |t|;
    FirstLine([]);
    if Behind(t, i) != [] {
      CrEndsLine(Behind(t, i));
    }
  }

  lemma BehindGrows(t: Text, b: byte, i: nat)
    requires i < |t| && IsEnd(t[i])
    ensures if i + 1 == |t| && t[i] == CR && b == LF then Behind(t, i) == [] && Behind(t + [b], i) == []
            else (
              && Behind(t + [b], i) == Behind(t, i) + [b]
              && (EndsWithCr(t) && b == LF ==> EndsWithCr(Behind(t, i)))
              && (EndsWithCr(Behind(t, i)) ==> EndsWithCr(t)))
  {
    var u := t + [b];
    if t[i] == CR && i + 1 < |t| && t[i + 1] == LF {
      assert u[i + 2..] == t[i + 2..] + [b];
    } else if !(i + 1 == |t| && t[i] == CR && b == LF) {
      assert u[i + 1..] == t[i + 1..] + [b];
    }
  }

  /** What an octet adds to the lines: nothing, part of a line, or the end of one. */
  lemma {:induction false} LinesGrow(t: Text, b: byte)
    ensures var u := t + [b];
            if !IsEnd(b) then Lines(u) == Lines(t) && Unended(u) == Unended(t) + [b]
            else if b == LF && EndsWithCr(t) then Lines(u) == Lines(t) && Unended(u) == []
            else Lines(u) == Lines(t) + [Unended(t)] && Unended(u) == []
    decreases |t|
  {
    hide Lines, Unended, Behind;
    var u, i := t + [b], FirstEnd(t);
    FirstEndGrows(t, b);
    FirstLine(t);
    FirstLine(u);
    FirstLine([]);
    if i < |t| {
      assert u[..i] == t[..i];
      BehindGrows(t, b, i);
      if !(i + 1 == |t| && t[i] == CR && b == LF) {
        LinesGrow(Behind(t, i), b);
      }
    } else if IsEnd(b) {
      LastEnd(t, b);
    }
  }

  lemma LastEnd(t: Text, b: byte)
    requires FirstEnd(t) == |t|
    ensures Behind(t + [b], |t|) == [] && (t + [b])[..|t|] == t && !EndsWithCr(t)
  {
  }

  lemma FirstEndGrows(t: Text, b: byte)
    ensures var u, i := t + [b], FirstEnd(t);
            FirstEnd(u) == if i < |t| then i else if IsEnd(b) then |t| else |u|
  {
    var u, i := t + [b], FirstEnd(t);
    var j := FirstEnd(u);
    if i < |t| {
      assert u[i] == t[i];
      assert j < |t| ==> u[j] == t[j];
    } else {
      assert u[|t|] == b;
      assert forall k :: 0 <= k < |t| ==> u[k] == t[k];
    }
  }

  /** The machine in the middle of a line. */
  function InLine(r: Reader, line: Text, cr: bool): Machine {
    var colon := Find(line, COLON);
    if line == [] then Machine(LineStart, cr, r, [], [])
    else if colon == 0 then Machine(InComment, cr, r, [], [])
    else if colon == |line| then Machine(InFieldName, cr, r, line, [])
    else if colon == |line| - 1 then Machine(AfterColon, cr, r, FieldName(line), [])
    else Machine(InFieldValue, cr, r, FieldName(line), FieldValue(line))
  }

  lemma FindGrows(line: Text, b: byte)
    ensures var u, i := line + [b], Find(line, COLON);
            Find(u, COLON) == if i < |line| then i else if b == COLON then |line| else |u|
  {
    var u, i := line + [b], Find(line, COLON);
    var j := Find(u, COLON);
    if i < |line| {
      assert u[i] == line[i];
      assert j < |line| ==> u[j] == line[j];
    } else {
      assert u[|line|] == b;
      assert forall k :: 0 <= k < |line| ==> u[k] == line[k];
    }
  }

  lemma LineGrows(r: Reader, line: Text, b: byte, cr: bool)
    requires !IsEnd(b)
    ensures Octet(InLine(r, line, cr), b) == InLine(r, line + [b], false)
  {
    hide WithField;
    FindGrows(line, b);
    var u, i := line + [b], Find(line, COLON);
    if 0 < i < |line| {
      assert u[..i] == line[..i];
      assert u[i + 1..] == line[i + 1..] + [b];
      if i < |line| - 1 {
        ValueGrows(line[i + 1..], b);
      }
    } else if 0 < i && b == COLON {
      assert u[..i] == line;
    }
  }

  lemma ValueGrows(value: Text, b: byte)
    requires value != []
    ensures (value + [b])[0] == value[0] && (value + [b])[1..] == value[1..] + [b]
  {
  }

  lemma LineEnds(r: Reader, line: Text, cr: bool)
    ensures AtEnd(InLine(r, line, cr)) == ReadLine(r, line)
  {
    hide WithField;
    var i := Find(line, COLON);
    if line != [] && 0 < i {
      if i == |line| {
        assert line[..i] == line;
      } else if i == |line| - 1 {
        assert line[i + 1..] == [];
      }
    }
  }

  /** Octet by octet or line by line: the same events, and the same state in between. */
  lemma {:induction false} MachineRefinesLines(r: Reader, t: Text)
    ensures Octets(Machine(LineStart, false, r, [], []), t)
         == InLine(ReadLines(r, Lines(t)), Unended(t), EndsWithCr(t))
    decreases |t|
  {
    hide Octet, InLine, ReadLine;
    if t == [] {
      NoLines(r);
    } else {
      var s, b := t[..|t| - 1], t[|t| - 1];
      assert t == s + [b];
      MachineRefinesLines(r, s);
      LinesGrow(s, b);
      if EndsWithCr(s) {
        CrEndsLine(s);
      }
      OctetIs(ReadLines(r, Lines(s)), s, b);
      if IsEnd(b) && !(b == LF && EndsWithCr(s)) {
        assert (Lines(s) + [Unended(s)])[..|Lines(s)|] == Lines(s);
      }
    }
  }

  lemma NoLines(r: Reader)
    ensures ReadLines(r, Lines([])) == r && Unended([]) == [] && InLine(r, [], false) == Machine(LineStart, false, r, [], [])
  {
  }

  lemma OctetIs(r: Reader, s: Text, b: byte)
    requires EndsWithCr(s) ==> Unended(s) == []
    ensures Octet(InLine(r, Unended(s), EndsWithCr(s)), b)
         == if !IsEnd(b) then InLine(r, Unended(s) + [b], false)
            else if b == LF && EndsWithCr(s) then InLine(r, [], false)
            else InLine(ReadLine(r, Unended(s)), [], b == CR)
  {
    hide ReadLine, WithField, Unended;
    if !IsEnd(b) {
      LineGrows(r, Unended(s), b, EndsWithCr(s));
    } else {
      LineEnds(r, Unended(s), EndsWithCr(s));
    }
  }

  // ---- Chunks ---------------------------------------------------------------

  function All(chunks: seq<Text>): Text {
    if chunks == [] then [] else All(chunks[..|chunks| - 1]) + chunks[|chunks| - 1]
  }

  lemma {:induction false} OctetsConcat(m: Machine, a: Text, b: Text)
    ensures Octets(m, a + b) == Octets(Octets(m, a), b)
    decreases |b|
  {
    hide Octet;
    if b == [] {
      assert a + b == a;
    } else {
      OctetsConcat(m, a, b[..|b| - 1]);
      assert (a + b)[..|a + b| - 1] == a + b[..|b| - 1];
    }
  }

  lemma {:induction false} NeverInitAgain(m: Machine, t: Text)
    requires m.state != Init
    ensures Octets(m, t).state != Init
    decreases |t|
  {
    if t != [] {
      NeverInitAgain(m, t[..|t| - 1]);
    }
  }

  /** The octets that count: all of them, but for a byte order mark at the start of the first chunk. */
  function Stream(chunks: seq<Text>): Text
    requires chunks != []
  {
    StripUtf8Bom(chunks[0]) + All(chunks[1..])
  }

  lemma {:induction false} ChunksAreOctets(m: Machine, chunks: seq<Text>)
    requires m.state == Init && chunks != []
    ensures ParsedAll(m, chunks) == Octets(m.(state := LineStart), Stream(chunks))
    decreases |chunks|
  {
    hide Octets;
    var start := m.(state := LineStart);
    if |chunks| == 1 {
      assert chunks[..0] == [] && chunks[1..] == [];
      assert StripUtf8Bom(chunks[0]) + [] == StripUtf8Bom(chunks[0]);
    } else {
      var front, last := chunks[..|chunks| - 1], chunks[|chunks| - 1];
      ChunksAreOctets(m, front);
      NeverInitAgain(start, Stream(front));
      OctetsConcat(start, Stream(front), last);
      assert chunks[1..][..|chunks| - 2] == front[1..];
      assert Stream(front) + last == Stream(chunks);
    }
  }

  /** The events of a stream are those of its lines, whatever chunks it came in. */
  lemma EventsAreLines(chunks: seq<Text>)
    requires chunks != []
    ensures ParsedAll(FRESH, chunks).reader == ReadLines(Reader(NO_EVENT, []), Lines(Stream(chunks)))
  {
    hide Octets, ReadLines, Lines, Unended;
    ChunksAreOctets(FRESH, chunks);
    MachineRefinesLines(Reader(NO_EVENT, []), Stream(chunks));
  }

  /** Taking a byte order mark off the first chunk takes it off the stream, unless it is cut. */
  lemma BomIsWhole(first: Text, rest: Text)
    ensures StripUtf8Bom(first) + rest == StripUtf8Bom(first + rest) <==> !(BOM <= first + rest && |first| < 3)
  {
    var all := first + rest;
    if |first| >= 3 {
      assert all[..3] == first[..3];
      assert BOM <= all <==> BOM <= first;
      assert all[3..] == first[3..] + rest;
    } else if BOM <= all {
      assert |StripUtf8Bom(all)| == |all| - 3;
    }
  }

  lemma {:induction false} AllFront(chunks: seq<Text>)
    requires chunks != []
    ensures All(chunks) == chunks[0] + All(chunks[1..])
    decreases |chunks|
  {
    if |chunks| == 1 {
      assert chunks[..0] == [] && chunks[1..] == [];
    } else {
      var front := chunks[..|chunks| - 1];
      AllFront(front);
      assert chunks[1..][..|chunks| - 2] == front[1..];
      assert All(chunks) == chunks[0] + (All(front[1..]) + chunks[|chunks| - 1]);
    }
  }

  /**
   How a stream is cut into chunks does not matter, as long as a byte order mark it begins
   with is not cut.
   */
  lemma ChunksDoNotMatter(chunks: seq<Text>, chunks': seq<Text>)
    requires chunks != [] && chunks' != [] && All(chunks) == All(chunks')
    requires BOM <= All(chunks) ==> |chunks[0]| >= 3 && |chunks'[0]| >= 3
    ensures ParsedAll(FRESH, chunks) == ParsedAll(FRESH, chunks')
  {
    hide Octets;
    ChunksAreOctets(FRESH, chunks);
    ChunksAreOctets(FRESH, chunks');
    AllFront(chunks);
    AllFront(chunks');
    BomIsWhole(chunks[0], All(chunks[1..]));
    BomIsWhole(chunks'[0], All(chunks'[1..]));
  }

  // ---- Reset ----------------------------------------------------------------

  /** The carriage return a reset forgets to forget makes no difference. */
  lemma {:induction false} ResetForgets(m: Machine, t: Text)
    requires t != []
    ensures Octets(Reset(m).(state := LineStart), t)
         == Octets(FRESH.(state := LineStart, reader := Reader(NO_EVENT, m.reader.events)), t)
    decreases |t|
  {
    hide WithField;
    if |t| == 1 {
      assert t[..0] == [];
    } else {
      ResetForgets(m, t[..|t| - 1]);
    }
  }
}
