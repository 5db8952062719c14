/**
 Server-sent events end to end: a writer, and what the parser makes of what it writes. The
 events expected are stated in the terms of the written notes alone.
 */
module SseStreams {
  import opened Wrappers
  import opened Headers
  import opened Http1Text
  import opened Sse

  /** What a server has to say: fields that may be left out, and at least one line of data. */
  datatype Note = Note(kind: Option<Text>, id: Option<Text>, retry: Option<nat>, lines: seq<Text>)

  /** Any of the three line ends. */
  predicate IsEol(eol: Text) {
    eol == [LF] || eol == [CR] || eol == [CR, LF]
  }

  /** A value that stays on its line. */
  predicate OnOneLine(t: Text) {
    forall b :: b in t ==> !IsEnd(b)
  }

  predicate Writable(n: Note) {
    && n.lines != [] && (forall t :: t in n.lines ==> OnOneLine(t))
    && (n.kind.Some? ==> OnOneLine(n.kind.value))
    && (n.id.Some? ==> OnOneLine(n.id.value))
  }

  // ---- The writer -----------------------------------------------------------

  function Field(name: Text, value: Text): Text {
    name + [COLON, SPACE] + value
  }

  function DataFields(lines: seq<Text>): seq<Text> {
    if lines == [] then [] else [Field(Ascii("data"), lines[0])] + DataFields(lines[1..])
  }

  function Optional(name: Text, value: Option<Text>): seq<Text> {
    if value.Some? then [Field(name, value.value)] else []
  }

  function RetryText(n: Note): Option<Text> {
    if n.retry.Some? then Some(DecimalText(n.retry.value)) else None
  }

  /** The lines of a note, the empty one at the end. */
  function NoteLines(n: Note): seq<Text> {
    Optional(Ascii("event"), n.kind) + Optional(Ascii("id"), n.id) + Optional(Ascii("retry"), RetryText(n))
    + DataFields(n.lines) + [[]]
  }

  function AllLines(notes: seq<Note>): seq<Text> {
    if notes == [] then [] else AllLines(notes[..|notes| - 1]) + NoteLines(notes[|notes| - 1])
  }

  function Ended(lines: seq<Text>, eol: Text): Text {
    if lines == [] then [] else lines[0] + eol + Ended(lines[1..], eol)
  }

  function Written(notes: seq<Note>, eol: Text): Text {
    Ended(AllLines(notes), eol)
  }

  // ---- What is expected -----------------------------------------------------

  function Join(lines: seq<Text>): Text
    requires lines != []
  {
    if |lines| == 1 then lines[0] else lines[0] + [LF] + Join(lines[1..])
  }

  /** The last identifier given; one with a NUL in it does not count. */
  function LastId(notes: seq<Note>): Text {
    if notes == [] then []
    else
      var n := notes[|notes| - 1];
      if n.id.Some? && 0 !in n.id.value then n.id.value else LastId(notes[..|notes| - 1])
  }

  /** The last retry time given, in signed 64 bits; one that takes more than 64 does not count. */
  function LastRetry(notes: seq<Note>): Option<int> {
    if notes == [] then None
    else
      var n := notes[|notes| - 1];
      if n.retry.None? || n.retry.value >= 0x1_0000_0000_0000_0000 then LastRetry(notes[..|notes| - 1])
      else if n.retry.value < 0x8000_0000_0000_0000 then Some(n.retry.value)
      else Some(n.retry.value - 0x1_0000_0000_0000_0000)
  }

  /** One event a note: its own kind and data, and the identifier and retry time in force. */
  function Expected(notes: seq<Note>): seq<SseEvent>
    requires forall n :: n in notes ==> Writable(n)
  {
    if notes == [] then []
    else
      var n := notes[|notes| - 1];
      assert Writable(n);
      Expected(notes[..|notes| - 1])
      + [SseEvent(LastId(notes), if n.kind.Some? then n.kind.value else [], Join(n.lines), LastRetry(notes))]
  }

  // ---- Lines of a written stream --------------------------------------------

  lemma EndAt(line: Text, eol: Text, rest: Text)
    requires OnOneLine(line) && IsEol(eol)
    ensures FirstEnd(line + eol + rest) == |line|
  {
    var all := line + eol + rest;
    assert IsEnd(all[|line|]);
    assert forall j :: 0 <= j < |line| ==> all[j] == line[j] && line[j] in line;
  }

  lemma FirstWritten(line: Text, eol: Text, rest: Text)
    requires OnOneLine(line) && IsEol(eol) && (rest == [] || rest[0] != LF || eol != [CR])
    ensures Lines(line + eol + rest) == [line] + Lines(rest)
  {
    hide OnOneLine;
    var all := line + eol + rest;
    EndAt(line, eol, rest);
    assert all[..|line|] == line;
    assert Sse.Behind(all, |line|) == rest;
  }

  /** Lines come apart as they were put together. */
  lemma {:induction false} LinesOfEnded(lines: seq<Text>, eol: Text)
    requires IsEol(eol) && forall t :: t in lines ==> OnOneLine(t)
    ensures Lines(Ended(lines, eol)) == lines
    ensures eol == [CR] && lines != [] ==> Ended(lines, eol)[0] != LF
    decreases |lines|
  {
    hide Lines, OnOneLine;
    if lines == [] {
      NothingWritten();
    } else {
      var rest := lines[1..];
      LinesOfEnded(rest, eol);
      FirstWritten(lines[0], eol, Ended(rest, eol));
      if eol == [CR] {
        StartsWell(lines[0], eol, Ended(rest, eol));
      }
    }
  }

  lemma NothingWritten()
    ensures Lines([]) == []
  {
  }

  lemma StartsWell(line: Text, eol: Text, rest: Text)
    requires OnOneLine(line) && eol == [CR]
    ensures (line + eol + rest)[0] != LF
  {
    assert line != [] ==> line[0] in line;
  }

  // ---- Reading lines --------------------------------------------------------

  lemma {:induction false} ReadConcat(r: Reader, a: seq<Text>, b: seq<Text>)
    ensures ReadLines(r, a + b) == ReadLines(ReadLines(r, a), b)
    decreases |b|
  {
    hide ReadLine;
    if b == [] {
      assert a + b == a;
    } else {
      ReadConcat(r, a, b[..|b| - 1]);
      assert (a + b)[..|a + b| - 1] == a + b[..|b| - 1];
    }
  }

  lemma ReadOne(r: Reader, line: Text)
    ensures ReadLines(r, [line]) == ReadLine(r, line) && ReadLines(r, []) == r
  {
    assert [line][..0] == [];
  }

  lemma FieldIs(name: Text, value: Text)
    requires name != [] && COLON !in name
    ensures var line := Field(name, value);
            line != [] && line[0] != COLON && FieldName(line) == name && FieldValue(line) == value
  {
    var line := Field(name, value);
    assert line[0] == name[0] && name[0] in name;
    assert line[|name|] == COLON;
    assert forall j :: 0 <= j < |name| ==> line[j] == name[j] && name[j] in name;
    assert Find(line, COLON) == |name|;
    assert line[|name| + 1..] == [SPACE] + value;
  }

  lemma NamesAre()
    ensures var data, event, id, retry := Ascii("data"), Ascii("event"), Ascii("id"), Ascii("retry");
            && COLON !in data && COLON !in event && COLON !in id && COLON !in retry
            && |data| == 4 && |event| == 5 && |id| == 2 && |retry| == 5 && event[0] != retry[0]
            && OnOneLine(data) && OnOneLine(event) && OnOneLine(id) && OnOneLine(retry)
  {
  }

  lemma ReadKind(r: Reader, value: Text)
    ensures ReadLine(r, Field(Ascii("event"), value)) == r.(current := r.current.(kind := value))
  {
    hide Ascii;
    NamesAre();
    FieldIs(Ascii("event"), value);
  }

  lemma ReadId(r: Reader, value: Text)
    ensures ReadLine(r, Field(Ascii("id"), value)) == if 0 in value then r else r.(current := r.current.(id := value))
  {
    hide Ascii;
    NamesAre();
    FieldIs(Ascii("id"), value);
  }

  lemma ReadRetry(r: Reader, n: nat)
    ensures ReadLine(r, Field(Ascii("retry"), DecimalText(n)))
         == if n >= 0x1_0000_0000_0000_0000 then r
            else r.(current := r.current.(retry :=
              Some(if n < 0x8000_0000_0000_0000 then n else n - 0x1_0000_0000_0000_0000)))
  {
    hide Ascii, DecimalText, Number;
    NamesAre();
    FieldIs(Ascii("retry"), DecimalText(n));
    DecimalComesBack(n);
  }

  lemma ReadData(r: Reader, value: Text)
    ensures ReadLine(r, Field(Ascii("data"), value)) == r.(current := r.current.(data := r.current.data + (value + [LF])))
  {
    hide Ascii;
    NamesAre();
    FieldIs(Ascii("data"), value);
    assert r.current.data + value + [LF] == r.current.data + (value + [LF]);
  }

  /** Data lines add up, joined by line feeds and with one more at the end. */
  lemma {:induction false} ReadDataFields(r: Reader, lines: seq<Text>)
    requires lines != []
    ensures ReadLines(r, DataFields(lines)) == r.(current := r.current.(data := r.current.data + (Join(lines) + [LF])))
    decreases |lines|
  {
    hide ReadLine, ReadLines, Field;
    var first := [Field(Ascii("data"), lines[0])];
    ReadOne(r, first[0]);
    ReadData(r, lines[0]);
    if |lines| == 1 {
      assert DataFields(lines[1..]) == [] && first + [] == first;
    } else {
      ReadConcat(r, first, DataFields(lines[1..]));
      ReadDataFields(ReadLines(r, first), lines[1..]);
      assert r.current.data + (lines[0] + [LF]) + (Join(lines[1..]) + [LF]) == r.current.data + (Join(lines) + [LF]);
    }
  }

  lemma ReadEmpty(r: Reader, data: Text)
    requires r.current.data == data + [LF]
    ensures ReadLine(r, []) == Reader(r.current.(kind := [], data := []), r.events + [r.current.(data := data)])
  {
    assert (data + [LF])[..|data|] == data;
  }

  /** A note is one event, and changes nothing of what comes next but identifier and retry time. */
  lemma ReadNote(r: Reader, n: Note)
    requires Writable(n) && r.current.kind == [] && r.current.data == []
    ensures var id := if n.id.Some? && 0 !in n.id.value then n.id.value else r.current.id;
            var retry := if n.retry.None? || n.retry.value >= 0x1_0000_0000_0000_0000 then r.current.retry
                         else if n.retry.value < 0x8000_0000_0000_0000 then Some(n.retry.value)
                         else Some(n.retry.value - 0x1_0000_0000_0000_0000);
            var kind := if n.kind.Some? then n.kind.value else [];
            ReadLines(r, NoteLines(n))
            == Reader(SseEvent(id, [], [], retry), r.events + [SseEvent(id, kind, Join(n.lines), retry)])
  {
    hide ReadLine, ReadLines, Field, DataFields, Ascii, DecimalText, Writable;
    var event, id, retry := Optional(Ascii("event"), n.kind), Optional(Ascii("id"), n.id), Optional(Ascii("retry"), RetryText(n));
    var r1 := ReadOptional(r, Ascii("event"), n.kind);
    if n.kind.Some? {
      ReadKind(r, n.kind.value);
    }
    var r2 := ReadOptional(r1, Ascii("id"), n.id);
    if n.id.Some? {
      ReadId(r1, n.id.value);
    }
    var r3 := ReadOptional(r2, Ascii("retry"), RetryText(n));
    if n.retry.Some? {
      ReadRetry(r2, n.retry.value);
    }
    HasLines(n);
    ReadDataFields(r3, n.lines);
    var r4 := ReadLines(r3, DataFields(n.lines));
    assert [] + (Join(n.lines) + [LF]) == Join(n.lines) + [LF];
    ReadEmpty(r4, Join(n.lines));
    ReadOne(r4, []);
    ReadConcat(r, event, id);
    ReadConcat(r, event + id, retry);
    ReadConcat(r, event + id + retry, DataFields(n.lines));
    ReadConcat(r, event + id + retry + DataFields(n.lines), [[]]);
  }

  lemma HasLines(n: Note)
    requires Writable(n)
    ensures n.lines != []
  {
  }

  lemma ReadOptional(r: Reader, name: Text, value: Option<Text>) returns (s: Reader)
    ensures s == ReadLines(r, Optional(name, value))
    ensures s == if value.Some? then ReadLine(r, Field(name, value.value)) else r
  {
    hide ReadLine;
    s := ReadLines(r, Optional(name, value));
    ReadOne(r, if value.Some? then Field(name, value.value) else []);
  }

  lemma {:induction false} ReadNotes(notes: seq<Note>)
    requires forall n :: n in notes ==> Writable(n)
    ensures ReadLines(Reader(NO_EVENT, []), AllLines(notes))
         == Reader(SseEvent(LastId(notes), [], [], LastRetry(notes)), Expected(notes))
  {
    hide ReadLine, NoteLines, Join, Writable;
    if notes == [] {
      ReadOne(Reader(NO_EVENT, []), []);
    } else {
      var front, n := notes[..|notes| - 1], notes[|notes| - 1];
      ReadNotes(front);
      ReadConcat(Reader(NO_EVENT, []), AllLines(front), NoteLines(n));
      ReadNote(Reader(SseEvent(LastId(front), [], [], LastRetry(front)), Expected(front)), n);
    }
  }

  // ---- The whole stream -----------------------------------------------------

  lemma FieldStays(name: Text, value: Text)
    requires OnOneLine(name) && OnOneLine(value)
    ensures OnOneLine(Field(name, value))
  {
  }

  lemma {:induction false} DataFieldsStay(lines: seq<Text>)
    requires forall t :: t in lines ==> OnOneLine(t)
    ensures forall t :: t in DataFields(lines) ==> OnOneLine(t)
  {
    hide OnOneLine, Field, Ascii;
    if lines != [] {
      NamesAre();
      FieldStays(Ascii("data"), lines[0]);
      DataFieldsStay(lines[1..]);
    }
  }

  lemma NoteStays(n: Note)
    requires Writable(n)
    ensures forall t :: t in NoteLines(n) ==> OnOneLine(t)
  {
    hide Field, Ascii, DecimalText, DataFields, OnOneLine;
    NamesAre();
    DataFieldsStay(n.lines);
    if n.kind.Some? {
      FieldStays(Ascii("event"), n.kind.value);
    }
    if n.id.Some? {
      FieldStays(Ascii("id"), n.id.value);
    }
    if n.retry.Some? {
      DigitsStay(n.retry.value);
      FieldStays(Ascii("retry"), DecimalText(n.retry.value));
    }
    EmptyStays();
  }

  lemma EmptyStays()
    ensures OnOneLine([])
  {
  }

  lemma DigitsStay(n: nat)
    ensures OnOneLine(DecimalText(n))
  {
    hide DecimalText;
    DecimalComesBack(n);
  }

  lemma {:induction false} AllStay(notes: seq<Note>)
    requires forall n :: n in notes ==> Writable(n)
    ensures forall t :: t in AllLines(notes) ==> OnOneLine(t)
  {
    hide NoteLines, Writable, OnOneLine;
    if notes != [] {
      AllStay(notes[..|notes| - 1]);
      NoteStays(notes[|notes| - 1]);
    }
  }

  lemma WrittenHasNoMark(notes: seq<Note>, eol: Text)
    requires IsEol(eol) && forall n :: n in notes ==> Writable(n)
    ensures !(BOM <= Written(notes, eol))
  {
    if notes != [] {
      FirstLineIs(notes);
      var line := AllLines(notes)[0];
      assert Written(notes, eol)[0] == line[0];
    }
  }

  lemma NoteStarts(n: Note)
    requires Writable(n)
    ensures NoteLines(n) != [] && NoteLines(n)[0] != [] && NoteLines(n)[0][0] < 128
  {
    hide DecimalText;
    var name := if n.kind.Some? then Ascii("event") else if n.id.Some? then Ascii("id")
                else if n.retry.Some? then Ascii("retry") else Ascii("data");
    assert NoteLines(n)[0][0] == name[0];
  }

  /** The first octet of a stream is the first of a field name. */
  lemma {:induction false} FirstLineIs(notes: seq<Note>)
    requires notes != [] && forall n :: n in notes ==> Writable(n)
    ensures AllLines(notes) != [] && AllLines(notes)[0] != [] && AllLines(notes)[0][0] < 128
  {
    hide NoteLines, Writable;
    NoteStarts(notes[|notes| - 1]);
    if |notes| > 1 {
      FirstLineIs(notes[..|notes| - 1]);
    } else {
      assert AllLines(notes[..0]) == [];
    }
  }

  /**
   From notes to events: whatever chunks the stream arrives in, whichever line end it uses,
   and with a byte order mark in front or without, each note is one event, with its own kind
   and its lines joined by line feeds, and with the identifier and the retry time last given.
   */
  lemma NotesComeBack(notes: seq<Note>, eol: Text, marked: bool, chunks: seq<Text>)
    requires IsEol(eol) && (forall n :: n in notes ==> Writable(n))
    requires chunks != [] && All(chunks) == (if marked then BOM else []) + Written(notes, eol)
    requires marked ==> |chunks[0]| >= 3
    ensures var r := ParsedAll(FRESH, chunks).reader;
            && r.events == Expected(notes)
            && r.current == SseEvent(LastId(notes), [], [], LastRetry(notes))
  {
    hide ParsedAll, AllLines, ReadLines, Lines, Expected, Writable;
    EventsAreLines(chunks);
    AllFront(chunks);
    WrittenHasNoMark(notes, eol);
    BomIsWhole(chunks[0], All(chunks[1..]));
    assert [] + Written(notes, eol) == Written(notes, eol);
    assert marked ==> All(chunks)[3..] == Written(notes, eol);
    AllStay(notes);
    LinesOfEnded(AllLines(notes), eol);
    ReadNotes(notes);
  }

  /**
   One more empty line, such as ends a comment, is one more event exactly when an identifier
   is in force: without kind and without data.
   */
  lemma EmptyLineExact(notes: seq<Note>)
    requires forall n :: n in notes ==> Writable(n)
    ensures var r := ReadLines(Reader(NO_EVENT, []), AllLines(notes) + [[]]);
            && r.current == SseEvent(LastId(notes), [], [], LastRetry(notes))
            && r.events == Expected(notes)
                 + if LastId(notes) == [] then [] else [SseEvent(LastId(notes), [], [], LastRetry(notes))]
  {
    hide AllLines, ReadLines, Expected, Writable;
    ReadNotes(notes);
    var r := ReadLines(Reader(NO_EVENT, []), AllLines(notes));
    ReadConcat(Reader(NO_EVENT, []), AllLines(notes), [[]]);
    ReadOne(r, []);
    assert Expected(notes) + [] == Expected(notes);
  }
}
