/**
 Header blocks: what the encoder emits for a header list, what the decoder makes of
 any octets, and that the two tables stay equal without being communicated.
 */
module HpackBlocks {
  import opened Bits
  import opened Wrappers
  import opened HpackErrors
  import opened Headers
  import opened HuffmanCode
  import opened HpackIntegers
  import opened HpackStrings
  import opened Hpack
  import opened HpackTable

  /** The two constant tables of the format. */
  datatype Tables = Tables(huffman: seq<HuffmanEntry>, fixed: seq<Header>) {
    ghost predicate Valid() {
      ValidTable(huffman) && |fixed| == 61 && AllShort(fixed)
    }

    predicate Sized() {
      |huffman| == 257 && |fixed| == 61
    }
  }

  // ---- Encoding -------------------------------------------------------------

  /** One header field: indexed if the table has it, else a literal that enters the table. */
  function EncodedHeader(c: Tables, d: DynTable, h: Header, huffman: bool): (r: (seq<byte>, DynTable))
    requires c.Sized()
  {
    var exact := Find(c.fixed, d, Exact(h));
    if exact != -1 then (IndexedField(exact % 0x1_0000_0000), d)
    else
      var name := Find(c.fixed, d, Name(h.name));
      if name != -1 then (IndexingField(c.huffman, name % 0x1_0000_0000, h.value, huffman), Add(d, h))
      else (NewNameField(c.huffman, h.name, h.value, huffman, huffman), Add(d, h))
  }

  function EncodedHeaders(c: Tables, d: DynTable, hs: seq<Header>, huffman: bool): (r: (seq<byte>, DynTable))
    requires c.Sized()
    decreases |hs|
  {
    if hs == [] then ([], d)
    else
      var (b, d1) := EncodedHeader(c, d, hs[0], huffman);
      var (rest, d2) := EncodedHeaders(c, d1, hs[1..], huffman);
      (b + rest, d2)
  }

  // ---- Decoding -------------------------------------------------------------

  /** The effect of one field: the table behind it, the header it yields, if any, and where it ends. */
  datatype Step = Step(table: DynTable, emitted: seq<Header>, next: nat)

  function NamedBy(c: Tables, d: DynTable, data: seq<byte>, off: nat, index: nat): (r: Result<(seq<byte>, nat), HpackError>)
    requires c.Sized() && WellFormed(c.huffman)
  {
    if index == 0 then DecodedString(c.huffman, data, off, MAX_STRING)
    else match Lookup(c.fixed, d, index)
      case Some(h) => Ok((h.name, off))
      case None => Err(IndexOutOfRange)
  }

  function DecodedLiteral(c: Tables, d: DynTable, data: seq<byte>, off: nat, p: nat)
    : (r: Result<(Header, nat), HpackError>)
    requires c.Sized() && WellFormed(c.huffman)
  {
    var (index, o1) :- DecodedInt(data, off, p, MAX_UINT32);
    var (name, o2) :- NamedBy(c, d, data, o1, index);
    var (value, o3) :- DecodedString(c.huffman, data, o2, MAX_STRING);
    Ok((Header(name, value), o3))
  }

  function DecodedField(c: Tables, d: DynTable, data: seq<byte>, off: nat): (r: Result<Step, HpackError>)
    requires c.Sized() && WellFormed(c.huffman) && off < |data|
  {
    var b := data[off];
    if b >= 0x80 then
      var (index, o) :- DecodedInt(data, off, 7, MAX_UINT32);
      match Lookup(c.fixed, d, index) {
        case Some(h) => Ok(Step(d, [h], o))
        case None => Err(IndexOutOfRange)
      }
    else if b >= 0x40 then
      var (h, o) :- DecodedLiteral(c, d, data, off, 6);
      Ok(Step(Add(d, h), [h], o))
    else if b >= 0x20 then
      var (size, o) :- DecodedInt(data, off, 5, MAX_UINT32);
      assert 0 <= size < 0x1_0000_0000 by {
        DecodedIntMeaning(data, off, 5, MAX_UINT32);
        FieldFlags();
      }
      Ok(Step(SetMax(d, size), [], o))
    else
      var (h, o) :- DecodedLiteral(c, d, data, off, 4);
      Ok(Step(d, [h], o))
  }

  lemma StringAdvances(c: Tables, data: seq<byte>, off: nat)
    requires WellFormed(c.huffman) && DecodedString(c.huffman, data, off, MAX_STRING).Ok?
    ensures off < DecodedString(c.huffman, data, off, MAX_STRING).value.1 <= |data|
  {
    DecodedIntMeaning(data, off, 7, MAX_STRING);
  }

  lemma LiteralAdvances(c: Tables, d: DynTable, data: seq<byte>, off: nat, p: nat)
    requires c.Sized() && WellFormed(c.huffman) && DecodedLiteral(c, d, data, off, p).Ok?
    ensures off < DecodedLiteral(c, d, data, off, p).value.1 <= |data|
  {
    hide DecodedInt, DecodedString;
    DecodedIntMeaning(data, off, p, MAX_UINT32);
    var (index, o1) := DecodedInt(data, off, p, MAX_UINT32).value;
    if index == 0 {
      StringAdvances(c, data, o1);
    }
    var (name, o2) := NamedBy(c, d, data, o1, index).value;
    StringAdvances(c, data, o2);
  }

  /** Every field advances, so decoding a block of any octets ends. */
  lemma FieldAdvances(c: Tables, d: DynTable, data: seq<byte>, off: nat)
    requires c.Sized() && WellFormed(c.huffman) && off < |data| && DecodedField(c, d, data, off).Ok?
    ensures off < DecodedField(c, d, data, off).value.next <= |data|
  {
    hide DecodedInt, DecodedLiteral;
    var b := data[off];
    if b >= 0x80 {
      DecodedIntMeaning(data, off, 7, MAX_UINT32);
    } else if b >= 0x40 {
      LiteralAdvances(c, d, data, off, 6);
    } else if b >= 0x20 {
      DecodedIntMeaning(data, off, 5, MAX_UINT32);
    } else {
      LiteralAdvances(c, d, data, off, 4);
    }
  }

  /** What decoding leaves behind: the table, and the headers or the error thrown. */
  datatype Outcome = Outcome(table: DynTable, headers: Result<seq<Header>, HpackError>)

  function Yield(emitted: seq<Header>, r: Outcome): Outcome {
    match r.headers
    case Ok(hs) => r.(headers := Ok(emitted + hs))
    case Err(_) => r
  }

  function DecodedBlock(c: Tables, d: DynTable, data: seq<byte>, off: nat): (r: Outcome)
    requires c.Sized() && WellFormed(c.huffman)
    decreases |data| - off
  {
    if off >= |data| then Outcome(d, Ok([]))
    else match DecodedField(c, d, data, off)
      case Err(e) => Outcome(d, Err(e))
      case Ok(step) =>
        FieldAdvances(c, d, data, off);
        Yield(step.emitted, DecodedBlock(c, step.table, data, step.next))
  }

  // ---- Round trip -----------------------------------------------------------

  /** The strings that encoding `h` would put on the wire are within the decoder's limit. */
  predicate HeaderFits(c: Tables, d: DynTable, h: Header, huffman: bool)
    requires c.Sized()
  {
    Find(c.fixed, d, Exact(h)) == -1 ==>
      && |Payload(c.huffman, h.value, huffman)| <= MAX_STRING
      && (Find(c.fixed, d, Name(h.name)) == -1 ==> |Payload(c.huffman, h.name, huffman)| <= MAX_STRING)
  }

  /** Tables small enough that an index fits the wire's integers; every reachable table is. */
  predicate Reachable(d: DynTable) {
    AllShort(d.entries) && TotalSize(d.entries) <= d.max
  }

  /** A hit resolves to a match, with an index far below what the integers can carry. */
  lemma FindHit(c: Tables, d: DynTable, q: Query)
    requires c.Sized() && Reachable(d)
    ensures var r := Find(c.fixed, d, q);
            r == -1 || (1 <= r < 0x1000_0000 && Lookup(c.fixed, d, r).Some? && q.Matches(Lookup(c.fixed, d, r).value))
  {
    FindResolves(c.fixed, d, q);
    CountBound(d.entries);
  }

  /** An indexed field decodes to the entry its index resolves to. */
  lemma IndexedRoundTrip(c: Tables, d: DynTable, pre: seq<byte>, index: uint32, post: seq<byte>)
    requires c.Sized() && WellFormed(c.huffman)
    requires 1 <= index < 0x1000_0000 && Lookup(c.fixed, d, index).Some?
    ensures var b := IndexedField(index);
            var s := pre + b + post;
            && |pre| < |s|
            && DecodedField(c, d, s, |pre|) == Ok(Step(d, [Lookup(c.fixed, d, index).value], |pre| + |b|))
  {
    FieldFlags();
    hide DecodedInt;
    IntRoundTrip(pre, 0x80, index, 7, post, MAX_UINT32);
    assert (pre + IndexedField(index) + post)[|pre|] == IndexedField(index)[0];
  }

  /** A literal whose name comes from the table. */
  lemma IndexingRoundTrip(
    c: Tables, d: DynTable, pre: seq<byte>, index: uint32, value: seq<byte>, huffman: bool, post: seq<byte>)
    requires c.Valid()
    requires 1 <= index < 0x1000_0000 && Lookup(c.fixed, d, index).Some?
    ensures var b := IndexingField(c.huffman, index, value, huffman);
            var s := pre + b + post;
            var h := Header(Lookup(c.fixed, d, index).value.name, value);
            var r := DecodedLiteral(c, d, s, |pre|, 6);
            && |pre| < |s| && 0x40 <= s[|pre|] < 0x80
            && (r.Ok? && r.value.0 == h <==> |Payload(c.huffman, value, huffman)| <= MAX_STRING)
            && (|Payload(c.huffman, value, huffman)| <= MAX_STRING ==> r == Ok((h, |pre| + |b|)))
  {
    FieldFlags();
    hide DecodedInt, DecodedString, EncodedString, EncodedInt, PrefixFree, Complete, Payload;
    var e, v := EncodedInt(0x40, index, 6), EncodedString(c.huffman, value, huffman);
    IntRoundTrip(pre, 0x40, index, 6, v + post, MAX_UINT32);
    StringRoundTrip(c.huffman, pre + e, value, huffman, post, MAX_STRING);
    assert pre + IndexingField(c.huffman, index, value, huffman) + post == pre + e + (v + post);
    assert pre + e + (v + post) == (pre + e) + v + post;
    assert (pre + e + (v + post))[|pre|] == e[0];
  }

  /** A literal that leaves the table alone: without indexing, or never indexed. */
  lemma PlainRoundTrip(
    c: Tables, d: DynTable, pre: seq<byte>, flag: byte, index: uint32, value: seq<byte>, huffman: bool, post: seq<byte>)
    requires c.Valid() && (flag == 0 || flag == 0x10)
    requires 1 <= index < 0x1000_0000 && Lookup(c.fixed, d, index).Some?
    ensures var b := PlainField(c.huffman, flag, index, value, huffman);
            var s := pre + b + post;
            var h := Header(Lookup(c.fixed, d, index).value.name, value);
            var r := DecodedField(c, d, s, |pre|);
            && |pre| < |s|
            && (r.Ok? && r.value.emitted == [h] <==> |Payload(c.huffman, value, huffman)| <= MAX_STRING)
            && (|Payload(c.huffman, value, huffman)| <= MAX_STRING ==> r == Ok(Step(d, [h], |pre| + |b|)))
  {
    FieldFlags();
    hide DecodedInt, DecodedString, EncodedString, EncodedInt, PrefixFree, Complete, Payload;
    var e, v := EncodedInt(flag, index, 4), EncodedString(c.huffman, value, huffman);
    IntRoundTrip(pre, flag, index, 4, v + post, MAX_UINT32);
    StringRoundTrip(c.huffman, pre + e, value, huffman, post, MAX_STRING);
    assert pre + PlainField(c.huffman, flag, index, value, huffman) + post == pre + e + (v + post);
    assert pre + e + (v + post) == (pre + e) + v + post;
    assert (pre + e + (v + post))[|pre|] == e[0];
  }

  /** A literal that carries its own name. */
  lemma NewNameRoundTrip(
    c: Tables, d: DynTable, pre: seq<byte>, h: Header, huffman: bool, post: seq<byte>)
    requires c.Valid()
    ensures var b := NewNameField(c.huffman, h.name, h.value, huffman, huffman);
            var s := pre + b + post;
            var r := DecodedLiteral(c, d, s, |pre|, 6);
            var fits := |Payload(c.huffman, h.name, huffman)| <= MAX_STRING
                        && |Payload(c.huffman, h.value, huffman)| <= MAX_STRING;
            && |pre| < |s| && 0x40 <= s[|pre|] < 0x80
            && (r.Ok? && r.value.0 == h <==> fits)
            && (fits ==> r == Ok((h, |pre| + |b|)))
  {
    FieldFlags();
    hide DecodedInt, DecodedString, EncodedString, EncodedInt, PrefixFree, Complete, Payload;
    var e := EncodedInt(0x40, 0, 6);
    var n, v := EncodedString(c.huffman, h.name, huffman), EncodedString(c.huffman, h.value, huffman);
    IntRoundTrip(pre, 0x40, 0, 6, n + v + post, MAX_UINT32);
    StringRoundTrip(c.huffman, pre + e, h.name, huffman, v + post, MAX_STRING);
    StringRoundTrip(c.huffman, pre + e + n, h.value, huffman, post, MAX_STRING);
    var s := pre + NewNameField(c.huffman, h.name, h.value, huffman, huffman) + post;
    assert s == pre + e + (n + v + post);
    assert s == (pre + e) + n + (v + post);
    assert s == (pre + e + n) + v + post;
    assert s[|pre|] == e[0];
  }

  lemma NamedIsShort(c: Tables, d: DynTable, index: nat, h: Header, huffman: bool)
    requires c.Valid() && AllShort(d.entries)
    requires Lookup(c.fixed, d, index).Some? && Lookup(c.fixed, d, index).value.name == h.name
    requires |Payload(c.huffman, h.value, huffman)| <= MAX_STRING
    ensures Short(h)
  {
    PayloadBound(c.huffman, h.value, huffman);
  }

  /** What the round trip of one field amounts to. */
  ghost predicate FieldComesBack(c: Tables, d: DynTable, h: Header, fits: bool, b: seq<byte>, d': DynTable, pre: seq<byte>, post: seq<byte>)
    requires c.Sized() && WellFormed(c.huffman)
  {
    var s := pre + b + post;
    && |pre| < |s|
    && (fits ==> DecodedField(c, d, s, |pre|) == Ok(Step(d', [h], |pre| + |b|)) && Reachable(d'))
    && (!fits && DecodedField(c, d, s, |pre|).Ok? ==>
          exists g :: DecodedField(c, d, s, |pre|).value.emitted == [g] && g != h)
  }

  lemma LiteralField(c: Tables, d: DynTable, data: seq<byte>, off: nat)
    requires c.Sized() && WellFormed(c.huffman) && off < |data| && 0x40 <= data[off] < 0x80
    ensures DecodedField(c, d, data, off) ==
            match DecodedLiteral(c, d, data, off, 6)
            case Ok((h, o)) => Ok(Step(Add(d, h), [h], o))
            case Err(e) => Err(e)
  {
  }

  lemma IndexingComesBack(
    c: Tables, d: DynTable, pre: seq<byte>, index: uint32, h: Header, huffman: bool, post: seq<byte>)
    requires c.Valid() && Reachable(d)
    requires 1 <= index < 0x1000_0000 && Lookup(c.fixed, d, index).Some?
    requires Lookup(c.fixed, d, index).value.name == h.name
    ensures FieldComesBack(c, d, h, |Payload(c.huffman, h.value, huffman)| <= MAX_STRING,
                           IndexingField(c.huffman, index, h.value, huffman), Add(d, h), pre, post)
  {
    hide DecodedLiteral, IndexingField, DecodedField, PrefixFree, Complete, Payload, TotalSize;
    IndexingRoundTrip(c, d, pre, index, h.value, huffman, post);
    LiteralField(c, d, pre + IndexingField(c.huffman, index, h.value, huffman) + post, |pre|);
    if |Payload(c.huffman, h.value, huffman)| <= MAX_STRING {
      NamedIsShort(c, d, index, h, huffman);
      AddShort(d, h);
    }
  }

  lemma NewNameComesBack(c: Tables, d: DynTable, pre: seq<byte>, h: Header, huffman: bool, post: seq<byte>)
    requires c.Valid() && Reachable(d)
    ensures FieldComesBack(c, d, h,
                           |Payload(c.huffman, h.name, huffman)| <= MAX_STRING
                           && |Payload(c.huffman, h.value, huffman)| <= MAX_STRING,
                           NewNameField(c.huffman, h.name, h.value, huffman, huffman), Add(d, h), pre, post)
  {
    hide DecodedLiteral, NewNameField, DecodedField, PrefixFree, Complete, Payload, TotalSize;
    NewNameRoundTrip(c, d, pre, h, huffman, post);
    LiteralField(c, d, pre + NewNameField(c.huffman, h.name, h.value, huffman, huffman) + post, |pre|);
    if |Payload(c.huffman, h.name, huffman)| <= MAX_STRING && |Payload(c.huffman, h.value, huffman)| <= MAX_STRING {
      PayloadBound(c.huffman, h.name, huffman);
      PayloadBound(c.huffman, h.value, huffman);
      AddShort(d, h);
    }
  }

  /** A header that has just been sent, and fits the table, is sent again as an index, of one octet as a rule. */
  lemma RepeatedIsIndexed(c: Tables, d: DynTable, h: Header, huffman: bool)
    requires c.Sized() && Reachable(d) && Short(h) && |h.name| + |h.value| + 32 <= d.max
    ensures var d' := EncodedHeader(c, d, h, huffman).1;
            var again := EncodedHeader(c, d', h, huffman);
            again.1 == d' && (d' != d ==> |again.0| == 1)
  {
    hide IndexingField, NewNameField, EncodedInt, Reachable, TotalSize;
    FindHit(c, d, Exact(h));
    FieldFlags();
    var d' := EncodedHeader(c, d, h, huffman).1;
    if Find(c.fixed, d, Exact(h)) == -1 {
      assert d' == Add(d, h) && d'.entries[0] == h;
      assert Lookup(c.fixed, d', 62) == Some(h);
      FindResolves(c.fixed, d', Exact(h));
      SmallInt(0x80, Find(c.fixed, d', Exact(h)), 7);
    }
  }

  /** The three ways a header is encoded, with the index the decoder will resolve. */
  lemma EncodedCases(c: Tables, d: DynTable, h: Header, huffman: bool)
    requires c.Sized() && Reachable(d)
    ensures var exact, name := Find(c.fixed, d, Exact(h)), Find(c.fixed, d, Name(h.name));
            var e := EncodedHeader(c, d, h, huffman);
            if exact != -1 then
              1 <= exact < 0x1000_0000 && Lookup(c.fixed, d, exact) == Some(h) && e == (IndexedField(exact), d)
            else if name != -1 then
              && 1 <= name < 0x1000_0000
              && Lookup(c.fixed, d, name).Some? && Lookup(c.fixed, d, name).value.name == h.name
              && e == (IndexingField(c.huffman, name, h.value, huffman), Add(d, h))
            else e == (NewNameField(c.huffman, h.name, h.value, huffman, huffman), Add(d, h))
  {
    hide Find, Lookup, IndexedField, IndexingField, NewNameField, Add, Reachable;
    FindHit(c, d, Exact(h));
    FindHit(c, d, Name(h.name));
  }

  lemma IndexedComesBack(c: Tables, d: DynTable, pre: seq<byte>, index: uint32, h: Header, post: seq<byte>)
    requires c.Sized() && WellFormed(c.huffman) && Reachable(d)
    requires 1 <= index < 0x1000_0000 && Lookup(c.fixed, d, index) == Some(h)
    ensures FieldComesBack(c, d, h, true, IndexedField(index), d, pre, post)
  {
    hide DecodedField, IndexedField;
    IndexedRoundTrip(c, d, pre, index, post);
  }

  /**
   One header, anywhere in a block: if its literal strings fit, the decoder yields it,
   ends where the encoder did and holds the encoder's table; if not, it throws or
   yields something else.
   */
  lemma HeaderRoundTrip(c: Tables, d: DynTable, pre: seq<byte>, h: Header, huffman: bool, post: seq<byte>)
    requires c.Valid() && Reachable(d)
    ensures var (b, d') := EncodedHeader(c, d, h, huffman);
            FieldComesBack(c, d, h, HeaderFits(c, d, h, huffman), b, d', pre, post)
  {
    EncodedCases(c, d, h, huffman);
    var exact, name := Find(c.fixed, d, Exact(h)), Find(c.fixed, d, Name(h.name));
    hide Find, FieldComesBack, EncodedHeader, Lookup, IndexedField, IndexingField, NewNameField, Payload, Reachable;
    if exact != -1 {
      IndexedComesBack(c, d, pre, exact, h, post);
    } else if name != -1 {
      IndexingComesBack(c, d, pre, name, h, huffman, post);
    } else {
      NewNameComesBack(c, d, pre, h, huffman, post);
    }
  }

  predicate HeadersFit(c: Tables, d: DynTable, hs: seq<Header>, huffman: bool)
    requires c.Sized()
    decreases |hs|
  {
    hs == [] ||
    (HeaderFits(c, d, hs[0], huffman) && HeadersFit(c, EncodedHeader(c, d, hs[0], huffman).1, hs[1..], huffman))
  }

  /** A header list, anywhere in a block: the decoder yields it and carries on with the encoder's table. */
  lemma {:induction false} HeadersRoundTrip(
    c: Tables, d: DynTable, pre: seq<byte>, hs: seq<Header>, huffman: bool, post: seq<byte>)
    requires c.Valid() && Reachable(d) && HeadersFit(c, d, hs, huffman)
    ensures var (b, d') := EncodedHeaders(c, d, hs, huffman);
            var s := pre + b + post;
            && DecodedBlock(c, d, s, |pre|) == Yield(hs, DecodedBlock(c, d', s, |pre| + |b|))
            && Reachable(d')
    decreases |hs|
  {
    hide EncodedHeader, HeaderFits, Reachable, DecodedField, PrefixFree, Complete;
    if hs == [] {
      NoHeaders(c, d, pre, post);
    } else {
      var (b0, d1) := EncodedHeader(c, d, hs[0], huffman);
      var (b1, d2) := EncodedHeaders(c, d1, hs[1..], huffman);
      HeaderRoundTrip(c, d, pre, hs[0], huffman, b1 + post);
      HeadersRoundTrip(c, d1, pre + b0, hs[1..], huffman, post);
      assert pre + (b0 + b1) + post == pre + b0 + (b1 + post) == (pre + b0) + b1 + post;
      YieldYield([hs[0]], hs[1..], DecodedBlock(c, d2, pre + (b0 + b1) + post, |pre| + |b0 + b1|));
      assert [hs[0]] + hs[1..] == hs;
    }
  }

  lemma NoHeaders(c: Tables, d: DynTable, pre: seq<byte>, post: seq<byte>)
    requires c.Sized() && WellFormed(c.huffman)
    ensures var s := pre + [] + post;
            DecodedBlock(c, d, s, |pre|) == Yield([], DecodedBlock(c, d, s, |pre|))
  {
    var r := DecodedBlock(c, d, pre + [] + post, |pre|);
    if r.headers.Ok? {
      assert [] + r.headers.value == r.headers.value;
    }
  }

  lemma YieldYield(a: seq<Header>, b: seq<Header>, r: Outcome)
    ensures Yield(a, Yield(b, r)) == Yield(a + b, r)
  {
    if r.headers.Ok? {
      assert a + (b + r.headers.value) == (a + b) + r.headers.value;
    }
  }

  /** A header list with a string over the limit never comes back. */
  lemma {:induction false} HeadersMismatch(
    c: Tables, d: DynTable, pre: seq<byte>, hs: seq<Header>, huffman: bool, post: seq<byte>)
    requires c.Valid() && Reachable(d) && !HeadersFit(c, d, hs, huffman)
    ensures var s := pre + EncodedHeaders(c, d, hs, huffman).0 + post;
            var r := DecodedBlock(c, d, s, |pre|);
            r.headers.Ok? ==> !(hs <= r.headers.value)
    decreases |hs|
  {
    hide EncodedHeader, HeaderFits, Reachable, DecodedField, PrefixFree, Complete;
    var (b0, d1) := EncodedHeader(c, d, hs[0], huffman);
    var (b1, d2) := EncodedHeaders(c, d1, hs[1..], huffman);
    var s := pre + (b0 + b1) + post;
    assert s == pre + b0 + (b1 + post) == (pre + b0) + b1 + post;
    HeaderRoundTrip(c, d, pre, hs[0], huffman, b1 + post);
    if HeaderFits(c, d, hs[0], huffman) {
      HeadersMismatch(c, d1, pre + b0, hs[1..], huffman, post);
      PrefixTail(hs, DecodedBlock(c, d, s, |pre|));
    }
  }

  lemma PrefixTail(hs: seq<Header>, r: Outcome)
    requires hs != []
    ensures r.headers.Ok? && hs <= r.headers.value ==> hs[1..] <= r.headers.value[1..]
  {
  }

  // ---- Runs -----------------------------------------------------------------

  /** What an encoder does between blocks: send a header list, or change the table size. */
  datatype Message = Send(headers: seq<Header>, huffman: bool) | Resize(size: uint32) {
    function Sent(): seq<Header> {
      if Send? then headers else []
    }
  }

  function EncodedMessage(c: Tables, d: DynTable, m: Message): (r: (seq<byte>, DynTable))
    requires c.Sized()
  {
    match m
    case Send(hs, huffman) => EncodedHeaders(c, d, hs, huffman)
    case Resize(size) => (SizeUpdateField(size), SetMax(d, size))
  }

  /** Within the limits: strings the decoder accepts, sizes its integers can hold. */
  predicate MessageFits(c: Tables, d: DynTable, m: Message)
    requires c.Sized()
  {
    match m
    case Send(hs, huffman) => HeadersFit(c, d, hs, huffman)
    case Resize(size) => size < 0x8000_0000 + 31
  }

  lemma SizeUpdateRoundTrip(c: Tables, d: DynTable, pre: seq<byte>, size: uint32, post: seq<byte>)
    requires c.Sized() && WellFormed(c.huffman)
    ensures var b := SizeUpdateField(size);
            var s := pre + b + post;
            && |pre| < |s|
            && DecodedField(c, d, s, |pre|) == if size < 0x8000_0000 + 31 then Ok(Step(SetMax(d, size), [], |pre| + |b|))
                                               else Err(IntegerOverflow)
  {
    FieldFlags();
    hide DecodedInt;
    IntRoundTrip(pre, 0x20, size, 5, post, MAX_UINT32);
    assert (pre + SizeUpdateField(size) + post)[|pre|] == SizeUpdateField(size)[0];
  }

  lemma SetMaxReachable(d: DynTable, max: uint32)
    requires Reachable(d)
    ensures Reachable(SetMax(d, max))
  {
  }

  /** What the round trip of one message amounts to, anywhere in a block. */
  ghost predicate MessageComesBack(c: Tables, d: DynTable, pre: seq<byte>, m: Message, post: seq<byte>)
    requires c.Sized() && WellFormed(c.huffman)
  {
    var (b, d') := EncodedMessage(c, d, m);
    var s := pre + b + post;
    var r := DecodedBlock(c, d, s, |pre|);
    && (MessageFits(c, d, m) ==> r == Yield(m.Sent(), DecodedBlock(c, d', s, |pre| + |b|)) && Reachable(d'))
    && (!MessageFits(c, d, m) && r.headers.Ok? ==> !(m.Sent() <= r.headers.value))
  }

  lemma SendComesBack(c: Tables, d: DynTable, pre: seq<byte>, hs: seq<Header>, huffman: bool, post: seq<byte>)
    requires c.Valid() && Reachable(d)
    ensures MessageComesBack(c, d, pre, Send(hs, huffman), post)
  {
    hide DecodedBlock, EncodedHeaders, HeadersFit, Reachable, PrefixFree, Complete;
    if HeadersFit(c, d, hs, huffman) {
      HeadersRoundTrip(c, d, pre, hs, huffman, post);
    } else {
      HeadersMismatch(c, d, pre, hs, huffman, post);
    }
  }

  lemma ResizeComesBack(c: Tables, d: DynTable, pre: seq<byte>, size: uint32, post: seq<byte>)
    requires c.Valid() && Reachable(d)
    ensures MessageComesBack(c, d, pre, Resize(size), post)
  {
    hide DecodedField, SizeUpdateField, PrefixFree, Complete, Reachable, SetMax;
    SizeUpdateRoundTrip(c, d, pre, size, post);
    SetMaxReachable(d, size);
  }

  lemma MessageRoundTrip(c: Tables, d: DynTable, pre: seq<byte>, m: Message, post: seq<byte>)
    requires c.Valid() && Reachable(d)
    ensures MessageComesBack(c, d, pre, m, post)
  {
    match m
    case Send(hs, huffman) => SendComesBack(c, d, pre, hs, huffman, post);
    case Resize(size) => ResizeComesBack(c, d, pre, size, post);
  }

  /** Each message as a block of its own, and the encoder's table afterwards. */
  function EncodedRun(c: Tables, d: DynTable, ms: seq<Message>): (r: (seq<seq<byte>>, DynTable))
    requires c.Sized()
    decreases |ms|
  {
    if ms == [] then ([], d)
    else
      var (b, d1) := EncodedMessage(c, d, ms[0]);
      var (rest, d2) := EncodedRun(c, d1, ms[1..]);
      ([b] + rest, d2)
  }

  /** Decode blocks one after the other, stopping at the first error. */
  function DecodedRun(c: Tables, d: DynTable, blocks: seq<seq<byte>>)
    : (r: (DynTable, Result<seq<seq<Header>>, HpackError>))
    requires c.Sized() && WellFormed(c.huffman)
    decreases |blocks|
  {
    if blocks == [] then (d, Ok([]))
    else
      var first := DecodedBlock(c, d, blocks[0], 0);
      match first.headers
      case Err(e) => (first.table, Err(e))
      case Ok(hs) =>
        var (d', rest) := DecodedRun(c, first.table, blocks[1..]);
        (d', match rest case Ok(lists) => Ok([hs] + lists) case Err(e) => Err(e))
  }

  function SentLists(ms: seq<Message>): seq<seq<Header>> {
    if ms == [] then [] else [ms[0].Sent()] + SentLists(ms[1..])
  }

  predicate RunFits(c: Tables, d: DynTable, ms: seq<Message>)
    requires c.Sized()
    decreases |ms|
  {
    ms == [] || (MessageFits(c, d, ms[0]) && RunFits(c, EncodedMessage(c, d, ms[0]).1, ms[1..]))
  }

  /** One message decoded as a whole block: the list sent, and the encoder's table. */
  lemma WholeBlock(c: Tables, d: DynTable, m: Message)
    requires c.Valid() && Reachable(d)
    ensures var (b, d') := EncodedMessage(c, d, m);
            var r := DecodedBlock(c, d, b, 0);
            && (MessageFits(c, d, m) ==> r == Outcome(d', Ok(m.Sent())) && Reachable(d'))
            && (!MessageFits(c, d, m) ==> r.headers != Ok(m.Sent()))
  {
    hide EncodedMessage, MessageFits, Reachable, DecodedField, PrefixFree, Complete;
    MessageRoundTrip(c, d, [], m, []);
    var b := EncodedMessage(c, d, m).0;
    assert [] + b + [] == b;
    assert m.Sent() + [] == m.Sent();
  }

  /**
   HPACK is lossless and synchronised over every run. Starting from equal tables, for
   any sequence of header lists and table size changes, the decoder returns exactly
   the lists sent and ends with the encoder's table if, and only if, every string
   and size put on the wire is within the decoder's limits. As this holds for every
   prefix of a run, the tables agree after each message.
   */
  lemma {:induction false} RunRoundTrip(c: Tables, d: DynTable, ms: seq<Message>)
    requires c.Valid() && Reachable(d)
    ensures var (blocks, d') := EncodedRun(c, d, ms);
            var (e', lists) := DecodedRun(c, d, blocks);
            && (lists == Ok(SentLists(ms)) <==> RunFits(c, d, ms))
            && (RunFits(c, d, ms) ==> e' == d' && Reachable(d'))
    decreases |ms|
  {
    hide EncodedMessage, MessageFits, Reachable, DecodedBlock, PrefixFree, Complete;
    if ms != [] {
      var (b, d1) := EncodedMessage(c, d, ms[0]);
      var (rest, d2) := EncodedRun(c, d1, ms[1..]);
      WholeBlock(c, d, ms[0]);
      assert ([b] + rest)[0] == b && ([b] + rest)[1..] == rest;
      if MessageFits(c, d, ms[0]) {
        RunRoundTrip(c, d1, ms[1..]);
        SameLists(ms, DecodedRun(c, d1, rest).1);
      } else {
        SameFirst(ms, DecodedRun(c, d, [b] + rest).1);
      }
    }
  }

  /**
   The bound on memory: at the end of every run, the octets of the decoder's table and 32 for
   each of its entries are within its maximum.
   */
  lemma RunBound(c: Tables, d: DynTable, ms: seq<Message>)
    requires c.Valid() && Reachable(d) && RunFits(c, d, ms)
    ensures var e := DecodedRun(c, d, EncodedRun(c, d, ms).0).0;
            Footprint(e.entries) <= e.max
  {
    hide EncodedRun, DecodedRun, RunFits, PrefixFree, Complete, Footprint;
    RunRoundTrip(c, d, ms);
    SizeIsFootprint(DecodedRun(c, d, EncodedRun(c, d, ms).0).0.entries);
  }

  /** The beginning of a run is a run. */
  lemma {:induction false} RunBegins(c: Tables, d: DynTable, ms: seq<Message>, k: nat)
    requires c.Sized() && k <= |ms|
    ensures |EncodedRun(c, d, ms).0| == |ms| && EncodedRun(c, d, ms[..k]).0 == EncodedRun(c, d, ms).0[..k]
    ensures RunFits(c, d, ms) ==> RunFits(c, d, ms[..k])
    decreases |ms|
  {
    hide EncodedMessage, MessageFits;
    if ms != [] {
      var d1 := EncodedMessage(c, d, ms[0]).1;
      RunBegins(c, d1, ms[1..], if k > 0 then k - 1 else 0);
      if k > 0 {
        assert ms[..k][1..] == ms[1..][..k - 1] && ms[..k][0] == ms[0];
      }
    }
  }

  /** The first blocks of a run decode to the first lists sent. */
  lemma FirstBlocks(c: Tables, d: DynTable, ms: seq<Message>, blocks: seq<seq<byte>>)
    requires c.Valid() && Reachable(d) && RunFits(c, d, ms) && blocks <= EncodedRun(c, d, ms).0
    ensures |blocks| <= |ms| && |EncodedRun(c, d, ms).0| == |ms|
    ensures DecodedRun(c, d, blocks) == (EncodedRun(c, d, ms[..|blocks|]).1, Ok(SentLists(ms[..|blocks|])))
  {
    hide EncodedRun, DecodedRun, RunFits, SentLists, Reachable, PrefixFree, Complete;
    RunBegins(c, d, ms, |ms|);
    RunBegins(c, d, ms, |blocks|);
    assert EncodedRun(c, d, ms).0[..|blocks|] == blocks;
    RunRoundTrip(c, d, ms[..|blocks|]);
  }

  lemma SameLists(ms: seq<Message>, r: Result<seq<seq<Header>>, HpackError>)
    requires ms != []
    ensures r.Ok? ==> ([ms[0].Sent()] + r.value == SentLists(ms) <==> r.value == SentLists(ms[1..]))
  {
    if r.Ok? {
      assert ([ms[0].Sent()] + r.value)[1..] == r.value;
      assert SentLists(ms)[1..] == SentLists(ms[1..]);
    }
  }

  lemma SameFirst(ms: seq<Message>, r: Result<seq<seq<Header>>, HpackError>)
    requires ms != []
    ensures r == Ok(SentLists(ms)) ==> r.value != [] && r.value[0] == ms[0].Sent()
  {
  }
}
