/** One end of an HPACK connection: the codec with its dynamic table, updated in place. */
module HpackContexts {
  import opened Bits
  import opened Wrappers
  import opened HpackErrors
  import opened Headers
  import opened HuffmanCode
  import opened HuffmanTree
  import opened HuffmanDecoder
  import opened HpackIntegers
  import opened HpackStrings
  import opened Hpack
  import opened HpackTable
  import opened HpackBlocks
  import opened HpackStaticTable
  import HuffmanCanonical

  class HpackContext {
    const c: Tables
    const tree: seq<HuffmanNode>

    var dynamicTable: seq<Header> // newest entry first
    var maxTableSize: uint32
    var currentTableSize: uint32

    /** The size field is the sum of the entry sizes, and within the maximum. */
    ghost predicate Valid()
      reads this
    {
      && c.Valid() && IsCodeTree(c.huffman, tree)
      && currentTableSize == TotalSize(dynamicTable) <= maxTableSize
    }

    function State(): DynTable
      reads this
    {
      DynTable(dynamicTable, maxTableSize)
    }

    constructor (c: Tables, tree: seq<HuffmanNode>, maxTableSize: uint32)
      requires c.Valid() && IsCodeTree(c.huffman, tree)
      ensures Valid() && State() == DynTable([], maxTableSize) && this.c == c
    {
      this.c, this.tree := c, tree;
      dynamicTable, this.maxTableSize, currentTableSize := [], maxTableSize, 0;
    }

    method EvictUntilSize(limit: uint32)
      requires currentTableSize == TotalSize(dynamicTable)
      modifies this`dynamicTable, this`currentTableSize
      ensures dynamicTable == Evict(old(dynamicTable), limit)
      ensures currentTableSize == TotalSize(dynamicTable) <= limit
    {
      while currentTableSize > limit && dynamicTable != []
        invariant currentTableSize == TotalSize(dynamicTable)
        invariant Evict(dynamicTable, limit) == Evict(old(dynamicTable), limit)
        decreases |dynamicTable|
      {
        var oldest := dynamicTable[|dynamicTable| - 1];
        currentTableSize := currentTableSize - EntrySize(oldest);
        dynamicTable := dynamicTable[..|dynamicTable| - 1];
      }
    }

    method SetMaxTableSize(newMax: uint32)
      requires Valid()
      modifies this
      ensures Valid() && State() == SetMax(old(State()), newMax)
    {
      maxTableSize := newMax;
      EvictUntilSize(maxTableSize);
    }

    method AddToDynamicTable(h: Header)
      requires Valid()
      modifies this
      ensures Valid() && State() == Add(old(State()), h)
    {
      hide PrefixFree, Complete, WellFormed, Represents, EntrySize, Evict, TotalSize;
      var entrySize := EntrySize(h);
      if entrySize > maxTableSize {
        TotalSizeNone();
        dynamicTable, currentTableSize := [], 0;
        return;
      }
      EvictUntilSize(maxTableSize - entrySize);
      TotalSizeCons(h, dynamicTable);
      dynamicTable := [h] + dynamicTable;
      currentTableSize := currentTableSize + entrySize;
    }

    method GetHeader(index: nat) returns (r: Result<Header, HpackError>)
      requires Valid()
      ensures match Lookup(c.fixed, State(), index)
              case Some(h) => r == Ok(h)
              case None => r == Err(IndexOutOfRange)
    {
      if 1 <= index <= 61 {
        return Ok(c.fixed[index - 1]);
      }
      // For index 0 the unsigned difference wraps and is out of range as well.
      if index < 62 || index - 62 >= |dynamicTable| {
        return Err(IndexOutOfRange);
      }
      return Ok(dynamicTable[index - 62]);
    }

    method FindMatch(q: Query) returns (r: int)
      requires Valid()
      ensures r == Find(c.fixed, State(), q)
    {
      var i := 0;
      while i < 61
        invariant 0 <= i <= 61
        invariant FirstMatch(c.fixed, q, 0) == FirstMatch(c.fixed, q, i)
      {
        if q.Matches(c.fixed[i]) {
          return i + 1;
        }
        i := i + 1;
      }
      i := 0;
      while i < |dynamicTable|
        invariant 0 <= i <= |dynamicTable|
        invariant FirstMatch(dynamicTable, q, 0) == FirstMatch(dynamicTable, q, i)
      {
        if q.Matches(dynamicTable[i]) {
          return i + 62;
        }
        i := i + 1;
      }
      return -1;
    }

    /** One header: by index if it is in a table, else as a literal that goes into the dynamic one. */
    method EncodeOne(buf: HpackBuffer, h: Header, useHuffman: bool)
      requires Valid()
      modifies this, buf
      ensures Valid()
      ensures var (b, d) := EncodedHeader(c, old(State()), h, useHuffman);
              buf.data == old(buf.data) + b && State() == d
    {
      hide Find, IndexedField, IndexingField, NewNameField, PrefixFree, Complete, TotalSize, Represents;
      var exactMatch := FindMatch(Exact(h));
      if exactMatch != -1 {
        buf.EncodeHeaderIndexed(exactMatch % 0x1_0000_0000);
        return;
      }
      var nameMatch := FindMatch(Name(h.name));
      if nameMatch != -1 {
        buf.EncodeHeaderLiteralIncIndexIndexedName(c.huffman, nameMatch % 0x1_0000_0000, h.value, useHuffman);
        AddToDynamicTable(h);
      } else {
        buf.EncodeHeaderLiteralIncIndexNewName(c.huffman, h.name, h.value, useHuffman, useHuffman);
        AddToDynamicTable(h);
      }
    }

    method Encode(buf: HpackBuffer, headers: seq<Header>, useHuffman: bool)
      requires Valid()
      modifies this, buf
      ensures Valid()
      ensures var (b, d) := EncodedHeaders(c, old(State()), headers, useHuffman);
              buf.data == old(buf.data) + b && State() == d
    {
      hide EncodedHeader, PrefixFree, Complete, TotalSize, Represents;
      var i := 0;
      assert headers[0..] == headers;
      while i < |headers|
        invariant 0 <= i <= |headers| && Valid()
        invariant var (b, d) := EncodedHeaders(c, old(State()), headers, useHuffman);
                  var (rest, d') := EncodedHeaders(c, State(), headers[i..], useHuffman);
                  buf.data + rest == old(buf.data) + b && d' == d
      {
        assert headers[i..][0] == headers[i] && headers[i..][1..] == headers[i + 1..];
        EncodeOne(buf, headers[i], useHuffman);
        i := i + 1;
      }
    }

    /** The name and value of a literal field, the name by index or in full. */
    method DecodeLiteral(data: seq<byte>, offset: nat, prefixBits: nat)
      returns (r: Result<Header, HpackError>, newOffset: nat)
      requires Valid() && 1 <= prefixBits <= 8
      ensures match DecodedLiteral(c, State(), data, offset, prefixBits)
              case Ok((h, o)) => r == Ok(h) && newOffset == o
              case Err(e) => r == Err(e)
    {
      hide DecodedInt, DecodedString, Represents, PrefixFree, Complete, TotalSize;
      var index, name, value;
      index, newOffset := DecodeInt(data, offset, prefixBits, MAX_UINT32);
      if index.Err? {
        return Err(index.error), newOffset;
      }
      if index.value == 0 {
        name, newOffset := DecodeString(c.huffman, tree, data, newOffset, MAX_STRING);
        if name.Err? {
          return Err(name.error), newOffset;
        }
      } else {
        var entry := GetHeader(index.value);
        if entry.Err? {
          return Err(entry.error), newOffset;
        }
        name := Ok(entry.value.name);
      }
      value, newOffset := DecodeString(c.huffman, tree, data, newOffset, MAX_STRING);
      if value.Err? {
        return Err(value.error), newOffset;
      }
      return Ok(Header(name.value, value.value)), newOffset;
    }

    method Decode(data: seq<byte>) returns (r: Result<seq<Header>, HpackError>)
      requires Valid()
      modifies this
      ensures Valid()
      ensures var o := DecodedBlock(c, old(State()), data, 0);
              r == o.headers && State() == o.table
    {
      hide DecodedInt, DecodedLiteral, Represents, PrefixFree, Complete, TotalSize, SetMax, Add, Lookup;
      var headers: seq<Header> := [];
      var offset := 0;
      NothingYielded(DecodedBlock(c, State(), data, 0));
      while offset < |data|
        invariant Valid()
        invariant DecodedBlock(c, old(State()), data, 0) == Yield(headers, DecodedBlock(c, State(), data, offset))
        decreases |data| - offset
      {
        ghost var d, field := State(), DecodedField(c, State(), data, offset);
        if field.Ok? {
          FieldAdvances(c, d, data, offset);
          YieldYield(headers, field.value.emitted, DecodedBlock(c, field.value.table, data, field.value.next));
        }
        var b := data[offset];
        if b >= 0x80 {
          var index;
          index, offset := DecodeInt(data, offset, 7, MAX_UINT32);
          if index.Err? {
            return Err(index.error);
          }
          var entry := GetHeader(index.value);
          if entry.Err? {
            return Err(entry.error);
          }
          headers := headers + [entry.value];
        } else if b >= 0x40 {
          var h;
          h, offset := DecodeLiteral(data, offset, 6);
          if h.Err? {
            return Err(h.error);
          }
          AddToDynamicTable(h.value);
          headers := headers + [h.value];
        } else if b >= 0x20 {
          var newSize;
          newSize, offset := DecodeInt(data, offset, 5, MAX_UINT32);
          if newSize.Err? {
            return Err(newSize.error);
          }
          SetMaxTableSize(newSize.value);
          assert headers + [] == headers;
        } else {
          var h;
          h, offset := DecodeLiteral(data, offset, 4);
          if h.Err? {
            return Err(h.error);
          }
          headers := headers + [h.value];
        }
      }
      assert headers + [] == headers;
      return Ok(headers);
    }
  }

  /** The constant tables, and the tree built from them on first use. */
  method RfcTables() returns (c: Tables, tree: seq<HuffmanNode>)
    ensures c == Tables(HuffmanCanonical.Table(), StaticTable())
    ensures c.Valid() && IsCodeTree(c.huffman, tree)
  {
    hide HuffmanCanonical.Table, StaticTable, Represents, PrefixFree, Complete, WellFormed;
    HuffmanCanonical.TableIsValid();
    c := Tables(HuffmanCanonical.Table(), StaticTable());
    tree := BuildTree(c.huffman);
  }

  /** The run theorem for the actual tables, from two fresh contexts. */
  lemma RfcRun(max: uint32, ms: seq<Message>)
    ensures var c := Tables(HuffmanCanonical.Table(), StaticTable());
            && c.Valid()
            && var (blocks, d) := EncodedRun(c, DynTable([], max), ms);
               var (e, lists) := DecodedRun(c, DynTable([], max), blocks);
               && (lists == Ok(SentLists(ms)) <==> RunFits(c, DynTable([], max), ms))
               && (RunFits(c, DynTable([], max), ms) ==> e == d)
  {
    hide HuffmanCanonical.Table, StaticTable, PrefixFree, Complete, WellFormed;
    HuffmanCanonical.TableIsValid();
    RunRoundTrip(Tables(HuffmanCanonical.Table(), StaticTable()), DynTable([], max), ms);
  }

  lemma NothingYielded(r: Outcome)
    ensures Yield([], r) == r
  {
    if r.headers.Ok? {
      assert [] + r.headers.value == r.headers.value;
    }
  }
}
