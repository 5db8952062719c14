/** The HPACK wire codec: a growing octet buffer, and readers over a span. */
module Hpack {
  import opened Bits
  import opened Wrappers
  import opened HpackErrors
  import opened HuffmanCode
  import opened HuffmanTree
  import opened HuffmanDecoder
  import opened HuffmanEncoding
  import opened HpackIntegers
  import opened HpackStrings

  // ---- Field representations (section 6 of RFC 7541) ------------------------

  lemma FieldFlags()
    ensures IsFlag(0x80, 7) && IsFlag(0x40, 6) && IsFlag(0x20, 5) && IsFlag(0x10, 4) && IsFlag(0, 4)
    ensures Mask(7) == 127 && Mask(6) == 63 && Mask(5) == 31 && Mask(4) == 15
  {
    assert Pow2(4) == 16 && Pow2(5) == 32 && Pow2(6) == 64 && Pow2(7) == 128;
  }

  function IndexedField(index: uint32): seq<byte> {
    FieldFlags();
    EncodedInt(0x80, index, 7)
  }

  function IndexingField(t: seq<HuffmanEntry>, index: uint32, value: seq<byte>, huffman: bool): seq<byte>
    requires |t| == 257
  {
    FieldFlags();
    EncodedInt(0x40, index, 6) + EncodedString(t, value, huffman)
  }

  function NewNameField(
    t: seq<HuffmanEntry>, name: seq<byte>, value: seq<byte>, nameHuffman: bool, valueHuffman: bool): seq<byte>
    requires |t| == 257
  {
    FieldFlags();
    EncodedInt(0x40, 0, 6) + EncodedString(t, name, nameHuffman) + EncodedString(t, value, valueHuffman)
  }

  /** `flag` is 0 for "without indexing" and 0x10 for "never indexed". */
  function PlainField(t: seq<HuffmanEntry>, flag: byte, index: uint32, value: seq<byte>, huffman: bool): seq<byte>
    requires |t| == 257 && (flag == 0 || flag == 0x10)
  {
    FieldFlags();
    EncodedInt(flag, index, 4) + EncodedString(t, value, huffman)
  }

  function SizeUpdateField(size: uint32): seq<byte> {
    FieldFlags();
    EncodedInt(0x20, size, 5)
  }

  /** The examples of sections C.1 and C.2 of RFC 7541. */
  lemma KnownIntegers()
    ensures EncodedInt(0, 10, 5) == [10] && EncodedInt(0, 1337, 5) == [31, 154, 10] && EncodedInt(0, 42, 8) == [42]
  {
    assert Pow2(5) == 32 && Pow2(8) == 256;
    assert IntTail(1306) == [154] + IntTail(10) && IntTail(10) == [10];
  }

  /** An integer that fits its prefix is one octet. */
  lemma SmallInt(first: byte, v: nat, p: nat)
    requires IsFlag(first, p) && v < Mask(p)
    ensures EncodedInt(first, v, p) == [first + v]
  {
  }

  lemma KnownFields(t: seq<HuffmanEntry>)
    requires |t| == 257
    ensures IndexedField(2) == [0x82]
    ensures NewNameField(t, [97, 98], [99], false, false) == [0x40, 2, 97, 98, 1, 99]
    ensures IndexingField(t, 4, [99], false) == [0x44, 1, 99]
    ensures PlainField(t, 0, 4, [99], false) == [4, 1, 99] && PlainField(t, 0x10, 4, [99], false) == [0x14, 1, 99]
    ensures SizeUpdateField(30) == [0x3e]
  {
    FieldFlags();
    StringFlags();
    hide EncodedInt, Pow2, Low;
    SmallInt(0x80, 2, 7);
    SmallInt(0x40, 0, 6);
    SmallInt(0x40, 4, 6);
    SmallInt(0, 4, 4);
    SmallInt(0x10, 4, 4);
    SmallInt(0x20, 30, 5);
    SmallInt(0, 1, 7);
    SmallInt(0, 2, 7);
  }

  class HpackBuffer {
    var data: seq<byte>

    constructor ()
      ensures data == []
    {
      data := [];
    }

    method PushByte(value: byte)
      modifies this
      ensures data == old(data) + [value]
    {
      data := data + [value];
    }

    /** Or the prefix into the last octet, a flag as a rule, then append continuation octets. */
    method EncodeInt(val: uint32, prefixBits: nat)
      requires data != [] && 1 <= prefixBits <= 8
      modifies this
      ensures data == old(data[..|data| - 1]) + FilledInt(old(data[|data| - 1]), val, prefixBits)
      ensures IsFlag(old(data[|data| - 1]), prefixBits) ==>
                data == old(data[..|data| - 1]) + EncodedInt(old(data[|data| - 1]), val, prefixBits)
    {
      hide Or, Pow2, IntTail, Low;
      var back := data[|data| - 1];
      LowOfZero(prefixBits);
      FlagFits(0, prefixBits);
      Octets();
      if IsFlag(back, prefixBits) {
        FilledIsEncoded(back, val, prefixBits);
      }
      var mask := Mask(prefixBits);
      if val < mask {
        data := data[..|data| - 1] + [Or(back, val, 8)];
      } else {
        data := data[..|data| - 1] + [Or(back, mask, 8)];
        PushTail(val - mask);
      }
    }

    /** Seven bits at a time, least significant first. */
    method PushTail(rest: nat)
      modifies this
      ensures data == old(data) + IntTail(rest)
    {
      var v := rest;
      while v >= 128
        invariant data + IntTail(v) == old(data) + IntTail(rest)
      {
        data := data + [v % 128 + 128];
        v := v / 128;
      }
      data := data + [v];
    }

    /** The number of octets `EncodeHuffman` will append. */
    method EncodeHuffmanLen(t: seq<HuffmanEntry>, str: seq<byte>) returns (n: nat)
      requires |t| == 257
      ensures n == |HuffmanBytes(t, str)|
    {
      var bits := 0;
      var i := 0;
      assert str[..0] == [];
      while i < |str|
        invariant 0 <= i <= |str|
        invariant bits == |Codes(t, str[..i])|
      {
        bits := bits + t[str[i]].len;
        CodesSnoc(t, str, i);
        i := i + 1;
      }
      assert str[..i] == str;
      return (bits + 7) / 8;
    }

    /**
     Shift codes into a 64-bit accumulator and emit octets from its top as they fill.
     Only the low `bitCount` bits of the accumulator mean anything; what was emitted
     stays above them, and falls off the top or is cut by the octet cast.
     */
    method EncodeHuffman(t: seq<HuffmanEntry>, str: seq<byte>)
      requires WellFormed(t)
      modifies this
      ensures data == old(data) + HuffmanBytes(t, str)
    {
      hide HuffmanBytes, Pending, Low, Shl, Shr, Pow2, ToBits, Code, Codes, Ones, Padding, WellFormed;
      EntryFits(t, 0);
      var bitBuf: nat, bitCount: nat := 0, 0;
      ghost var out: seq<byte> := [];
      PendingNone(t, str);
      var i := 0;
      while i < |str|
        invariant 0 <= i <= |str| && bitCount < 8
        invariant data == old(data) + out && Pending(out, bitBuf, bitCount, Codes(t, str[..i]))
      {
        var entry := t[str[i]];
        EntryFits(t, str[i]);
        PendingShift(out, bitBuf, bitCount, Codes(t, str[..i]), entry.code, entry.len);
        CodesSnoc(t, str, i);
        CodeIs(t, str[i]);
        bitBuf := Low(Shl(bitBuf, entry.len), 64) + entry.code;
        bitCount := bitCount + entry.len;
        ghost var bits := Codes(t, str[..i + 1]);
        while bitCount >= 8
          invariant bitCount >= 0
          invariant data == old(data) + out && Pending(out, bitBuf, bitCount, bits)
        {
          PendingEmit(out, bitBuf, bitCount, bits);
          data := data + [Low(Shr(bitBuf, bitCount - 8), 8)];
          out := out + [Low(Shr(bitBuf, bitCount - 8), 8)];
          bitCount := bitCount - 8;
        }
        i := i + 1;
      }
      assert str[..|str|] == str;
      PaddingLeft(out, bitBuf, bitCount, Codes(t, str));
      if bitCount > 0 {
        var eos := t[256];
        EntryFits(t, 256);
        var ones := Shr(eos.code, eos.len - (8 - bitCount));
        EosPadding(t, 8 - bitCount);
        PendingShift(out, bitBuf, bitCount, Codes(t, str), ones, 8 - bitCount);
        bitBuf := Low(Shl(bitBuf, 8 - bitCount), 64) + ones;
        PendingEmit(out, bitBuf, 8, Codes(t, str) + Ones(8 - bitCount));
        data := data + [Low(Shr(bitBuf, 0), 8)];
        out := out + [Low(Shr(bitBuf, 0), 8)];
      }
      PendingDone(t, str, out, bitBuf);
    }

    method EncodeString(t: seq<HuffmanEntry>, str: seq<byte>, useHuffman: bool)
      requires WellFormed(t)
      modifies this
      ensures data == old(data) + EncodedString(t, str, useHuffman)
    {
      StringFlags();
      hide EncodedInt, HuffmanBytes;
      if useHuffman {
        var hlen := EncodeHuffmanLen(t, str);
        PushByte(0x80);
        EncodeInt(hlen % 0x1_0000_0000, 7);
        EncodeHuffman(t, str);
      } else {
        PushByte(0);
        EncodeInt(|str| % 0x1_0000_0000, 7);
        data := data + str;
      }
    }

    method EncodeHeaderIndexed(index: uint32)
      modifies this
      ensures data == old(data) + IndexedField(index)
    {
      FieldFlags();
      hide EncodedInt;
      PushByte(0x80);
      EncodeInt(index, 7);
    }

    method EncodeHeaderLiteralIncIndexIndexedName(t: seq<HuffmanEntry>, index: uint32, value: seq<byte>, huffman: bool)
      requires WellFormed(t)
      modifies this
      ensures data == old(data) + IndexingField(t, index, value, huffman)
    {
      FieldFlags();
      hide EncodedInt, EncodedString;
      PushByte(0x40);
      EncodeInt(index, 6);
      EncodeString(t, value, huffman);
    }

    method EncodeHeaderLiteralIncIndexNewName(
      t: seq<HuffmanEntry>, name: seq<byte>, value: seq<byte>, nameHuffman: bool, valueHuffman: bool)
      requires WellFormed(t)
      modifies this
      ensures data == old(data) + NewNameField(t, name, value, nameHuffman, valueHuffman)
    {
      FieldFlags();
      hide EncodedInt, EncodedString;
      PushByte(0x40);
      EncodeInt(0, 6);
      EncodeString(t, name, nameHuffman);
      EncodeString(t, value, valueHuffman);
    }

    method EncodeHeaderLiteralNoIndexIndexedName(t: seq<HuffmanEntry>, index: uint32, value: seq<byte>, huffman: bool)
      requires WellFormed(t)
      modifies this
      ensures data == old(data) + PlainField(t, 0, index, value, huffman)
    {
      FieldFlags();
      hide EncodedInt, EncodedString;
      PushByte(0);
      EncodeInt(index, 4);
      EncodeString(t, value, huffman);
    }

    method EncodeHeaderLiteralNeverIndexIndexedName(t: seq<HuffmanEntry>, index: uint32, value: seq<byte>, huffman: bool)
      requires WellFormed(t)
      modifies this
      ensures data == old(data) + PlainField(t, 0x10, index, value, huffman)
    {
      FieldFlags();
      hide EncodedInt, EncodedString;
      PushByte(0x10);
      EncodeInt(index, 4);
      EncodeString(t, value, huffman);
    }

    method EncodeTableSizeUpdate(size: uint32)
      modifies this
      ensures data == old(data) + SizeUpdateField(size)
    {
      FieldFlags();
      hide EncodedInt;
      PushByte(0x20);
      EncodeInt(size, 5);
    }
  }

  // ---- Readers --------------------------------------------------------------

  /**
   Read a prefixed integer. Every intermediate value fits 32 bits: the shift is
   refused before it can overflow, and the sum before it can exceed the limit.
   */
  method DecodeInt(span: seq<byte>, offset: nat, prefixBits: nat, maxVal: uint32)
    returns (r: Result<uint32, HpackError>, newOffset: nat)
    requires 1 <= prefixBits <= 8
    ensures match DecodedInt(span, offset, prefixBits, maxVal)
            case Ok((v, o)) => r == Ok(v) && newOffset == o
            case Err(e) => r == Err(e)
  {
    newOffset := offset;
    if newOffset >= |span| {
      return Err(Eof), newOffset;
    }
    PrefixMask(prefixBits);
    hide Pow2, Low, Shl;
    var mask: uint32 := Pow2(prefixBits) - 1;
    var val: uint32 := Low(span[newOffset], prefixBits);
    newOffset := newOffset + 1;
    if val < mask {
      return Ok(val), newOffset;
    }
    var m := 0;
    while newOffset < |span|
      invariant offset < newOffset <= |span|
      invariant IsShift(m) || m == 35
      invariant DecodedInt(span, offset, prefixBits, maxVal) == DecodeTail(span, newOffset, val, m, maxVal)
    {
      var b := span[newOffset];
      newOffset := newOffset + 1;
      var chunk := b % 128;
      if m >= 31 || (m == 28 && chunk > 7) {
        return Err(IntegerOverflow), newOffset;
      }
      ChunkFits(chunk, m);
      var add: uint32 := Shl(chunk, m);
      if add > maxVal || val > maxVal - add {
        return Err(IntegerLimit), newOffset;
      }
      val := val + add;
      m := m + 7;
      if b < 128 {
        return Ok(val), newOffset;
      }
    }
    return Err(IncompleteInteger), newOffset;
  }

  lemma PrefixMask(p: nat)
    requires 1 <= p <= 8
    ensures 0 <= Mask(p) < 256
    ensures forall x: byte :: Low(x, p) <= Mask(p)
  {
    Octets();
    Pow2Monotonic(p, 8);
  }

  lemma ChunkFits(chunk: nat, m: nat)
    requires IsShift(m) && chunk < 128 && (m == 28 ==> chunk <= 7)
    ensures Shl(chunk, m) < 0x1_0000_0000
  {
    hide Pow2, Shl;
    ShlIsProduct(chunk, m);
    ShiftValue(m);
  }

  method DecodeString(ghost t: seq<HuffmanEntry>, tree: seq<HuffmanNode>, span: seq<byte>, offset: nat, maxLen: uint32)
    returns (r: Result<seq<byte>, HpackError>, newOffset: nat)
    requires IsCodeTree(t, tree)
    ensures match DecodedString(t, span, offset, maxLen)
            case Ok((v, o)) => r == Ok(v) && newOffset == o
            case Err(e) => r == Err(e)
  {
    hide DecodedInt, DecodeBits, Represents, PrefixFree, Complete;
    newOffset := offset;
    if newOffset >= |span| {
      return Err(Eof), newOffset;
    }
    var huffman := span[newOffset] >= 128;
    var len;
    len, newOffset := DecodeInt(span, offset, 7, maxLen);
    if len.Err? {
      return Err(len.error), newOffset;
    }
    var strLen := len.value;
    if strLen > maxLen {
      return Err(StringTooLong), newOffset;
    }
    if newOffset + strLen > |span| {
      return Err(IncompleteString), newOffset;
    }
    if huffman {
      r := DecodeHuffman(t, tree, span[newOffset..newOffset + strLen]);
      newOffset := newOffset + strLen;
    } else {
      r := Ok(span[newOffset..newOffset + strLen]);
      newOffset := newOffset + strLen;
    }
  }
}
