/** String literals (section 5.2 of RFC 7541) as octets, and what decoding accepts. */
module HpackStrings {
  import opened Bits
  import opened Wrappers
  import opened HpackErrors
  import opened HuffmanCode
  import opened HuffmanEncoding
  import opened HpackIntegers

  const MAX_STRING: uint32 := 65536

  lemma StringFlags()
    ensures IsFlag(0x80, 7) && IsFlag(0, 7) && Mask(7) == 127
  {
    assert Pow2(7) == 0x80;
  }

  /** The octets of the string itself, Huffman-coded or not. */
  function Payload(t: seq<HuffmanEntry>, str: seq<byte>, huffman: bool): (r: seq<byte>)
    requires |t| == 257
  {
    if huffman then HuffmanBytes(t, str) else str
  }

  /** Flag, length as a 7-bit-prefix integer truncated to 32 bits, then the octets. */
  function EncodedString(t: seq<HuffmanEntry>, str: seq<byte>, huffman: bool): (r: seq<byte>)
    requires |t| == 257
  {
    StringFlags();
    var octets := Payload(t, str, huffman);
    EncodedInt(if huffman then 0x80 else 0, |octets| % 0x1_0000_0000, 7) + octets
  }

  function DecodedString(t: seq<HuffmanEntry>, s: seq<byte>, off: nat, max: uint32)
    : (r: Result<(seq<byte>, nat), HpackError>)
    requires WellFormed(t)
  {
    if off >= |s| then Err(Eof)
    else
      var (len, o) :- DecodedInt(s, off, 7, max);
      if len > max then Err(StringTooLong)
      else if o + len > |s| then Err(IncompleteString)
      else if s[off] >= 128 then
        var str :- DecodeBits(t, BitsOf(s[o..o + len]));
        Ok((str, o + len))
      else Ok((s[o..o + len], o + len))
  }

  /** The header of an encoded string: which flag it carries, and what length is read back. */
  lemma StringHeader(t: seq<HuffmanEntry>, pre: seq<byte>, str: seq<byte>, huffman: bool, post: seq<byte>, max: uint32)
    returns (n: nat)
    requires |t| == 257 && max < 0x8000_0000
    ensures var octets := Payload(t, str, huffman);
            var e := EncodedString(t, str, huffman);
            var s := pre + e + post;
            var len := |octets| % 0x1_0000_0000;
            && |pre| < |s| && (s[|pre|] >= 128 <==> huffman)
            && n == |e| - |octets|
            && s[|pre| + n..] == octets + post
            && (len <= max ==> DecodedInt(s, |pre|, 7, max) == Ok((len, |pre| + n)))
            && (len > max && DecodedInt(s, |pre|, 7, max).Ok? ==> DecodedInt(s, |pre|, 7, max).value.0 == len)
  {
    StringFlags();
    hide DecodedInt, HuffmanBytes;
    var octets := Payload(t, str, huffman);
    var first: byte := if huffman then 0x80 else 0;
    var e := EncodedInt(first, |octets| % 0x1_0000_0000, 7);
    n := |e|;
    var s := pre + EncodedString(t, str, huffman) + post;
    assert s == pre + e + (octets + post);
    assert s[|pre|] == e[0];
    IntRoundTrip(pre, first, |octets| % 0x1_0000_0000, 7, octets + post, max);
  }

  /** A proper prefix of the payload never decodes to the whole string. */
  lemma CutPayload(t: seq<HuffmanEntry>, str: seq<byte>, len: nat)
    requires ValidTable(t) && len < |HuffmanBytes(t, str)|
    ensures DecodeBits(t, BitsOf(HuffmanBytes(t, str)[..len])) != Ok(str)
  {
    var bits := BitsOf(HuffmanBytes(t, str)[..len]);
    HuffmanRoundTrip(t, str);
    if DecodeBits(t, bits) == Ok(str) {
      var k := DecodedBitsAreCodes(t, bits);
    }
  }

  /**
   Decoding inverts encoding, anywhere in a block, for exactly the strings whose
   encoded octets respect the limit; a longer one never comes back as itself.
   */
  lemma StringRoundTrip(t: seq<HuffmanEntry>, pre: seq<byte>, str: seq<byte>, huffman: bool, post: seq<byte>, max: uint32)
    requires ValidTable(t) && max < 0x8000_0000
    ensures var e := EncodedString(t, str, huffman);
            var r := DecodedString(t, pre + e + post, |pre|, max);
            && (r.Ok? && r.value.0 == str <==> |Payload(t, str, huffman)| <= max)
            && (|Payload(t, str, huffman)| <= max ==> r == Ok((str, |pre| + |e|)))
  {
    hide DecodedInt, EncodedString, DecodeBits, HuffmanBytes, PrefixFree, Complete, BitsOf, Code;
    var n := StringHeader(t, pre, str, huffman, post, max);
    var octets := Payload(t, str, huffman);
    var s := pre + EncodedString(t, str, huffman) + post;
    var o, len := |pre| + n, |octets| % 0x1_0000_0000;
    assert s[o..o + len] == s[o..][..len] == octets[..len];
    assert octets[..|octets|] == octets;
    if |octets| <= max {
      HuffmanRoundTrip(t, str);
    } else if huffman && len < |octets| {
      CutPayload(t, str, len);
    }
  }

  /** A payload within the limit stands for a string of bounded length. */
  lemma PayloadBound(t: seq<HuffmanEntry>, str: seq<byte>, huffman: bool)
    requires WellFormed(t) && |Payload(t, str, huffman)| <= MAX_STRING
    ensures |str| <= 0x10_0000
  {
    if huffman {
      HuffmanBytesBits(t, str);
      CodesAreLong(t, str);
    }
  }

  lemma {:induction false} CodesAreLong(t: seq<HuffmanEntry>, str: seq<byte>)
    requires WellFormed(t)
    ensures |Codes(t, str)| >= 5 * |str|
  {
    if str != [] {
      CodesAreLong(t, str[1..]);
    }
  }
}
