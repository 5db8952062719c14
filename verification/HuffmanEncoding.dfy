/** Huffman encoding as a bit string, and the accumulator steps that produce it. */
module HuffmanEncoding {
  import opened Bits
  import opened Wrappers
  import opened HuffmanCode

  /** The value of up to eight bits, most significant first. */
  function Value(bits: seq<bool>): (v: nat)
    ensures v < Pow2(|bits|)
  {
    if bits == [] then 0
    else 2 * Value(bits[..|bits| - 1]) + (if bits[|bits| - 1] then 1 else 0)
  }

  lemma {:induction false} ValueBits(bits: seq<bool>)
    ensures ToBits(Value(bits), |bits|) == bits
  {
    if bits != [] {
      ValueBits(bits[..|bits| - 1]);
      assert bits == bits[..|bits| - 1] + [bits[|bits| - 1]];
    }
  }

  function Pack(bits: seq<bool>): (s: seq<byte>)
    requires |bits| % 8 == 0
    ensures 8 * |s| == |bits|
  {
    if bits == [] then []
    else
      assert Pow2(8) == 256;
      [Value(bits[..8])] + Pack(bits[8..])
  }

  lemma {:induction false} PackBits(bits: seq<bool>)
    requires |bits| % 8 == 0
    ensures BitsOf(Pack(bits)) == bits
  {
    if bits != [] {
      hide ToBits, Value;
      var x, rest := Value(bits[..8]), Pack(bits[8..]);
      assert Pack(bits) == [x] + rest && Pack(bits)[1..] == rest;
      ValueBits(bits[..8]);
      PackBits(bits[8..]);
      assert bits == bits[..8] + bits[8..];
    }
  }

  lemma {:induction false} BitsOfInjective(a: seq<byte>, b: seq<byte>)
    requires BitsOf(a) == BitsOf(b)
    ensures a == b
  {
    if a == [] || b == [] {
      assert |BitsOf(a)| == 8 * |a|;
    } else {
      hide ToBits;
      assert ToBits(a[0], 8) == BitsOf(a)[..8] == BitsOf(b)[..8] == ToBits(b[0], 8);
      assert BitsOf(a[1..]) == BitsOf(a)[8..] == BitsOf(b)[8..] == BitsOf(b[1..]);
      OctetBound();
      ToBitsInjective(a[0], b[0], 8);
      BitsOfInjective(a[1..], b[1..]);
      assert a == [a[0]] + a[1..] && b == [b[0]] + b[1..];
    }
  }

  lemma OctetBound()
    ensures Pow2(8) == 256
  {
  }

  /** How many one-bits fill up the last octet. */
  function Padding(n: nat): (k: nat)
    ensures k < 8 && (n + k) % 8 == 0
  {
    (8 - n % 8) % 8
  }

  /** The codes of `s`, filled up with ones to a whole number of octets. */
  function HuffmanBytes(t: seq<HuffmanEntry>, s: seq<byte>): (r: seq<byte>)
    requires |t| == 257
  {
    Pack(Codes(t, s) + Ones(Padding(|Codes(t, s)|)))
  }

  lemma HuffmanBytesBits(t: seq<HuffmanEntry>, s: seq<byte>)
    requires |t| == 257
    ensures BitsOf(HuffmanBytes(t, s)) == Codes(t, s) + Ones(Padding(|Codes(t, s)|))
  {
    PackBits(Codes(t, s) + Ones(Padding(|Codes(t, s)|)));
  }

  /** Decoding inverts Huffman encoding for every octet string. */
  lemma HuffmanRoundTrip(t: seq<HuffmanEntry>, s: seq<byte>)
    requires ValidTable(t)
    ensures DecodeBits(t, BitsOf(HuffmanBytes(t, s))) == Ok(s)
    ensures |HuffmanBytes(t, s)| == (|Codes(t, s)| + 7) / 8
  {
    HuffmanBytesBits(t, s);
    DecodeBitsOfCodes(t, s, Padding(|Codes(t, s)|));
  }

  /** The total code length of `s`, as the length pass adds it up. */
  function CodeLength(t: seq<HuffmanEntry>, s: seq<byte>): (n: nat)
    requires |t| == 257
    ensures n == |Codes(t, s)|
  {
    if s == [] then 0 else t[s[0]].len + CodeLength(t, s[1..])
  }

  // ---- The 64-bit accumulator ----------------------------------------------

  /**
   Shifting a code into a 64-bit accumulator: bits above the pending ones are lost or
   stale, the pending ones and the code come out intact.
   */
  lemma ShiftIn(buf: nat, count: nat, code: nat, len: nat)
    requires code < Pow2(len) && count + len <= 64
    ensures ToBits(Low(Shl(buf, len), 64) + code, count + len) == ToBits(buf, count) + ToBits(code, len)
  {
    var v := Shl(buf, len);
    LowShl(buf, len, 64);
    ToBitsAppend(Low(buf, 64 - len), count, code, len);
    ToBitsLow(buf, count, 64 - len);
  }

  /** Truncating a shifted value is shifting a truncated one. */
  lemma {:induction false} LowShl(v: nat, len: nat, w: nat)
    requires len <= w
    ensures Low(Shl(v, len), w) == Shl(Low(v, w - len), len)
  {
    if len > 0 {
      assert Shl(v, len) / 2 == Shl(v, len - 1);
      LowShl(v, len - 1, w - 1);
    }
  }

  /** Emitting the top eight pending bits as a truncated octet. */
  lemma EmitOctet(buf: nat, count: nat)
    requires count >= 8
    ensures Low(Shr(buf, count - 8), 8) < 256
    ensures ToBits(buf, count) == ToBits(Low(Shr(buf, count - 8), 8), 8) + ToBits(buf, count - 8)
  {
    OctetBound();
    ToBitsSplit(buf, 8, count - 8);
    ToBitsLow(Shr(buf, count - 8), 8, 8);
  }

  /** The octets out so far and the `count` pending bits of the accumulator are `bits`. */
  ghost predicate Pending(out: seq<byte>, buf: nat, count: nat, bits: seq<bool>) {
    BitsOf(out) + ToBits(buf, count) == bits
  }

  lemma PendingShift(out: seq<byte>, buf: nat, count: nat, bits: seq<bool>, code: nat, len: nat)
    requires Pending(out, buf, count, bits) && code < Pow2(len) && count + len <= 64
    ensures Pending(out, Low(Shl(buf, len), 64) + code, count + len, bits + ToBits(code, len))
  {
    hide ToBits, Low, Shl, BitsOf;
    ShiftIn(buf, count, code, len);
    assert (BitsOf(out) + ToBits(buf, count)) + ToBits(code, len)
        == BitsOf(out) + (ToBits(buf, count) + ToBits(code, len));
  }

  lemma PendingEmit(out: seq<byte>, buf: nat, count: nat, bits: seq<bool>)
    requires Pending(out, buf, count, bits) && count >= 8
    ensures Low(Shr(buf, count - 8), 8) < 256
    ensures Pending(out + [Low(Shr(buf, count - 8), 8)], buf, count - 8, bits)
  {
    hide ToBits, Low, Shr, BitsOf;
    EmitOctet(buf, count);
    var octet: byte := Low(Shr(buf, count - 8), 8);
    BitsOfConcat(out, [octet]);
    OneOctet(octet);
    assert (BitsOf(out) + ToBits(octet, 8)) + ToBits(buf, count - 8)
        == BitsOf(out) + (ToBits(octet, 8) + ToBits(buf, count - 8));
  }

  lemma OneOctet(x: byte)
    ensures BitsOf([x]) == ToBits(x, 8)
  {
  }

  lemma PendingDone(t: seq<HuffmanEntry>, s: seq<byte>, out: seq<byte>, buf: nat)
    requires |t| == 257 && Pending(out, buf, 0, Codes(t, s) + Ones(Padding(|Codes(t, s)|)))
    ensures out == HuffmanBytes(t, s)
  {
    HuffmanBytesBits(t, s);
    BitsOfInjective(out, HuffmanBytes(t, s));
  }

  lemma CodesSnoc(t: seq<HuffmanEntry>, s: seq<byte>, i: nat)
    requires |t| == 257 && i < |s|
    ensures Codes(t, s[..i + 1]) == Codes(t, s[..i]) + Code(t, s[i])
  {
    assert s[..i + 1] == s[..i] + [s[i]];
    CodesConcat(t, s[..i], [s[i]]);
    CodesCons(t, s[i], []);
  }

  /** The top bits of EOS are the padding. */
  lemma EosPadding(t: seq<HuffmanEntry>, pad: nat)
    requires WellFormed(t) && pad <= 8
    ensures Shr(t[EOS].code, t[EOS].len - pad) < Pow2(pad)
    ensures ToBits(Shr(t[EOS].code, t[EOS].len - pad), pad) == Ones(pad)
  {
    hide ToBits, Shr, Pow2;
    ShrOfOnes(pad, t[EOS].len - pad);
    OnesFit(pad);
    ToBitsOfOnes(pad);
  }

  lemma OnesFit(n: nat)
    ensures 0 <= Pow2(n) - 1 < Pow2(n)
  {
  }

  lemma {:induction false} ShrOfOnes(n: nat, k: nat)
    ensures Shr(Pow2(n + k) - 1, k) == Pow2(n) - 1
  {
    if k > 0 {
      assert (Pow2(n + k) - 1) / 2 == Pow2(n + k - 1) - 1;
      ShrOfOnes(n, k - 1);
    }
  }

  lemma PendingNone(t: seq<HuffmanEntry>, s: seq<byte>)
    requires |t| == 257
    ensures Pending([], 0, 0, Codes(t, s[..0])) && |Codes(t, s[..0])| == 0
  {
    assert s[..0] == [];
  }

  lemma EntryFits(t: seq<HuffmanEntry>, i: nat)
    requires WellFormed(t) && i <= 256
    ensures |t| == 257 && 5 <= t[i].len <= 30 && t[i].code < Pow2(t[i].len) && t[256].len == 30
  {
  }

  lemma CodeIs(t: seq<HuffmanEntry>, i: nat)
    requires i < |t|
    ensures Code(t, i) == ToBits(t[i].code, t[i].len)
  {
  }

  /** Fewer than eight pending bits: the padding fills up their octet, if there are any. */
  lemma PaddingLeft(out: seq<byte>, buf: nat, count: nat, bits: seq<bool>)
    requires Pending(out, buf, count, bits) && count < 8
    ensures Padding(|bits|) == if count == 0 then 0 else 8 - count
    ensures count == 0 ==> bits + Ones(Padding(|bits|)) == bits
  {
    hide BitsOf, ToBits;
    assert |bits| == 8 * |out| + count;
    assert |bits| % 8 == count;
  }
}
