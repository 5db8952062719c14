/** Prefixed integers (section 5.1 of RFC 7541): the wire format and what decoding accepts. */
module HpackIntegers {
  import opened Bits
  import opened Wrappers
  import opened HpackErrors

  const MAX_UINT32: uint32 := 0xFFFF_FFFF

  /** Seven bits per octet, least significant first, the top bit set on all but the last. */
  function IntTail(v: nat): (r: seq<byte>)
    ensures |r| >= 1
  {
    if v < 128 then [v] else [v % 128 + 128] + IntTail(v / 128)
  }

  function Mask(p: nat): (m: nat) {
    Pow2(p) - 1
  }

  /** A flag octet whose low `p` bits are free to hold the prefix. */
  predicate IsFlag(first: byte, p: nat) {
    1 <= p <= 8 && Low(first, p) == 0
  }

  lemma {:induction false} FlagRoom(first: nat, n: nat, p: nat)
    requires p <= n && first < Pow2(n) && Low(first, p) == 0
    ensures first + Pow2(p) <= Pow2(n)
  {
    if p > 0 {
      assert first == 2 * (first / 2);
      FlagRoom(first / 2, n - 1, p - 1);
    }
  }

  lemma Octets()
    ensures Pow2(8) == 256
  {
  }

  lemma FlagFits(first: byte, p: nat)
    requires IsFlag(first, p)
    ensures first + Mask(p) < 256
  {
    hide Pow2;
    Octets();
    FlagRoom(first, 8, p);
  }

  /** `v` behind the flag bits of `first`, in a `p`-bit prefix. */
  function EncodedInt(first: byte, v: nat, p: nat): (r: seq<byte>)
    requires IsFlag(first, p)
    ensures |r| >= 1
    ensures r[0] - first <= Mask(p) && r[0] >= first
  {
    FlagFits(first, p);
    if v < Mask(p) then [first + v] else [first + Mask(p)] + IntTail(v - Mask(p))
  }

  /** The low `n` bits of two values, or-ed together. */
  function Or(a: nat, b: nat, n: nat): (r: nat)
    ensures r < Pow2(n)
  {
    if n == 0 then 0 else 2 * Or(a / 2, b / 2, n - 1) + if a % 2 == 1 || b % 2 == 1 then 1 else 0
  }

  lemma {:induction false} OrZero(a: nat, n: nat)
    requires a < Pow2(n)
    ensures Or(a, 0, n) == a
  {
    if n > 0 {
      OrZero(a / 2, n - 1);
    }
  }

  /** Or-ing bits into free ones is adding them. */
  lemma {:induction false} OrFree(a: nat, b: nat, p: nat, n: nat)
    requires p <= n && a < Pow2(n) && b < Pow2(p) && Low(a, p) == 0
    ensures Or(a, b, n) == a + b
  {
    if p == 0 {
      OrZero(a, n);
    } else {
      assert a == 2 * (a / 2);
      OrFree(a / 2, b / 2, p - 1, n - 1);
    }
  }

  lemma {:induction false} LowOfZero(p: nat)
    ensures Low(0, p) == 0
  {
    if p > 0 {
      LowOfZero(p - 1);
    }
  }

  /** The integer or-ed into whatever octet is there. */
  function FilledInt(back: byte, v: nat, p: nat): (r: seq<byte>)
    requires 1 <= p <= 8
    ensures |r| >= 1
  {
    LowOfZero(p);
    Octets();
    var e := EncodedInt(0, v, p);
    [Or(back, e[0], 8)] + e[1..]
  }

  /** Behind a flag, that is the encoding. */
  lemma FilledIsEncoded(first: byte, v: nat, p: nat)
    requires IsFlag(first, p)
    ensures FilledInt(first, v, p) == EncodedInt(first, v, p)
  {
    hide Pow2, Low, IntTail, Or;
    LowOfZero(p);
    Octets();
    OrFree(first, EncodedInt(0, v, p)[0], p, 8);
  }

  /** The continuation loop, from octet `off` with `val` accumulated and shift `m`. */
  function DecodeTail(s: seq<byte>, off: nat, val: nat, m: nat, max: uint32): (r: Result<(nat, nat), HpackError>)
    decreases |s| - off
  {
    if off >= |s| then Err(IncompleteInteger)
    else
      var chunk := s[off] % 128;
      if m >= 31 || (m == 28 && chunk > 7) then Err(IntegerOverflow)
      else if val + Shl(chunk, m) > max then Err(IntegerLimit)
      else if s[off] < 128 then Ok((val + Shl(chunk, m), off + 1))
      else DecodeTail(s, off + 1, val + Shl(chunk, m), m + 7, max)
  }

  /** The value read at `off`, and the offset behind it. */
  function DecodedInt(s: seq<byte>, off: nat, p: nat, max: uint32): (r: Result<(nat, nat), HpackError>) {
    if off >= |s| then Err(Eof)
    else
      var val := Low(s[off], p);
      if val < Mask(p) then Ok((val, off + 1)) else DecodeTail(s, off + 1, val, 0, max)
  }

  // ---- Meaning --------------------------------------------------------------

  /** The number the continuation octets stand for. */
  function TailValue(octets: seq<byte>): nat {
    if octets == [] then 0 else octets[0] % 128 + 128 * TailValue(octets[1..])
  }

  lemma ShiftBySeven(m: nat)
    ensures Pow2(m + 7) == 128 * Pow2(m)
  {
    assert Pow2(m + 7) == 2 * Pow2(m + 6);
    assert Pow2(m + 6) == 2 * Pow2(m + 5);
    assert Pow2(m + 5) == 2 * Pow2(m + 4);
    assert Pow2(m + 4) == 2 * Pow2(m + 3);
    assert Pow2(m + 3) == 2 * Pow2(m + 2);
    assert Pow2(m + 2) == 2 * Pow2(m + 1);
  }

  /** A decoded tail is the sum of its chunks, within the limit: no step wraps. */
  lemma {:induction false} DecodeTailMeaning(s: seq<byte>, off: nat, val: nat, m: nat, max: uint32)
    requires DecodeTail(s, off, val, m, max).Ok?
    ensures var (v, o) := DecodeTail(s, off, val, m, max).value;
            off < o <= |s| && v <= max && v == val + Shl(TailValue(s[off..o]), m)
    decreases |s| - off
  {
    var (v, o) := DecodeTail(s, off, val, m, max).value;
    var chunk := s[off] % 128;
    if s[off] < 128 {
      assert s[off..o] == [s[off]];
      assert TailValue(s[off..o]) == chunk;
    } else {
      DecodeTailMeaning(s, off + 1, val + Shl(chunk, m), m + 7, max);
      assert s[off..o][1..] == s[off + 1..o];
      ShlSplit(chunk, TailValue(s[off + 1..o]), m);
    }
  }

  lemma Distribute(a: nat, b: nat, c: nat)
    ensures (a + 128 * b) * c == a * c + b * (128 * c)
  {
  }

  lemma ShlSplit(a: nat, b: nat, m: nat)
    ensures Shl(a + 128 * b, m) == Shl(a, m) + Shl(b, m + 7)
  {
    ShlIsProduct(a, m);
    ShlIsProduct(b, m + 7);
    ShlIsProduct(a + 128 * b, m);
    ShiftBySeven(m);
    Distribute(a, b, Pow2(m));
  }

  /**
   What a successful decode returns: the prefix alone, or the all-ones prefix plus
   the chunks that follow it, never more than `max`.
   */
  lemma DecodedIntMeaning(s: seq<byte>, off: nat, p: nat, max: uint32)
    requires DecodedInt(s, off, p, max).Ok?
    ensures var (v, o) := DecodedInt(s, off, p, max).value;
            && off < o <= |s|
            && if o == off + 1 then v == Low(s[off], p) < Mask(p)
               else Mask(p) <= v <= max && v == Mask(p) + TailValue(s[off + 1..o])
  {
    if Low(s[off], p) >= Mask(p) {
      DecodeTailMeaning(s, off + 1, Low(s[off], p), 0, max);
    }
  }

  // ---- Round trip -----------------------------------------------------------

  lemma {:induction false} LowOfFlag(first: nat, v: nat, p: nat)
    requires Low(first, p) == 0 && v < Pow2(p)
    ensures Low(first + v, p) == v
  {
    if p > 0 {
      assert first == 2 * (first / 2);
      assert (first + v) / 2 == first / 2 + v / 2;
      LowOfFlag(first / 2, v / 2, p - 1);
    }
  }

  /** The shifts the continuation loop can reach. */
  predicate IsShift(m: nat) {
    m == 0 || m == 7 || m == 14 || m == 21 || m == 28
  }

  lemma ShiftValue(m: nat)
    requires IsShift(m)
    ensures Pow2(m) == if m == 0 then 1 else if m == 7 then 0x80 else if m == 14 then 0x4000
                       else if m == 21 then 0x20_0000 else 0x1000_0000
  {
    ShiftBySeven(0);
    ShiftBySeven(7);
    ShiftBySeven(14);
    ShiftBySeven(21);
    assert Pow2(0) == 1;
    hide Pow2;
  }

  /** How one chunk splits off the shifted value, and when the last one is refused. */
  lemma ChunkArithmetic(w: nat, m: nat)
    requires IsShift(m) && Shl(w, m) < 0x1_0000_0000
    ensures w < 128 ==> (Shl(w, m) < 0x8000_0000 <==> m < 28 || w <= 7)
    ensures w >= 128 ==> m <= 21 && IsShift(m + 7) && 0 <= Shl(w / 128, m + 7)
    ensures w >= 128 ==> Shl(w, m) == Shl(w % 128, m) + Shl(w / 128, m + 7)
    ensures w >= 128 ==> (Shl(w, m) < 0x8000_0000 <==> Shl(w / 128, m + 7) < 0x8000_0000)
  {
    hide Pow2, Shl;
    var q, c := w / 128, w % 128;
    ShlSplit(c, q, m);
    ShlIsProduct(w, m);
    ShlIsProduct(c, m);
    ShlIsProduct(q, m + 7);
    ShiftValue(m);
    ShiftBySeven(m);
  }

  /**
   Decoding the tail of `w` shifted by `m`: it succeeds exactly when the result fits
   the limit and the shifted value fits 31 bits, and then it consumes the tail.
   */
  lemma {:induction false} TailRoundTrip(s: seq<byte>, off: nat, w: nat, val: nat, m: nat, max: uint32)
    requires off + |IntTail(w)| <= |s| && s[off..off + |IntTail(w)|] == IntTail(w)
    requires IsShift(m) && Shl(w, m) < 0x1_0000_0000
    ensures DecodeTail(s, off, val, m, max).Ok? <==> val + Shl(w, m) <= max && Shl(w, m) < 0x8000_0000
    ensures DecodeTail(s, off, val, m, max).Ok? ==>
              DecodeTail(s, off, val, m, max).value == (val + Shl(w, m), off + |IntTail(w)|)
    ensures val + Shl(w, m) <= max && Shl(w, m) >= 0x8000_0000 ==>
              DecodeTail(s, off, val, m, max) == Err(IntegerOverflow)
    decreases w
  {
    hide Shl;
    ChunkArithmetic(w, m);
    var tail := IntTail(w);
    assert s[off] == s[off..off + |tail|][0];
    if w >= 128 {
      assert s[off + 1..off + |tail|] == s[off..off + |tail|][1..];
      TailRoundTrip(s, off + 1, w / 128, val + Shl(w % 128, m), m + 7, max);
    }
  }

  lemma ShlZero(v: nat)
    ensures Shl(v, 0) == v
  {
  }

  /**
   Decoding inverts encoding, behind any bytes and before any bytes, for exactly the
   values below 2^31 + 2^p - 1 that respect the limit.
   */
  lemma IntRoundTrip(pre: seq<byte>, first: byte, v: uint32, p: nat, post: seq<byte>, max: uint32)
    requires IsFlag(first, p)
    ensures var e := EncodedInt(first, v, p);
            var r := DecodedInt(pre + e + post, |pre|, p, max);
            && (r.Ok? <==> v < Mask(p) || (v <= max && v < 0x8000_0000 + Mask(p)))
            && (r.Ok? ==> r.value == (v, |pre| + |e|))
            && (0x8000_0000 + Mask(p) <= v <= max ==> r == Err(IntegerOverflow))
  {
    hide Pow2, Low, Shl, IntTail, DecodeTail;
    var e := EncodedInt(first, v, p);
    var s := pre + e + post;
    FlagFits(first, p);
    assert s[|pre|] == e[0];
    if v < Mask(p) {
      LowOfFlag(first, v, p);
    } else {
      LowOfFlag(first, Mask(p), p);
      var off := |pre| + 1;
      assert s[off..off + |IntTail(v - Mask(p))|] == e[1..];
      ShlZero(v - Mask(p));
      TailRoundTrip(s, off, v - Mask(p), Mask(p), 0, max);
    }
  }
}
