/** Octets, powers of two, and big-endian bit strings. */
module Bits {

  type byte = x: int | 0 <= x < 256

  type uint32 = x: int | 0 <= x < 0x1_0000_0000

  function Min(a: int, b: int): int {
    if a <= b then a else b
  }

  function Pow2(n: nat): (r: nat)
    ensures r >= 1
  {
    if n == 0 then 1 else 2 * Pow2(n - 1)
  }

  /** The low `n` bits of `v`, most significant first. */
  function ToBits(v: nat, n: nat): (r: seq<bool>)
    ensures |r| == n
  {
    if n == 0 then [] else ToBits(v / 2, n - 1) + [v % 2 == 1]
  }

  /** The bits of an octet string in the order they travel. */
  function BitsOf(s: seq<byte>): (r: seq<bool>)
    ensures |r| == 8 * |s|
  {
    if s == [] then [] else ToBits(s[0], 8) + BitsOf(s[1..])
  }

  function Ones(n: nat): (r: seq<bool>)
    ensures |r| == n
    ensures forall i :: 0 <= i < n ==> r[i]
  {
    seq(n, i => true)
  }

  predicate AllOnes(bits: seq<bool>) {
    forall i :: 0 <= i < |bits| ==> bits[i]
  }

  lemma AllOnesIsOnes(bits: seq<bool>)
    ensures AllOnes(bits) <==> bits == Ones(|bits|)
  {
  }

  lemma {:induction false} BitsOfConcat(a: seq<byte>, b: seq<byte>)
    ensures BitsOf(a + b) == BitsOf(a) + BitsOf(b)
  {
    if a == [] {
      assert a + b == b;
    } else {
      assert (a + b)[1..] == a[1..] + b;
      BitsOfConcat(a[1..], b);
    }
  }

  lemma {:induction false} Pow2Monotonic(a: nat, b: nat)
    requires a <= b
    ensures Pow2(a) <= Pow2(b)
  {
    if a < b {
      Pow2Monotonic(a, b - 1);
    }
  }

  /** `v << k`, before any truncation. */
  function Shl(v: nat, k: nat): (r: nat) {
    if k == 0 then v else 2 * Shl(v, k - 1)
  }

  lemma {:induction false} ShlIsProduct(v: nat, k: nat)
    ensures Shl(v, k) == v * Pow2(k)
  {
    if k > 0 {
      ShlIsProduct(v, k - 1);
      assert v * (2 * Pow2(k - 1)) == 2 * (v * Pow2(k - 1));
    }
  }

  /** Appending `c` below `v` appends its bits. */
  lemma {:induction false} ToBitsAppend(v: nat, n: nat, c: nat, len: nat)
    requires c < Pow2(len)
    ensures ToBits(Shl(v, len) + c, n + len) == ToBits(v, n) + ToBits(c, len)
  {
    if len == 0 {
      assert ToBits(v, n) + [] == ToBits(v, n);
    } else {
      assert (Shl(v, len) + c) / 2 == Shl(v, len - 1) + c / 2;
      ToBitsAppend(v, n, c / 2, len - 1);
    }
  }

  /** `v >> k`: the value without its `k` low bits. */
  function Shr(v: nat, k: nat): (r: nat) {
    if k == 0 then v else Shr(v / 2, k - 1)
  }

  /** `v` truncated to `k` bits. */
  function Low(v: nat, k: nat): (r: nat)
    ensures r < Pow2(k)
  {
    if k == 0 then 0 else 2 * Low(v / 2, k - 1) + v % 2
  }

  lemma {:induction false} ShrLow(v: nat, k: nat)
    ensures v == Shl(Shr(v, k), k) + Low(v, k)
  {
    if k > 0 {
      ShrLow(v / 2, k - 1);
    }
  }

  /** The high bits and the low bits of a value. */
  lemma {:induction false} ToBitsSplit(v: nat, n: nat, k: nat)
    ensures ToBits(v, n + k) == ToBits(Shr(v, k), n) + ToBits(v, k)
  {
    if k > 0 {
      ToBitsSplit(v / 2, n, k - 1);
    }
  }

  /** Bits at position `k` and above do not matter to the low `n` bits. */
  lemma {:induction false} ToBitsLow(v: nat, n: nat, k: nat)
    requires n <= k
    ensures ToBits(Low(v, k), n) == ToBits(v, n)
  {
    if n != 0 {
      ToBitsLow(v / 2, n - 1, k - 1);
    }
  }

  /** Shifting right and masking selects one bit. */
  lemma {:induction false} ToBitsAt(v: nat, n: nat, k: nat)
    requires k < n
    ensures ToBits(v, n)[n - 1 - k] == (Shr(v, k) % 2 == 1)
  {
    if k > 0 {
      ToBitsAt(v / 2, n - 1, k - 1);
    }
  }

  lemma {:induction false} ToBitsOfOnes(n: nat)
    ensures ToBits(Pow2(n) - 1, n) == Ones(n)
  {
    if n > 0 {
      assert (Pow2(n) - 1) / 2 == Pow2(n - 1) - 1;
      assert (Pow2(n) - 1) % 2 == 1;
      ToBitsOfOnes(n - 1);
    }
  }

  /** Bits determine the value. */
  lemma {:induction false} ToBitsInjective(v: nat, w: nat, n: nat)
    requires v < Pow2(n) && w < Pow2(n)
    requires ToBits(v, n) == ToBits(w, n)
    ensures v == w
  {
    if n > 0 {
      var a, b := ToBits(v, n), ToBits(w, n);
      assert a[..n - 1] == ToBits(v / 2, n - 1) && b[..n - 1] == ToBits(w / 2, n - 1);
      assert a[n - 1] == (v % 2 == 1) && b[n - 1] == (w % 2 == 1);
      ToBitsInjective(v / 2, w / 2, n - 1);
    }
  }
}
