/** The concrete code table is a valid Huffman code, because it is canonical. */
module HuffmanCanonical {
  import opened Bits
  import opened HuffmanCode
  import opened HuffmanTable

  lemma EveryRow(i: int)
    requires 0 <= i < 257
    ensures RowOk(i)
  {
    hide *;
    if i < 32 {
      Rows0(); Rows4(); Rows8(); Rows12(); Rows16(); Rows20(); Rows24(); Rows28();
    } else if i < 64 {
      Rows32(); Rows36(); Rows40(); Rows44(); Rows48(); Rows52(); Rows56(); Rows60();
    } else if i < 96 {
      Rows64(); Rows68(); Rows72(); Rows76(); Rows80(); Rows84(); Rows88(); Rows92();
    } else if i < 128 {
      Rows96(); Rows100(); Rows104(); Rows108(); Rows112(); Rows116(); Rows120(); Rows124();
    } else if i < 160 {
      Rows128(); Rows132(); Rows136(); Rows140(); Rows144(); Rows148(); Rows152(); Rows156();
    } else if i < 192 {
      Rows160(); Rows164(); Rows168(); Rows172(); Rows176(); Rows180(); Rows184(); Rows188();
    } else if i < 224 {
      Rows192(); Rows196(); Rows200(); Rows204(); Rows208(); Rows212(); Rows216(); Rows220();
    } else if i < 256 {
      Rows224(); Rows228(); Rows232(); Rows236(); Rows240(); Rows244(); Rows248(); Rows252();
    } else {
      Rows256();
    }
  }

  /** The canonical rule, between neighbouring lengths. */
  lemma Canonical(len: int)
    requires 5 <= len <= 30
    ensures Count(len) >= 0 && First(len) >= 0 && Base(len) >= 0
    ensures First(len + 1) == 2 * (First(len) + Count(len))
    ensures Base(len + 1) == Base(len) + Count(len)
  {
  }

  lemma {:induction false} FirstBound(len: nat)
    requires 5 <= len <= 30
    ensures First(len) + Count(len) <= Pow2(len)
    decreases 30 - len
  {
    hide First, Count, Base;
    if len == 30 {
      LastLength();
    } else {
      Canonical(len);
      Canonical(len + 1);
      FirstBound(len + 1);
    }
  }

  lemma LastLength()
    ensures First(30) + Count(30) == Pow2(30)
    ensures Base(5) == 0 && First(5) == 0 && Base(31) == 257
  {
    assert Pow2(10) == 0x400;
    assert Pow2(20) == 0x10_0000;
  }

  lemma RowBounds(i: int)
    requires 0 <= i < 257
    ensures 5 <= Row(i).len <= 30 && 0 <= Row(i).code < Pow2(Row(i).len)
    ensures Base(Row(i).len) <= Rank(i) < Base(Row(i).len + 1)
    ensures First(Row(i).len) <= Row(i).code < First(Row(i).len) + Count(Row(i).len)
    ensures Sym(Rank(i)) == i
  {
    hide Row, Sym, First, Count, Base;
    EveryRow(i);
    Canonical(Row(i).len);
    FirstBound(Row(i).len);
  }

  /** The table, as the codec uses it. */
  function Table(): (t: seq<HuffmanEntry>)
    ensures |t| == 257
    ensures forall i :: 0 <= i < 257 ==> t[i].code == Row(i).code && t[i].len == Row(i).len
  {
    seq(257, i requires 0 <= i < 257 => RowBounds(i); HuffmanEntry(Row(i).code, Row(i).len))
  }

  lemma {:induction false} BaseMonotonic(a: int, b: int)
    requires 5 <= a <= b <= 31
    ensures 0 <= Base(a) <= Base(b) <= 257
    decreases 31 - a
  {
    hide First, Count, Base;
    if a == 31 {
      LastLength();
    } else if a == b {
      Canonical(a);
      BaseMonotonic(a + 1, b + 1);
    } else {
      Canonical(a);
      BaseMonotonic(a + 1, b);
    }
  }

  /** The rank determines the length. */
  lemma RankLength(i: int, len: int)
    requires 0 <= i < 257 && 5 <= len <= 30 && Base(len) <= Rank(i) < Base(len + 1)
    ensures Row(i).len == len
  {
    hide Row, Sym, First, Count, Base, Rank;
    RowBounds(i);
    if Row(i).len < len {
      BaseMonotonic(Row(i).len + 1, len);
    } else if Row(i).len > len {
      BaseMonotonic(len + 1, Row(i).len);
    }
  }

  /** Distinct symbols have distinct ranks below 257, so every rank is taken. */
  lemma RankOnto(k: int) returns (i: int)
    requires 0 <= k < 257
    ensures 0 <= i < 257 && Rank(i) == k
  {
    hide Row, Sym, First, Count, Base, Rank;
    var ranks := Ranks(257);
    SubsetFull(ranks, Below(257));
    assert k in ranks;
    i :| 0 <= i < 257 && Rank(i) == k;
  }

  lemma {:induction false} Ranks(n: nat) returns (s: set<int>)
    requires n <= 257
    ensures |s| == n
    ensures forall x :: x in s ==> 0 <= x < 257 && exists i :: 0 <= i < n && Rank(i) == x
    ensures forall i :: 0 <= i < n ==> Rank(i) in s
  {
    hide Row, First, Count, Base, Rank, Sym;
    if n == 0 {
      s := {};
    } else {
      var s0 := Ranks(n - 1);
      RowBounds(n - 1);
      BaseMonotonic(5, Row(n - 1).len);
      BaseMonotonic(Row(n - 1).len + 1, 31);
      forall i | 0 <= i < n - 1 ensures Rank(i) != Rank(n - 1) {
        RowBounds(i);
      }
      s := s0 + {Rank(n - 1)};
    }
  }

  ghost function Below(n: nat): (s: set<int>)
    ensures |s| == n
    ensures forall x :: x in s <==> 0 <= x < n
  {
    if n == 0 then {} else Below(n - 1) + {n - 1}
  }

  lemma SubsetFull(a: set<int>, b: set<int>)
    requires a <= b && |a| == |b|
    ensures a == b
  {
    assert b == a + (b - a);
  }

  /** A code longer than `len` starts, in its first `len` bits, beyond the codes of that length. */
  lemma {:induction false} LongerIsBeyond(c: nat, len: nat, d: nat)
    requires 5 <= len && 0 < d && len + d <= 30 && First(len + d) <= c
    ensures First(len) + Count(len) <= Shr(c, d)
    decreases d
  {
    hide First, Count, Base;
    Canonical(len + d - 1);
    if d > 1 {
      LongerIsBeyond(c / 2, len, d - 1);
    }
  }

  lemma PrefixMeansShift(a: nat, b: nat, n: nat, d: nat)
    requires a < Pow2(n) && b < Pow2(n + d)
    requires ToBits(a, n) <= ToBits(b, n + d)
    ensures a == Shr(b, d)
  {
    ToBitsSplit(b, n, d);
    assert ToBits(b, n + d)[..n] == ToBits(Shr(b, d), n);
    ShrBound(b, n, d);
    ToBitsInjective(a, Shr(b, d), n);
  }

  lemma {:induction false} ShrBound(b: nat, n: nat, d: nat)
    requires b < Pow2(n + d)
    ensures Shr(b, d) < Pow2(n)
  {
    if d > 0 {
      ShrBound(b / 2, n, d - 1);
    }
  }

  lemma CodesAreApart(i: int, j: int)
    requires 0 <= i < 257 && 0 <= j < 257
    requires Code(Table(), i) <= Code(Table(), j)
    ensures i == j
  {
    hide Table, Row, Sym, First, Count, Base, ToBits, Shr, Pow2;
    RowBounds(i);
    RowBounds(j);
    var d := Row(j).len - Row(i).len;
    PrefixMeansShift(Row(i).code, Row(j).code, Row(i).len, d);
    if d > 0 {
      LongerIsBeyond(Row(j).code, Row(i).len, d);
    } else {
      ShrZero(Row(j).code);
    }
  }

  lemma ShrZero(v: nat)
    ensures Shr(v, 0) == v
  {
  }

  /** Some length has a code among the first bits of any 30. */
  lemma {:induction false} CodeInside(x: nat, len: nat) returns (i: nat)
    requires 5 <= len <= 30 && x < Pow2(30) && First(len) <= Shr(x, 30 - len)
    ensures i < 257 && len <= Row(i).len <= 30
    ensures Row(i).code == Shr(x, 30 - Row(i).len)
    decreases 30 - len
  {
    hide Row, Sym, First, Count, Base, Shr, Pow2;
    var c := Shr(x, 30 - len);
    if c < First(len) + Count(len) {
      var k := Base(len) + c - First(len);
      Canonical(len);
      BaseMonotonic(len + 1, 31);
      i := RankOnto(k);
      RankLength(i, len);
    } else {
      Canonical(len);
      if len == 30 {
        ShrZero(x);
        LastLength();
      } else {
        ShrStep(x, 29 - len);
        i := CodeInside(x, len + 1);
      }
    }
  }

  lemma {:induction false} ShrStep(x: nat, k: nat)
    ensures 2 * Shr(x, k + 1) <= Shr(x, k)
  {
    if k > 0 {
      ShrStep(x / 2, k - 1);
    }
  }

  lemma {:induction false} FromBits(q: seq<bool>) returns (x: nat)
    ensures x < Pow2(|q|) && ToBits(x, |q|) == q
  {
    if q == [] {
      x := 0;
    } else {
      var n := |q| - 1;
      var y := FromBits(q[..n]);
      x := 2 * y + (if q[n] then 1 else 0);
      assert x / 2 == y;
      assert q == q[..n] + [q[n]];
    }
  }

  lemma SomeCodeStarts(q: seq<bool>)
    requires |q| == 30
    ensures StartsWithCode(Table(), q)
  {
    hide Table, Row, Sym, First, Count, Base, Shr, Pow2, ToBits;
    var x := FromBits(q);
    LastLength();
    var i := CodeInside(x, 5);
    RowBounds(i);
    var len := Row(i).len;
    ToBitsSplit(x, len, 30 - len);
    assert Code(Table(), i) <= q;
  }

  /** The table of the HPACK specification satisfies everything the codec relies on. */
  lemma TableIsValid()
    ensures ValidTable(Table())
  {
    hide Table, Row, Sym, First, Count, Base, Shr, Pow2, ToBits, Code;
    var t := Table();
    forall i | 0 <= i < 257
      ensures 5 <= t[i].len <= 30 && t[i].code < Pow2(t[i].len)
    {
      RowBounds(i);
    }
    EosRow();
    forall i, j | 0 <= i < |t| && 0 <= j < |t| && Code(t, i) <= Code(t, j) ensures i == j {
      CodesAreApart(i, j);
    }
    forall q: seq<bool> | |q| == 30 ensures StartsWithCode(t, q) {
      SomeCodeStarts(q);
    }
  }

  lemma EosRow()
    ensures Row(EOS).len == 30 && Row(EOS).code == Pow2(30) - 1
  {
    LastLength();
    hide Pow2;
    assert First(30) + Count(30) == 0x4000_0000;
  }
}
