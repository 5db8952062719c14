/**
 The mathematics of a Huffman code, over an abstract 257-symbol table: a greedy
 reference decoder, and the exact set of bit strings it accepts.
 */
module HuffmanCode {
  import opened Bits
  import opened Wrappers
  import opened HpackErrors

  datatype HuffmanEntry = HuffmanEntry(code: nat, len: nat)

  const EOS := 256

  /** Code lengths 5..30, codes that fit their length, and an all-ones EOS of 30 bits. */
  ghost predicate WellFormed(t: seq<HuffmanEntry>) {
    && |t| == 257
    && (forall i :: 0 <= i < 257 ==> 5 <= t[i].len <= 30 && t[i].code < Pow2(t[i].len))
    && t[EOS].len == 30
    && t[EOS].code == Pow2(t[EOS].len) - 1
  }

  /** The bits of symbol `i`. */
  function Code(t: seq<HuffmanEntry>, i: nat): (r: seq<bool>)
    requires i < |t|
    ensures |r| == t[i].len
  {
    ToBits(t[i].code, t[i].len)
  }

  ghost predicate PrefixFree(t: seq<HuffmanEntry>) {
    forall i, j :: 0 <= i < |t| && 0 <= j < |t| && Code(t, i) <= Code(t, j) ==> i == j
  }

  ghost predicate StartsWithCode(t: seq<HuffmanEntry>, q: seq<bool>) {
    exists i :: 0 <= i < |t| && Code(t, i) <= q
  }

  /** Every 30 bits start with some code. */
  ghost predicate Complete(t: seq<HuffmanEntry>) {
    forall q: seq<bool> {:trigger StartsWithCode(t, q)} :: |q| == 30 ==> StartsWithCode(t, q)
  }

  ghost predicate ValidTable(t: seq<HuffmanEntry>) {
    WellFormed(t) && PrefixFree(t) && Complete(t)
  }

  /** `q` leads to, or through, a node of the code tree. */
  ghost predicate IsCodePrefix(t: seq<HuffmanEntry>, q: seq<bool>) {
    exists i :: 0 <= i < |t| && q <= Code(t, i)
  }

  /** The concatenated codes of an octet string. */
  function Codes(t: seq<HuffmanEntry>, s: seq<byte>): (r: seq<bool>)
    requires |t| == 257
  {
    if s == [] then [] else Code(t, s[0]) + Codes(t, s[1..])
  }

  lemma CodesCons(t: seq<HuffmanEntry>, x: byte, s: seq<byte>)
    requires |t| == 257
    ensures Codes(t, [x] + s) == Code(t, x) + Codes(t, s)
  {
    assert ([x] + s)[1..] == s;
  }

  /** The symbol below `n` whose code starts `bits`, or -1. */
  function MatchSym(t: seq<HuffmanEntry>, bits: seq<bool>, n: nat): (r: int)
    requires n <= |t|
    ensures -1 <= r < n
    ensures r >= 0 ==> Code(t, r) <= bits
    ensures r == -1 ==> forall i :: 0 <= i < n ==> !(Code(t, i) <= bits)
  {
    if n == 0 then -1
    else if Code(t, n - 1) <= bits then n - 1
    else MatchSym(t, bits, n - 1)
  }

  /** The reference decoder: strip one code at a time; what is left must be all ones. */
  function DecodeBits(t: seq<HuffmanEntry>, bits: seq<bool>): (r: Result<seq<byte>, HpackError>)
    requires |t| == 257 && forall i :: 0 <= i < 257 ==> t[i].len > 0
    decreases |bits|
  {
    var s := MatchSym(t, bits, |t|);
    if s == EOS then Err(EosInString)
    else if s >= 0 then
      var rest :- DecodeBits(t, bits[t[s].len..]);
      Ok([s] + rest)
    else if AllOnes(bits) then Ok([])
    else Err(InvalidPadding)
  }

  lemma PrefixesComparable<T>(a: seq<T>, b: seq<T>, c: seq<T>)
    requires a <= c && b <= c
    ensures a <= b || b <= a
  {
    if |a| <= |b| {
      assert a == c[..|a|] == b[..|a|];
    } else {
      assert b == c[..|b|] == a[..|b|];
    }
  }

  /** A code at the front of the input is the one the decoder strips. */
  lemma MatchSymUnique(t: seq<HuffmanEntry>, s: nat, rest: seq<bool>)
    requires ValidTable(t) && s < 257
    ensures MatchSym(t, Code(t, s) + rest, |t|) == s
  {
    var bits := Code(t, s) + rest;
    assert Code(t, s) <= bits;
    var m := MatchSym(t, bits, |t|);
    PrefixesComparable(Code(t, m), Code(t, s), bits);
  }

  lemma DecodeBitsStep(t: seq<HuffmanEntry>, s: byte, rest: seq<bool>)
    requires ValidTable(t)
    ensures DecodeBits(t, Code(t, s) + rest) ==
            match DecodeBits(t, rest) { case Ok(v) => Ok([s] + v) case Err(e) => Err(e) }
  {
    MatchSymUnique(t, s, rest);
    assert (Code(t, s) + rest)[t[s].len..] == rest;
  }

  lemma EosCode(t: seq<HuffmanEntry>)
    requires WellFormed(t)
    ensures Code(t, EOS) == Ones(30)
  {
    hide ToBits, Pow2;
    ToBitsOfOnes(t[EOS].len);
  }

  /** Fewer than 30 ones start with no code; 30 or more start with EOS. */
  lemma OnesDecode(t: seq<HuffmanEntry>, k: nat)
    requires ValidTable(t)
    ensures k <= 29 ==> DecodeBits(t, Ones(k)) == Ok([])
    ensures k >= 30 ==> DecodeBits(t, Ones(k)) == Err(EosInString)
  {
    EosCode(t);
    if k <= 29 {
      assert Ones(k) <= Code(t, EOS);
      assert AllOnes(Ones(k));
    } else {
      assert Ones(k) == Code(t, EOS) + Ones(k - 30);
      MatchSymUnique(t, EOS, Ones(k - 30));
    }
  }

  lemma {:induction false} DecodeBitsOfCodes(t: seq<HuffmanEntry>, s: seq<byte>, k: nat)
    requires ValidTable(t) && k <= 29
    ensures DecodeBits(t, Codes(t, s) + Ones(k)) == Ok(s)
  {
    hide DecodeBits, PrefixFree, Complete, ToBits;
    if s == [] {
      OnesDecode(t, k);
      assert Codes(t, s) + Ones(k) == Ones(k);
    } else {
      assert Codes(t, s) + Ones(k) == Code(t, s[0]) + (Codes(t, s[1..]) + Ones(k));
      DecodeBitsOfCodes(t, s[1..], k);
      DecodeBitsStep(t, s[0], Codes(t, s[1..]) + Ones(k));
      assert [s[0]] + s[1..] == s;
    }
  }

  lemma {:induction false} DecodedBitsAreCodes(t: seq<HuffmanEntry>, bits: seq<bool>) returns (k: nat)
    requires ValidTable(t) && DecodeBits(t, bits).Ok?
    ensures k <= 29 && bits == Codes(t, DecodeBits(t, bits).value) + Ones(k)
    decreases |bits|
  {
    hide PrefixFree, Complete, ToBits;
    var s := MatchSym(t, bits, |t|);
    if s >= 0 {
      var rest := bits[t[s].len..];
      k := DecodedBitsAreCodes(t, rest);
      var v := DecodeBits(t, rest).value;
      assert bits == Code(t, s) + rest;
      CodesCons(t, s, v);
      assert Code(t, s) + (Codes(t, v) + Ones(k)) == (Code(t, s) + Codes(t, v)) + Ones(k);
    } else {
      AllOnesIsOnes(bits);
      k := |bits|;
      OnesDecode(t, k);
    }
  }

  /**
   The decoder accepts exactly the bit strings that are codes followed by at most
   29 ones, and the octets it returns are the only ones they can stand for.
   */
  lemma DecodeExact(t: seq<HuffmanEntry>, bits: seq<bool>, s: seq<byte>)
    requires ValidTable(t)
    ensures DecodeBits(t, bits) == Ok(s)
            <==> exists k: nat :: k <= 29 && bits == Codes(t, s) + Ones(k)
  {
    if DecodeBits(t, bits) == Ok(s) {
      var k := DecodedBitsAreCodes(t, bits);
    }
    forall k: nat | k <= 29 && bits == Codes(t, s) + Ones(k)
      ensures DecodeBits(t, bits) == Ok(s)
    {
      DecodeBitsOfCodes(t, s, k);
    }
  }

  lemma {:induction false} CodesConcat(t: seq<HuffmanEntry>, a: seq<byte>, b: seq<byte>)
    requires |t| == 257
    ensures Codes(t, a + b) == Codes(t, a) + Codes(t, b)
  {
    if a == [] {
      assert a + b == b;
    } else {
      assert (a + b)[1..] == a[1..] + b;
      CodesConcat(t, a[1..], b);
    }
  }

  /** Below a proper prefix of a code, both branches exist. */
  lemma BothBranches(t: seq<HuffmanEntry>, p: seq<bool>, b: bool)
    requires ValidTable(t) && IsCodePrefix(t, p)
    requires forall i :: 0 <= i < 257 ==> Code(t, i) != p
    ensures IsCodePrefix(t, p + [b])
  {
    var i :| 0 <= i < 257 && p <= Code(t, i);
    assert |p| < 30;
    var q := p + [b] + Ones(29 - |p|);
    assert StartsWithCode(t, q);
    var j :| 0 <= j < 257 && Code(t, j) <= q;
    assert p + [b] <= q && p <= q;
    PrefixesComparable(Code(t, j), p + [b], q);
    PrefixesComparable(Code(t, j), p, q);
  }
}
