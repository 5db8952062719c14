/** The bit-walking Huffman decoder. */
module HuffmanDecoder {
  import opened Bits
  import opened Wrappers
  import opened HpackErrors
  import opened HuffmanCode
  import opened HuffmanTree

  function Prepend(v: seq<byte>, r: Result<seq<byte>, HpackError>): Result<seq<byte>, HpackError> {
    match r
    case Ok(w) => Ok(v + w)
    case Err(e) => Err(e)
  }

  ghost predicate IsCodeTree(t: seq<HuffmanEntry>, tree: seq<HuffmanNode>) {
    ValidTable(t) && Represents(t, tree) && Ordered(tree)
  }

  /** The decoder stands on internal node `node`, having read `q` since the last symbol. */
  ghost predicate At(t: seq<HuffmanEntry>, tree: seq<HuffmanNode>, node: nat, q: seq<bool>) {
    Walk(tree, 0, q) == node && node < |tree| && !tree[node].IsLeaf()
  }

  /** Either branch of an internal node exists, and leads one bit further. */
  lemma BranchExists(t: seq<HuffmanEntry>, tree: seq<HuffmanNode>, node: nat, q: seq<bool>, b: bool)
    requires IsCodeTree(t, tree) && At(t, tree, node, q)
    ensures var next := tree[node].Child(b);
            && 0 <= next < |tree|
            && Walk(tree, 0, q + [b]) == next
            && LeafLabel(t, q + [b], tree[next].sym)
  {
    var next := tree[node].Child(b);
    WalkSnoc(tree, 0, q, b);
    assert LeafLabel(t, q, tree[node].sym);
    BothBranches(t, q, b);
    assert Walk(tree, 0, q + [b]) >= 0;
  }

  /** Reading the last bit of a code yields its symbol. */
  lemma DecodeSymbol(t: seq<HuffmanEntry>, q: seq<bool>, sym: nat, rest: seq<bool>)
    requires ValidTable(t) && sym < 257 && q == Code(t, sym)
    ensures sym == EOS ==> DecodeBits(t, q + rest) == Err(EosInString)
    ensures sym != EOS ==> DecodeBits(t, q + rest) == Prepend([sym], DecodeBits(t, rest))
  {
    MatchSymUnique(t, sym, rest);
    if sym != EOS {
      DecodeBitsStep(t, sym, rest);
    }
  }

  /** Bits that stop inside a code are padding if they are all ones. */
  lemma DecodePaddedEnd(t: seq<HuffmanEntry>, tree: seq<HuffmanNode>, node: nat, q: seq<bool>)
    requires IsCodeTree(t, tree) && At(t, tree, node, q)
    ensures DecodeBits(t, q) == if AllOnes(q) then Ok([]) else Err(InvalidPadding)
  {
    assert IsCodePrefix(t, q) && LeafLabel(t, q, tree[node].sym);
    var i :| 0 <= i < |t| && q <= Code(t, i);
    forall j | 0 <= j < |t| ensures !(Code(t, j) <= q) {
      PrefixTransitive(Code(t, j), q, Code(t, i));
      assert Code(t, j) <= Code(t, i) ==> i == j;
    }
  }

  lemma PrefixTransitive(a: seq<bool>, b: seq<bool>, c: seq<bool>)
    requires b <= c
    ensures a <= b ==> a <= c && (a == c ==> a == b)
  {
    if a <= b {
      assert a == b[..|a|] == c[..|a|];
    }
  }

  lemma OnesComparable(m: nat, n: nat)
    ensures Ones(m) <= Ones(n) || Ones(n) <= Ones(m)
  {
  }

  /** The leaf that ones lead to from `q` is EOS exactly when `q` is all ones. */
  lemma PaddingLeaf(t: seq<HuffmanEntry>, q: seq<bool>, j: nat, sym: nat)
    requires ValidTable(t) && sym < 257 && q + Ones(j) == Code(t, sym)
    ensures sym == EOS <==> AllOnes(q)
  {
    EosCode(t);
    var n := |q| + j;
    OnesComparable(n, 30);
    assert AllOnes(q) ==> q + Ones(j) == Ones(n);
    assert q == (q + Ones(j))[..|q|];
  }

  /** What the decoder has returned so far, and what the unread bits still owe. */
  ghost predicate Progress(
    t: seq<HuffmanEntry>, tree: seq<HuffmanNode>, all: seq<bool>,
    result: seq<byte>, node: nat, q: seq<bool>, rest: seq<bool>)
  {
    && ValidTable(t)
    && At(t, tree, node, q)
    && DecodeBits(t, all) == Prepend(result, DecodeBits(t, q + rest))
  }

  lemma ProgressStart(t: seq<HuffmanEntry>, tree: seq<HuffmanNode>, all: seq<bool>)
    requires IsCodeTree(t, tree)
    ensures Progress(t, tree, all, [], 0, [], all)
  {
    assert Walk(tree, 0, []) == 0;
    assert LeafLabel(t, [], tree[0].sym);
    assert [] + all == all;
    assert DecodeBits(t, all).Ok? ==> [] + DecodeBits(t, all).value == DecodeBits(t, all).value;
  }

  /** Reading bit `b`: onto an internal node, onto EOS, or onto a symbol. */
  lemma ProgressStep(
    t: seq<HuffmanEntry>, tree: seq<HuffmanNode>, all: seq<bool>,
    result: seq<byte>, node: nat, q: seq<bool>, b: bool, rest: seq<bool>)
    requires IsCodeTree(t, tree) && Progress(t, tree, all, result, node, q, [b] + rest)
    ensures var next := tree[node].Child(b);
            && 0 <= next < |tree|
            && (!tree[next].IsLeaf() ==> Progress(t, tree, all, result, next, q + [b], rest))
            && (tree[next].sym == EOS ==> DecodeBits(t, all) == Err(EosInString))
            && (tree[next].IsLeaf() && tree[next].sym != EOS ==>
                  0 <= tree[next].sym < 256 && Progress(t, tree, all, result + [tree[next].sym], 0, [], rest))
  {
    hide DecodeBits, PrefixFree, Complete;
    BranchExists(t, tree, node, q, b);
    assert q + ([b] + rest) == (q + [b]) + rest;
    var sym := tree[tree[node].Child(b)].sym;
    if sym >= 0 {
      DecodeSymbol(t, q + [b], sym, rest);
      if sym != EOS {
        ProgressStart(t, tree, all);
        assert [] + rest == rest;
        assert DecodeBits(t, rest).Ok? ==>
            result + ([sym as byte] + DecodeBits(t, rest).value) == (result + [sym]) + DecodeBits(t, rest).value;
      }
    }
  }

  lemma {:induction false} OnesWalk(t: seq<HuffmanEntry>, tree: seq<HuffmanNode>, node: nat, q: seq<bool>, j: nat)
    requires IsCodeTree(t, tree) && Walk(tree, 0, q + Ones(j)) == node < |tree| && !tree[node].IsLeaf()
    ensures 0 <= tree[node].right < |tree| && Walk(tree, 0, q + Ones(j + 1)) == tree[node].right
  {
    BranchExists(t, tree, node, q + Ones(j), true);
    assert q + Ones(j) + [true] == q + Ones(j + 1);
  }

  /** Bits that stop on internal node `node` are the end of the input. */
  lemma ProgressEnd(
    t: seq<HuffmanEntry>, tree: seq<HuffmanNode>, all: seq<bool>, result: seq<byte>, node: nat, q: seq<bool>)
    requires IsCodeTree(t, tree) && Progress(t, tree, all, result, node, q, [])
    ensures DecodeBits(t, all) == if AllOnes(q) then Ok(result) else Err(InvalidPadding)
    ensures node == 0 ==> AllOnes(q)
  {
    hide DecodeBits, PrefixFree, Complete;
    assert q + [] == q && result + [] == result;
    DecodePaddedEnd(t, tree, node, q);
    WalkAscends(tree, 0, q);
  }

  lemma ProgressAt(
    t: seq<HuffmanEntry>, tree: seq<HuffmanNode>, all: seq<bool>, result: seq<byte>, node: nat, q: seq<bool>)
    requires Progress(t, tree, all, result, node, q, [])
    ensures At(t, tree, node, q)
  {
  }

  lemma NextBit(x: byte, bit: nat)
    requires bit < 8
    ensures ToBits(x, 8)[7 - bit..] == [Shr(x, bit) % 2 == 1] + ToBits(x, 8)[8 - bit..]
  {
    ToBitsAt(x, 8, bit);
  }

  /** The check on trailing bits: from `node`, ones alone must lead to EOS. */
  method PaddingLeadsToEos(ghost t: seq<HuffmanEntry>, tree: seq<HuffmanNode>, node: nat, ghost q: seq<bool>)
    returns (valid: bool)
    requires Ordered(tree) && node < |tree|
    ensures IsCodeTree(t, tree) && At(t, tree, node, q) ==> valid == AllOnes(q)
  {
    ghost var ok := IsCodeTree(t, tree) && At(t, tree, node, q);
    hide IsCodeTree, Walk, LeafLabel, Code;
    var temp := node;
    ghost var j := 0;
    assert q + Ones(0) == q;
    while !tree[temp].IsLeaf()
      invariant 0 <= temp < |tree|
      invariant ok ==> Walk(tree, 0, q + Ones(j)) == temp
      decreases |tree| - temp
    {
      if ok {
        OnesWalk(t, tree, temp, q, j);
      }
      if tree[temp].right == -1 {
        return false;
      }
      temp, j := tree[temp].right, j + 1;
    }
    if ok {
      OnesLeaf(t, tree, temp, q, j);
    }
    return tree[temp].sym == 256;
  }

  lemma OnesLeaf(t: seq<HuffmanEntry>, tree: seq<HuffmanNode>, leaf: nat, q: seq<bool>, j: nat)
    requires IsCodeTree(t, tree) && Walk(tree, 0, q + Ones(j)) == leaf < |tree| && tree[leaf].IsLeaf()
    ensures tree[leaf].sym == EOS <==> AllOnes(q)
  {
    assert LeafLabel(t, q + Ones(j), tree[leaf].sym);
    PaddingLeaf(t, q, j, tree[leaf].sym);
  }

  lemma BitsOfNone()
    ensures BitsOf([]) == []
  {
  }

  lemma SplitHead(span: seq<byte>, i: nat)
    requires i < |span|
    ensures BitsOf(span[i..]) == ToBits(span[i], 8)[0..] + BitsOf(span[i + 1..])
  {
    assert span[i..][1..] == span[i + 1..];
    assert ToBits(span[i], 8)[0..] == ToBits(span[i], 8);
  }

  /**
   Walk the tree one bit at a time, most significant bit first, returning to the
   root at each leaf; leftover bits must lead to EOS through ones alone.
   On a code tree the result is the reference decoder's, for every input; the
   missing-branch error needs a tree that is not one.
   */
  method DecodeHuffman(ghost t: seq<HuffmanEntry>, tree: seq<HuffmanNode>, span: seq<byte>)
    returns (r: Result<seq<byte>, HpackError>)
    requires Ordered(tree)
    ensures IsCodeTree(t, tree) ==> r == DecodeBits(t, BitsOf(span))
  {
    hide DecodeBits, IsCodeTree, Progress, At, BitsOf, ToBits, Shr;
    ghost var ok, all := IsCodeTree(t, tree), BitsOf(span);
    var result: seq<byte>, node := [], 0;
    ghost var q: seq<bool> := [];
    if ok {
      ProgressStart(t, tree, all);
    }
    var i := 0;
    assert span[0..] == span;
    while i < |span|
      invariant 0 <= i <= |span| && 0 <= node < |tree|
      invariant ok ==> Progress(t, tree, all, result, node, q, BitsOf(span[i..]))
    {
      ghost var bits, rest := ToBits(span[i], 8), BitsOf(span[i + 1..]);
      SplitHead(span, i);
      var bit := 7;
      while bit >= 0
        invariant -1 <= bit <= 7 && 0 <= node < |tree|
        invariant ok ==> Progress(t, tree, all, result, node, q, bits[7 - bit..] + rest)
      {
        var bval := Shr(span[i], bit) % 2 == 1;
        NextBit(span[i], bit);
        assert bits[7 - bit..] + rest == [bval] + (bits[8 - bit..] + rest);
        if ok {
          ProgressStep(t, tree, all, result, node, q, bval, bits[8 - bit..] + rest);
        }
        var next := tree[node].Child(bval);
        if next == -1 {
          return Err(InvalidCode);
        }
        node, q := next, q + [bval];
        if tree[node].IsLeaf() {
          if tree[node].sym == 256 {
            return Err(EosInString);
          }
          result := result + [tree[node].sym];
          node, q := 0, [];
        }
        bit := bit - 1;
      }
      assert bits[8..] + rest == rest;
      i := i + 1;
    }
    assert span[|span|..] == [];
    BitsOfNone();
    if ok {
      ProgressEnd(t, tree, all, result, node, q);
      ProgressAt(t, tree, all, result, node, q);
    }
    if node != 0 {
      var valid := PaddingLeadsToEos(t, tree, node, q);
      if !valid {
        return Err(InvalidPadding);
      }
    }
    return Ok(result);
  }
}
