/** The array-of-nodes code tree: how it is built, and that it is the code. */
module HuffmanTree {
  import opened Bits
  import opened HuffmanCode

  /** `left`, `right`: child index or -1. `sym`: -1 on an internal node. */
  datatype HuffmanNode = HuffmanNode(left: int, right: int, sym: int) {
    function Child(b: bool): int { if b then right else left }

    function WithChild(b: bool, k: int): HuffmanNode {
      if b then this.(right := k) else this.(left := k)
    }

    predicate IsLeaf() { sym != -1 }
  }

  const FRESH := HuffmanNode(-1, -1, -1)

  /** Follow `bits` down from node `k`; -1 when a branch is missing. */
  function Walk(tree: seq<HuffmanNode>, k: int, bits: seq<bool>): (r: int)
    ensures r == -1 || 0 <= r < |tree|
    decreases |bits|
  {
    if k < 0 || k >= |tree| then -1
    else if bits == [] then k
    else Walk(tree, tree[k].Child(bits[0]), bits[1..])
  }

  lemma {:induction false} WalkSnoc(tree: seq<HuffmanNode>, k: int, bits: seq<bool>, b: bool)
    ensures Walk(tree, k, bits + [b]) ==
            var n := Walk(tree, k, bits);
            if n == -1 then -1 else Walk(tree, tree[n].Child(b), [])
    decreases |bits|
  {
    if 0 <= k < |tree| {
      if bits == [] {
        assert bits + [b] == [b];
      } else {
        assert (bits + [b])[1..] == bits[1..] + [b];
        WalkSnoc(tree, tree[k].Child(bits[0]), bits[1..], b);
      }
    }
  }

  ghost predicate Reachable(tree: seq<HuffmanNode>, k: int) {
    exists q :: Walk(tree, 0, q) == k
  }

  /** The symbol whose whole code is `q`, or -1. */
  ghost predicate LeafLabel(t: seq<HuffmanEntry>, q: seq<bool>, sym: int) {
    && -1 <= sym < |t|
    && (sym >= 0 ==> q == Code(t, sym))
    && (sym == -1 ==> forall i :: 0 <= i < |t| ==> q != Code(t, i))
  }

  /**
   The tree is the code: a path exists in it exactly when it begins some code, and
   it ends in the leaf of symbol `i` exactly when it is the code of `i`.
   */
  ghost predicate Represents(t: seq<HuffmanEntry>, tree: seq<HuffmanNode>) {
    forall q: seq<bool> ::
      var n := Walk(tree, 0, q);
      && (n >= 0 <==> IsCodePrefix(t, q))
      && (n >= 0 ==> LeafLabel(t, q, tree[n].sym))
  }

  /** Every node is a leaf without children or an internal node with two. */
  ghost predicate IsFull(tree: seq<HuffmanNode>) {
    forall k :: 0 <= k < |tree| ==>
      var n := tree[k];
      if n.IsLeaf() then n.left == -1 && n.right == -1
      else 0 < n.left < |tree| && 0 < n.right < |tree|
  }

  /** Children come after their parent, so every downward walk ends. */
  ghost predicate Ordered(tree: seq<HuffmanNode>) {
    && tree != []
    && forall k :: 0 <= k < |tree| ==>
         && (tree[k].left == -1 || k < tree[k].left < |tree|)
         && (tree[k].right == -1 || k < tree[k].right < |tree|)
         && -1 <= tree[k].sym <= EOS
  }

  lemma {:induction false} WalkAscends(tree: seq<HuffmanNode>, k: int, bits: seq<bool>)
    requires Ordered(tree) && 0 <= k < |tree| && Walk(tree, k, bits) >= 0
    ensures Walk(tree, k, bits) >= k
    ensures bits != [] ==> Walk(tree, k, bits) > k
    decreases |bits|
  {
    if bits != [] {
      WalkAscends(tree, tree[k].Child(bits[0]), bits[1..]);
    }
  }

  // ---- Counting nodes -------------------------------------------------------

  function Slots(tree: seq<HuffmanNode>): nat {
    if tree == [] then 0
    else var n := tree[|tree| - 1];
      Slots(tree[..|tree| - 1]) + (if n.left == -1 then 0 else 1) + (if n.right == -1 then 0 else 1)
  }

  function Leaves(tree: seq<HuffmanNode>): nat {
    if tree == [] then 0
    else Leaves(tree[..|tree| - 1]) + (if tree[|tree| - 1].IsLeaf() then 1 else 0)
  }

  lemma {:induction false} CountsUpdate(tree: seq<HuffmanNode>, k: nat, n: HuffmanNode)
    requires k < |tree|
    ensures Leaves(tree[k := n]) == Leaves(tree) + (if n.IsLeaf() then 1 else 0) - (if tree[k].IsLeaf() then 1 else 0)
    ensures Slots(tree[k := n]) == Slots(tree)
              + (if n.left == -1 then 0 else 1) + (if n.right == -1 then 0 else 1)
              - (if tree[k].left == -1 then 0 else 1) - (if tree[k].right == -1 then 0 else 1)
  {
    var m := |tree| - 1;
    if k == m {
      assert tree[k := n][..m] == tree[..m];
    } else {
      assert tree[k := n][..m] == tree[..m][k := n];
      CountsUpdate(tree[..m], k, n);
    }
  }

  lemma CountsAppend(tree: seq<HuffmanNode>, n: HuffmanNode)
    ensures Leaves(tree + [n]) == Leaves(tree) + (if n.IsLeaf() then 1 else 0)
    ensures Slots(tree + [n]) == Slots(tree) + (if n.left == -1 then 0 else 1) + (if n.right == -1 then 0 else 1)
  {
    assert (tree + [n])[..|tree|] == tree;
  }

  /** In a full tree each internal node fills two slots and each leaf none. */
  lemma {:induction false} FullCounts(tree: seq<HuffmanNode>, bound: nat)
    requires |tree| <= bound
    requires forall k :: 0 <= k < |tree| ==>
               if tree[k].IsLeaf() then tree[k].left == -1 && tree[k].right == -1
               else 0 < tree[k].left < bound && 0 < tree[k].right < bound
    ensures Slots(tree) == 2 * (|tree| - Leaves(tree))
  {
    if tree != [] {
      FullCounts(tree[..|tree| - 1], bound);
    }
  }

  // ---- Building -------------------------------------------------------------

  /** `q` is on the way to a code below `i`, or among the first `d` bits of code `i`. */
  ghost predicate Known(t: seq<HuffmanEntry>, i: nat, d: nat, q: seq<bool>)
    requires i <= |t|
  {
    || q == []
    || (exists j :: 0 <= j < i && q <= Code(t, j))
    || (i < |t| && |q| <= d && q <= Code(t, i))
  }

  function IndexOf(node: map<seq<bool>, int>, q: seq<bool>): int {
    if q in node then node[q] else -1
  }

  /** `path[k]` leads to node `k`, `node` inverts `path`, and paths are closed under prefix. */
  ghost predicate Indexed(path: seq<seq<bool>>, node: map<seq<bool>, int>) {
    && path != [] && path[0] == []
    && (forall k :: 0 <= k < |path| ==> path[k] in node && node[path[k]] == k)
    && (forall q :: q in node ==> 0 <= node[q] < |path| && path[node[q]] == q)
    && (forall q :: q in node && q != [] ==> q[..|q| - 1] in node)
  }

  /** The children of a node are the nodes whose path is one bit longer. */
  ghost predicate Linked(tree: seq<HuffmanNode>, path: seq<seq<bool>>, node: map<seq<bool>, int>) {
    && |path| == |tree|
    && Indexed(path, node)
    && (forall k, b :: 0 <= k < |tree| ==> tree[k].Child(b) == IndexOf(node, path[k] + [b]))
  }

  lemma {:induction false} WalkIsLookup(
    tree: seq<HuffmanNode>, path: seq<seq<bool>>, node: map<seq<bool>, int>, q: seq<bool>)
    requires Linked(tree, path, node)
    ensures Walk(tree, 0, q) == IndexOf(node, q)
    decreases |q|
  {
    if q == [] {
      assert node[path[0]] == 0;
    } else {
      var p, b := q[..|q| - 1], q[|q| - 1];
      assert q == p + [b];
      WalkSnoc(tree, 0, p, b);
      WalkIsLookup(tree, path, node, p);
    }
  }

  /** Labels after the codes below `i` have been entered. */
  ghost predicate Labelled(t: seq<HuffmanEntry>, tree: seq<HuffmanNode>, path: seq<seq<bool>>, i: nat)
    requires i <= |t| && |path| == |tree|
  {
    forall k :: 0 <= k < |tree| ==>
      && -1 <= tree[k].sym < i
      && (tree[k].sym >= 0 ==> path[k] == Code(t, tree[k].sym))
      && (forall j :: 0 <= j < i && path[k] == Code(t, j) ==> tree[k].sym == j)
  }

  lemma GrowLookup(path: seq<seq<bool>>, node: map<seq<bool>, int>, cur: nat, b: bool, k: nat, c: bool)
    requires Indexed(path, node) && cur < |path| && path[cur] + [b] !in node && k < |path|
    ensures IndexOf(node[path[cur] + [b] := |path|], path[k] + [c])
         == if k == cur && c == b then |path| else IndexOf(node, path[k] + [c])
  {
    if path[k] + [c] == path[cur] + [b] {
      assert path[k] == (path[k] + [c])[..|path[k]|] == (path[cur] + [b])[..|path[cur]|] == path[cur];
    }
  }

  /** The new path has no extension: one already indexed would have put the path there too. */
  lemma GrowLookupNew(path: seq<seq<bool>>, node: map<seq<bool>, int>, cur: nat, b: bool, c: bool)
    requires Indexed(path, node) && cur < |path| && path[cur] + [b] !in node
    ensures IndexOf(node[path[cur] + [b] := |path|], path[cur] + [b] + [c]) == -1
  {
    var p := path[cur] + [b];
    assert (p + [c])[..|p|] == p;
  }

  lemma GrowIndexed(path: seq<seq<bool>>, node: map<seq<bool>, int>, cur: nat, b: bool)
    requires Indexed(path, node) && cur < |path| && path[cur] + [b] !in node
    ensures Indexed(path + [path[cur] + [b]], node[path[cur] + [b] := |path|])
  {
    var p := path[cur] + [b];
    assert p[..|p| - 1] == path[cur];
  }

  /** Adding the missing child of `cur` keeps tree, paths and index in step. */
  lemma GrowLinked(tree: seq<HuffmanNode>, path: seq<seq<bool>>, node: map<seq<bool>, int>, cur: nat, b: bool)
    requires Linked(tree, path, node) && cur < |tree| && tree[cur].Child(b) == -1
    ensures var p := path[cur] + [b];
            && p !in node
            && Linked((tree + [FRESH])[cur := tree[cur].WithChild(b, |tree|)], path + [p], node[p := |tree|])
  {
    hide Indexed;
    var p := path[cur] + [b];
    LinkedChild(tree, path, node, cur, b);
    GrowIndexed(path, node, cur, b);
    forall k, c | 0 <= k <= |tree|
      ensures (tree + [FRESH])[cur := tree[cur].WithChild(b, |tree|)][k].Child(c)
           == IndexOf(node[p := |tree|], (path + [p])[k] + [c])
    {
      if k < |tree| {
        GrowLookup(path, node, cur, b, k, c);
      } else {
        GrowLookupNew(path, node, cur, b, c);
      }
    }
  }

  lemma KnownStep(t: seq<HuffmanEntry>, i: nat, d: nat, q: seq<bool>)
    requires i < |t| && d < |Code(t, i)|
    ensures Known(t, i, d + 1, q) <==> Known(t, i, d, q) || q == Code(t, i)[..d + 1]
  {
    if q <= Code(t, i) && |q| == d + 1 {
      assert q == Code(t, i)[..d + 1];
    }
  }

  lemma KnownNext(t: seq<HuffmanEntry>, i: nat, q: seq<bool>)
    requires i < |t|
    ensures Known(t, i + 1, 0, q) <==> Known(t, i, |Code(t, i)|, q)
  {
    if i + 1 < |t| && |q| <= 0 {
      assert q == [];
    }
  }

  /** The indexed paths are exactly the known ones. */
  ghost predicate KeysAre(t: seq<HuffmanEntry>, node: map<seq<bool>, int>, i: nat, d: nat)
    requires i <= |t|
  {
    forall q :: q in node <==> Known(t, i, d, q)
  }

  lemma LinkedLabelOf(
    t: seq<HuffmanEntry>, tree: seq<HuffmanNode>, path: seq<seq<bool>>, node: map<seq<bool>, int>, q: seq<bool>)
    requires Linked(tree, path, node) && Labelled(t, tree, path, |t|)
    ensures 0 <= IndexOf(node, q) ==> IndexOf(node, q) < |tree| && LeafLabel(t, q, tree[IndexOf(node, q)].sym)
    ensures IndexOf(node, q) >= 0 <==> q in node
  {
  }

  lemma KnownIsPrefix(t: seq<HuffmanEntry>, q: seq<bool>)
    requires |t| > 0
    ensures Known(t, |t|, 0, q) <==> IsCodePrefix(t, q)
  {
    assert q == [] ==> q <= Code(t, 0);
  }

  lemma FinishRepresents(
    t: seq<HuffmanEntry>, tree: seq<HuffmanNode>, path: seq<seq<bool>>, node: map<seq<bool>, int>)
    requires |t| > 0 && Linked(tree, path, node) && Labelled(t, tree, path, |t|) && KeysAre(t, node, |t|, 0)
    ensures Represents(t, tree)
  {
    hide Linked, Labelled, IsCodePrefix, LeafLabel, Walk;
    forall q: seq<bool>
      ensures var n := Walk(tree, 0, q);
              && (n >= 0 <==> IsCodePrefix(t, q))
              && (n >= 0 ==> LeafLabel(t, q, tree[n].sym))
    {
      WalkIsLookup(tree, path, node, q);
      LinkedLabelOf(t, tree, path, node, q);
      KnownIsPrefix(t, q);
    }
  }

  lemma FinishReachable(tree: seq<HuffmanNode>, path: seq<seq<bool>>, node: map<seq<bool>, int>)
    requires Linked(tree, path, node)
    ensures forall k :: 0 <= k < |tree| ==> Reachable(tree, k)
  {
    forall k | 0 <= k < |tree| ensures Reachable(tree, k) {
      WalkIsLookup(tree, path, node, path[k]);
    }
  }

  lemma FinishFull(
    t: seq<HuffmanEntry>, tree: seq<HuffmanNode>, path: seq<seq<bool>>, node: map<seq<bool>, int>)
    requires ValidTable(t) && Linked(tree, path, node) && Labelled(t, tree, path, |t|)
    requires forall q :: q in node <==> Known(t, |t|, 0, q)
    ensures IsFull(tree)
  {
    hide Known, ValidTable, Linked, Labelled;
    forall k | 0 <= k < |tree|
      ensures var n := tree[k];
              if n.IsLeaf() then n.left == -1 && n.right == -1
              else 0 < n.left < |tree| && 0 < n.right < |tree|
    {
      ChildrenOfNode(t, tree, path, node, k, false);
      ChildrenOfNode(t, tree, path, node, k, true);
    }
  }

  lemma PrefixOfExtension(p: seq<bool>, b: bool, c: seq<bool>)
    ensures p + [b] <= c ==> p <= c && |p| < |c|
  {
    assert p == (p + [b])[..|p|];
  }

  lemma LeafHasNoChild(t: seq<HuffmanEntry>, i: nat, b: bool)
    requires ValidTable(t) && i < |t|
    ensures !Known(t, |t|, 0, Code(t, i) + [b])
  {
    var p := Code(t, i);
    forall j | 0 <= j < |t| ensures !(p + [b] <= Code(t, j)) {
      PrefixOfExtension(p, b, Code(t, j));
      assert p <= Code(t, j) ==> i == j;
    }
  }

  lemma InternalHasChild(t: seq<HuffmanEntry>, p: seq<bool>, b: bool)
    requires ValidTable(t) && Known(t, |t|, 0, p)
    requires forall i :: 0 <= i < |t| ==> p != Code(t, i)
    ensures Known(t, |t|, 0, p + [b])
  {
    assert p == [] ==> p <= Code(t, 0);
    BothBranches(t, p, b);
  }

  lemma LinkedChild(tree: seq<HuffmanNode>, path: seq<seq<bool>>, node: map<seq<bool>, int>, k: nat, b: bool)
    requires Linked(tree, path, node) && k < |tree|
    ensures path[k] in node
    ensures tree[k].Child(b) == (if path[k] + [b] in node then node[path[k] + [b]] else -1)
    ensures path[k] + [b] in node ==> 0 < node[path[k] + [b]] < |tree|
  {
    assert path[0] == [] != path[k] + [b];
  }

  lemma ChildrenOfNode(
    t: seq<HuffmanEntry>, tree: seq<HuffmanNode>, path: seq<seq<bool>>, node: map<seq<bool>, int>, k: nat, b: bool)
    requires ValidTable(t) && Linked(tree, path, node) && Labelled(t, tree, path, |t|) && k < |tree|
    requires forall q :: q in node <==> Known(t, |t|, 0, q)
    ensures tree[k].IsLeaf() ==> tree[k].Child(b) == -1
    ensures !tree[k].IsLeaf() ==> 0 < tree[k].Child(b) < |tree|
  {
    LinkedChild(tree, path, node, k, b);
    if tree[k].IsLeaf() {
      LeafHasNoChild(t, tree[k].sym, b);
    } else {
      InternalHasChild(t, path[k], b);
    }
  }

  lemma KeysStep(t: seq<HuffmanEntry>, node: map<seq<bool>, int>, node': map<seq<bool>, int>, i: nat, d: nat)
    requires i < |t| && d < |Code(t, i)| && KeysAre(t, node, i, d)
    requires node'.Keys == node.Keys + {Code(t, i)[..d + 1]}
    ensures KeysAre(t, node', i, d + 1)
  {
    forall q ensures q in node' <==> Known(t, i, d + 1, q) {
      KnownStep(t, i, d, q);
      assert q in node' <==> q in node.Keys || q == Code(t, i)[..d + 1];
    }
  }

  lemma KeysNext(t: seq<HuffmanEntry>, node: map<seq<bool>, int>, i: nat)
    requires i < |t| && KeysAre(t, node, i, |Code(t, i)|)
    ensures KeysAre(t, node, i + 1, 0)
  {
    forall q ensures q in node <==> Known(t, i + 1, 0, q) {
      KnownNext(t, i, q);
    }
  }

  lemma LabelledGrow(
    t: seq<HuffmanEntry>, tree: seq<HuffmanNode>, path: seq<seq<bool>>, i: nat, cur: nat, b: bool)
    requires i <= |t| && |path| == |tree| && cur < |tree| && Labelled(t, tree, path, i)
    requires forall j :: 0 <= j < i ==> Code(t, j) != path[cur] + [b]
    ensures Labelled(t, (tree + [FRESH])[cur := tree[cur].WithChild(b, |tree|)], path + [path[cur] + [b]], i)
  {
  }

  lemma LabelledNext(t: seq<HuffmanEntry>, tree: seq<HuffmanNode>, path: seq<seq<bool>>, i: nat, cur: nat)
    requires i < |t| && |path| == |tree| && cur < |tree| && Labelled(t, tree, path, i)
    requires forall j :: 0 <= j < i ==> Code(t, j) != Code(t, i)
    requires forall k :: 0 <= k < |path| && path[k] == Code(t, i) ==> k == cur
    requires path[cur] == Code(t, i)
    ensures !tree[cur].IsLeaf()
    ensures Labelled(t, tree[cur := tree[cur].(sym := i)], path, i + 1)
  {
  }

  lemma CodesDistinct(t: seq<HuffmanEntry>, i: nat, j: nat)
    requires ValidTable(t) && i < j < |t|
    ensures Code(t, i) != Code(t, j)
  {
  }

  /** The bit the inner loop tests is the next bit of the code. */
  lemma CodeBit(t: seq<HuffmanEntry>, i: nat, bit: nat)
    requires i < |t| && bit < t[i].len
    ensures Code(t, i)[..t[i].len - bit]
         == Code(t, i)[..t[i].len - 1 - bit] + [Shr(t[i].code, bit) % 2 == 1]
  {
    ToBitsAt(t[i].code, t[i].len, bit);
  }

  lemma LinkedLabel(tree: seq<HuffmanNode>, path: seq<seq<bool>>, node: map<seq<bool>, int>, cur: nat, i: int)
    requires Linked(tree, path, node) && cur < |tree|
    ensures Linked(tree[cur := tree[cur].(sym := i)], path, node)
    ensures forall k :: 0 <= k < |path| && path[k] == path[cur] ==> k == cur
  {
    assert forall k :: 0 <= k < |path| ==> node[path[k]] == k;
  }

  /** Everything the construction maintains while it enters the first `d` bits of code `i`. */
  ghost predicate Building(
    t: seq<HuffmanEntry>, tree: seq<HuffmanNode>, path: seq<seq<bool>>, node: map<seq<bool>, int>, i: nat, d: nat)
    requires i <= |t|
  {
    && |path| == |tree|
    && Linked(tree, path, node)
    && Labelled(t, tree, path, i)
    && KeysAre(t, node, i, d)
    && Leaves(tree) == i
    && Slots(tree) == |tree| - 1
  }

  lemma GrowCounts(tree: seq<HuffmanNode>, cur: nat, b: bool)
    requires cur < |tree| && tree[cur].Child(b) == -1
    ensures var tree' := (tree + [FRESH])[cur := tree[cur].WithChild(b, |tree|)];
            Leaves(tree') == Leaves(tree) && Slots(tree') == Slots(tree) + 1
  {
    CountsAppend(tree, FRESH);
    CountsUpdate(tree + [FRESH], cur, tree[cur].WithChild(b, |tree|));
  }

  /** A missing branch of code `i` grows the tree by the path that code still lacked. */
  lemma GrowBuilding(
    t: seq<HuffmanEntry>, tree: seq<HuffmanNode>, path: seq<seq<bool>>, node: map<seq<bool>, int>,
    i: nat, d: nat, cur: nat, b: bool)
    requires i < |t| && d < |Code(t, i)| && Building(t, tree, path, node, i, d)
    requires cur < |tree| && path[cur] + [b] == Code(t, i)[..d + 1] && tree[cur].Child(b) == -1
    ensures Building(t, (tree + [FRESH])[cur := tree[cur].WithChild(b, |tree|)],
                     path + [path[cur] + [b]], node[path[cur] + [b] := |tree|], i, d + 1)
  {
    var p := path[cur] + [b];
    GrowLinked(tree, path, node, cur, b);
    GrowCounts(tree, cur, b);
    KeysStep(t, node, node[p := |tree|], i, d);
    forall j | 0 <= j < i ensures Code(t, j) != p {
      assert Known(t, i, d, Code(t, j));
    }
    LabelledGrow(t, tree, path, i, cur, b);
  }

  /** A branch that is already there leads to the path one bit longer. */
  lemma StepBuilding(
    t: seq<HuffmanEntry>, tree: seq<HuffmanNode>, path: seq<seq<bool>>, node: map<seq<bool>, int>,
    i: nat, d: nat, cur: nat, b: bool)
    requires i < |t| && d < |Code(t, i)| && Building(t, tree, path, node, i, d)
    requires cur < |tree| && path[cur] + [b] == Code(t, i)[..d + 1] && tree[cur].Child(b) != -1
    ensures Building(t, tree, path, node, i, d + 1)
    ensures 0 < tree[cur].Child(b) < |tree| && path[tree[cur].Child(b)] == path[cur] + [b]
  {
    LinkedChild(tree, path, node, cur, b);
    KeysStep(t, node, node, i, d);
  }

  /** Labelling the node code `i` ends in moves on to the next code. */
  lemma LabelBuilding(
    t: seq<HuffmanEntry>, tree: seq<HuffmanNode>, path: seq<seq<bool>>, node: map<seq<bool>, int>, i: nat, cur: nat)
    requires ValidTable(t) && i < |t| && Building(t, tree, path, node, i, |Code(t, i)|)
    requires cur < |tree| && path[cur] == Code(t, i)
    ensures Building(t, tree[cur := tree[cur].(sym := i)], path, node, i + 1, 0)
  {
    hide Linked, Labelled, Known, KeysAre, Complete, WellFormed, Slots, Leaves;
    KeysNext(t, node, i);
    LinkedLabel(tree, path, node, cur, i);
    forall j | 0 <= j < i ensures Code(t, j) != Code(t, i) {
      CodesDistinct(t, j, i);
    }
    LabelledNext(t, tree, path, i, cur);
    CountsUpdate(tree, cur, tree[cur].(sym := i));
  }

  lemma StartBuilding(t: seq<HuffmanEntry>)
    requires ValidTable(t)
    ensures Building(t, [FRESH], [[]], map[[] := 0], 0, 0)
  {
    hide ToBits, PrefixFree, Complete;
    var node: map<seq<bool>, int> := map[[] := 0];
    assert Linked([FRESH], [[]], node) by {
      assert forall b: bool :: [] + [b] != [];
    }
    assert [FRESH][..0] == [];
    assert Slots([FRESH]) == 0;
    assert Leaves([FRESH]) == 0;
    assert Labelled(t, [FRESH], [[]], 0);
    assert KeysAre(t, node, 0, 0);
  }

  lemma FinishBuilding(
    t: seq<HuffmanEntry>, tree: seq<HuffmanNode>, path: seq<seq<bool>>, node: map<seq<bool>, int>)
    requires ValidTable(t) && Building(t, tree, path, node, |t|, 0)
    ensures |tree| == 513 && Represents(t, tree) && IsFull(tree)
    ensures forall k :: 0 <= k < |tree| ==> Reachable(tree, k)
  {
    FinishRepresents(t, tree, path, node);
    FinishReachable(tree, path, node);
    FinishFull(t, tree, path, node);
    FullCounts(tree, |tree|);
  }

  /**
   Build the tree by entering the codes one after the other. The result has 513
   nodes, all of them reachable, and is full; so no walk along any input can meet
   a missing branch.
   */
  method BuildTree(t: seq<HuffmanEntry>) returns (tree: seq<HuffmanNode>)
    requires ValidTable(t)
    ensures |tree| == 513
    ensures Represents(t, tree)
    ensures IsFull(tree) && Ordered(tree)
    ensures forall k :: 0 <= k < |tree| ==> Reachable(tree, k)
  {
    hide Linked, Labelled, KeysAre, Leaves, Slots, Walk, Code, ToBits, Shr, PrefixFree, Complete, Represents;
    hide IsFull, Reachable;
    tree := [FRESH];
    ghost var path: seq<seq<bool>>, node: map<seq<bool>, int> := [[]], map[[] := 0];
    StartBuilding(t);
    var i := 0;
    while i < 257
      invariant 0 <= i <= 257
      invariant Building(t, tree, path, node, i, 0) && path[0] == []
      invariant Ordered(tree)
      invariant |tree| <= 1 + 30 * i // below 2^15, so the 16-bit indices do not wrap
    {
      var entry, current := t[i], 0;
      var bit := entry.len - 1;
      assert Code(t, i)[..0] == [];
      while bit >= 0
        invariant -1 <= bit < entry.len
        invariant 0 <= current < |tree| && Ordered(tree)
        invariant Building(t, tree, path, node, i, entry.len - 1 - bit) && path[0] == []
        invariant path[current] == Code(t, i)[..entry.len - 1 - bit]
        invariant |tree| <= 1 + 30 * i + entry.len - 1 - bit
      {
        var bitVal := Shr(entry.code, bit) % 2 == 1;
        ghost var d := entry.len - 1 - bit;
        CodeBit(t, i, bit);
        var next := tree[current].Child(bitVal);
        if next == -1 {
          GrowBuilding(t, tree, path, node, i, d, current, bitVal);
          next := |tree|;
          path, node := path + [path[current] + [bitVal]], node[path[current] + [bitVal] := |tree|];
          tree := (tree + [FRESH])[current := tree[current].WithChild(bitVal, next)];
        } else {
          StepBuilding(t, tree, path, node, i, d, current, bitVal);
        }
        current, bit := next, bit - 1;
      }
      assert Code(t, i)[..entry.len] == Code(t, i);
      LabelBuilding(t, tree, path, node, i, current);
      tree := tree[current := tree[current].(sym := i)];
      i := i + 1;
    }
    FinishBuilding(t, tree, path, node);
  }
}
