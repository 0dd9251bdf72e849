/** The pairwise Merkle fold of block.rs and offchain.rs.

    Both loops walk a level two nodes at a time and pair an odd last node with itself. The reference
    definition is a tree built from the root down: a level of at most 2^h nodes is cut at 2^(h-1),
    and a part that fits in half is paired with itself. The node function stays a parameter, so the
    results below hold for the block tags and for the off-chain tags alike. */
module Merkle {
  import opened Basics

  function Pow2(h: nat): (p: nat)
    ensures p >= 1
  {
    if h == 0 then 1 else 2 * Pow2(h - 1)
  }

  /** Height of the tree over `n` leaves: the least `h` with `n <= 2^h`. */
  function Height(n: nat): (h: nat)
    requires n >= 1
    ensures n <= Pow2(h)
    ensures h > 0 ==> Pow2(h - 1) < n
  {
    if n == 1 then 0 else Height((n + 1) / 2) + 1
  }

  datatype Shape<T> = Leaf(value: T) | Branch(left: Shape<T>, right: Shape<T>)

  /** The tree built from the root down: cut at half the width, and pair a part that fits in half
      with itself. */
  function Build<T>(xs: seq<T>, h: nat): Shape<T>
    requires 1 <= |xs| <= Pow2(h)
    decreases h
  {
    if h == 0 then Leaf(xs[0])
    else
      var half := Pow2(h - 1);
      if |xs| <= half then Branch(Build(xs, h - 1), Build(xs, h - 1))
      else Branch(Build(xs[..half], h - 1), Build(xs[half..], h - 1))
  }

  function Eval<T>(node: (T, T) -> T, t: Shape<T>): T {
    match t
    case Leaf(x) => x
    case Branch(l, r) => node(Eval(node, l), Eval(node, r))
  }

  function TreeRoot<T>(node: (T, T) -> T, xs: seq<T>, h: nat): T
    requires 1 <= |xs| <= Pow2(h)
  {
    Eval(node, Build(xs, h))
  }

  function Root<T>(node: (T, T) -> T, xs: seq<T>): T
    requires xs != []
  {
    TreeRoot(node, xs, Height(|xs|))
  }

  // ----- the loop -----

  /** One round of the loop: the level above `xs`. */
  ghost function Level<T>(node: (T, T) -> T, xs: seq<T>): (up: seq<T>)
    ensures |up| == (|xs| + 1) / 2
    decreases |xs|
  {
    if xs == [] then []
    else if |xs| == 1 then [node(xs[0], xs[0])]
    else [node(xs[0], xs[1])] + Level(node, xs[2..])
  }

  lemma {:induction false} LevelAt<T>(node: (T, T) -> T, xs: seq<T>, i: nat)
    requires 2 * i < |xs|
    ensures Level(node, xs)[i] == node(xs[2 * i], xs[if 2 * i + 1 < |xs| then 2 * i + 1 else 2 * i])
    decreases |xs|
  {
    if i > 0 {
      LevelAt(node, xs[2..], i - 1);
    }
  }

  /** Cutting before an even index commutes with going one level up. */
  lemma {:induction false} LevelOfParts<T>(node: (T, T) -> T, xs: seq<T>, k: nat)
    requires 2 * k <= |xs|
    ensures Level(node, xs[..2 * k]) == Level(node, xs)[..k]
    ensures Level(node, xs[2 * k..]) == Level(node, xs)[k..]
    decreases k
  {
    if k > 0 {
      assert xs[..2 * k][2..] == xs[2..][..2 * (k - 1)];
      assert xs[2 * k..] == xs[2..][2 * (k - 1)..];
      LevelOfParts(node, xs[2..], k - 1);
    }
  }

  lemma RootOfHalves<T>(node: (T, T) -> T, xs: seq<T>, l: seq<T>, r: seq<T>, h: nat)
    requires h >= 1 && xs == l + r && |l| == Pow2(h - 1) && 1 <= |r| <= Pow2(h - 1)
    ensures TreeRoot(node, xs, h) == node(TreeRoot(node, l, h - 1), TreeRoot(node, r, h - 1))
  {
  }

  lemma LevelOfHalves<T>(node: (T, T) -> T, xs: seq<T>, l: seq<T>, r: seq<T>, h: nat)
    requires h >= 2 && xs == l + r && |l| == Pow2(h - 1) && 1 <= |r| <= Pow2(h - 1)
    ensures TreeRoot(node, Level(node, xs), h - 1)
      == node(TreeRoot(node, Level(node, l), h - 2), TreeRoot(node, Level(node, r), h - 2))
  {
    assert xs[..Pow2(h - 1)] == l && xs[Pow2(h - 1)..] == r;
    LevelOfParts(node, xs, Pow2(h - 2));
    RootOfHalves(node, Level(node, xs), Level(node, l), Level(node, r), h - 1);
  }

  lemma LevelOfPair<T>(node: (T, T) -> T, xs: seq<T>)
    requires 1 <= |xs| <= 2
    ensures |Level(node, xs)| == 1 && TreeRoot(node, Level(node, xs), 0) == TreeRoot(node, xs, 1)
  {
    var first, last := Leaf(xs[0]), Leaf(xs[|xs| - 1]);
    assert Build(xs, 1) == Branch(first, last);
    assert Eval(node, first) == xs[0] && Eval(node, last) == xs[|xs| - 1];
    assert Level(node, xs) == [node(xs[0], xs[|xs| - 1])];
  }

  lemma {:induction false} LevelKeepsTree<T>(node: (T, T) -> T, xs: seq<T>, h: nat)
    requires h >= 1 && 1 <= |xs| <= Pow2(h)
    ensures |Level(node, xs)| <= Pow2(h - 1)
    ensures TreeRoot(node, Level(node, xs), h - 1) == TreeRoot(node, xs, h)
    decreases h
  {
    var half := Pow2(h - 1);
    if h == 1 {
      LevelOfPair(node, xs);
    } else if |xs| <= half {
      LevelKeepsTree(node, xs, h - 1);
    } else {
      var l, r := xs[..half], xs[half..];
      LevelKeepsTree(node, l, h - 1);
      LevelKeepsTree(node, r, h - 1);
      LevelOfHalves(node, xs, l, r, h);
      RootOfHalves(node, xs, l, r, h);
    }
  }

  lemma HeightOfHalf(n: nat)
    requires n > 1
    ensures Height(n) >= 1 && Height((n + 1) / 2) == Height(n) - 1
  {
  }

  lemma LevelKeepsRoot<T>(node: (T, T) -> T, xs: seq<T>)
    requires |xs| > 1
    ensures Level(node, xs) != []
    ensures Root(node, Level(node, xs)) == Root(node, xs)
  {
    HeightOfHalf(|xs|);
    RootAbove(node, xs, Level(node, xs), Height(|xs|) - 1);
  }

  lemma RootAbove<T>(node: (T, T) -> T, xs: seq<T>, ys: seq<T>, g: nat)
    requires xs != [] && ys != [] && ys == Level(node, xs)
    requires Height(|xs|) == g + 1 && Height(|ys|) == g
    ensures Root(node, ys) == Root(node, xs)
  {
    var h := g + 1;
    assert |xs| <= Pow2(h) && |ys| <= Pow2(g);
    LevelKeepsTree(node, xs, h);
    RootBelow(node, xs, ys, h, g);
  }

  lemma RootBelow<T>(node: (T, T) -> T, xs: seq<T>, ys: seq<T>, h: nat, g: nat)
    requires xs != [] && ys != [] && h == Height(|xs|) && g == Height(|ys|) && h == g + 1
    requires TreeRoot(node, ys, g) == TreeRoot(node, xs, h)
    ensures Root(node, ys) == Root(node, xs)
  {
  }

  /** The inner loop: one pass over the chunks of two. */
  method PairUp<T>(node: (T, T) -> T, lv: seq<T>) returns (next: seq<T>)
    ensures next == Level(node, lv)
  {
    next := [];
    var at := 0;
    while at < |lv|
      invariant 0 <= at <= |lv| + 1 && at % 2 == 0
      invariant at <= |lv| ==> next + Level(node, lv[at..]) == Level(node, lv)
      invariant at > |lv| ==> next == Level(node, lv)
    {
      var first := lv[at];
      var second := if at + 1 < |lv| then lv[at + 1] else first;
      next := next + [node(first, second)];
      if at + 2 <= |lv| {
        assert lv[at..][2..] == lv[at + 2..];
      }
      at := at + 2;
    }
  }

  /** The pairing loop, with the node function abstracted: it stops, and returns the root of the
      top-down tree. */
  method FoldPairs<T>(node: (T, T) -> T, leaves: seq<T>) returns (root: T)
    requires leaves != []
    ensures root == Root(node, leaves)
  {
    var lv := leaves;
    while |lv| > 1
      invariant lv != []
      invariant Root(node, lv) == Root(node, leaves)
      decreases |lv|
    {
      LevelKeepsRoot(node, lv);
      lv := PairUp(node, lv);
    }
    root := lv[0];
  }

  // ----- what the root commits to -----

  /** Every pair of children that evaluation feeds to the node function. */
  ghost function Inputs<T>(node: (T, T) -> T, t: Shape<T>): set<(T, T)> {
    match t
    case Leaf(_) => {}
    case Branch(l, r) => {(Eval(node, l), Eval(node, r))} + Inputs(node, l) + Inputs(node, r)
  }

  ghost predicate InjectiveOn<T(!new)>(node: (T, T) -> T, pairs: set<(T, T)>) {
    forall p, q :: p in pairs && q in pairs && node(p.0, p.1) == node(q.0, q.1) ==> p == q
  }

  ghost predicate Perfect<T>(t: Shape<T>, h: nat) {
    match t
    case Leaf(_) => h == 0
    case Branch(l, r) => h > 0 && Perfect(l, h - 1) && Perfect(r, h - 1)
  }

  lemma {:induction false} BuildIsPerfect<T>(xs: seq<T>, h: nat)
    requires 1 <= |xs| <= Pow2(h)
    ensures Perfect(Build(xs, h), h)
    decreases h
  {
    if h > 0 {
      var half := Pow2(h - 1);
      if |xs| <= half {
        BuildIsPerfect(xs, h - 1);
      } else {
        BuildIsPerfect(xs[..half], h - 1);
        BuildIsPerfect(xs[half..], h - 1);
      }
    }
  }

  /** Trees of one height have the same root exactly when they are the same tree, as long as the node
      function does not collide on the pairs that these two trees feed it. */
  lemma {:induction false} TreeBinds<T(!new)>(node: (T, T) -> T, s: Shape<T>, t: Shape<T>, h: nat, pairs: set<(T, T)>)
    requires Perfect(s, h) && Perfect(t, h)
    requires Inputs(node, s) <= pairs && Inputs(node, t) <= pairs && InjectiveOn(node, pairs)
    ensures Eval(node, s) == Eval(node, t) <==> s == t
    decreases h
  {
    if h > 0 {
      TreeBinds(node, s.left, t.left, h - 1, pairs);
      TreeBinds(node, s.right, t.right, h - 1, pairs);
      assert (Eval(node, s.left), Eval(node, s.right)) in pairs;
      assert (Eval(node, t.left), Eval(node, t.right)) in pairs;
    }
  }

  /** Given its length, a list can be read back from its tree. */
  lemma {:induction false} BuildInjective<T>(xs: seq<T>, ys: seq<T>, h: nat)
    requires 1 <= |xs| == |ys| <= Pow2(h)
    requires Build(xs, h) == Build(ys, h)
    ensures xs == ys
    decreases h
  {
    if h > 0 {
      var half := Pow2(h - 1);
      if |xs| <= half {
        BuildInjective(xs, ys, h - 1);
      } else {
        BuildInjective(xs[..half], ys[..half], h - 1);
        BuildInjective(xs[half..], ys[half..], h - 1);
        assert xs == xs[..half] + xs[half..] && ys == ys[..half] + ys[half..];
      }
    }
  }

  ghost function RootInputs<T>(node: (T, T) -> T, xs: seq<T>): set<(T, T)>
    requires xs != []
  {
    Inputs(node, Build(xs, Height(|xs|)))
  }

  /** Lists of one length: equal roots exactly when equal lists. */
  lemma RootBinds<T(!new)>(node: (T, T) -> T, xs: seq<T>, ys: seq<T>)
    requires |xs| == |ys| >= 1
    requires InjectiveOn(node, RootInputs(node, xs) + RootInputs(node, ys))
    ensures Root(node, xs) == Root(node, ys) <==> xs == ys
  {
    var h := Height(|xs|);
    BuildIsPerfect(xs, h);
    BuildIsPerfect(ys, h);
    TreeBinds(node, Build(xs, h), Build(ys, h), h, RootInputs(node, xs) + RootInputs(node, ys));
    if Build(xs, h) == Build(ys, h) {
      BuildInjective(xs, ys, h);
    }
  }

  /** The length is not part of the commitment: repeating the last leaf of an odd list leaves the root
      alone. So a root binds a list only together with its length. */
  lemma RepeatedLastLeaf<T>(node: (T, T) -> T, xs: seq<T>)
    requires |xs| > 1 && |xs| % 2 == 1
    ensures Root(node, xs + [xs[|xs| - 1]]) == Root(node, xs)
  {
    var ys := xs + [xs[|xs| - 1]];
    forall i | 0 <= i < |Level(node, xs)| ensures Level(node, ys)[i] == Level(node, xs)[i] {
      LevelAt(node, xs, i);
      LevelAt(node, ys, i);
    }
    assert Level(node, ys) == Level(node, xs);
    LevelKeepsRoot(node, xs);
    LevelKeepsRoot(node, ys);
  }

  // ----- the two instances -----

  const TX_NODE_TAG: seq<byte> := [80, 87, 77, 118, 48, 47, 84, 88, 78, 79, 68, 69]        // "PWMv0/TXNODE"
  const OFF_NODE_TAG: seq<byte> := [80, 87, 77, 118, 48, 47, 79, 70, 70, 78, 79, 68, 69]   // "PWMv0/OFFNODE"
  const EMPTY_TX_TAG: seq<byte> := [80, 87, 77, 118, 48, 47, 69, 77, 80, 84, 89, 84, 88]   // "PWMv0/EMPTYTX"
  const OFF_EMPTY_TAG: seq<byte> := [80, 87, 77, 118, 48, 47, 79, 70, 70, 69, 77, 80, 84, 89] // "PWMv0/OFFEMPTY"

  function NodeHash(hash: Hasher, tag: seq<byte>): (Bytes32, Bytes32) -> Bytes32 {
    (a: Bytes32, b: Bytes32) => hash(tag + a + b)
  }

  function TaggedRoot(hash: Hasher, nodeTag: seq<byte>, emptyTag: seq<byte>, leaves: seq<Bytes32>): Bytes32 {
    if leaves == [] then hash(emptyTag) else Root(NodeHash(hash, nodeTag), leaves)
  }

  /** The byte strings hashed on the way to the root. */
  ghost function HashedNodes(hash: Hasher, tag: seq<byte>, leaves: seq<Bytes32>): set<seq<byte>> {
    if leaves == [] then {}
    else set p | p in RootInputs(NodeHash(hash, tag), leaves) :: tag + p.0 + p.1
  }

  /** The off-chain batch root. */
  method MerkleRoot(hash: Hasher, leaves: seq<Bytes32>) returns (root: Bytes32)
    ensures root == TaggedRoot(hash, OFF_NODE_TAG, OFF_EMPTY_TAG, leaves)
  {
    if leaves == [] {
      return hash(OFF_EMPTY_TAG);
    }
    root := FoldPairs(NodeHash(hash, OFF_NODE_TAG), leaves);
  }

  lemma ConcatSplits(tag: seq<byte>, a: Bytes32, b: Bytes32, c: Bytes32, d: Bytes32)
    requires tag + a + b == tag + c + d
    ensures a == c && b == d
  {
    var k := |tag|;
    assert (tag + a + b)[k..k + 32] == a && (tag + c + d)[k..k + 32] == c;
    assert (tag + a + b)[k + 32..] == b && (tag + c + d)[k + 32..] == d;
  }

  /** Binding in terms of BLAKE3 itself, for either tag: two digest lists of one length share a root
      exactly when they are equal, provided BLAKE3 does not collide on the nodes of these two trees. */
  lemma TaggedRootBinds(hash: Hasher, nodeTag: seq<byte>, emptyTag: seq<byte>, xs: seq<Bytes32>, ys: seq<Bytes32>)
    requires |xs| == |ys|
    requires CollisionFree(hash, HashedNodes(hash, nodeTag, xs) + HashedNodes(hash, nodeTag, ys))
    ensures TaggedRoot(hash, nodeTag, emptyTag, xs) == TaggedRoot(hash, nodeTag, emptyTag, ys) <==> xs == ys
  {
    if xs != [] {
      var node := NodeHash(hash, nodeTag);
      var pairs := RootInputs(node, xs) + RootInputs(node, ys);
      forall p, q | p in pairs && q in pairs && node(p.0, p.1) == node(q.0, q.1)
        ensures p == q
      {
        assert nodeTag + p.0 + p.1 in HashedNodes(hash, nodeTag, xs) + HashedNodes(hash, nodeTag, ys);
        assert nodeTag + q.0 + q.1 in HashedNodes(hash, nodeTag, xs) + HashedNodes(hash, nodeTag, ys);
        ConcatSplits(nodeTag, p.0, p.1, q.0, q.1);
      }
      RootBinds(node, xs, ys);
    }
  }
}
