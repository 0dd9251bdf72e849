/** What the transaction root of a block without repeated contents fixes. */
module BlockContents {
  import opened Basics
  import opened Transactions
  import opened TxMessage
  import opened TxDecoding
  import opened Merkle
  import opened MerkleLengths
  import opened Blocks

  /** Transactions that the ledger can have applied in one block: well formed, and no content signed twice. */
  ghost predicate Clean(c: Crypto, txs: seq<SignedTx>) { AllShapesValid(c, txs) && Distinct(Contents(txs)) }

  ghost function TxNodes(hash: Hasher, txs: seq<SignedTx>): set<seq<byte>> {
    HashedNodes(hash, TX_NODE_TAG, Leaves(hash, txs))
  }

  /** Everything hashed for a block's transaction root. */
  ghost function HashedFor(hash: Hasher, txs: seq<SignedTx>): set<seq<byte>> {
    Messages(txs) + TxNodes(hash, txs) + {EMPTY_TX_TAG}
  }

  /** The two trees have one height, or no signed message of the two lists reads as an inner node of theirs. */
  ghost predicate ToldApart(hash: Hasher, xs: seq<SignedTx>, ys: seq<SignedTx>) {
    || xs == [] || ys == [] || Height(|xs|) == Height(|ys|)
    || (Messages(xs) + Messages(ys)) !! (TxNodes(hash, xs) + TxNodes(hash, ys))
  }

  lemma TagsDiffer(tx: SignedTx, a: Bytes32, b: Bytes32)
    ensures EncTx(tx) != EMPTY_TX_TAG && TX_NODE_TAG + a + b != EMPTY_TX_TAG
  {
    assert EncTx(tx)[6] == 84 && (TX_NODE_TAG + a + b)[6] == 84 && EMPTY_TX_TAG[6] == 69;
  }

  /** A block with transactions never has the root of the empty one. */
  lemma EmptyRootDiffers(hash: Hasher, txs: seq<SignedTx>)
    requires txs != [] && CollisionFree(hash, HashedFor(hash, txs))
    ensures TxsRoot(hash, txs) != hash(EMPTY_TX_TAG)
  {
    var (node, leaves) := (NodeHash(hash, TX_NODE_TAG), Leaves(hash, txs));
    if |txs| == 1 {
      TagsDiffer(txs[0], ZEROS32, ZEROS32);
      assert txs[0] in txs && EncTx(txs[0]) in Messages(txs);
      assert TxsRoot(hash, txs) == hash(EncTx(txs[0]));
    } else {
      var t := Build(leaves, Height(|leaves|));
      var (a, b) := (Eval(node, t.left), Eval(node, t.right));
      TagsDiffer(txs[0], a, b);
      assert (a, b) in RootInputs(node, leaves);
      assert TX_NODE_TAG + a + b in TxNodes(hash, txs);
      assert TxsRoot(hash, txs) == hash(TX_NODE_TAG + a + b);
    }
  }

  lemma NodesInjective(hash: Hasher, xs: seq<Bytes32>, ys: seq<Bytes32>, pairs: set<(Bytes32, Bytes32)>)
    requires xs != [] && ys != []
    requires var node := NodeHash(hash, TX_NODE_TAG); pairs == RootInputs(node, xs) + RootInputs(node, ys)
    requires CollisionFree(hash, HashedNodes(hash, TX_NODE_TAG, xs) + HashedNodes(hash, TX_NODE_TAG, ys))
    ensures InjectiveOn(NodeHash(hash, TX_NODE_TAG), pairs)
  {
    var node := NodeHash(hash, TX_NODE_TAG);
    var hashed := HashedNodes(hash, TX_NODE_TAG, xs) + HashedNodes(hash, TX_NODE_TAG, ys);
    forall p, q | p in pairs && q in pairs && node(p.0, p.1) == node(q.0, q.1)
      ensures p == q
    {
      assert TX_NODE_TAG + p.0 + p.1 in hashed && TX_NODE_TAG + q.0 + q.1 in hashed;
      ConcatSplits(TX_NODE_TAG, p.0, p.1, q.0, q.1);
    }
  }

  /** Messages that do not read as nodes do not hash to node values either. */
  lemma LeavesApart(hash: Hasher, txs: seq<SignedTx>, nodes: set<seq<byte>>, pairs: set<(Bytes32, Bytes32)>)
    requires forall p :: p in pairs ==> TX_NODE_TAG + p.0 + p.1 in nodes
    requires Messages(txs) !! nodes && CollisionFree(hash, Messages(txs) + nodes)
    ensures Apart(NodeHash(hash, TX_NODE_TAG), pairs, Leaves(hash, txs))
  {
    forall p, x | p in pairs && x in Leaves(hash, txs)
      ensures NodeHash(hash, TX_NODE_TAG)(p.0, p.1) != x
    {
      var i :| 0 <= i < |txs| && x == Leaves(hash, txs)[i];
      assert txs[i] in txs && EncTx(txs[i]) in Messages(txs);
      assert TX_NODE_TAG + p.0 + p.1 in nodes;
    }
  }

  lemma CleanLeaves(c: Crypto, txs: seq<SignedTx>)
    requires Clean(c, txs) && CollisionFree(c.hash, Messages(txs))
    ensures Distinct(Leaves(c.hash, txs))
  {
    forall i, j | 0 <= i < j < |txs|
      ensures Leaves(c.hash, txs)[i] != Leaves(c.hash, txs)[j]
    {
      assert txs[i] in txs && txs[j] in txs;
      assert {EncTx(txs[i]), EncTx(txs[j])} <= Messages(txs);
      TxHashBinds(c, txs[i], txs[j]);
      ContentsAt(txs, i);
      ContentsAt(txs, j);
    }
  }

  lemma NonemptyRootFixes(c: Crypto, xs: seq<SignedTx>, ys: seq<SignedTx>)
    requires xs != [] && ys != [] && Clean(c, xs) && Clean(c, ys) && ToldApart(c.hash, xs, ys)
    requires CollisionFree(c.hash, HashedFor(c.hash, xs) + HashedFor(c.hash, ys))
    ensures TxsRoot(c.hash, xs) == TxsRoot(c.hash, ys) <==> Leaves(c.hash, xs) == Leaves(c.hash, ys)
  {
    var (hash, node) := (c.hash, NodeHash(c.hash, TX_NODE_TAG));
    var (lx, ly) := (Leaves(hash, xs), Leaves(hash, ys));
    var pairs := RootInputs(node, lx) + RootInputs(node, ly);
    var nodes := TxNodes(hash, xs) + TxNodes(hash, ys);
    var all := HashedFor(hash, xs) + HashedFor(hash, ys);
    FewerCollide(hash, Messages(xs), all);
    FewerCollide(hash, Messages(ys), all);
    CleanLeaves(c, xs);
    CleanLeaves(c, ys);
    FewerCollide(hash, nodes, all);
    NodesInjective(hash, lx, ly, pairs);
    if Height(|xs|) != Height(|ys|) {
      assert forall p :: p in pairs ==> TX_NODE_TAG + p.0 + p.1 in nodes;
      FewerCollide(hash, Messages(xs) + nodes, all);
      FewerCollide(hash, Messages(ys) + nodes, all);
      LeavesApart(hash, xs, nodes, pairs);
      LeavesApart(hash, ys, nodes, pairs);
    }
    DistinctRootBinds(node, lx, ly, pairs);
  }

  /** A transaction root commits to everything that was signed, of any two lists of any lengths in which no
      content is signed twice: they share a root exactly when they sign the same contents in the same order. */
  lemma RootFixesContents(c: Crypto, xs: seq<SignedTx>, ys: seq<SignedTx>)
    requires Clean(c, xs) && Clean(c, ys) && ToldApart(c.hash, xs, ys)
    requires CollisionFree(c.hash, HashedFor(c.hash, xs) + HashedFor(c.hash, ys))
    ensures TxsRoot(c.hash, xs) == TxsRoot(c.hash, ys) <==> Contents(xs) == Contents(ys)
  {
    var all := HashedFor(c.hash, xs) + HashedFor(c.hash, ys);
    if xs == [] && ys != [] {
      FewerCollide(c.hash, HashedFor(c.hash, ys), all);
      EmptyRootDiffers(c.hash, ys);
    } else if xs != [] && ys == [] {
      FewerCollide(c.hash, HashedFor(c.hash, xs), all);
      EmptyRootDiffers(c.hash, xs);
    } else if xs != [] && ys != [] {
      NonemptyRootFixes(c, xs, ys);
      if |xs| == |ys| {
        FewerCollide(c.hash, Messages(xs) + Messages(ys), all);
        LeavesBind(c, xs, ys);
      }
    }
  }
}
