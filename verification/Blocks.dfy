/** Block headers and transaction roots of block.rs. */
module Blocks {
  import opened Basics
  import opened Transactions
  import opened TxMessage
  import opened TxDecoding
  import opened Merkle

  datatype BlockHdr = BlockHdr(
    height: u64, prevHash: Bytes32, ts: u64, prodIdx: u32, txRoot: Bytes32, stateRoot: Bytes32, sig: Bytes64)

  datatype Block = Block(hdr: BlockHdr, txs: seq<SignedTx>)

  const HDR_TAG: seq<byte> := [80, 87, 77, 118, 48, 47, 66, 76, 79, 67, 75, 72, 68, 82] // "PWMv0/BLOCKHDR"
  const GENESIS_TAG: seq<byte> := [80, 87, 77, 118, 48, 47, 71, 69, 78, 69, 83, 73, 83] // "PWMv0/GENESIS"

  // ----- header hashes and signatures -----

  /** What a header commits to apart from its signature, fixed width, in front of `rest`. */
  function HdrFields(h: BlockHdr, rest: seq<byte>): seq<byte> {
    LE(h.height, 8) + (h.prevHash + (LE(h.ts, 8) + (LE(h.prodIdx, 4) + (h.txRoot + (h.stateRoot + rest)))))
  }

  function SignPreimage(hash: Hasher, h: BlockHdr): Bytes32 { hash(HDR_TAG + HdrFields(h, [])) }

  predicate HdrSigValid(c: Crypto, pk: Bytes32, h: BlockHdr) { c.verify(pk, SignPreimage(c.hash, h), h.sig) }

  function SignHdr(c: Crypto, sk: SigningKey, h: BlockHdr): BlockHdr {
    h.(sig := c.sign(sk, SignPreimage(c.hash, h)))
  }

  /** The serialised header: the fields, then the length-prefixed signature. */
  function HdrBytes(h: BlockHdr): seq<byte> { HdrFields(h, LE(64, 8) + h.sig) }

  function HdrHash(hash: Hasher, h: BlockHdr): Bytes32 { hash(HdrBytes(h)) }

  function PrevGen(hash: Hasher): Bytes32 { hash(GENESIS_TAG) }

  /** What is hashed for a header's signature. */
  function SigningInput(h: BlockHdr): seq<byte> {
    HDR_TAG + (LE(h.height, 8) + (h.prevHash + (LE(h.ts, 8) + (LE(h.prodIdx, 4) + (h.txRoot + h.stateRoot)))))
  }

  /** Signing replaces only the signature, by one over the digest of all the other fields, and a matching key
      accepts the result. */
  lemma SignedVerifies(c: Crypto, sk: SigningKey, pk: Bytes32, h: BlockHdr)
    requires KeyPair(c, sk, pk)
    ensures SignHdr(c, sk, h).sig == c.sign(sk, c.hash(SigningInput(h)))
    ensures HdrSigValid(c, pk, SignHdr(c, sk, h))
    ensures SignHdr(c, sk, h).(sig := h.sig) == h
  {
    var signed := SignHdr(c, sk, h);
    assert HdrFields(signed, []) == HdrFields(h, []);
    assert h.stateRoot + [] == h.stateRoot;
  }

  lemma Peel(a: seq<byte>, x: seq<byte>, b: seq<byte>, y: seq<byte>)
    requires |a| == |b| && a + x == b + y
    ensures a == b && x == y
  {
    assert a == (a + x)[..|a|] && b == (b + y)[..|b|];
    assert x == (a + x)[|a|..] && y == (b + y)[|b|..];
  }

  lemma LEInjective(m: nat, n: nat, k: nat)
    requires m < Pow256(k) && n < Pow256(k) && LE(m, k) == LE(n, k)
    ensures m == n
  {
    FromLEOfLE(m, k);
    FromLEOfLE(n, k);
  }

  lemma HdrFieldsInjective(g: BlockHdr, h: BlockHdr, x: seq<byte>, y: seq<byte>)
    requires HdrFields(g, x) == HdrFields(h, y)
    ensures g.(sig := h.sig) == h && x == y
  {
    var g5, h5 := g.stateRoot + x, h.stateRoot + y;
    var g4, h4 := g.txRoot + g5, h.txRoot + h5;
    var g3, h3 := LE(g.prodIdx, 4) + g4, LE(h.prodIdx, 4) + h4;
    var g2, h2 := LE(g.ts, 8) + g3, LE(h.ts, 8) + h3;
    var g1, h1 := g.prevHash + g2, h.prevHash + h2;
    Peel(LE(g.height, 8), g1, LE(h.height, 8), h1);
    Peel(g.prevHash, g2, h.prevHash, h2);
    Peel(LE(g.ts, 8), g3, LE(h.ts, 8), h3);
    Peel(LE(g.prodIdx, 4), g4, LE(h.prodIdx, 4), h4);
    Peel(g.txRoot, g5, h.txRoot, h5);
    Peel(g.stateRoot, x, h.stateRoot, y);
    WidthBounds();
    LEInjective(g.height, h.height, 8);
    LEInjective(g.ts, h.ts, 8);
    LEInjective(g.prodIdx, h.prodIdx, 4);
  }

  lemma HdrBytesInjective(g: BlockHdr, h: BlockHdr)
    requires HdrBytes(g) == HdrBytes(h)
    ensures g == h
  {
    HdrFieldsInjective(g, h, LE(64, 8) + g.sig, LE(64, 8) + h.sig);
    Peel(LE(64, 8), g.sig, LE(64, 8), h.sig);
  }

  /** A signature covers its whole header: two headers have one preimage exactly when they differ at most in
      their signatures, unless BLAKE3 collides on the two. */
  lemma PreimageBinds(hash: Hasher, g: BlockHdr, h: BlockHdr)
    requires CollisionFree(hash, {SigningInput(g), SigningInput(h)})
    ensures SignPreimage(hash, g) == hash(SigningInput(g))
    ensures SignPreimage(hash, g) == SignPreimage(hash, h) <==> g.(sig := h.sig) == h
  {
    assert g.stateRoot + [] == g.stateRoot && h.stateRoot + [] == h.stateRoot;
    if SigningInput(g) == SigningInput(h) {
      Peel(HDR_TAG, HdrFields(g, []), HDR_TAG, HdrFields(h, []));
      HdrFieldsInjective(g, h, [], []);
    }
  }

  /** So a header that a matching key signed is accepted under that key with exactly the preimage of its own
      fields, and no other header has that preimage. */
  lemma SignatureCovers(c: Crypto, sk: SigningKey, pk: Bytes32, h: BlockHdr, g: BlockHdr)
    requires KeyPair(c, sk, pk) && CollisionFree(c.hash, {SigningInput(g), SigningInput(h)})
    ensures var signed := SignHdr(c, sk, h);
      && signed.sig == c.sign(sk, c.hash(SigningInput(h))) && HdrSigValid(c, pk, signed)
      && (HdrSigValid(c, pk, g) <==> c.verify(pk, c.hash(SigningInput(g)), g.sig))
      && (SignPreimage(c.hash, g) == SignPreimage(c.hash, signed) <==> g.(sig := h.sig) == h)
  {
    var signed := SignHdr(c, sk, h);
    assert SigningInput(signed) == SigningInput(h);
    PreimageBinds(c.hash, g, h);
    PreimageBinds(c.hash, signed, g);
    SignedVerifies(c, sk, pk, h);
    PreimageBinds(c.hash, h, g);
  }

  // ----- transaction roots -----

  function Leaves(hash: Hasher, txs: seq<SignedTx>): (leaves: seq<Bytes32>)
    ensures |leaves| == |txs|
    ensures forall i :: 0 <= i < |txs| ==> leaves[i] == TxHash(hash, txs[i])
  {
    if txs == [] then [] else [TxHash(hash, txs[0])] + Leaves(hash, txs[1..])
  }

  function TxsRoot(hash: Hasher, txs: seq<SignedTx>): Bytes32 {
    TaggedRoot(hash, TX_NODE_TAG, EMPTY_TX_TAG, Leaves(hash, txs))
  }

  /** The root as the code computes it: hash every transaction, then fold pairs level by level. */
  method ComputeTxsRoot(hash: Hasher, txs: seq<SignedTx>) returns (root: Bytes32)
    ensures root == TxsRoot(hash, txs)
  {
    var leaves := Leaves(hash, txs);
    if leaves == [] {
      return hash(EMPTY_TX_TAG);
    }
    root := FoldPairs(NodeHash(hash, TX_NODE_TAG), leaves);
  }

  ghost function Messages(txs: seq<SignedTx>): set<seq<byte>> {
    set tx | tx in txs :: EncTx(tx)
  }

  ghost predicate AllShapesValid(c: Crypto, txs: seq<SignedTx>) {
    forall i :: 0 <= i < |txs| ==> ValidateShape(c, txs[i], false).Ok?
  }

  /** What each transaction signs, in order. */
  function Contents(txs: seq<SignedTx>): (cs: seq<Content>)
    ensures |cs| == |txs|
  {
    if txs == [] then [] else [ContentOf(txs[0])] + Contents(txs[1..])
  }

  lemma {:induction false} ContentsAt(txs: seq<SignedTx>, i: nat)
    requires i < |txs|
    ensures Contents(txs)[i] == ContentOf(txs[i])
  {
    if i > 0 {
      ContentsAt(txs[1..], i - 1);
    }
  }

  lemma LeafBinds(c: Crypto, xs: seq<SignedTx>, ys: seq<SignedTx>, i: nat)
    requires i < |xs| == |ys| && AllShapesValid(c, xs) && AllShapesValid(c, ys)
    requires CollisionFree(c.hash, Messages(xs) + Messages(ys))
    ensures Leaves(c.hash, xs)[i] == Leaves(c.hash, ys)[i] <==> Contents(xs)[i] == Contents(ys)[i]
  {
    var s, t := xs[i], ys[i];
    assert s in xs && t in ys;
    assert {EncTx(s), EncTx(t)} <= Messages(xs) + Messages(ys);
    FewerCollide(c.hash, {EncTx(s), EncTx(t)}, Messages(xs) + Messages(ys));
    TxHashBinds(c, s, t);
    ContentsAt(xs, i);
    ContentsAt(ys, i);
  }

  lemma PointwiseEqual<A(!new), B(!new)>(a: seq<A>, b: seq<A>, x: seq<B>, y: seq<B>)
    requires |a| == |b| == |x| == |y|
    requires forall i :: 0 <= i < |a| ==> (a[i] == b[i] <==> x[i] == y[i])
    ensures a == b <==> x == y
  {
  }

  lemma LeavesBind(c: Crypto, xs: seq<SignedTx>, ys: seq<SignedTx>)
    requires |xs| == |ys| && AllShapesValid(c, xs) && AllShapesValid(c, ys)
    requires CollisionFree(c.hash, Messages(xs) + Messages(ys))
    ensures Leaves(c.hash, xs) == Leaves(c.hash, ys) <==> Contents(xs) == Contents(ys)
  {
    var lx, ly, cx, cy := Leaves(c.hash, xs), Leaves(c.hash, ys), Contents(xs), Contents(ys);
    forall i | 0 <= i < |lx|
      ensures lx[i] == ly[i] <==> cx[i] == cy[i]
    {
      LeafBinds(c, xs, ys, i);
    }
    PointwiseEqual(lx, ly, cx, cy);
  }

  /** A transaction root and a count commit to everything that was signed: two lists of shape-valid
      transactions of one length share a root exactly when they sign the same contents in the same order,
      as long as BLAKE3 does not collide on the messages and nodes of these two lists. */
  lemma TxsRootBinds(c: Crypto, xs: seq<SignedTx>, ys: seq<SignedTx>)
    requires |xs| == |ys| && AllShapesValid(c, xs) && AllShapesValid(c, ys)
    requires CollisionFree(c.hash, Messages(xs) + Messages(ys))
    requires CollisionFree(c.hash, HashedNodes(c.hash, TX_NODE_TAG, Leaves(c.hash, xs))
                                   + HashedNodes(c.hash, TX_NODE_TAG, Leaves(c.hash, ys)))
    ensures TxsRoot(c.hash, xs) == TxsRoot(c.hash, ys) <==> Contents(xs) == Contents(ys)
  {
    TaggedRootBinds(c.hash, TX_NODE_TAG, EMPTY_TX_TAG, Leaves(c.hash, xs), Leaves(c.hash, ys));
    LeavesBind(c, xs, ys);
  }

  // ----- what sealing sees of this file -----

  /** The block operations, as sealing calls them. */
  datatype BlockFormat = BlockFormat(
    prevGen: Bytes32,
    hdrHash: BlockHdr -> Bytes32,
    txsRoot: seq<SignedTx> -> Bytes32,
    signHdr: (SigningKey, BlockHdr) -> BlockHdr)

  function FormatOf(c: Crypto): BlockFormat {
    BlockFormat(
      PrevGen(c.hash),
      h => HdrHash(c.hash, h),
      txs => TxsRoot(c.hash, txs),
      (sk: SigningKey, h: BlockHdr) => SignHdr(c, sk, h))
  }
}
