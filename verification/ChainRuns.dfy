/** What holds after any run of a chain: boot, then any sequence of seal attempts, failed ones included. */
module ChainRuns {
  import opened Basics
  import opened Division
  import opened Transactions
  import opened Blocks
  import opened Chain

  datatype Attempt = Attempt(entries: seq<SealEntry>, time: SealTime)

  /** A node with its full past: every block sealed, and the ledger as it stood before each of them. */
  datatype Run<S> = Run(node: Node<S>, history: seq<Block>, before: seq<S>)

  predicate CanStep<S>(env: Env<S>, run: Run<S>) {
    Ready(env, run.node) && run.node.height < U64_MAX
  }

  function Step<S>(env: Env<S>, run: Run<S>, a: Attempt): Run<S>
    requires CanStep(env, run)
  {
    match Seal(env, run.node, a.entries, a.time)
    case Err(_) => run
    case Ok(next) =>
      SealAddsBlock(env, run.node, a.entries, a.time);
      Run(next, run.history + [next.blocks[|next.blocks| - 1]], run.before + [run.node.st.ledger])
  }

  lemma SealAddsBlock<S>(env: Env<S>, node: Node<S>, entries: seq<SealEntry>, time: SealTime)
    requires Ready(env, node) && node.height < U64_MAX && Seal(env, node, entries, time).Ok?
    ensures Seal(env, node, entries, time).value.blocks != []
  {
  }

  function Replay<S>(env: Env<S>, genesis: S, attempts: seq<Attempt>): (run: Run<S>)
    requires env.Ok() && |attempts| <= U64_MAX
    ensures Ready(env, run.node) && run.node.height <= |attempts|
    decreases |attempts|
  {
    if attempts == [] then
      BootReady(env, genesis);
      Run(Boot(env, genesis), [], [])
    else
      var last := |attempts| - 1;
      var run := Replay(env, genesis, attempts[..last]);
      StepKeepsReady(env, run, attempts[last]);
      Step(env, run, attempts[last])
  }

  lemma StepKeepsReady<S>(env: Env<S>, run: Run<S>, a: Attempt)
    requires CanStep(env, run)
    ensures Ready(env, Step(env, run, a).node) && Step(env, run, a).node.height <= run.node.height + 1
  {
    if Seal(env, run.node, a.entries, a.time).Ok? {
      SealKeepsReady(env, run.node, a.entries, a.time);
    }
  }

  /** The transactions of a history, block after block. */
  function HistoryTxs(history: seq<Block>): seq<SignedTx> {
    if history == [] then [] else HistoryTxs(history[..|history| - 1]) + history[|history| - 1].txs
  }

  lemma HistoryGrows(history: seq<Block>, b: Block)
    ensures HistoryTxs(history + [b]) == HistoryTxs(history) + b.txs
  {
    assert (history + [b])[..|history|] == history;
  }

  // ----- the invariant -----

  /** The last boundary at or below `height`; zero is genesis. */
  function Boundary(cfg: GenCfg, height: nat): (b: nat)
    ensures b <= height
  {
    if cfg.epochLengthBlocks == 0 then 0
    else
      DivBounds(height, cfg.epochLengthBlocks);
      MulNat(cfg.epochLengthBlocks, height / cfg.epochLengthBlocks);
      cfg.epochLengthBlocks * (height / cfg.epochLengthBlocks)
  }

  function EpochOf(cfg: GenCfg, height: nat): (epoch: nat)
    ensures epoch <= height
  {
    if cfg.epochLengthBlocks == 0 then 0
    else
      DivBounds(height, cfg.epochLengthBlocks);
      MulMono(1, cfg.epochLengthBlocks, height / cfg.epochLengthBlocks);
      height / cfg.epochLengthBlocks
  }

  /** The ledger that fixes the validator set in force at `height`: the one just before the last
      boundary block, or genesis when there has been none. */
  function DecidingLedger<S>(env: Env<S>, genesis: S, before: seq<S>, height: nat): S
    requires Boundary(env.cfg, height) <= |before|
  {
    var b := Boundary(env.cfg, height);
    if b == 0 then genesis else before[b - 1]
  }

  function ActiveAt<S>(env: Env<S>, genesis: S, before: seq<S>, height: nat): seq<u16>
    requires Boundary(env.cfg, height) <= |before|
  {
    RecomputeActive(env, DecidingLedger(env, genesis, before, height))
  }

  /** Block `i` of the history, counting from zero, is well placed: its height, its link to the block
      before it, its commitment to its own transactions, and its producer's turn and signature. */
  ghost predicate Placed<S>(env: Env<S>, genesis: S, run: Run<S>, accepts: (Bytes32, BlockHdr) -> bool, i: nat)
    requires env.Ok() && i < |run.history| == |run.before|
  {
    var b := run.history[i];
    && b.hdr.height == i + 1
    && b.hdr.prevHash == TipHash(env.fmt, run.history[..i])
    && b.hdr.txRoot == env.fmt.txsRoot(b.txs)
    && PickProducer(i + 1, ActiveAt(env, genesis, run.before, i + 1)) == Some(b.hdr.prodIdx)
    && b.hdr.prodIdx < |env.cfg.vals|
    && accepts(ProdSlot(env, b.hdr.prodIdx).pubkey, b.hdr)
  }

  /** The node against its past: heights and tail, and the epoch in force. */
  ghost predicate Current<S>(env: Env<S>, genesis: S, run: Run<S>) {
    && |run.before| == |run.history| == run.node.height
    && run.node.blocks == Tail(run.history)
    && run.node.st.epochCounter == EpochOf(env.cfg, run.node.height)
    && run.node.st.active == ActiveAt(env, genesis, run.before, run.node.height)
    && IndicesInRange(env, run.node.st.active)
  }

  ghost predicate AllPlaced<S>(env: Env<S>, genesis: S, run: Run<S>, accepts: (Bytes32, BlockHdr) -> bool)
    requires env.Ok() && |run.history| == |run.before|
  {
    forall i :: 0 <= i < |run.history| ==> Placed(env, genesis, run, accepts, i)
  }

  ghost predicate Inv<S>(env: Env<S>, genesis: S, run: Run<S>, accepts: (Bytes32, BlockHdr) -> bool) {
    env.Ok() && Current(env, genesis, run) && AllPlaced(env, genesis, run, accepts)
  }

  /** Signing a header changes only its signature, and the validator's public key accepts it. */
  ghost predicate KeysMatch<S>(env: Env<S>, accepts: (Bytes32, BlockHdr) -> bool) {
    && env.Ok()
    && (forall sk, h :: env.fmt.signHdr(sk, h).(sig := h.sig) == h)
    && (forall i, h :: 0 <= i < |env.sks| ==> accepts(env.cfg.vals[i].pubkey, env.fmt.signHdr(env.sks[i], h)))
  }

  // ----- one step keeps it -----

  lemma BoundaryStep(cfg: GenCfg, height: nat)
    requires height < U64_MAX
    ensures IsBoundary(cfg, height + 1) ==>
      Boundary(cfg, height + 1) == height + 1 && EpochOf(cfg, height + 1) == EpochOf(cfg, height) + 1
    ensures !IsBoundary(cfg, height + 1) ==>
      Boundary(cfg, height + 1) == Boundary(cfg, height) && EpochOf(cfg, height + 1) == EpochOf(cfg, height)
  {
    if cfg.epochLengthBlocks > 0 {
      DivStep(height, cfg.epochLengthBlocks);
    }
  }

  /** The state after the roll is the one the next height calls for. */
  lemma RollIsActiveAt<S>(env: Env<S>, genesis: S, run: Run<S>)
    requires env.Ok() && Current(env, genesis, run) && run.node.height < U64_MAX
    ensures var h := run.node.height + 1;
      var st := RollEpoch(env, run.node.st, h);
      && Boundary(env.cfg, h) <= h
      && st.epochCounter == EpochOf(env.cfg, h)
      && st.active == ActiveAt(env, genesis, run.before + [run.node.st.ledger], h)
  {
    BoundaryStep(env.cfg, run.node.height);
  }

  lemma TipOfTail(fmt: BlockFormat, blocks: seq<Block>)
    ensures TipHash(fmt, Tail(blocks)) == TipHash(fmt, blocks)
  {
  }

  lemma TailOfTail(blocks: seq<Block>, b: Block)
    ensures Tail(Tail(blocks) + [b]) == Tail(blocks + [b])
    ensures Tail(blocks + [b])[|Tail(blocks + [b])| - 1] == b
  {
  }

  /** A successful seal, spelled out. */
  lemma SealedBlock<S>(env: Env<S>, node: Node<S>, a: Attempt) returns (b: Block, ts: u64)
    requires Ready(env, node) && node.height < U64_MAX && Seal(env, node, a.entries, a.time).Ok?
    ensures var next := Seal(env, node, a.entries, a.time).value;
      var rolled := RollEpoch(env, node.st, node.height + 1);
      && next.height == node.height + 1
      && next.blocks == Tail(node.blocks + [b])
      && next.st.epochCounter == rolled.epochCounter && next.st.active == rolled.active
      && IndicesInRange(env, rolled.active)
      && SealTs(a.time, node.height + 1) == Some(ts)
      && PickProducer(node.height + 1, rolled.active).Some?
      && PickProducer(node.height + 1, rolled.active).value < |env.sks|
      && b == MakeBlock(env, TipHash(env.fmt, node.blocks), next.st,
                        PickProducer(node.height + 1, rolled.active).value, TxsOf(a.entries), node.height + 1, ts)
  {
    RolledInRange(env, node.st, node.height + 1);
    ts := SealTs(a.time, node.height + 1).value;
    var prodIdx := PickProducer(node.height + 1, RollEpoch(env, node.st, node.height + 1).active).value;
    var next := Seal(env, node, a.entries, a.time).value;
    b := MakeBlock(env, TipHash(env.fmt, node.blocks), next.st, prodIdx, TxsOf(a.entries), node.height + 1, ts);
  }

  /** The header of a made block carries what it was made from. */
  lemma MadeHeader<S>(env: Env<S>, prev: Bytes32, st: ChainState<S>, prodIdx: u32, txs: seq<SignedTx>, height: u64,
                      ts: u64,
                      accepts: (Bytes32, BlockHdr) -> bool)
    requires KeysMatch(env, accepts) && prodIdx < |env.sks|
    ensures var b := MakeBlock(env, prev, st, prodIdx, txs, height, ts);
      && b.txs == txs && b.hdr.height == height && b.hdr.prevHash == prev && b.hdr.prodIdx == prodIdx
      && b.hdr.txRoot == env.fmt.txsRoot(txs) && b.hdr.ts == ts
      && b.hdr.stateRoot == env.ops.digest(st.ledger, st.epochCounter, st.active)
      && accepts(env.cfg.vals[prodIdx].pubkey, b.hdr)
  {
  }

  lemma PlacedStays<S>(env: Env<S>, genesis: S, run: Run<S>, next: Run<S>, accepts: (Bytes32, BlockHdr) -> bool, i: nat)
    requires env.Ok() && i < |run.history| == |run.before| && Placed(env, genesis, run, accepts, i)
    requires |next.history| == |next.before| == |run.history| + 1
    requires next.history[..|run.history|] == run.history && next.before[..|run.before|] == run.before
    ensures Placed(env, genesis, next, accepts, i)
  {
  }

  lemma StepKeepsInv<S>(env: Env<S>, genesis: S, run: Run<S>, a: Attempt, accepts: (Bytes32, BlockHdr) -> bool)
    requires Inv(env, genesis, run, accepts) && KeysMatch(env, accepts) && run.node.height < U64_MAX
    ensures Inv(env, genesis, Step(env, run, a), accepts)
  {
    if Seal(env, run.node, a.entries, a.time).Ok? {
      SealKeepsInv(env, genesis, run, a, accepts);
    }
  }

  lemma StepIsCurrent<S>(env: Env<S>, genesis: S, run: Run<S>, next: Run<S>, b: Block)
    requires env.Ok() && Current(env, genesis, run) && run.node.height < U64_MAX
    requires next.node.height == run.node.height + 1 && next.node.blocks == Tail(run.node.blocks + [b])
    requires next.history == run.history + [next.node.blocks[|next.node.blocks| - 1]]
    requires next.before == run.before + [run.node.st.ledger]
    requires var rolled := RollEpoch(env, run.node.st, run.node.height + 1);
      next.node.st.epochCounter == rolled.epochCounter && next.node.st.active == rolled.active
      && IndicesInRange(env, rolled.active)
    ensures next.history == run.history + [b] && Current(env, genesis, next)
    ensures next.node.st.active == ActiveAt(env, genesis, next.before, |next.history|)
  {
    TailOfTail(run.history, b);
    RollIsActiveAt(env, genesis, run);
  }

  /** What a successful seal adds to a run: the block, and the active set that chose its producer. */
  lemma SealGrows<S>(env: Env<S>, genesis: S, run: Run<S>, a: Attempt, accepts: (Bytes32, BlockHdr) -> bool)
    returns (b: Block, active: seq<u16>)
    requires Current(env, genesis, run) && KeysMatch(env, accepts) && run.node.height < U64_MAX
    requires Ready(env, run.node) && Seal(env, run.node, a.entries, a.time).Ok?
    ensures var next := Step(env, run, a);
      && Current(env, genesis, next) && next.history == run.history + [b]
      && next.before == run.before + [run.node.st.ledger]
      && Boundary(env.cfg, |next.history|) <= |next.before|
      && active == ActiveAt(env, genesis, next.before, |next.history|)
    ensures b.hdr.height == run.node.height + 1 && b.hdr.prevHash == TipHash(env.fmt, run.node.blocks)
    ensures b.hdr.txRoot == env.fmt.txsRoot(b.txs) && b.txs == TxsOf(a.entries)
    ensures match a.time
      case WallClock(now) => now == Some(b.hdr.ts)
      case DeterministicHeight => b.hdr.ts == Min(1_700_000_000 + b.hdr.height, U64_MAX)
    ensures PickProducer(b.hdr.height, active) == Some(b.hdr.prodIdx) && b.hdr.prodIdx < |env.cfg.vals|
    ensures accepts(env.cfg.vals[b.hdr.prodIdx].pubkey, b.hdr)
    ensures var st := Step(env, run, a).node.st;
      b.hdr.stateRoot == env.ops.digest(st.ledger, st.epochCounter, st.active)
  {
    var ts;
    b, ts := SealedBlock(env, run.node, a);
    var next := Step(env, run, a);
    var h := run.node.height + 1;
    active := RollEpoch(env, run.node.st, h).active;
    StepIsCurrent(env, genesis, run, next, b);
    var prodIdx := PickProducer(h, active).value;
    MadeHeader(env, TipHash(env.fmt, run.node.blocks), next.node.st, prodIdx, TxsOf(a.entries), h, ts, accepts);
  }

  lemma GrownKeepsInv<S>(env: Env<S>, genesis: S, run: Run<S>, next: Run<S>, accepts: (Bytes32, BlockHdr) -> bool,
                         b: Block, active: seq<u16>)
    requires Inv(env, genesis, run, accepts) && Current(env, genesis, next)
    requires next.history == run.history + [b] && next.before == run.before + [run.node.st.ledger]
    requires Boundary(env.cfg, |next.history|) <= |next.before|
    requires active == ActiveAt(env, genesis, next.before, |next.history|)
    requires b.hdr.height == |next.history| && b.hdr.prevHash == TipHash(env.fmt, Tail(run.history))
    requires b.hdr.txRoot == env.fmt.txsRoot(b.txs)
    requires PickProducer(b.hdr.height, active) == Some(b.hdr.prodIdx)
    requires b.hdr.prodIdx < |env.cfg.vals| && accepts(env.cfg.vals[b.hdr.prodIdx].pubkey, b.hdr)
    ensures Inv(env, genesis, next, accepts)
  {
    NewBlockPlaced(env, genesis, run, next, accepts, b, active);
    AllStillPlaced(env, genesis, run, next, accepts);
  }

  lemma SealKeepsInv<S>(env: Env<S>, genesis: S, run: Run<S>, a: Attempt, accepts: (Bytes32, BlockHdr) -> bool)
    requires Inv(env, genesis, run, accepts) && KeysMatch(env, accepts) && run.node.height < U64_MAX
    requires Seal(env, run.node, a.entries, a.time).Ok?
    ensures Inv(env, genesis, Step(env, run, a), accepts)
  {
    var b, active := SealGrows(env, genesis, run, a, accepts);
    GrownKeepsInv(env, genesis, run, Step(env, run, a), accepts, b, active);
  }

  lemma AllStillPlaced<S>(env: Env<S>, genesis: S, run: Run<S>, next: Run<S>, accepts: (Bytes32, BlockHdr) -> bool)
    requires env.Ok() && |run.history| == |run.before| && AllPlaced(env, genesis, run, accepts)
    requires |next.history| == |next.before| == |run.history| + 1
    requires next.history[..|run.history|] == run.history && next.before[..|run.before|] == run.before
    requires Placed(env, genesis, next, accepts, |run.history|)
    ensures AllPlaced(env, genesis, next, accepts)
  {
    forall i | 0 <= i < |run.history|
      ensures Placed(env, genesis, next, accepts, i)
    {
      PlacedStays(env, genesis, run, next, accepts, i);
    }
  }

  lemma NewBlockPlaced<S>(env: Env<S>, genesis: S, run: Run<S>, next: Run<S>, accepts: (Bytes32, BlockHdr) -> bool,
                          b: Block, active: seq<u16>)
    requires env.Ok() && |run.history| == |run.before| && next.history == run.history + [b]
    requires |next.before| == |next.history| && Boundary(env.cfg, |next.history|) <= |next.before|
    requires active == ActiveAt(env, genesis, next.before, |next.history|)
    requires b.hdr.height == |next.history| && b.hdr.prevHash == TipHash(env.fmt, Tail(run.history))
    requires b.hdr.txRoot == env.fmt.txsRoot(b.txs)
    requires PickProducer(b.hdr.height, active) == Some(b.hdr.prodIdx)
    requires b.hdr.prodIdx < |env.cfg.vals| && accepts(env.cfg.vals[b.hdr.prodIdx].pubkey, b.hdr)
    ensures Placed(env, genesis, next, accepts, |run.history|)
  {
    TipOfTail(env.fmt, run.history);
    assert next.history[..|run.history|] == run.history;
    DivUnique(b.hdr.prodIdx, |env.cfg.vals|, 0, b.hdr.prodIdx);
  }

  /** Every run keeps the invariant. */
  lemma {:induction false} ReplayInv<S>(env: Env<S>, genesis: S, attempts: seq<Attempt>,
                                        accepts: (Bytes32, BlockHdr) -> bool)
    requires KeysMatch(env, accepts) && |attempts| <= U64_MAX
    ensures Inv(env, genesis, Replay(env, genesis, attempts), accepts)
    decreases |attempts|
  {
    if attempts == [] {
      BootReady(env, genesis);
      assert Boundary(env.cfg, 0) == 0;
    } else {
      var last := |attempts| - 1;
      ReplayInv(env, genesis, attempts[..last], accepts);
      StepKeepsInv(env, genesis, Replay(env, genesis, attempts[..last]), attempts[last], accepts);
    }
  }
}
