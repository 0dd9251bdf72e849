/** PoA sealing of chain.rs.

    The ledger is a type parameter with the operations that sealing calls on it, each of which may do
    anything to the ledger proper. The epoch counter and the active validator indices live beside it:
    of the code modelled here only sealing writes them. */
module Chain {
  import opened Basics
  import opened Transactions
  import opened Blocks

  const TAIL_BLOCK_CAP: nat := 1000
  const DET_SEAL_TS_BASE: u64 := 1_700_000_000

  datatype VRow = VRow(acct: AccountId, pubkey: Bytes32)

  /** The genesis parameters that sealing itself reads. */
  datatype GenCfg = GenCfg(vals: seq<VRow>, minValidatorStake: u128, epochLengthBlocks: u64)

  /** What sealing needs from the ledger. `stakeOf` is nothing when the account does not exist. */
  datatype LedgerOps<!S> = LedgerOps(
    stakeOf: (S, AccountId) -> Option<u128>,
    refundExpiredLocks: (S, u64) -> S,
    applyTx: (S, SignedTx, u64, u64) -> Result<S, TxError>,
    applyPrecheckedTx: (S, SignedTx, u64, u64) -> Result<S, TxError>,
    drainConservation: (S, u64) -> S,
    rewardProducer: (S, AccountId, u64) -> S,
    digest: (S, u64, seq<u16>) -> Bytes32)

  datatype Env<!S> = Env(fmt: BlockFormat, cfg: GenCfg, sks: seq<SigningKey>, ops: LedgerOps<S>)
  {
    /** What boot asserts about the configuration. */
    predicate Ok() { |cfg.vals| > 0 && |sks| == |cfg.vals| }
  }

  datatype ChainState<S> = ChainState(ledger: S, epochCounter: u64, active: seq<u16>)

  datatype Node<S> = Node(st: ChainState<S>, blocks: seq<Block>, height: u64)

  datatype SealEntry = Raw(tx: SignedTx) | PreValidated(tx: SignedTx, atHeight: u64)

  /** The clock reading, when there is one, or the deterministic test mode. */
  datatype SealTime = WallClock(now: Option<u64>) | DeterministicHeight

  datatype SealError = ClockUnavailable | NoActiveValidators | TxRejected(e: TxError) | ProducerMissing

  // ----- validators -----

  predicate Eligible<S>(env: Env<S>, ledger: S, i: nat)
    requires i < |env.cfg.vals|
  {
    match env.ops.stakeOf(ledger, env.cfg.vals[i].acct)
    case Some(stake) => stake >= env.cfg.minValidatorStake
    case None => false
  }

  function RecomputeFrom<S>(env: Env<S>, ledger: S, i: nat): seq<u16>
    requires i <= |env.cfg.vals|
    decreases |env.cfg.vals| - i
  {
    if i == |env.cfg.vals| then []
    else if Eligible(env, ledger, i) then [i % 0x1_0000] + RecomputeFrom(env, ledger, i + 1)
    else RecomputeFrom(env, ledger, i + 1)
  }

  /** Indices of the validators with enough stake; each is cut to 16 bits. */
  function RecomputeActive<S>(env: Env<S>, ledger: S): seq<u16> { RecomputeFrom(env, ledger, 0) }

  function PickProducer(height: u64, active: seq<u16>): Option<u32> {
    if active == [] then None else Some(active[height % |active|])
  }

  predicate IsBoundary(cfg: GenCfg, height: u64) {
    cfg.epochLengthBlocks > 0 && height % cfg.epochLengthBlocks == 0
  }

  function RollEpoch<S>(env: Env<S>, st: ChainState<S>, height: u64): ChainState<S> {
    if IsBoundary(env.cfg, height)
    then ChainState(st.ledger, SatAdd64(st.epochCounter, 1), RecomputeActive(env, st.ledger))
    else st
  }

  // ----- sealing as a function of the node -----

  function TxsOf(entries: seq<SealEntry>): (txs: seq<SignedTx>)
    ensures |txs| == |entries|
  {
    if entries == [] then [] else [entries[0].tx] + TxsOf(entries[1..])
  }

  /** An entry prevalidated at the present tip takes the fast path; a stale one is checked in full. */
  function ApplyEntry<S>(env: Env<S>, ledger: S, entry: SealEntry, tip: u64, height: u64, ts: u64): Result<S, TxError> {
    if entry.PreValidated? && entry.atHeight == tip
    then env.ops.applyPrecheckedTx(ledger, entry.tx, height, ts)
    else env.ops.applyTx(ledger, entry.tx, height, ts)
  }

  function ApplyEntries<S>(env: Env<S>, ledger: S, entries: seq<SealEntry>, tip: u64, height: u64, ts: u64): Result<S,
                           TxError>
    decreases |entries|
  {
    if entries == [] then Ok(ledger)
    else
      match ApplyEntry(env, ledger, entries[0], tip, height, ts)
      case Err(e) => Err(e)
      case Ok(next) => ApplyEntries(env, next, entries[1..], tip, height, ts)
  }

  function SealTs(time: SealTime, height: u64): Option<u64> {
    match time
    case WallClock(now) => now
    case DeterministicHeight => Some(SatAdd64(DET_SEAL_TS_BASE, height))
  }

  function TipHash(fmt: BlockFormat, blocks: seq<Block>): Bytes32 {
    if blocks == [] then fmt.prevGen else fmt.hdrHash(blocks[|blocks| - 1].hdr)
  }

  function ProdSlot<S>(env: Env<S>, prodIdx: u32): VRow
    requires env.Ok()
  {
    env.cfg.vals[prodIdx % |env.cfg.vals|]
  }

  /** The ledger after one block's work, on top of the state in force at that height. */
  function Execute<S>(env: Env<S>, st: ChainState<S>, prodIdx: u32, entries: seq<SealEntry>, tip: u64, height: u64,
                      ts: u64): Result<S, SealError>
    requires env.Ok()
  {
    match ApplyEntries(env, env.ops.refundExpiredLocks(st.ledger, height), entries, tip, height, ts)
    case Err(e) => Err(TxRejected(e))
    case Ok(applied) =>
      var drained := env.ops.drainConservation(env.ops.refundExpiredLocks(applied, height), height);
      var acct := ProdSlot(env, prodIdx).acct;
      if env.ops.stakeOf(drained, acct).None? then Err(ProducerMissing)
      else Ok(env.ops.rewardProducer(drained, acct, height))
  }

  function MakeBlock<S>(env: Env<S>, prev: Bytes32, st: ChainState<S>, prodIdx: u32, txs: seq<SignedTx>, height: u64,
                        ts: u64): Block
    requires prodIdx < |env.sks|
  {
    var digest := env.ops.digest(st.ledger, st.epochCounter, st.active);
    var unsigned := BlockHdr(height, prev, ts, prodIdx, env.fmt.txsRoot(txs), digest, ZEROS32 + ZEROS32);
    Block(env.fmt.signHdr(env.sks[prodIdx], unsigned), txs)
  }

  /** What the tail loader keeps of a block list. */
  function Tail(blocks: seq<Block>): seq<Block> {
    if |blocks| > TAIL_BLOCK_CAP then blocks[|blocks| - TAIL_BLOCK_CAP..] else blocks
  }

  predicate IndicesInRange<S>(env: Env<S>, active: seq<u16>) {
    forall i :: 0 <= i < |active| ==> active[i] < |env.cfg.vals|
  }

  /** What is needed to seal at all: every active index names a validator and its key. */
  predicate Ready<S>(env: Env<S>, node: Node<S>) { env.Ok() && IndicesInRange(env, node.st.active) }

  lemma {:induction false} RecomputeInRange<S>(env: Env<S>, ledger: S, i: nat)
    requires i <= |env.cfg.vals|
    ensures IndicesInRange(env, RecomputeFrom(env, ledger, i))
    decreases |env.cfg.vals| - i
  {
    if i < |env.cfg.vals| {
      RecomputeInRange(env, ledger, i + 1);
    }
  }

  lemma RolledInRange<S>(env: Env<S>, st: ChainState<S>, height: u64)
    requires IndicesInRange(env, st.active)
    ensures IndicesInRange(env, RollEpoch(env, st, height).active)
  {
    RecomputeInRange(env, st.ledger, 0);
  }

  /** One seal: the whole next node, or an error and nothing. The height addition aborts on overflow. */
  function Seal<S>(env: Env<S>, node: Node<S>, entries: seq<SealEntry>, time: SealTime): Result<Node<S>, SealError>
    requires Ready(env, node) && node.height < U64_MAX
  {
    var height: u64 := node.height + 1;
    match SealTs(time, height)
    case None => Err(ClockUnavailable)
    case Some(ts) =>
      RolledInRange(env, node.st, height);
      var st := RollEpoch(env, node.st, height);
      match PickProducer(height, st.active)
      case None => Err(NoActiveValidators)
      case Some(prodIdx) =>
        match Execute(env, st, prodIdx, entries, node.height, height, ts)
        case Err(e) => Err(e)
        case Ok(ledger) =>
          var sealedSt := st.(ledger := ledger);
          var block := MakeBlock(env, TipHash(env.fmt, node.blocks), sealedSt, prodIdx, TxsOf(entries), height, ts);
          Ok(Node(sealedSt, Tail(node.blocks + [block]), height))
  }

  /** The node boot builds from a genesis ledger. */
  function Boot<S>(env: Env<S>, genesis: S): Node<S> {
    Node(ChainState(genesis, 0, RecomputeActive(env, genesis)), [], 0)
  }

  lemma BootReady<S>(env: Env<S>, genesis: S)
    requires env.Ok()
    ensures Ready(env, Boot(env, genesis))
  {
    RecomputeInRange(env, genesis, 0);
  }

  lemma SealKeepsReady<S>(env: Env<S>, node: Node<S>, entries: seq<SealEntry>, time: SealTime)
    requires Ready(env, node) && node.height < U64_MAX && Seal(env, node, entries, time).Ok?
    ensures Ready(env, Seal(env, node, entries, time).value)
  {
    RolledInRange(env, node.st, node.height + 1);
  }

  // ----- sealing as the code does it -----

  class ChainNode<S> {
    const env: Env<S>
    var blocks: seq<Block>
    var canonicalH: u64
    var st: ChainState<S>

    /** Boot's assertions: as many keys as validators, at least one, and every validator funded. */
    constructor (env: Env<S>, genesis: S)
      requires env.Ok()
      requires forall i :: 0 <= i < |env.cfg.vals| ==> env.ops.stakeOf(genesis, env.cfg.vals[i].acct).Some?
      ensures this.env == env && View() == Boot(env, genesis) && Valid()
    {
      this.env := env;
      blocks := [];
      canonicalH := 0;
      st := ChainState(genesis, 0, RecomputeActive(env, genesis));
      new;
      BootReady(env, genesis);
    }

    ghost function View(): Node<S>
      reads this
    {
      Node(st, blocks, canonicalH)
    }

    ghost predicate Valid()
      reads this
    {
      Ready(env, View())
    }

    /** Applies the entries in order to a private copy of the ledger. */
    method ApplyAll(ledger: S, entries: seq<SealEntry>, height: u64, ts: u64) returns (r: Result<S, TxError>)
      ensures r == ApplyEntries(env, ledger, entries, canonicalH, height, ts)
    {
      var cur := ledger;
      var i := 0;
      while i < |entries|
        invariant 0 <= i <= |entries|
        invariant ApplyEntries(env, cur, entries[i..], canonicalH, height, ts)
          == ApplyEntries(env, ledger, entries, canonicalH, height, ts)
      {
        var step := ApplyEntry(env, cur, entries[i], canonicalH, height, ts);
        if step.Err? {
          return Err(step.error);
        }
        cur := step.value;
        assert entries[i..][1..] == entries[i + 1..];
        i := i + 1;
      }
      r := Ok(cur);
    }

    method ExecuteBlock(state: ChainState<S>, prodIdx: u32, entries: seq<SealEntry>, height: u64, ts: u64)
      returns (r: Result<S, SealError>)
      requires env.Ok()
      ensures r == Execute(env, state, prodIdx, entries, canonicalH, height, ts)
    {
      var applied := ApplyAll(env.ops.refundExpiredLocks(state.ledger, height), entries, height, ts);
      if applied.Err? { return Err(TxRejected(applied.error)); }
      var drained := env.ops.drainConservation(env.ops.refundExpiredLocks(applied.value, height), height);
      var acct := ProdSlot(env, prodIdx).acct;
      if env.ops.stakeOf(drained, acct).None? { return Err(ProducerMissing); }
      r := Ok(env.ops.rewardProducer(drained, acct, height));
    }

    method PushBlock(block: Block)
      modifies this`blocks
      ensures |old(blocks)| <= TAIL_BLOCK_CAP ==> blocks == Tail(old(blocks) + [block])
      ensures blocks == AbsorbTail(old(blocks) + [block])
    {
      blocks := blocks + [block];
      while |blocks| > TAIL_BLOCK_CAP
        invariant AbsorbTail(blocks) == AbsorbTail(old(blocks) + [block])
        decreases |blocks|
      {
        blocks := blocks[1..];
      }
      AbsorbTailIsTail(old(blocks) + [block]);
    }

    /** All or nothing: on success the node is the sealed one; on failure nothing has changed and the
        transactions come back in order. */
    method SealEntries(entries: seq<SealEntry>, time: SealTime) returns (r: Result<(), (SealError, seq<SignedTx>)>)
      requires Valid() && canonicalH < U64_MAX && |blocks| <= TAIL_BLOCK_CAP
      modifies this
      ensures Valid() && |blocks| <= TAIL_BLOCK_CAP
      ensures match Seal(env, old(View()), entries, time)
        case Ok(next) => r == Ok(()) && View() == next
        case Err(e) => r == Err((e, TxsOf(entries))) && View() == old(View())
    {
      var txs := TxsOf(entries);
      var height: u64 := canonicalH + 1;
      var clock := SealTs(time, height);
      if clock.None? { return Err((ClockUnavailable, txs)); }
      var ts := clock.value;
      var prev := TipHash(env.fmt, blocks);
      RolledInRange(env, st, height);
      var next := RollEpoch(env, st, height);
      var picked := PickProducer(height, next.active);
      if picked.None? { return Err((NoActiveValidators, txs)); }
      var prodIdx := picked.value;
      var worked := ExecuteBlock(next, prodIdx, entries, height, ts);
      if worked.Err? { return Err((worked.error, txs)); }
      next := next.(ledger := worked.value);
      var block := MakeBlock(env, prev, next, prodIdx, txs, height, ts);
      st := next;
      PushBlock(block);
      canonicalH := height;
      r := Ok(());
    }
  }

  /** Dropping from the front until the cap is met. */
  function AbsorbTail(blocks: seq<Block>): seq<Block> {
    if |blocks| > TAIL_BLOCK_CAP then AbsorbTail(blocks[1..]) else blocks
  }

  lemma {:induction false} AbsorbTailIsTail(blocks: seq<Block>)
    ensures AbsorbTail(blocks) == Tail(blocks)
  {
    if |blocks| > TAIL_BLOCK_CAP {
      AbsorbTailIsTail(blocks[1..]);
    }
  }

  /** The snapshot loader keeps exactly the last blocks up to the cap. */
  method AbsorbBlocksTail(blocks: seq<Block>) returns (dq: seq<Block>)
    ensures dq == Tail(blocks)
  {
    dq := blocks;
    while |dq| > TAIL_BLOCK_CAP
      invariant Tail(dq) == Tail(blocks)
      decreases |dq|
    {
      dq := dq[1..];
    }
  }
}
