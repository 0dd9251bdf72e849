/** No block applies one transaction twice, and so the hash of a chain's tip fixes all that was signed. */
module LedgerBlocks {
  import opened Basics
  import opened Transactions
  import opened TxMessage
  import opened TxDecoding
  import opened Ledger
  import LedgerInvariant
  import opened LedgerRuns
  import opened LedgerTurns
  import opened LedgerChain
  import opened MerkleLengths
  import opened Blocks
  import opened BlockContents
  import opened Chain
  import opened ChainRuns
  import opened ChainLaws

  // ----- every block of every run -----

  lemma {:induction false} TxOpsAt(entries: seq<SealEntry>, tip: u64, height: u64)
    ensures var ops := TxOps(entries, tip, height);
      |ops| == |entries| && OnlyTxs(ops) && forall i :: 0 <= i < |ops| ==> ops[i].tx == TxsOf(entries)[i]
  {
    if entries != [] {
      TxOpsAt(entries[1..], tip, height);
      assert TxOps(entries, tip, height)[1..] == TxOps(entries[1..], tip, height);
    }
  }

  /** So a block's transactions are well formed, and no content is signed by two of them. */
  lemma AppliedAreClean(cfg: LedgerCfg, l: Ledger, entries: seq<SealEntry>, tip: u64, height: u64)
    requires RunOps(cfg, l, TxOps(entries, tip, height)).Some?
    ensures Clean(cfg.c, TxsOf(entries))
  {
    var (ops, txs) := (TxOps(entries, tip, height), TxsOf(entries));
    TxOpsAt(entries, tip, height);
    forall i | 0 <= i < |txs|
      ensures ValidateShape(cfg.c, txs[i], false).Ok?
    {
      AppliedShapes(cfg, l, ops, i);
    }
    forall i, j | 0 <= i < j < |txs|
      ensures Contents(txs)[i] != Contents(txs)[j]
    {
      ContentsAt(txs, i);
      ContentsAt(txs, j);
      if ContentOf(txs[i]) == ContentOf(txs[j]) {
        var mid, rest := CutAt(cfg, l, ops, i);
        NeverTwiceInARow(cfg, mid, rest, j - i, txs[i], txs[j]);
        assert false;
      }
    }
  }

  lemma SealedIsClean(env: Env<Live>, cfg: LedgerCfg, rules: RewardRules, node: Node<Live>, a: Attempt, l: Ledger)
    requires RunsLedger(env, cfg, rules) && Ready(env, node) && node.height < U64_MAX
    requires node.st.ledger == Some(l) && LedgerInvariant.Inv(l) && Seal(env, node, a.entries, a.time).Ok?
    ensures Clean(cfg.c, TxsOf(a.entries))
  {
    var h := node.height + 1;
    var st := RollEpoch(env, node.st, h);
    var ts := SealTs(a.time, h).value;
    var start := env.ops.refundExpiredLocks(st.ledger, h);
    assert start == Some(RefundExpired(l, h));
    LedgerInvariant.RefundKeepsInv(l, 0, h);
    ExecutedIsLive(env, cfg, rules, st, PickProducer(h, st.active).value, a.entries, node.height, h, ts);
    EntriesRun(env, cfg, rules, start, a.entries, node.height, h, ts);
    AppliedAreClean(cfg, RefundExpired(l, h), a.entries, node.height, h);
  }

  /** A block that is sealed did not abort on the way. */
  lemma ExecutedIsLive(env: Env<Live>, cfg: LedgerCfg, rules: RewardRules, st: ChainState<Live>, prodIdx: u32,
                       entries: seq<SealEntry>, tip: u64, height: u64, ts: u64)
    requires RunsLedger(env, cfg, rules) && Execute(env, st, prodIdx, entries, tip, height, ts).Ok?
    ensures var applied := ApplyEntries(env, env.ops.refundExpiredLocks(st.ledger, height), entries, tip, height, ts);
      applied.Ok? && applied.value.Some?
  {
    var applied := ApplyEntries(env, env.ops.refundExpiredLocks(st.ledger, height), entries, tip, height, ts).value;
    var again := env.ops.refundExpiredLocks(applied, height);
    assert again == RefundLive(applied, height);
    var drained := env.ops.drainConservation(again, height);
    assert drained == DrainLive(cfg, again, height);
    var producer := ProdSlot(env, prodIdx).acct;
    assert env.ops.stakeOf(drained, producer) == StakeLive(drained, producer);
  }

  ghost predicate CleanBlocks(c: Crypto, history: seq<Block>) {
    forall i :: 0 <= i < |history| ==> Clean(c, history[i].txs)
  }

  lemma StepIsClean(env: Env<Live>, cfg: LedgerCfg, rules: RewardRules, run: Run<Live>, a: Attempt, l: Ledger)
    requires RunsLedger(env, cfg, rules) && CanStep(env, run) && CleanBlocks(cfg.c, run.history)
    requires run.node.st.ledger == Some(l) && LedgerInvariant.Inv(l)
    ensures CleanBlocks(cfg.c, ChainRuns.Step(env, run, a).history)
  {
    if Seal(env, run.node, a.entries, a.time).Ok? {
      SealedIsClean(env, cfg, rules, run.node, a, l);
      var b, ts := SealedBlock(env, run.node, a);
      assert ChainRuns.Step(env, run, a).history == run.history + [b];
    }
  }

  /** No block of any run has one content signed by two transactions. */
  lemma {:induction false} RunIsClean(env: Env<Live>, cfg: LedgerCfg, rules: RewardRules, genesis: Ledger,
                                      attempts: seq<Attempt>)
    requires RunsLedger(env, cfg, rules) && LedgerInvariant.Inv(genesis) && |attempts| <= U64_MAX
    ensures CleanBlocks(cfg.c, Replay(env, Some(genesis), attempts).history)
    decreases |attempts|
  {
    if attempts != [] {
      var last := |attempts| - 1;
      var (before, a) := (attempts[..last], attempts[last]);
      var run := Replay(env, Some(genesis), before);
      RunIsClean(env, cfg, rules, genesis, before);
      ReplayRuns(env, cfg, rules, genesis, before);
      RunKeepsInv(cfg, genesis, ReplayOps(env, rules, genesis, before));
      StepIsClean(env, cfg, rules, run, a, run.node.st.ledger.value);
    }
  }

  // ----- what the tip fixes -----

  ghost function AllHashedFor(hash: Hasher, history: seq<Block>): set<seq<byte>> {
    set b, x | b in history && x in HashedFor(hash, b.txs) :: x
  }

  ghost predicate BlocksToldApart(hash: Hasher, g: seq<Block>, h: seq<Block>) {
    forall i :: 0 <= i < |g| && i < |h| ==> ToldApart(hash, g[i].txs, h[i].txs)
  }

  lemma BlockFixed(c: Crypto, g: seq<Block>, h: seq<Block>, i: nat)
    requires i < |g| == |h| && TxsRoot(c.hash, g[i].txs) == TxsRoot(c.hash, h[i].txs)
    requires CleanBlocks(c, g) && CleanBlocks(c, h) && BlocksToldApart(c.hash, g, h)
    requires CollisionFree(c.hash, AllHashedFor(c.hash, g) + AllHashedFor(c.hash, h))
    ensures Contents(g[i].txs) == Contents(h[i].txs)
  {
    assert g[i] in g && h[i] in h;
    FewerCollide(c.hash, HashedFor(c.hash, g[i].txs) + HashedFor(c.hash, h[i].txs),
                 AllHashedFor(c.hash, g) + AllHashedFor(c.hash, h));
    RootFixesContents(c, g[i].txs, h[i].txs);
  }

  /** The tip hash commits to everything that was ever signed: two linked histories of clean blocks, as any
      runs of the chain have them, with one tip hash have the same contents in the same order, as long as
      BLAKE3 does not collide on what they hashed and their leaves are told apart from inner nodes. */
  lemma TipFixesContents(c: Crypto, g: seq<Block>, h: seq<Block>)
    requires Linked(c, g) && Linked(c, h) && g != [] && h != [] && CleanBlocks(c, g) && CleanBlocks(c, h)
    requires HdrHash(c.hash, g[|g| - 1].hdr) == HdrHash(c.hash, h[|h| - 1].hdr)
    requires CollisionFree(c.hash, HashedHeaders(g) + HashedHeaders(h))
    requires CollisionFree(c.hash, AllHashedFor(c.hash, g) + AllHashedFor(c.hash, h))
    requires BlocksToldApart(c.hash, g, h)
    ensures |g| == |h| && forall i :: 0 <= i < |g| ==> Contents(g[i].txs) == Contents(h[i].txs)
  {
    TipBindsHistory(c, g, h);
    assert |g| == |Headers(g)| == |h|;
    forall i | 0 <= i < |g|
      ensures Contents(g[i].txs) == Contents(h[i].txs)
    {
      assert Headers(g)[i] == g[i].hdr && Headers(h)[i] == h[i].hdr;
      assert LinkedAt(c, g, i) && LinkedAt(c, h, i);
      BlockFixed(c, g, h, i);
    }
  }
}
