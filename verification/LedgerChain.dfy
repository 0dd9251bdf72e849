/** The chain of Chain run on the ledger of Ledger: block rewards, and the laws of the ledger
    carried to every node that boot and seals can reach. */
module LedgerChain {
  import opened Basics
  import opened Transactions
  import opened TxMessage
  import opened Ledger
  import opened LedgerInvariant
  import opened LedgerSupply
  import opened LedgerRuns
  import opened LedgerExports
  import opened LedgerPolicies
  import opened LedgerRules
  import opened LedgerBooks
  import opened LedgerGenesis
  import opened Blocks
  import opened Chain
  import opened ChainRuns

  // ----- the block reward -----

  datatype RewardRules = RewardRules(
    legacy: bool, blockReward: u128, seasonCoeffPpm: u64, baseEmission: u128, pwmStakeMin: u128)
  {
    function BlockReward(): u128 {
      if seasonCoeffPpm == 0 then blockReward else SatMul128(baseEmission, seasonCoeffPpm) / 1_000_000
    }

    /** The present policy scales the reward by a season of one, saturating on the way. */
    function Amount(): u128 { if legacy then blockReward else SatMul128(BlockReward(), 1_000_000) / 1_000_000 }

    function StakeMin(): u128 { if legacy then 0 else pwmStakeMin }
  }

  /** The season of one changes nothing if and only if the scaled reward fits 128 bits. */
  lemma SeasonOfOne(r: RewardRules)
    requires !r.legacy
    ensures r.Amount() == r.BlockReward() <==> r.BlockReward() * 1_000_000 <= U128_MAX
  {
  }

  /** A reward that the season cuts. */
  lemma SeasonCuts() returns (r: RewardRules)
    ensures !r.legacy && r.BlockReward() == U128_MAX && r.Amount() == U128_MAX / 1_000_000
  {
    r := RewardRules(false, U128_MAX, 0, 0, 0);
  }

  /** With a season coefficient the reward is that many millionths of the base emission, rounded down. */
  lemma SeasonShare(r: RewardRules)
    requires r.seasonCoeffPpm > 0 && r.baseEmission * r.seasonCoeffPpm <= U128_MAX
    ensures r.BlockReward() * 1_000_000 <= r.baseEmission * r.seasonCoeffPpm < (r.BlockReward() + 1) * 1_000_000
  {
  }

  // ----- the ledger as the chain calls it -----

  /** A ledger that is gone stands for an aborted process: no operation brings it back, and no seal on it
      succeeds. */
  type Live = Option<Ledger>

  function ApplyLive(cfg: LedgerCfg, live: Live, tx: SignedTx, height: u64, checked: bool): Result<Live, TxError> {
    match live
    case None => Ok(None)
    case Some(l) =>
      match ApplyTx(cfg, l, tx, height, checked)
      case Applied(next) => Ok(Some(next))
      case Rejected(_, e) => Err(e)
      case Aborted => Ok(None)
  }

  function StakeLive(live: Live, id: AccountId): Option<u128> {
    if live.Some? && id in live.value.accounts then Some(live.value.accounts[id].staked) else None
  }

  function RefundLive(live: Live, height: u64): Live
  {
    match live case Some(l) => Some(RefundExpired(l, height)) case None => None
  }

  function DrainLive(cfg: LedgerCfg, live: Live, height: u64): Live
  {
    match live case Some(l) => Drain(cfg, l, height) case None => None
  }

  function RewardLive(rules: RewardRules, live: Live, producer: AccountId): Live {
    match live case Some(l) => Some(Reward(l, producer, rules.Amount(), rules.StakeMin())) case None => None
  }

  ghost predicate RunsLedger(env: Env<Live>, cfg: LedgerCfg, rules: RewardRules) {
    && env.Ok()
    && (forall live, id :: env.ops.stakeOf(live, id) == StakeLive(live, id))
    && (forall live, height :: env.ops.refundExpiredLocks(live, height) == RefundLive(live, height))
    && (forall live, tx, height, ts :: env.ops.applyTx(live, tx, height, ts) == ApplyLive(cfg, live, tx, height, true))
    && (forall live, tx, height, ts ::
          env.ops.applyPrecheckedTx(live, tx, height, ts) == ApplyLive(cfg, live, tx, height, false))
    && (forall live, height :: env.ops.drainConservation(live, height) == DrainLive(cfg, live, height))
    && (forall live, id, height :: env.ops.rewardProducer(live, id, height) == RewardLive(rules, live, id))
  }

  /** The operations themselves, for any digest of the state. */
  function LiveOps(cfg: LedgerCfg, rules: RewardRules, digest: (Live, u64, seq<u16>) -> Bytes32): LedgerOps<Live> {
    LedgerOps(
      (live: Live, id: AccountId) => StakeLive(live, id),
      (live: Live, height: u64) => RefundLive(live, height),
      (live: Live, tx: SignedTx, height: u64, ts: u64) => ApplyLive(cfg, live, tx, height, true),
      (live: Live, tx: SignedTx, height: u64, ts: u64) => ApplyLive(cfg, live, tx, height, false),
      (live: Live, height: u64) => DrainLive(cfg, live, height),
      (live: Live, id: AccountId, height: u64) => RewardLive(rules, live, id),
      digest)
  }

  lemma LiveOpsRun(env: Env<Live>, cfg: LedgerCfg, rules: RewardRules)
    requires env.Ok() && env.ops == LiveOps(cfg, rules, env.ops.digest)
    ensures RunsLedger(env, cfg, rules)
  {
  }

  function TxOps(entries: seq<SealEntry>, tip: u64, height: u64): seq<Op> {
    if entries == [] then []
    else
      var e := entries[0];
      [Apply(e.tx, height, !(e.PreValidated? && e.atHeight == tip))] + TxOps(entries[1..], tip, height)
  }

  /** A block's work as a run of the ledger. */
  function BlockOps(rules: RewardRules, producer: AccountId, entries: seq<SealEntry>, tip: u64, height: u64): seq<Op> {
    [Refund(height)] + TxOps(entries, tip, height)
    + [Refund(height), DrainDue(height), Pay(producer, rules.Amount(), rules.StakeMin())]
  }

  /** The entries of a block, applied in order, are a run; an abort leaves nothing, here and there. */
  lemma {:induction false} EntriesRun(env: Env<Live>, cfg: LedgerCfg, rules: RewardRules, live: Live,
                                      entries: seq<SealEntry>, tip: u64, height: u64, ts: u64)
    requires RunsLedger(env, cfg, rules) && ApplyEntries(env, live, entries, tip, height, ts).Ok?
    ensures var next := ApplyEntries(env, live, entries, tip, height, ts).value;
      if live.Some? then RunOps(cfg, live.value, TxOps(entries, tip, height)) == next else next.None?
    decreases |entries|
  {
    if entries != [] {
      var mid := ApplyEntry(env, live, entries[0], tip, height, ts).value;
      var checked := !(entries[0].PreValidated? && entries[0].atHeight == tip);
      assert mid == ApplyLive(cfg, live, entries[0].tx, height, checked).value;
      EntriesRun(env, cfg, rules, mid, entries[1..], tip, height, ts);
      assert TxOps(entries, tip, height)[1..] == TxOps(entries[1..], tip, height);
    }
  }

  lemma TailOps(cfg: LedgerCfg, rules: RewardRules, producer: AccountId, l: Ledger, height: u64)
    ensures RunOps(cfg, l, [Refund(height), DrainDue(height), Pay(producer, rules.Amount(), rules.StakeMin())])
      == match Drain(cfg, RefundExpired(l, height), height)
         case Some(drained) => Some(Reward(drained, producer, rules.Amount(), rules.StakeMin()))
         case None => None
  {
    var pay := Pay(producer, rules.Amount(), rules.StakeMin());
    var refunded := RefundExpired(l, height);
    assert [Refund(height), DrainDue(height), pay][1..] == [DrainDue(height), pay];
    assert [DrainDue(height), pay][1..] == [pay] && [pay][1..] == [];
    assert RunOps(cfg, l, [Refund(height), DrainDue(height), pay]) == RunOps(cfg, refunded, [DrainDue(height), pay]);
    match Drain(cfg, refunded, height) {
      case None =>
      case Some(drained) =>
        assert RunOps(cfg, refunded, [DrainDue(height), pay]) == RunOps(cfg, drained, [pay]);
        var paid := Reward(drained, producer, rules.Amount(), rules.StakeMin());
        assert RunOps(cfg, drained, [pay]) == RunOps(cfg, paid, []);
    }
  }

  /** A sealed block's ledger is the run of the block's operations. */
  lemma BlockRuns(env: Env<Live>, cfg: LedgerCfg, rules: RewardRules, st: ChainState<Live>, prodIdx: u32,
                  entries: seq<SealEntry>, tip: u64, height: u64, ts: u64)
    requires RunsLedger(env, cfg, rules) && Execute(env, st, prodIdx, entries, tip, height, ts).Ok?
    ensures var next := Execute(env, st, prodIdx, entries, tip, height, ts).value;
      && next.Some? && st.ledger.Some?
      && RunOps(cfg, st.ledger.value, BlockOps(rules, ProdSlot(env, prodIdx).acct, entries, tip, height)) == next
  {
    var start := env.ops.refundExpiredLocks(st.ledger, height);
    assert start == RefundLive(st.ledger, height);
    var applied := ApplyEntries(env, start, entries, tip, height, ts).value;
    var producer := ProdSlot(env, prodIdx).acct;
    var again := env.ops.refundExpiredLocks(applied, height);
    assert again == RefundLive(applied, height);
    var drained := env.ops.drainConservation(again, height);
    assert drained == DrainLive(cfg, again, height);
    assert env.ops.stakeOf(drained, producer) == StakeLive(drained, producer);
    assert env.ops.rewardProducer(drained, producer, height) == RewardLive(rules, drained, producer);
    EntriesRun(env, cfg, rules, start, entries, tip, height, ts);
    BlockRunsFrom(cfg, rules, producer, st.ledger.value, applied.value, entries, tip, height);
  }

  lemma BlockRunsFrom(cfg: LedgerCfg, rules: RewardRules, producer: AccountId, l: Ledger, applied: Ledger,
                      entries: seq<SealEntry>, tip: u64, height: u64)
    requires RunOps(cfg, RefundExpired(l, height), TxOps(entries, tip, height)) == Some(applied)
    requires Drain(cfg, RefundExpired(applied, height), height).Some?
    ensures RunOps(cfg, l, BlockOps(rules, producer, entries, tip, height))
      == Some(Reward(Drain(cfg, RefundExpired(applied, height), height).value,
                     producer, rules.Amount(), rules.StakeMin()))
  {
    var txs := TxOps(entries, tip, height);
    var rest := [Refund(height), DrainDue(height), Pay(producer, rules.Amount(), rules.StakeMin())];
    assert [Refund(height)] + txs + rest == [Refund(height)] + (txs + rest);
    assert ([Refund(height)] + (txs + rest))[1..] == txs + rest;
    RunConcat(cfg, RefundExpired(l, height), txs, rest);
    TailOps(cfg, rules, producer, applied, height);
  }

  // ----- every run of the chain -----

  /** The ledger work of one seal. */
  function SealOps(env: Env<Live>, rules: RewardRules, node: Node<Live>, a: Attempt): seq<Op>
    requires Ready(env, node) && node.height < U64_MAX
  {
    match PickProducer(node.height + 1, RollEpoch(env, node.st, node.height + 1).active)
    case None => []
    case Some(prodIdx) => BlockOps(rules, ProdSlot(env, prodIdx).acct, a.entries, node.height, node.height + 1)
  }

  lemma SealRuns(env: Env<Live>, cfg: LedgerCfg, rules: RewardRules, node: Node<Live>, a: Attempt)
    requires RunsLedger(env, cfg, rules) && Ready(env, node) && node.height < U64_MAX
    requires Seal(env, node, a.entries, a.time).Ok?
    ensures var next := Seal(env, node, a.entries, a.time).value.st.ledger;
      && node.st.ledger.Some? && next.Some?
      && RunOps(cfg, node.st.ledger.value, SealOps(env, rules, node, a)) == next
  {
    var h := node.height + 1;
    var st := RollEpoch(env, node.st, h);
    var prodIdx := PickProducer(h, st.active).value;
    BlockRuns(env, cfg, rules, st, prodIdx, a.entries, node.height, h, SealTs(a.time, h).value);
  }

  /** The ledger work of a whole run: what its successful seals did. */
  ghost function ReplayOps(env: Env<Live>, rules: RewardRules, genesis: Ledger, attempts: seq<Attempt>): seq<Op>
    requires env.Ok() && |attempts| <= U64_MAX
    decreases |attempts|
  {
    if attempts == [] then []
    else
      var last := |attempts| - 1;
      var node := Replay(env, Some(genesis), attempts[..last]).node;
      ReplayOps(env, rules, genesis, attempts[..last])
      + (if Seal(env, node, attempts[last].entries, attempts[last].time).Ok?
         then SealOps(env, rules, node, attempts[last]) else [])
  }

  function TxsIn(ops: seq<Op>): seq<SignedTx> {
    if ops == [] then [] else (if ops[0].Apply? then [ops[0].tx] else []) + TxsIn(ops[1..])
  }

  lemma {:induction false} TxsInConcat(xs: seq<Op>, ys: seq<Op>)
    ensures TxsIn(xs + ys) == TxsIn(xs) + TxsIn(ys)
    decreases |xs|
  {
    if xs == [] {
      assert xs + ys == ys;
    } else {
      assert (xs + ys)[0] == xs[0] && (xs + ys)[1..] == xs[1..] + ys;
      TxsInConcat(xs[1..], ys);
    }
  }

  lemma {:induction false} TxsInEntries(entries: seq<SealEntry>, tip: u64, height: u64)
    ensures TxsIn(TxOps(entries, tip, height)) == TxsOf(entries)
  {
    if entries != [] {
      TxsInEntries(entries[1..], tip, height);
      assert TxOps(entries, tip, height)[1..] == TxOps(entries[1..], tip, height);
    }
  }

  lemma TxsInBlock(rules: RewardRules, producer: AccountId, entries: seq<SealEntry>, tip: u64, height: u64)
    ensures TxsIn(BlockOps(rules, producer, entries, tip, height)) == TxsOf(entries)
  {
    var rest := [Refund(height), DrainDue(height), Pay(producer, rules.Amount(), rules.StakeMin())];
    TxsInConcat([Refund(height)] + TxOps(entries, tip, height), rest);
    TxsInConcat([Refund(height)], TxOps(entries, tip, height));
    TxsInEntries(entries, tip, height);
    assert rest[1..][1..][1..] == [] && TxsIn(rest[1..][1..]) == [] && TxsIn(rest[1..]) == [] && TxsIn(rest) == [];
    assert [Refund(height)][1..] == [] && TxsIn([Refund(height)]) == [];
  }

  /** The ledger of every node is genesis with the work of its blocks done on it, and that work applies
      exactly the transactions of the chain's history, in order. */
  lemma {:induction false} ReplayRuns(env: Env<Live>, cfg: LedgerCfg, rules: RewardRules, genesis: Ledger,
                                      attempts: seq<Attempt>)
    requires RunsLedger(env, cfg, rules) && |attempts| <= U64_MAX
    ensures var run := Replay(env, Some(genesis), attempts);
      var ops := ReplayOps(env, rules, genesis, attempts);
      && run.node.st.ledger.Some? && RunOps(cfg, genesis, ops) == run.node.st.ledger
      && TxsIn(ops) == HistoryTxs(run.history)
    decreases |attempts|
  {
    if attempts != [] {
      var last := |attempts| - 1;
      var (before, a) := (attempts[..last], attempts[last]);
      ReplayRuns(env, cfg, rules, genesis, before);
      var run := Replay(env, Some(genesis), before);
      var ops := ReplayOps(env, rules, genesis, before);
      if Seal(env, run.node, a.entries, a.time).Ok? {
        SealRuns(env, cfg, rules, run.node, a);
        RunConcat(cfg, genesis, ops, SealOps(env, rules, run.node, a));
        SealHistory(env, rules, run, a);
        TxsInConcat(ops, SealOps(env, rules, run.node, a));
      } else {
        assert ops + [] == ops;
      }
    }
  }

  lemma SealHistory(env: Env<Live>, rules: RewardRules, run: Run<Live>, a: Attempt)
    requires CanStep(env, run) && Seal(env, run.node, a.entries, a.time).Ok?
    ensures HistoryTxs(ChainRuns.Step(env, run, a).history)
      == HistoryTxs(run.history) + TxsIn(SealOps(env, rules, run.node, a))
  {
    var b, ts := SealedBlock(env, run.node, a);
    var h := run.node.height + 1;
    var prodIdx := PickProducer(h, RollEpoch(env, run.node.st, h).active).value;
    TxsInBlock(rules, ProdSlot(env, prodIdx).acct, a.entries, run.node.height, h);
    assert ChainRuns.Step(env, run, a).history == run.history + [b] && b.txs == TxsOf(a.entries);
    HistoryGrows(run.history, b);
  }

  // ----- heights -----

  lemma {:induction false} RisingConcat(xs: seq<Op>, ys: seq<Op>, height: u64)
    ensures Rising(xs + ys, height) <==> Rising(xs, height) && Rising(ys, HeightAfter(xs, height))
    ensures HeightAfter(xs + ys, height) == HeightAfter(ys, HeightAfter(xs, height))
    decreases |xs|
  {
    if xs == [] {
      assert xs + ys == ys;
    } else {
      assert (xs + ys)[0] == xs[0] && (xs + ys)[1..] == xs[1..] + ys;
      RisingConcat(xs[1..], ys, HeightAt(xs[0], height));
    }
  }

  lemma {:induction false} TxOpsRise(entries: seq<SealEntry>, tip: u64, height: u64)
    ensures Rising(TxOps(entries, tip, height), height) && HeightAfter(TxOps(entries, tip, height), height) == height
  {
    if entries != [] {
      TxOpsRise(entries[1..], tip, height);
      assert TxOps(entries, tip, height)[1..] == TxOps(entries[1..], tip, height);
    }
  }

  lemma BlockOpsRise(rules: RewardRules, producer: AccountId, entries: seq<SealEntry>, tip: u64, height: u64,
                     earlier: u64)
    requires earlier <= height
    ensures Rising(BlockOps(rules, producer, entries, tip, height), earlier)
    ensures HeightAfter(BlockOps(rules, producer, entries, tip, height), earlier) == height
  {
    var pay := Pay(producer, rules.Amount(), rules.StakeMin());
    var rest := [Refund(height), DrainDue(height), pay];
    assert [Refund(height)][1..] == [] && rest[1..] == [DrainDue(height), pay];
    assert [DrainDue(height), pay][1..] == [pay] && [pay][1..] == [];
    TxOpsRise(entries, tip, height);
    assert Rising([Refund(height)], earlier) && HeightAfter([Refund(height)], earlier) == height;
    assert Rising([pay], height) && HeightAfter([pay], height) == height;
    assert Rising([DrainDue(height), pay], height) && HeightAfter([DrainDue(height), pay], height) == height;
    assert Rising(rest, height) && HeightAfter(rest, height) == height;
    RisingConcat([Refund(height)] + TxOps(entries, tip, height), rest, earlier);
    RisingConcat([Refund(height)], TxOps(entries, tip, height), earlier);
  }

  lemma SealRises(env: Env<Live>, rules: RewardRules, node: Node<Live>, a: Attempt, ops: seq<Op>)
    requires Ready(env, node) && node.height < U64_MAX && Seal(env, node, a.entries, a.time).Ok?
    requires Rising(ops, 0) && HeightAfter(ops, 0) == node.height
    ensures Rising(ops + SealOps(env, rules, node, a), 0)
    ensures HeightAfter(ops + SealOps(env, rules, node, a), 0) == node.height + 1
  {
    var prodIdx := PickProducer(node.height + 1, RollEpoch(env, node.st, node.height + 1).active).value;
    BlockOpsRise(rules, ProdSlot(env, prodIdx).acct, a.entries, node.height, node.height + 1, node.height);
    RisingConcat(ops, SealOps(env, rules, node, a), 0);
  }

  /** The work of a chain's blocks never falls in height, and ends at the height of its tip. */
  lemma {:induction false} ReplayRises(env: Env<Live>, rules: RewardRules, genesis: Ledger, attempts: seq<Attempt>)
    requires env.Ok() && |attempts| <= U64_MAX
    ensures var ops := ReplayOps(env, rules, genesis, attempts);
      Rising(ops, 0) && HeightAfter(ops, 0) == Replay(env, Some(genesis), attempts).node.height
    decreases |attempts|
  {
    if attempts != [] {
      var last := |attempts| - 1;
      var (before, a) := (attempts[..last], attempts[last]);
      ReplayRises(env, rules, genesis, before);
      var node := Replay(env, Some(genesis), before).node;
      var ops := ReplayOps(env, rules, genesis, before);
      if Seal(env, node, a.entries, a.time).Ok? {
        SealRises(env, rules, node, a, ops);
      } else {
        assert ops + [] == ops;
      }
    }
  }

  /** What the waiting transfers, the locks and every account's policies satisfy at every tip, from genesis or
      from any ledger of which they hold at height zero. */
  lemma ChainInvariants(env: Env<Live>, cfg: LedgerCfg, rules: RewardRules, attempts: seq<Attempt>, genesis: Ledger)
    requires RunsLedger(env, cfg, rules) && |attempts| <= U64_MAX
    requires LedgerInvariant.Inv(genesis) && AllPoliciesOk(genesis, 0)
    ensures var node := Replay(env, Some(genesis), attempts).node;
      && node.st.ledger.Some? && LedgerInvariant.Inv(node.st.ledger.value)
      && AllPoliciesOk(node.st.ledger.value, node.height)
  {
    var ops := ReplayOps(env, rules, genesis, attempts);
    ReplayRuns(env, cfg, rules, genesis, attempts);
    ReplayRises(env, rules, genesis, attempts);
    RunKeepsInv(cfg, genesis, ops);
    RunPoliciesOk(cfg, genesis, ops, 0);
  }

  /** Conservation on the chain: at every height of every run the supply is what the first ledger held plus
      what the sealed blocks created, if that ledger had no locks. */
  lemma ChainSupply(env: Env<Live>, cfg: LedgerCfg, rules: RewardRules, attempts: seq<Attempt>,
                    genesis: Ledger, ops: seq<Op>)
    requires RunsLedger(env, cfg, rules) && |attempts| <= U64_MAX
    requires LedgerInvariant.Inv(genesis) && genesis.locks == []
    requires ops == ReplayOps(env, rules, genesis, attempts)
    requires CollisionFree(cfg.c.hash, AllHashed(cfg, ExportsIn(ops)))
    requires Supply(genesis) + RunCreated(cfg, genesis, ops) <= U128_MAX
    ensures var ledger := Replay(env, Some(genesis), attempts).node.st.ledger;
      ledger.Some? && Supply(ledger.value) == Supply(genesis) + RunCreated(cfg, genesis, ops)
  {
    ReplayRuns(env, cfg, rules, genesis, attempts);
    SupplyOnlyGrows(cfg, genesis, ops);
  }

  /** At every tip every account holds what it held at first, plus what its statement for the chain's work adds
      up to; and so does the fee pool. */
  lemma ChainBooks(env: Env<Live>, cfg: LedgerCfg, rules: RewardRules, attempts: seq<Attempt>, genesis: Ledger,
                   ops: seq<Op>, k: AccountId)
    requires RunsLedger(env, cfg, rules) && |attempts| <= U64_MAX && LedgerInvariant.Inv(genesis)
    requires ops == ReplayOps(env, rules, genesis, attempts)
    requires Supply(genesis) + RunCreated(cfg, genesis, ops) <= U128_MAX
    ensures var ledger := Replay(env, Some(genesis), attempts).node.st.ledger;
      ledger.Some? && Booked(genesis, ledger.value, k, Statement(cfg, genesis, ops, k))
  {
    ReplayRuns(env, cfg, rules, genesis, attempts);
    RunBooks(cfg, genesis, ops, k);
  }
}
