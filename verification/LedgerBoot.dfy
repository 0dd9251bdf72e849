/** What a chain booted from genesis can seal, and why a seal never misses its producer. */
module LedgerBoot {
  import opened Basics
  import opened Transactions
  import opened TxMessage
  import opened Ledger
  import LedgerInvariant
  import opened LedgerRuns
  import opened LedgerRules
  import opened LedgerSupply
  import opened LedgerBooks
  import opened LedgerEffects
  import opened LedgerSafety
  import opened LedgerGenesis
  import opened LedgerChain
  import opened Blocks
  import opened Chain
  import opened ChainRuns
  import opened ChainLaws

  /** Boot's demand: every validator's account is funded. */
  ghost predicate ValidatorsIn(env: Env<Live>, m: map<AccountId, Account>) {
    forall i :: 0 <= i < |env.cfg.vals| ==> env.cfg.vals[i].acct in m
  }

  // ----- stake at genesis -----

  ghost predicate Unstaked(m: map<AccountId, Account>) { forall k :: k in m ==> m[k].staked == 0 }

  lemma {:induction false} FundedUnstaked(accounts: map<AccountId, Account>, rows: seq<FundingRow>)
    requires Unstaked(accounts)
    ensures Unstaked(FundFrom(accounts, rows))
    decreases |rows|
  {
    if rows != [] {
      FundedUnstaked(accounts[rows[0].acct := FundedAccount(rows[0])], rows[1..]);
    }
  }

  lemma {:induction false} NobodyEligible(env: Env<Live>, cfg: LedgerCfg, rules: RewardRules, l: Ledger, i: nat)
    requires RunsLedger(env, cfg, rules) && Unstaked(l.accounts) && env.cfg.minValidatorStake > 0
    requires i <= |env.cfg.vals|
    ensures RecomputeFrom(env, Some(l), i) == []
    decreases |env.cfg.vals| - i
  {
    if i < |env.cfg.vals| {
      assert env.ops.stakeOf(Some(l), env.cfg.vals[i].acct) == StakeLive(Some(l), env.cfg.vals[i].acct);
      NobodyEligible(env, cfg, rules, l, i + 1);
    }
  }

  /** With a positive minimum no validator is active, and no attempt ever seals. */
  lemma {:induction false} NeverSeals(env: Env<Live>, cfg: LedgerCfg, rules: RewardRules, genesis: Ledger,
                                      attempts: seq<Attempt>)
    requires RunsLedger(env, cfg, rules) && Unstaked(genesis.accounts) && env.cfg.minValidatorStake > 0
    requires |attempts| <= U64_MAX
    ensures Replay(env, Some(genesis), attempts).node == Boot(env, Some(genesis))
    decreases |attempts|
  {
    if attempts != [] {
      var earlier, a := attempts[..|attempts| - 1], attempts[|attempts| - 1];
      NeverSeals(env, cfg, rules, genesis, earlier);
      NobodyEligible(env, cfg, rules, genesis, 0);
      NothingPicked(env, Boot(env, Some(genesis)), a);
    }
  }

  lemma NothingPicked(env: Env<Live>, node: Node<Live>, a: Attempt)
    requires Ready(env, node) && node.height < U64_MAX
    requires node.st.active == [] && RecomputeActive(env, node.st.ledger) == []
    ensures Seal(env, node, a.entries, a.time).Err?
  {
  }

  /** With no minimum the first validator is always active. */
  lemma SomebodyEligible(env: Env<Live>, cfg: LedgerCfg, rules: RewardRules, l: Ledger)
    requires RunsLedger(env, cfg, rules) && ValidatorsIn(env, l.accounts) && env.cfg.minValidatorStake == 0
    ensures RecomputeActive(env, Some(l)) != []
  {
    assert env.ops.stakeOf(Some(l), env.cfg.vals[0].acct) == StakeLive(Some(l), env.cfg.vals[0].acct);
    assert Eligible(env, Some(l), 0);
  }

  /** The empty block on a ledger with nothing to refund or drain. */
  lemma EmptyBlock(env: Env<Live>, cfg: LedgerCfg, rules: RewardRules, st: ChainState<Live>, prodIdx: u32, l: Ledger,
                   tip: u64, height: u64, ts: u64)
    requires RunsLedger(env, cfg, rules) && ValidatorsIn(env, l.accounts) && st.ledger == Some(l)
    requires l.locks == [] && l.pending == []
    ensures Execute(env, st, prodIdx, [], tip, height, ts).Ok?
  {
    var acct := ProdSlot(env, prodIdx).acct;
    assert RefundLive(Some(l), height) == Some(l) && DrainLive(cfg, Some(l), height) == Some(l);
    assert env.ops.refundExpiredLocks(Some(l), height) == Some(l);
    assert env.ops.drainConservation(Some(l), height) == Some(l);
    assert env.ops.stakeOf(Some(l), acct) == StakeLive(Some(l), acct);
  }

  lemma FirstSeal(env: Env<Live>, cfg: LedgerCfg, rules: RewardRules, l: Ledger)
    requires RunsLedger(env, cfg, rules) && ValidatorsIn(env, l.accounts) && env.cfg.minValidatorStake == 0
    requires l.locks == [] && l.pending == []
    ensures Ready(env, Boot(env, Some(l))) && Seal(env, Boot(env, Some(l)), [], DeterministicHeight).Ok?
  {
    var node := Boot(env, Some(l));
    BootReady(env, Some(l));
    SomebodyEligible(env, cfg, rules, l);
    RolledInRange(env, node.st, 1);
    var st := RollEpoch(env, node.st, 1);
    var prodIdx := PickProducer(1, st.active).value;
    EmptyBlock(env, cfg, rules, st, prodIdx, l, 0, 1, SealTs(DeterministicHeight, 1).value);
  }

  lemma EmptyAttemptSeals(env: Env<Live>, cfg: LedgerCfg, rules: RewardRules, l: Ledger)
    requires RunsLedger(env, cfg, rules) && ValidatorsIn(env, l.accounts) && env.cfg.minValidatorStake == 0
    requires l.locks == [] && l.pending == []
    ensures EverSeals(env, l)
  {
    var a := Attempt([], DeterministicHeight);
    FirstSeal(env, cfg, rules, l);
    assert [a][..0] == [];
    assert Replay(env, Some(l), [a]).node.height == 1;
  }

  /** Some run from this ledger seals a block. */
  ghost predicate EverSeals(env: Env<Live>, l: Ledger)
    requires env.Ok()
  {
    exists attempts: seq<Attempt> :: |attempts| <= U64_MAX && Replay(env, Some(l), attempts).node.height > 0
  }

  /** Genesis grants no stake, so a chain booted from genesis can ever seal a block if and only if the
      minimum stake of a validator is zero. */
  lemma {:induction false} GenesisSeals(env: Env<Live>, cfg: LedgerCfg, rules: RewardRules, rows: seq<FundingRow>,
                                        genesis: Ledger)
    requires RunsLedger(env, cfg, rules) && genesis == LedgerOf(FundFrom(map[], rows))
    requires ValidatorsIn(env, genesis.accounts)
    ensures EverSeals(env, genesis) <==> env.cfg.minValidatorStake == 0
  {
    FundedUnstaked(map[], rows);
    if env.cfg.minValidatorStake == 0 {
      EmptyAttemptSeals(env, cfg, rules, genesis);
    } else {
      forall attempts: seq<Attempt> | |attempts| <= U64_MAX
        ensures Replay(env, Some(genesis), attempts).node.height == 0
      {
        NeverSeals(env, cfg, rules, genesis, attempts);
      }
    }
  }

  // ----- the producer's account -----

  lemma StepKeepsAccounts(cfg: LedgerCfg, l: Ledger, op: Op)
    requires Perform(cfg, l, op).Some?
    ensures l.accounts.Keys <= Perform(cfg, l, op).value.accounts.Keys
  {
    if op.Apply? {
      var id, stubbed, acc, redirect := LedgerInvariant.AppliedTrace(cfg, l, op.tx, op.height, op.checked);
      BodyKeys(cfg, stubbed, id, acc, op.tx, redirect, op.height);
    } else {
      OtherOpsSame(cfg, l, op);
    }
  }

  lemma {:induction false} RunKeepsAccounts(cfg: LedgerCfg, l: Ledger, ops: seq<Op>)
    requires RunOps(cfg, l, ops).Some?
    ensures l.accounts.Keys <= RunOps(cfg, l, ops).value.accounts.Keys
    decreases |ops|
  {
    if ops != [] {
      StepKeepsAccounts(cfg, l, ops[0]);
      RunKeepsAccounts(cfg, Perform(cfg, l, ops[0]).value, ops[1..]);
    }
  }

  /** A block that fails for want of its producer's account is one whose work overflows. */
  lemma MissingMeansAborted(env: Env<Live>, cfg: LedgerCfg, rules: RewardRules, st: ChainState<Live>, prodIdx: u32,
                            entries: seq<SealEntry>, tip: u64, height: u64, ts: u64, l: Ledger)
    requires RunsLedger(env, cfg, rules) && ValidatorsIn(env, l.accounts) && st.ledger == Some(l)
    requires Execute(env, st, prodIdx, entries, tip, height, ts) == Err(ProducerMissing)
    ensures RunOps(cfg, l, BlockOps(rules, ProdSlot(env, prodIdx).acct, entries, tip, height)) == None
  {
    var producer := ProdSlot(env, prodIdx).acct;
    var start := env.ops.refundExpiredLocks(st.ledger, height);
    assert start == Some(RefundExpired(l, height));
    var applied := ApplyEntries(env, start, entries, tip, height, ts).value;
    EntriesRun(env, cfg, rules, start, entries, tip, height, ts);
    var again := env.ops.refundExpiredLocks(applied, height);
    assert again == RefundLive(applied, height);
    var drained := env.ops.drainConservation(again, height);
    assert drained == DrainLive(cfg, again, height);
    assert env.ops.stakeOf(drained, producer) == StakeLive(drained, producer);
    BlockFromParts(cfg, rules, producer, l, entries, tip, height, applied);
    if drained.Some? {
      PartsKeepAccounts(cfg, l, TxOps(entries, tip, height), applied.value, height);
    }
  }

  lemma PartsKeepAccounts(cfg: LedgerCfg, l: Ledger, txs: seq<Op>, applied: Ledger, height: u64)
    requires RunOps(cfg, RefundExpired(l, height), txs) == Some(applied)
    requires Drain(cfg, RefundExpired(applied, height), height).Some?
    ensures l.accounts.Keys <= Drain(cfg, RefundExpired(applied, height), height).value.accounts.Keys
  {
    StepKeepsAccounts(cfg, l, Refund(height));
    RunKeepsAccounts(cfg, RefundExpired(l, height), txs);
    StepKeepsAccounts(cfg, applied, Refund(height));
    StepKeepsAccounts(cfg, RefundExpired(applied, height), DrainDue(height));
  }

  /** A block's run, when its transactions or its drain abort. */
  lemma BlockFromParts(cfg: LedgerCfg, rules: RewardRules, producer: AccountId, l: Ledger, entries: seq<SealEntry>,
                       tip: u64, height: u64, applied: Live)
    requires RunOps(cfg, RefundExpired(l, height), TxOps(entries, tip, height)) == applied
    ensures applied.None? || Drain(cfg, RefundExpired(applied.value, height), height).None? ==>
      RunOps(cfg, l, BlockOps(rules, producer, entries, tip, height)) == None
  {
    var txs := TxOps(entries, tip, height);
    var rest := [Refund(height), DrainDue(height), Pay(producer, rules.Amount(), rules.StakeMin())];
    assert [Refund(height)] + txs + rest == [Refund(height)] + (txs + rest);
    assert ([Refund(height)] + (txs + rest))[1..] == txs + rest;
    RunConcat(cfg, RefundExpired(l, height), txs, rest);
    if applied.Some? {
      TailOps(cfg, rules, producer, applied.value, height);
    }
  }

  lemma SealNeverMissing(env: Env<Live>, cfg: LedgerCfg, rules: RewardRules, node: Node<Live>, a: Attempt, l: Ledger)
    requires RunsLedger(env, cfg, rules) && Ready(env, node) && node.height < U64_MAX
    requires node.st.ledger == Some(l) && ValidatorsIn(env, l.accounts)
    requires Seal(env, node, a.entries, a.time) == Err(ProducerMissing)
    ensures RunOps(cfg, l, SealOps(env, rules, node, a)) == None
  {
    var h := node.height + 1;
    var st := RollEpoch(env, node.st, h);
    var prodIdx := PickProducer(h, st.active).value;
    MissingMeansAborted(env, cfg, rules, st, prodIdx, a.entries, node.height, h, SealTs(a.time, h).value, l);
  }

  /** No seal of any run fails for want of its producer's account, when boot found every validator funded:
      accounts never disappear. What the model reports so is a block whose work overflows. */
  lemma {:induction false} ProducerNeverMissing(env: Env<Live>, cfg: LedgerCfg, rules: RewardRules, genesis: Ledger,
                                                attempts: seq<Attempt>, a: Attempt)
    requires RunsLedger(env, cfg, rules) && ValidatorsIn(env, genesis.accounts) && |attempts| < U64_MAX
    ensures var node := Replay(env, Some(genesis), attempts).node;
      node.st.ledger.Some?
      && (Seal(env, node, a.entries, a.time) == Err(ProducerMissing) ==>
           RunOps(cfg, node.st.ledger.value, SealOps(env, rules, node, a)) == None)
  {
    ReplayRuns(env, cfg, rules, genesis, attempts);
    var node := Replay(env, Some(genesis), attempts).node;
    RunKeepsAccounts(cfg, genesis, ReplayOps(env, rules, genesis, attempts));
    if Seal(env, node, a.entries, a.time) == Err(ProducerMissing) {
      SealNeverMissing(env, cfg, rules, node, a, node.st.ledger.value);
    }
  }

  // ----- what can be sealed -----

  lemma {:induction false} EntriesFollow(env: Env<Live>, cfg: LedgerCfg, rules: RewardRules, l: Ledger,
                                         entries: seq<SealEntry>, tip: u64, height: u64, ts: u64)
    requires RunsLedger(env, cfg, rules) && RunOps(cfg, l, TxOps(entries, tip, height)).Some?
    ensures ApplyEntries(env, Some(l), entries, tip, height, ts) == Ok(RunOps(cfg, l, TxOps(entries, tip, height)))
    decreases |entries|
  {
    if entries != [] {
      var checked := !(entries[0].PreValidated? && entries[0].atHeight == tip);
      var next := ApplyTx(cfg, l, entries[0].tx, height, checked).ledger;
      assert TxOps(entries, tip, height)[1..] == TxOps(entries[1..], tip, height);
      assert ApplyEntry(env, Some(l), entries[0], tip, height, ts)
          == ApplyLive(cfg, Some(l), entries[0].tx, height, checked);
      EntriesFollow(env, cfg, rules, next, entries[1..], tip, height, ts);
    }
  }

  /** A block's run, taken apart. */
  lemma BlockParts(cfg: LedgerCfg, rules: RewardRules, producer: AccountId, l: Ledger, entries: seq<SealEntry>,
                   tip: u64, height: u64) returns (applied: Ledger)
    requires RunOps(cfg, l, BlockOps(rules, producer, entries, tip, height)).Some?
    ensures RunOps(cfg, RefundExpired(l, height), TxOps(entries, tip, height)) == Some(applied)
    ensures Drain(cfg, RefundExpired(applied, height), height).Some?
  {
    var txs := TxOps(entries, tip, height);
    var rest := [Refund(height), DrainDue(height), Pay(producer, rules.Amount(), rules.StakeMin())];
    assert [Refund(height)] + txs + rest == [Refund(height)] + (txs + rest);
    assert ([Refund(height)] + (txs + rest))[1..] == txs + rest;
    RunConcat(cfg, RefundExpired(l, height), txs, rest);
    applied := RunOps(cfg, RefundExpired(l, height), txs).value;
    TailOps(cfg, rules, producer, applied, height);
  }

  /** A block whose run goes through is executed. */
  lemma BlockExecutes(env: Env<Live>, cfg: LedgerCfg, rules: RewardRules, st: ChainState<Live>, prodIdx: u32,
                      entries: seq<SealEntry>, tip: u64, height: u64, ts: u64, l: Ledger)
    requires RunsLedger(env, cfg, rules) && ValidatorsIn(env, l.accounts) && st.ledger == Some(l)
    requires RunOps(cfg, l, BlockOps(rules, ProdSlot(env, prodIdx).acct, entries, tip, height)).Some?
    ensures Execute(env, st, prodIdx, entries, tip, height, ts).Ok?
  {
    var producer := ProdSlot(env, prodIdx).acct;
    var applied := BlockParts(cfg, rules, producer, l, entries, tip, height);
    assert env.ops.refundExpiredLocks(Some(l), height) == Some(RefundExpired(l, height));
    EntriesFollow(env, cfg, rules, RefundExpired(l, height), entries, tip, height, ts);
    PartsKeepAccounts(cfg, l, TxOps(entries, tip, height), applied, height);
    var again := RefundExpired(applied, height);
    assert env.ops.refundExpiredLocks(Some(applied), height) == Some(again);
    assert env.ops.drainConservation(Some(again), height) == Drain(cfg, again, height);
    var drained := Drain(cfg, again, height);
    assert env.ops.stakeOf(drained, producer) == StakeLive(drained, producer);
  }

  /** The clock can be read, and some validator is active at the next height. */
  predicate CanSeal(env: Env<Live>, node: Node<Live>, a: Attempt)
    requires node.height < U64_MAX
  {
    a.time != WallClock(None) && RollEpoch(env, node.st, node.height + 1).active != []
  }

  lemma SealNeeds(env: Env<Live>, node: Node<Live>, a: Attempt)
    requires Ready(env, node) && node.height < U64_MAX && Seal(env, node, a.entries, a.time).Ok?
    ensures CanSeal(env, node, a)
  {
  }

  lemma RunSeals(env: Env<Live>, cfg: LedgerCfg, rules: RewardRules, node: Node<Live>, a: Attempt, l: Ledger)
    requires RunsLedger(env, cfg, rules) && Ready(env, node) && node.height < U64_MAX
    requires node.st.ledger == Some(l) && ValidatorsIn(env, l.accounts)
    requires CanSeal(env, node, a) && RunOps(cfg, l, SealOps(env, rules, node, a)).Some?
    ensures Seal(env, node, a.entries, a.time).Ok?
  {
    var h := node.height + 1;
    var st := RollEpoch(env, node.st, h);
    var prodIdx := PickProducer(h, st.active).value;
    var ts := SealTs(a.time, h).value;
    SealOpsAre(env, rules, node, a, prodIdx);
    BlockExecutes(env, cfg, rules, st, prodIdx, a.entries, node.height, h, ts, l);
    ExecutedSeals(env, node, a, st, prodIdx, ts);
  }

  lemma SealOpsAre(env: Env<Live>, rules: RewardRules, node: Node<Live>, a: Attempt, prodIdx: u32)
    requires Ready(env, node) && node.height < U64_MAX
    requires PickProducer(node.height + 1, RollEpoch(env, node.st, node.height + 1).active) == Some(prodIdx)
    ensures SealOps(env, rules, node, a)
      == BlockOps(rules, ProdSlot(env, prodIdx).acct, a.entries, node.height, node.height + 1)
  {
  }

  lemma ExecutedSeals(env: Env<Live>, node: Node<Live>, a: Attempt, st: ChainState<Live>, prodIdx: u32, ts: u64)
    requires Ready(env, node) && node.height < U64_MAX && st == RollEpoch(env, node.st, node.height + 1)
    requires SealTs(a.time, node.height + 1) == Some(ts) && PickProducer(node.height + 1, st.active) == Some(prodIdx)
    requires Execute(env, st, prodIdx, a.entries, node.height, node.height + 1, ts).Ok?
    ensures Seal(env, node, a.entries, a.time).Ok?
  {
  }

  /** A seal succeeds if and only if the clock can be read, some validator is active, and the work of the block
      goes through: every transaction is applied in its turn, and nothing overflows. */
  lemma SealExactly(env: Env<Live>, cfg: LedgerCfg, rules: RewardRules, node: Node<Live>, a: Attempt, l: Ledger)
    requires RunsLedger(env, cfg, rules) && Ready(env, node) && node.height < U64_MAX
    requires node.st.ledger == Some(l) && ValidatorsIn(env, l.accounts)
    ensures Seal(env, node, a.entries, a.time).Ok?
      <==> CanSeal(env, node, a) && RunOps(cfg, l, SealOps(env, rules, node, a)).Some?
  {
    if Seal(env, node, a.entries, a.time).Ok? {
      SealRuns(env, cfg, rules, node, a);
      SealNeeds(env, node, a);
    } else if CanSeal(env, node, a) && RunOps(cfg, l, SealOps(env, rules, node, a)).Some? {
      RunSeals(env, cfg, rules, node, a, l);
    }
  }

  // ----- stake -----

  /** After a Stake its sender's validator is active, when the set is next computed, if and only if its stake
      and the amount together reach the minimum. */
  lemma StakeMakesActive(env: Env<Live>, cfg: LedgerCfg, rules: RewardRules, l: Ledger, tx: SignedTx, height: u64,
                         checked: bool, i: nat)
    requires RunsLedger(env, cfg, rules) && LedgerInvariant.Inv(l) && Supply(l) <= U128_MAX
    requires ApplyTx(cfg, l, tx, height, checked).Applied? && tx.body.Stake?
    requires i < |env.cfg.vals| <= U16_MAX + 1 && env.cfg.vals[i].acct == SenderOf(cfg.c.hash, tx)
    ensures i in RecomputeActive(env, Some(ApplyTx(cfg, l, tx, height, checked).ledger))
      <==> env.cfg.minValidatorStake <= StakeOf(l, env.cfg.vals[i].acct) + tx.body.amount
  {
    var (acct, next) := (env.cfg.vals[i].acct, ApplyTx(cfg, l, tx, height, checked).ledger);
    TxBooks(cfg, l, tx, height, checked, acct);
    SenderEffect(cfg, l, tx, height, checked);
    ActiveIsStaked(env, Some(next), i);
    assert env.ops.stakeOf(Some(next), acct) == StakeLive(Some(next), acct);
  }

  /** At every tip a validator is active, when the set is next computed, if and only if its account is there
      with a stake that reaches the minimum: the first one and what its statement adds to it. */
  lemma ActiveByBooks(env: Env<Live>, cfg: LedgerCfg, rules: RewardRules, attempts: seq<Attempt>, genesis: Ledger,
                      ops: seq<Op>, i: nat, last: Ledger)
    requires RunsLedger(env, cfg, rules) && |attempts| <= U64_MAX && LedgerInvariant.Inv(genesis)
    requires ops == ReplayOps(env, rules, genesis, attempts)
    requires Supply(genesis) + RunCreated(cfg, genesis, ops) <= U128_MAX
    requires i < |env.cfg.vals| <= U16_MAX + 1
    requires Replay(env, Some(genesis), attempts).node.st.ledger == Some(last)
    ensures var acct := env.cfg.vals[i].acct;
      i in RecomputeActive(env, Some(last))
      <==> acct in last.accounts
           && env.cfg.minValidatorStake <= StakeOf(genesis, acct) + Statement(cfg, genesis, ops, acct).stake
  {
    var acct := env.cfg.vals[i].acct;
    ChainBooks(env, cfg, rules, attempts, genesis, ops, acct);
    ActiveIsStaked(env, Some(last), i);
    assert env.ops.stakeOf(Some(last), acct) == StakeLive(Some(last), acct);
  }
}
