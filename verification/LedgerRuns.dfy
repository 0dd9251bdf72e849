/** The ledger over whole runs: any sequence of applied transactions, refunds, drains and rewards, which
    includes every sequence of sealed blocks. */
module LedgerRuns {
  import opened Basics
  import opened Transactions
  import opened TxMessage
  import opened TxDecoding
  import opened Ledger
  import opened LedgerInvariant
  import opened LedgerSupply

  /** `checked` is false on the fast path of prevalidated transactions. */
  datatype Op =
    | Refund(height: u64)
    | Apply(tx: SignedTx, height: u64, checked: bool)
    | DrainDue(height: u64)
    | Pay(producer: AccountId, amount: u128, stakeMin: u128)

  /** The ledger after the operation; nothing when it is refused or aborts, and the block with it. */
  function Perform(cfg: LedgerCfg, l: Ledger, op: Op): Option<Ledger> {
    match op
    case Refund(height) => Some(RefundExpired(l, height))
    case Apply(tx, height, checked) =>
      (match ApplyTx(cfg, l, tx, height, checked) case Applied(next) => Some(next) case _ => None)
    case DrainDue(height) => Drain(cfg, l, height)
    case Pay(producer, amount, stakeMin) => Some(Reward(l, producer, amount, stakeMin))
  }

  function RunOps(cfg: LedgerCfg, l: Ledger, ops: seq<Op>): Option<Ledger>
    decreases |ops|
  {
    if ops == [] then Some(l)
    else match Perform(cfg, l, ops[0])
      case None => None
      case Some(next) => RunOps(cfg, next, ops[1..])
  }

  lemma {:induction false} RunConcat(cfg: LedgerCfg, l: Ledger, xs: seq<Op>, ys: seq<Op>)
    ensures RunOps(cfg, l, xs + ys) == match RunOps(cfg, l, xs) case Some(mid) => RunOps(cfg, mid, ys) case None => None
    decreases |xs|
  {
    if xs == [] {
      assert xs + ys == ys;
    } else {
      assert (xs + ys)[1..] == xs[1..] + ys;
      if Perform(cfg, l, xs[0]).Some? {
        RunConcat(cfg, Perform(cfg, l, xs[0]).value, xs[1..], ys);
      }
    }
  }

  /** The height of an operation; a reward has none of its own. */
  function HeightAt(op: Op, height: u64): u64 { if op.Pay? then height else op.height }

  function HeightAfter(ops: seq<Op>, height: u64): u64
    decreases |ops|
  {
    if ops == [] then height else HeightAfter(ops[1..], HeightAt(ops[0], height))
  }

  /** Heights never fall, from `height` on. */
  predicate Rising(ops: seq<Op>, height: u64)
    decreases |ops|
  {
    ops == [] || (height <= HeightAt(ops[0], height) && Rising(ops[1..], HeightAt(ops[0], height)))
  }

  lemma StepKeepsInv(cfg: LedgerCfg, l: Ledger, op: Op)
    requires Inv(l) && Perform(cfg, l, op).Some?
    ensures Inv(Perform(cfg, l, op).value)
  {
    match op
    case Refund(height) => RefundKeepsInv(l, 0, height);
    case Apply(tx, height, checked) => TxKeepsInv(cfg, l, tx, height, checked);
    case DrainDue(height) => DrainKeepsInv(cfg, l, height);
    case Pay(producer, amount, stakeMin) => RewardKeepsInv(l, producer, amount, stakeMin);
  }

  lemma {:induction false} RunKeepsInv(cfg: LedgerCfg, l: Ledger, ops: seq<Op>)
    requires Inv(l) && RunOps(cfg, l, ops).Some?
    ensures Inv(RunOps(cfg, l, ops).value)
    decreases |ops|
  {
    if ops != [] {
      StepKeepsInv(cfg, l, ops[0]);
      RunKeepsInv(cfg, Perform(cfg, l, ops[0]).value, ops[1..]);
    }
  }

  // ----- conservation -----

  ghost function RowsMinted(cfg: LedgerCfg, l: Ledger, rows: seq<Pending>, height: u64): nat
    decreases |rows|
  {
    if rows == [] then 0
    else if height >= rows[0].executeAt && ApplyDue(cfg, l, rows[0], height).Done? then
      DueMinted(l, rows[0], height) + RowsMinted(cfg, ApplyDue(cfg, l, rows[0], height).value, rows[1..], height)
    else RowsMinted(cfg, l, rows[1..], height)
  }

  /** Coins an operation creates: claims, imports that no lock here pays for, rewards, and delayed
      transfers that return to their sender. */
  ghost function Created(cfg: LedgerCfg, l: Ledger, op: Op): nat {
    match op
    case Refund(_) => 0
    case Apply(tx, _, _) => Minted(cfg, l, tx)
    case DrainDue(height) => RowsMinted(cfg, l.(pending := []), l.pending, height)
    case Pay(producer, amount, stakeMin) =>
      if producer in l.accounts && l.accounts[producer].staked >= stakeMin then amount else 0
  }

  ghost function Destroyed(cfg: LedgerCfg, l: Ledger, op: Op): nat {
    if op.Apply? then Burned(cfg, l, op.tx) else 0
  }

  ghost function RunCreated(cfg: LedgerCfg, l: Ledger, ops: seq<Op>): nat
    decreases |ops|
  {
    if ops == [] then 0
    else match Perform(cfg, l, ops[0])
      case None => 0
      case Some(next) => Created(cfg, l, ops[0]) + RunCreated(cfg, next, ops[1..])
  }

  ghost function RunDestroyed(cfg: LedgerCfg, l: Ledger, ops: seq<Op>): nat
    decreases |ops|
  {
    if ops == [] then 0
    else match Perform(cfg, l, ops[0])
      case None => 0
      case Some(next) => Destroyed(cfg, l, ops[0]) + RunDestroyed(cfg, next, ops[1..])
  }

  lemma {:induction false} RowsSupply(cfg: LedgerCfg, l: Ledger, rows: seq<Pending>, height: u64)
    requires DrainRows(cfg, l, rows, height).Some? && Supply(l) + RowsMinted(cfg, l, rows, height) <= U128_MAX
    ensures Balances(l, DrainRows(cfg, l, rows, height).value.0, RowsMinted(cfg, l, rows, height), 0)
    decreases |rows|
  {
    if rows != [] {
      if height >= rows[0].executeAt && ApplyDue(cfg, l, rows[0], height).Done? {
        DueSupply(cfg, l, rows[0], height);
        RowsSupply(cfg, ApplyDue(cfg, l, rows[0], height).value, rows[1..], height);
      } else {
        RowsSupply(cfg, l, rows[1..], height);
      }
    }
  }

  lemma StepSupply(cfg: LedgerCfg, l: Ledger, op: Op)
    requires Inv(l) && Perform(cfg, l, op).Some? && Supply(l) + Created(cfg, l, op) <= U128_MAX
    ensures Balances(l, Perform(cfg, l, op).value, Created(cfg, l, op), Destroyed(cfg, l, op))
  {
    match op
    case Refund(height) => RefundSupply(l, 0, height);
    case Apply(tx, height, checked) => TxSupply(cfg, l, tx, height, checked);
    case DrainDue(height) => RowsSupply(cfg, l.(pending := []), l.pending, height);
    case Pay(producer, amount, stakeMin) => PaySupply(l, producer, amount, stakeMin);
  }

  lemma PaySupply(l: Ledger, producer: AccountId, amount: u128, stakeMin: u128)
    requires var paid := if producer in l.accounts && l.accounts[producer].staked >= stakeMin then amount else 0;
      Supply(l) + paid <= U128_MAX
    ensures var paid := if producer in l.accounts && l.accounts[producer].staked >= stakeMin then amount else 0;
      Balances(l, Reward(l, producer, amount, stakeMin), paid, 0)
  {
    if producer in l.accounts && l.accounts[producer].staked >= stakeMin {
      RewardSupply(l, producer, amount, stakeMin);
    }
  }

  /** Conservation over any run: as long as what is created fits 128 bits, not a coin is lost to
      saturation, and the supply grows by exactly what was created less what was destroyed. */
  lemma {:induction false} RunSupply(cfg: LedgerCfg, l: Ledger, ops: seq<Op>)
    requires Inv(l) && RunOps(cfg, l, ops).Some? && Supply(l) + RunCreated(cfg, l, ops) <= U128_MAX
    ensures Supply(RunOps(cfg, l, ops).value) + RunDestroyed(cfg, l, ops) == Supply(l) + RunCreated(cfg, l, ops)
    decreases |ops|
  {
    if ops != [] {
      StepKeepsInv(cfg, l, ops[0]);
      StepSupply(cfg, l, ops[0]);
      RunSupply(cfg, Perform(cfg, l, ops[0]).value, ops[1..]);
    }
  }
}
