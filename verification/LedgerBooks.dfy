/** Every account's own books: whom each operation pays, who pays for it, and how much goes to the fee pool. */
module LedgerBooks {
  import opened Basics
  import opened Transactions
  import opened TxMessage
  import opened Ledger
  import opened LedgerInvariant
  import opened LedgerSupply
  import opened LedgerRuns
  import opened LedgerRules

  function BalanceOf(l: Ledger, k: AccountId): nat { if k in l.accounts then l.accounts[k].balance else 0 }

  function StakeOf(l: Ledger, k: AccountId): nat { if k in l.accounts then l.accounts[k].staked else 0 }

  /** What `k` gains, in balance and in stake, and what the fee pool gains. */
  datatype Entry = Entry(balance: int, stake: int, pool: int)

  ghost predicate Booked(l: Ledger, next: Ledger, k: AccountId, e: Entry) {
    && BalanceOf(next, k) == BalanceOf(l, k) + e.balance
    && StakeOf(next, k) == StakeOf(l, k) + e.stake
    && next.feePool == l.feePool + e.pool
  }

  const NOTHING: Entry := Entry(0, 0, 0)

  function Both(d: Entry, e: Entry): Entry { Entry(d.balance + e.balance, d.stake + e.stake, d.pool + e.pool) }

  function If(b: bool, n: int): int { if b then n else 0 }

  // ----- what a transaction is to enter -----

  /** A recipient that is finalized with its redirect in force is paid through its rescue account. */
  function PaidFor(l: Ledger, to: AccountId, height: u64): AccountId {
    if to in l.accounts && Redirects(l.accounts[to], height) && l.accounts[to].rescue.Some?
    then l.accounts[to].rescue.value else to
  }

  /** The entry for `k`, read off the transaction. The fast path pays the recipient itself; a transfer that
      waits pays nobody yet. */
  function TxEntry(cfg: LedgerCfg, l: Ledger, tx: SignedTx, height: u64, checked: bool, k: AccountId): Entry {
    var id := SenderOf(cfg.c.hash, tx);
    match tx.body
    case Init(_, _) => NOTHING
    case Transfer(to, amount, fee) =>
      if ConservationFlag(id) then NOTHING
      else
        var dst := if checked then PaidFor(l, to, height) else to;
        Entry(If(k == dst, amount) - If(k == id, amount + fee), 0, fee)
    case Stake(amount) => Entry(-If(k == id, amount), If(k == id, amount), 0)
    case Unstake(amount) => Entry(If(k == id, amount), -If(k == id, amount), 0)
    case BurnMark(_, _) => NOTHING
    case ClaimIPv4Batch(phase, _, _) => Entry(If(k == id, Allocation(cfg.claimPhases, phase)), 0, 0)
    case Export(_, _, amount, fee) => Entry(-If(k == id, amount + fee), 0, fee)
    case Import(to, amount, _) =>
      var fee := if tx.importFee.Some? then tx.importFee.value else 0;
      Entry(If(k == to, amount) - If(k == id, fee), 0, fee)
    case Policy(_, action, fee) =>
      if action.ActivatePolicy? && action.policyId == 1 then RescueEntry(l, id, fee, k)
      else Entry(-If(k == id, fee), 0, fee)
  }

  /** An emergency activation: everything but the fee goes to the rescue account. */
  function RescueEntry(l: Ledger, id: AccountId, fee: u128, k: AccountId): Entry {
    var (balance, stake) := (BalanceOf(l, id), StakeOf(l, id));
    if id in l.accounts && l.accounts[id].rescue.Some? && l.accounts[id].rescue.value != id then
      Entry(If(k == l.accounts[id].rescue.value, balance + stake - fee) - If(k == id, balance),
            -If(k == id, stake), fee)
    else Entry(-If(k == id, fee), 0, fee)
  }

  /** What the first row of a phase allots. */
  function Allocation(phases: seq<ClaimPhase>, phase: byte): nat
    decreases |phases|
  {
    if phases == [] then 0
    else if phases[0].phase == phase then phases[0].allocation
    else Allocation(phases[1..], phase)
  }

  // ----- the bodies enter it -----

  lemma {:induction false} AllocationOfPhase(phases: seq<ClaimPhase>, phase: byte)
    ensures match FindPhase(phases, phase)
      case Some(row) => Allocation(phases, phase) == row.allocation && row in phases && row.phase == phase
      case None => Allocation(phases, phase) == 0 && forall row :: row in phases ==> row.phase != phase
    decreases |phases|
  {
    if phases != [] && phases[0].phase != phase {
      AllocationOfPhase(phases[1..], phase);
    }
  }

  /** The sender's row replaced, and the destination credited. */
  lemma SettleBooks(m: map<AccountId, Account>, id: AccountId, from: Account, dst: AccountId, to: Account,
                    amount: u128, spent: nat, k: AccountId)
    requires id in m && from.balance + spent == m[id].balance && from.staked == m[id].staked
    requires dst != id ==> dst in m && to.balance == m[dst].balance && to.staked == m[dst].staked
    requires (if dst == id then from.balance else to.balance) + amount <= U128_MAX
    ensures var n := Settle(m, id, from, dst, to, amount);
      && (k in m <==> k in n)
      && (k in m ==> n[k].balance == m[k].balance + If(k == dst, amount) - If(k == id, spent))
      && (k in m ==> n[k].staked == m[k].staked)
  {
  }

  lemma OneWorth(m: map<AccountId, Account>, k: AccountId)
    requires k in m
    ensures Worth(m[k]) <= Total(m)
  {
    TotalWithout(m, k);
  }

  lemma TransferBooks(cfg: LedgerCfg, l: Ledger, id: AccountId, acc: Account, tx: SignedTx,
                      redirect: Option<AccountId>, height: u64, k: AccountId)
    requires tx.body.Transfer? && !ConservationFlag(id) && SignerRow(l, id, tx) == Ok(acc) && Supply(l) <= U128_MAX
    requires TransferBody(cfg, l, id, acc, tx, redirect, height).Done?
    ensures var (amount, fee) := (tx.body.amount, tx.body.fee);
      var dst := match redirect case Some(r) => r case None => tx.body.to;
      Booked(l, TransferBody(cfg, l, id, acc, tx, redirect, height).value, k,
             Entry(If(k == dst, amount) - If(k == id, amount + fee), 0, fee))
  {
    var dst := match redirect case Some(r) => r case None => tx.body.to;
    var from := Debited(TouchAccount(cfg, acc, height), tx.body.amount + tx.body.fee);
    var to := if dst == id then from else TouchAccount(cfg, l.accounts[dst], height);
    OneWorth(l.accounts, id);
    if dst != id {
      TwoAccounts(l.accounts, id, dst);
    }
    SettleBooks(l.accounts, id, from, dst, to, tx.body.amount, tx.body.amount + tx.body.fee, k);
  }

  lemma ImportBooks(l: Ledger, id: AccountId, acc: Account, tx: SignedTx, k: AccountId)
    requires tx.body.Import? && SignerRow(l, id, tx) == Ok(acc) && ImportBody(l, id, acc, tx).Done?
    requires LocksOk(l) && Supply(l) + (if HasLock(l, tx.body.exportId) then 0 else tx.body.amount) <= U128_MAX
    ensures tx.importFee.Some?
    ensures var (to, amount, fee) := (tx.body.to, tx.body.amount, tx.importFee.value);
      Booked(l, ImportBody(l, id, acc, tx).value, k, Entry(If(k == to, amount) - If(k == id, fee), 0, fee))
  {
    var (to, amount, fee) := (tx.body.to, tx.body.amount, tx.importFee.value);
    ImportFits(l, id, acc, tx);
    var from := Debited(acc, fee);
    SettleBooks(l.accounts, id, from, to, if to == id then from else l.accounts[to], amount, fee, k);
  }

  /** What an import pays was held by its lock, or is new. */
  lemma ImportFits(l: Ledger, id: AccountId, acc: Account, tx: SignedTx)
    requires tx.body.Import? && SignerRow(l, id, tx) == Ok(acc) && CheckImport(l, id, acc, tx).Ok? && LocksOk(l)
    requires Supply(l) + (if HasLock(l, tx.body.exportId) then 0 else tx.body.amount) <= U128_MAX
    ensures tx.importFee.Some? && tx.importFee.value <= acc.balance
    ensures tx.body.to != id ==> tx.body.to in l.accounts
    ensures BalanceOf(l, tx.body.to) + tx.body.amount <= U128_MAX
    ensures l.feePool + tx.importFee.value <= U128_MAX
  {
    OneWorth(l.accounts, id);
    if tx.body.to != id {
      TwoAccounts(l.accounts, id, tx.body.to);
    }
    if HasLock(l, tx.body.exportId) {
      ImportFindsLock(l, id, acc, tx);
      HeldAt(l.locks, LockIndex(l.locks, tx.body.exportId));
    }
  }

  lemma HeldAt(locks: seq<Lock>, at: nat)
    requires at < |locks| && locks[at].state.Locked?
    ensures locks[at].amount <= Held(locks)
  {
    HeldAfter(locks, at, Released);
  }

  lemma ExportBooks(cfg: LedgerCfg, l: Ledger, id: AccountId, acc: Account, tx: SignedTx, height: u64, k: AccountId)
    requires tx.body.Export? && SignerRow(l, id, tx) == Ok(acc) && Supply(l) <= U128_MAX
    requires ExportBody(cfg, l, id, acc, tx, height).Done?
    ensures var (amount, fee) := (tx.body.amount, tx.body.fee);
      Booked(l, ExportBody(cfg, l, id, acc, tx, height).value, k, Entry(-If(k == id, amount + fee), 0, fee))
  {
    OneWorth(l.accounts, id);
  }

  lemma PolicyBooks(cfg: LedgerCfg, l: Ledger, id: AccountId, acc: Account, tx: SignedTx, height: u64, k: AccountId)
    requires tx.body.Policy? && SignerRow(l, id, tx) == Ok(acc) && Supply(l) <= U128_MAX
    requires PolicyBody(cfg, l, id, acc, tx, height).Done?
    ensures var (action, fee) := (tx.body.action, tx.body.fee);
      Booked(l, PolicyBody(cfg, l, id, acc, tx, height).value, k,
             if action.ActivatePolicy? && action.policyId == 1 then RescueEntry(l, id, fee, k)
             else Entry(-If(k == id, fee), 0, fee))
  {
    var (action, fee) := (tx.body.action, tx.body.fee);
    var touched := TouchAccount(cfg, acc, height);
    var a := ApplyPolicyAction(touched, action, height).value;
    ActionKeeps(touched, action, height);
    OneWorth(l.accounts, id);
    if IsEmergency(action) {
      EmergencyTarget(cfg, l, touched, action, tx);
      var target := acc.rescue.value;
      if target != id {
        TwoAccounts(l.accounts, id, target);
      }
    }
  }

  lemma OwnBooks(cfg: LedgerCfg, l: Ledger, id: AccountId, acc: Account, tx: SignedTx, height: u64, k: AccountId)
    requires IsOwn(tx.body) && SignerRow(l, id, tx) == Ok(acc) && OwnBody(cfg, l, id, acc, tx, height).Done?
    requires SenderOf(cfg.c.hash, tx) == id && Supply(l) + Minted(cfg, l, tx) <= U128_MAX
    ensures Booked(l, l.(accounts := l.accounts[id := OwnBody(cfg, l, id, acc, tx, height).value]), k,
                   TxEntry(cfg, l, tx, height, true, k))
  {
    OneWorth(l.accounts, id);
    if tx.body.Init? {
      InitKeeps(acc, tx, height);
    } else if tx.body.ClaimIPv4Batch? {
      AllocationOfPhase(cfg.claimPhases, tx.body.phase);
    }
  }

  // ----- transactions -----

  lemma BodyBooks(cfg: LedgerCfg, l: Ledger, id: AccountId, acc: Account, tx: SignedTx, redirect: Option<AccountId>,
                  height: u64, checked: bool, k: AccountId)
    requires LocksOk(l) && SignerRow(l, id, tx) == Ok(acc) && SenderOf(cfg.c.hash, tx) == id
    requires Supply(l) + Minted(cfg, l, tx) <= U128_MAX
    requires ApplyBody(cfg, l, id, acc, tx, redirect, height).Done?
    requires tx.body.Transfer? ==>
      var dst := match redirect case Some(r) => r case None => tx.body.to;
      dst == if checked then PaidFor(l, tx.body.to, height) else tx.body.to
    ensures Booked(l, ApplyBody(cfg, l, id, acc, tx, redirect, height).value, k,
                   TxEntry(cfg, l, tx, height, checked, k))
  {
    match tx.body
    case Transfer(_, _, _) =>
      if ConservationFlag(id) {
        TransferQuiet(cfg, l, id, acc, tx, redirect, height);
      } else {
        TransferBooks(cfg, l, id, acc, tx, redirect, height, k);
      }
    case Export(_, _, _, _) => ExportBooks(cfg, l, id, acc, tx, height, k);
    case Import(_, _, _) => ImportBooks(l, id, acc, tx, k);
    case Policy(_, _, _) => PolicyBooks(cfg, l, id, acc, tx, height, k);
    case _ => OwnBooks(cfg, l, id, acc, tx, height, k);
  }

  /** The policy evaluator sends a transfer where its recipient's policies say. */
  lemma RedirectIsPaidFor(cfg: LedgerCfg, l: Ledger, id: AccountId, tx: SignedTx, height: u64)
    requires id == SenderOf(cfg.c.hash, tx) && tx.body.Transfer? && Evaluate(cfg, l, tx, height).Ok?
    requires Recipient(l, tx.body.to).Ok?
    ensures (match Evaluate(cfg, l, tx, height).value case Some(r) => r case None => tx.body.to)
      == PaidFor(l, tx.body.to, height)
  {
  }

  lemma TransferReachesRecipient(cfg: LedgerCfg, l: Ledger, id: AccountId, acc: Account, tx: SignedTx, height: u64,
                                 redirect: Option<AccountId>)
    requires tx.body.Transfer? && ValidateBody(id, tx).Ok? && TransferBody(cfg, l, id, acc, tx, redirect, height).Done?
    ensures redirect.None? ==> Recipient(l, tx.body.to).Ok?
  {
  }

  lemma AppliedDestination(cfg: LedgerCfg, l: Ledger, tx: SignedTx, height: u64, checked: bool, id: AccountId,
                           acc: Account, redirect: Option<AccountId>)
    requires id == SenderOf(cfg.c.hash, tx) && tx.body.Transfer? && ValidateBody(id, tx).Ok?
    requires Admit(cfg, l, id, tx, height, checked) == Ok((acc, redirect))
    requires TransferBody(cfg, l, id, acc, tx, redirect, height).Done?
    ensures (match redirect case Some(r) => r case None => tx.body.to)
      == if checked then PaidFor(l, tx.body.to, height) else tx.body.to
  {
    TransferReachesRecipient(cfg, l, id, acc, tx, height, redirect);
    if checked {
      RedirectIsPaidFor(cfg, l, id, tx, height);
    }
  }

  /** An applied transaction changes every account's balance and stake, and the fee pool, exactly as its
      entry says. */
  lemma TxBooks(cfg: LedgerCfg, l: Ledger, tx: SignedTx, height: u64, checked: bool, k: AccountId)
    requires Inv(l) && ApplyTx(cfg, l, tx, height, checked).Applied?
    requires Supply(l) + Minted(cfg, l, tx) <= U128_MAX
    ensures Booked(l, ApplyTx(cfg, l, tx, height, checked).ledger, k, TxEntry(cfg, l, tx, height, checked, k))
  {
    var id, stubbed, acc, redirect := AppliedTrace(cfg, l, tx, height, checked);
    StubBooks(cfg, l, id, tx, height, checked, k);
    if tx.body.Transfer? {
      AppliedDestination(cfg, stubbed, tx, height, checked, id, acc, redirect);
    }
    BodyBooks(cfg, stubbed, id, acc, tx, redirect, height, checked, k);
  }

  lemma StubBooks(cfg: LedgerCfg, l: Ledger, id: AccountId, tx: SignedTx, height: u64, checked: bool, k: AccountId)
    requires Inv(l)
    ensures var stubbed := WithStub(l, id, tx);
      && Inv(stubbed) && Supply(stubbed) == Supply(l) && Minted(cfg, stubbed, tx) == Minted(cfg, l, tx)
      && BalanceOf(stubbed, k) == BalanceOf(l, k) && StakeOf(stubbed, k) == StakeOf(l, k)
      && stubbed.feePool == l.feePool
      && TxEntry(cfg, stubbed, tx, height, checked, k) == TxEntry(cfg, l, tx, height, checked, k)
  {
    StubKeepsInv(l, id, tx);
    TotalUpdate(l.accounts, id, BlankAccount(tx.signerPk, tx.derivationIndex));
  }

  // ----- delayed transfers -----

  /** A due transfer pays like one on the checked path; but one that comes back to its sender is paid and
      not charged, since its debit is overwritten. */
  function DueEntry(l: Ledger, row: Pending, height: u64, k: AccountId): Entry {
    var dst := PaidFor(l, row.recipient, height);
    if dst == row.sender then Entry(If(k == row.sender, row.amount), 0, row.fee)
    else Entry(If(k == dst, row.amount) - If(k == row.sender, row.amount + row.fee), 0, row.fee)
  }

  lemma DuePaysFor(l: Ledger, row: Pending, height: u64)
    requires CheckDue(l, row, height).Ok?
    ensures CheckDue(l, row, height) == Ok(PaidFor(l, row.recipient, height))
  {
  }

  lemma DueBooks(cfg: LedgerCfg, l: Ledger, row: Pending, height: u64, k: AccountId)
    requires ApplyDue(cfg, l, row, height).Done? && Supply(l) + DueMinted(l, row, height) <= U128_MAX
    ensures Booked(l, ApplyDue(cfg, l, row, height).value, k, DueEntry(l, row, height, k))
  {
    DuePaysFor(l, row, height);
    var dst := PaidFor(l, row.recipient, height);
    OneWorth(l.accounts, row.sender);
    if dst != row.sender {
      TwoAccounts(l.accounts, row.sender, dst);
    }
  }

  /** The rows of a drain, each against the ledger as it stands when its turn comes. */
  ghost function RowsEntry(cfg: LedgerCfg, l: Ledger, rows: seq<Pending>, height: u64, k: AccountId): Entry
    decreases |rows|
  {
    if rows == [] then NOTHING
    else if height >= rows[0].executeAt && ApplyDue(cfg, l, rows[0], height).Done? then
      var next := ApplyDue(cfg, l, rows[0], height).value;
      Both(DueEntry(l, rows[0], height, k), RowsEntry(cfg, next, rows[1..], height, k))
    else RowsEntry(cfg, l, rows[1..], height, k)
  }

  lemma {:induction false} RowsBooks(cfg: LedgerCfg, l: Ledger, rows: seq<Pending>, height: u64, k: AccountId)
    requires DrainRows(cfg, l, rows, height).Some? && Supply(l) + RowsMinted(cfg, l, rows, height) <= U128_MAX
    ensures Booked(l, DrainRows(cfg, l, rows, height).value.0, k, RowsEntry(cfg, l, rows, height, k))
    decreases |rows|
  {
    if rows != [] {
      if height >= rows[0].executeAt && ApplyDue(cfg, l, rows[0], height).Done? {
        DueSupply(cfg, l, rows[0], height);
        DueBooks(cfg, l, rows[0], height, k);
        RowsBooks(cfg, ApplyDue(cfg, l, rows[0], height).value, rows[1..], height, k);
      } else {
        RowsBooks(cfg, l, rows[1..], height, k);
      }
    }
  }

  // ----- refunds and rewards -----

  /** What a refund pass owes `k`: the amounts of its locks that are still locked and have reached their
      height. */
  function Refunds(locks: seq<Lock>, height: u64, k: AccountId): nat {
    if locks == [] then 0
    else
      var lock := locks[0];
      If(lock.state.Locked? && lock.unlockHeight <= height && lock.refundAccount == k, lock.amount)
      + Refunds(locks[1..], height, k)
  }

  lemma RefundLockBooks(l: Ledger, at: nat, height: u64, k: AccountId)
    requires Inv(l) && at < |l.locks| && Supply(l) <= U128_MAX
    ensures var lock := l.locks[at];
      var owed := If(lock.state.Locked? && lock.unlockHeight <= height && lock.refundAccount == k, lock.amount);
      Booked(l, RefundLock(l, at, height), k, Entry(owed, 0, 0))
    ensures RefundLock(l, at, height).locks[at + 1..] == l.locks[at + 1..]
  {
    var lock := l.locks[at];
    assert LockOk(l, lock);
    OneWorth(l.accounts, lock.refundAccount);
    if lock.state.Locked? {
      HeldAt(l.locks, at);
    }
  }

  lemma {:induction false} RefundFromBooks(l: Ledger, at: nat, height: u64, k: AccountId)
    requires Inv(l) && at <= |l.locks| && Supply(l) <= U128_MAX
    ensures Booked(l, RefundFrom(l, at, height), k, Entry(Refunds(l.locks[at..], height, k), 0, 0))
    decreases |l.locks| - at
  {
    if at < |l.locks| {
      var next := RefundLock(l, at, height);
      RefundLockBooks(l, at, height, k);
      RefundLockKeepsInv(l, at, height);
      RefundLockSupply(l, at, height);
      RefundFromBooks(next, at + 1, height, k);
      assert l.locks[at..][1..] == l.locks[at + 1..];
    }
  }

  /** A refund pass gives every account exactly what its expired locks hold, and nothing to the fee pool. */
  lemma RefundBooks(l: Ledger, height: u64, k: AccountId)
    requires Inv(l) && Supply(l) <= U128_MAX
    ensures Booked(l, RefundExpired(l, height), k, Entry(Refunds(l.locks, height, k), 0, 0))
  {
    RefundFromBooks(l, 0, height, k);
    assert l.locks[0..] == l.locks;
  }

  function RewardEntry(l: Ledger, producer: AccountId, amount: u128, stakeMin: u128, k: AccountId): Entry {
    Entry(If(k == producer && k in l.accounts && StakeOf(l, k) >= stakeMin, amount), 0, 0)
  }

  lemma RewardBooks(l: Ledger, producer: AccountId, amount: u128, stakeMin: u128, k: AccountId)
    requires Supply(l) + (if producer in l.accounts && StakeOf(l, producer) >= stakeMin then amount else 0) <= U128_MAX
    ensures Booked(l, Reward(l, producer, amount, stakeMin), k, RewardEntry(l, producer, amount, stakeMin, k))
  {
    if producer in l.accounts {
      OneWorth(l.accounts, producer);
    }
  }

  // ----- runs -----

  ghost function OpEntry(cfg: LedgerCfg, l: Ledger, op: Op, k: AccountId): Entry {
    match op
    case Refund(height) => Entry(Refunds(l.locks, height, k), 0, 0)
    case Apply(tx, height, checked) => TxEntry(cfg, l, tx, height, checked, k)
    case DrainDue(height) => RowsEntry(cfg, l.(pending := []), l.pending, height, k)
    case Pay(producer, amount, stakeMin) => RewardEntry(l, producer, amount, stakeMin, k)
  }

  lemma DrainBooks(cfg: LedgerCfg, l: Ledger, height: u64, k: AccountId)
    requires Drain(cfg, l, height).Some?
    requires Supply(l) + RowsMinted(cfg, l.(pending := []), l.pending, height) <= U128_MAX
    ensures Booked(l, Drain(cfg, l, height).value, k, RowsEntry(cfg, l.(pending := []), l.pending, height, k))
  {
    RowsBooks(cfg, l.(pending := []), l.pending, height, k);
  }

  lemma StepBooks(cfg: LedgerCfg, l: Ledger, op: Op, k: AccountId)
    requires Inv(l) && Perform(cfg, l, op).Some? && Supply(l) + Created(cfg, l, op) <= U128_MAX
    ensures Booked(l, Perform(cfg, l, op).value, k, OpEntry(cfg, l, op, k))
  {
    match op
    case Refund(height) => RefundBooks(l, height, k);
    case Apply(tx, height, checked) => TxBooks(cfg, l, tx, height, checked, k);
    case DrainDue(height) => DrainBooks(cfg, l, height, k);
    case Pay(producer, amount, stakeMin) => RewardBooks(l, producer, amount, stakeMin, k);
  }

  /** An account's statement for a run. */
  ghost function Statement(cfg: LedgerCfg, l: Ledger, ops: seq<Op>, k: AccountId): Entry
    decreases |ops|
  {
    if ops == [] then NOTHING
    else match Perform(cfg, l, ops[0])
      case None => NOTHING
      case Some(next) => Both(OpEntry(cfg, l, ops[0], k), Statement(cfg, next, ops[1..], k))
  }

  /** Over any run every account's balance and stake, and the fee pool, change by exactly what the statement
      of that run adds up to. */
  lemma {:induction false} RunBooks(cfg: LedgerCfg, l: Ledger, ops: seq<Op>, k: AccountId)
    requires Inv(l) && RunOps(cfg, l, ops).Some? && Supply(l) + RunCreated(cfg, l, ops) <= U128_MAX
    ensures Booked(l, RunOps(cfg, l, ops).value, k, Statement(cfg, l, ops, k))
    decreases |ops|
  {
    if ops != [] {
      StepKeepsInv(cfg, l, ops[0]);
      StepSupply(cfg, l, ops[0]);
      StepBooks(cfg, l, ops[0], k);
      RunBooks(cfg, Perform(cfg, l, ops[0]).value, ops[1..], k);
    }
  }
}
