/** The records that transfers leave and the block work settles: delayed transfers, exports, imports. */
module LedgerRecords {
  import opened Basics
  import opened Transactions
  import opened TxMessage
  import opened Ledger
  import opened LedgerInvariant
  import opened LedgerSupply
  import opened LedgerRuns
  import opened LedgerExports
  import opened LedgerRules
  import opened LedgerTurns
  import opened LedgerBooks

  // ----- delayed transfers -----

  /** The record of a delayed transfer: due at its height plus the configured delay. */
  function DelayedRow(cfg: LedgerCfg, l: Ledger, tx: SignedTx, height: u64, checked: bool): Pending
    requires tx.body.Transfer? && tx.body.fee <= U64_MAX
  {
    var dst := if checked then PaidFor(l, tx.body.to, height) else tx.body.to;
    Pending(SenderOf(cfg.c.hash, tx), dst, tx.body.amount, tx.body.fee, tx.nonce, height,
            Min(height + cfg.conservationDelay, U64_MAX), cfg.c.hash(EncTx(tx)))
  }

  lemma EnqueuedRow(cfg: LedgerCfg, l: Ledger, id: AccountId, acc: Account, tx: SignedTx, redirect: Option<AccountId>,
                    height: u64)
    requires Waits(id, tx) && TransferBody(cfg, l, id, acc, tx, redirect, height).Done?
    ensures tx.body.fee <= U64_MAX && !HasPending(l, id)
    ensures var dst := match redirect case Some(r) => r case None => tx.body.to;
      TransferBody(cfg, l, id, acc, tx, redirect, height).value
        == l.(pending := l.pending + [Pending(id, dst, tx.body.amount, tx.body.fee, tx.nonce, height,
                                              Min(height + cfg.conservationDelay, U64_MAX), cfg.c.hash(EncTx(tx)))])
  {
  }

  /** A transfer out of a conservation account does nothing but queue its record, and only when none waits. */
  lemma DelayedRecorded(cfg: LedgerCfg, l: Ledger, tx: SignedTx, height: u64, checked: bool)
    requires ApplyTx(cfg, l, tx, height, checked).Applied? && Waits(SenderOf(cfg.c.hash, tx), tx)
    ensures tx.body.fee <= U64_MAX && !HasPending(l, SenderOf(cfg.c.hash, tx))
    ensures ApplyTx(cfg, l, tx, height, checked).ledger
      == l.(pending := l.pending + [DelayedRow(cfg, l, tx, height, checked)])
  {
    var id, stubbed, acc, redirect := AppliedTrace(cfg, l, tx, height, checked);
    AppliedDestination(cfg, l, tx, height, checked, id, acc, redirect);
    EnqueuedRow(cfg, l, id, acc, tx, redirect, height);
  }

  lemma {:induction false} FutureRowStays(cfg: LedgerCfg, l: Ledger, rows: seq<Pending>, height: u64, row: Pending)
    requires DrainRows(cfg, l, rows, height).Some? && row in rows && height < row.executeAt
    ensures row in DrainRows(cfg, l, rows, height).value.1
    decreases |rows|
  {
    if height >= rows[0].executeAt && ApplyDue(cfg, l, rows[0], height).Done? {
      FutureRowStays(cfg, ApplyDue(cfg, l, rows[0], height).value, rows[1..], height, row);
    } else if row != rows[0] {
      FutureRowStays(cfg, l, rows[1..], height, row);
    }
  }

  /** What could take a record off the queue: a drain at its height, or its sender's emergency. */
  predicate Takes(cfg: LedgerCfg, op: Op, row: Pending) {
    match op
    case DrainDue(height) => height >= row.executeAt
    case Apply(tx, _, _) => SenderOf(cfg.c.hash, tx) == row.sender && tx.body.Policy? && IsEmergency(tx.body.action)
    case _ => false
  }

  lemma BodyKeepsRow(cfg: LedgerCfg, l: Ledger, id: AccountId, acc: Account, tx: SignedTx,
                     redirect: Option<AccountId>, height: u64, row: Pending)
    requires ApplyBody(cfg, l, id, acc, tx, redirect, height).Done? && row in l.pending
    requires !(id == row.sender && tx.body.Policy? && IsEmergency(tx.body.action))
    ensures row in ApplyBody(cfg, l, id, acc, tx, redirect, height).value.pending
  {
    if tx.body.Policy? && IsEmergency(tx.body.action) {
      var i :| 0 <= i < |l.pending| && l.pending[i] == row;
      WithoutSenderHas(l.pending, id, i);
    } else {
      BodyKeepsRows(cfg, l, id, acc, tx, redirect, height);
    }
  }

  lemma {:induction false} RefundKeepsRows(l: Ledger, at: nat, height: u64)
    requires at <= |l.locks|
    ensures RefundFrom(l, at, height).pending == l.pending
    decreases |l.locks| - at
  {
    if at < |l.locks| {
      RefundKeepsRows(RefundLock(l, at, height), at + 1, height);
    }
  }

  lemma StepKeepsRow(cfg: LedgerCfg, l: Ledger, op: Op, row: Pending)
    requires Perform(cfg, l, op).Some? && row in l.pending && !Takes(cfg, op, row)
    ensures row in Perform(cfg, l, op).value.pending
  {
    match op
    case Refund(height) => RefundKeepsRows(l, 0, height);
    case Apply(tx, height, checked) =>
      var id, stubbed, acc, redirect := AppliedTrace(cfg, l, tx, height, checked);
      BodyKeepsRow(cfg, stubbed, id, acc, tx, redirect, height, row);
    case DrainDue(height) => FutureRowStays(cfg, l.(pending := []), l.pending, height, row);
    case Pay(_, _, _) =>
  }

  /** The delay holds: over any run a waiting transfer stays on the queue until a drain at its height or its
      sender's own emergency activation. */
  lemma {:induction false} DelayHolds(cfg: LedgerCfg, l: Ledger, ops: seq<Op>, row: Pending)
    requires RunOps(cfg, l, ops).Some? && row in l.pending
    requires forall i :: 0 <= i < |ops| ==> !Takes(cfg, ops[i], row)
    ensures row in RunOps(cfg, l, ops).value.pending
    decreases |ops|
  {
    if ops != [] {
      StepKeepsRow(cfg, l, ops[0], row);
      assert forall i :: 0 <= i < |ops[1..]| ==> ops[1..][i] == ops[i + 1];
      DelayHolds(cfg, Perform(cfg, l, ops[0]).value, ops[1..], row);
    }
  }

  // ----- exports -----

  /** The lock of an export: its sender gets the amount back at its height plus the configured timeout. */
  function LockFor(cfg: LedgerCfg, tx: SignedTx, height: u64): Lock
    requires tx.body.Export?
  {
    var id := SenderOf(cfg.c.hash, tx);
    Lock(cfg.c.hash(ExportIdInput(cfg.c.hash, tx)), id, tx.body.amount, tx.body.targetDomain, id, height,
         Min(height + cfg.lockTimeout, U64_MAX), Locked)
  }

  lemma ExportBodyRecorded(cfg: LedgerCfg, l: Ledger, id: AccountId, acc: Account, tx: SignedTx, height: u64)
    requires tx.body.Export? && ExportBody(cfg, l, id, acc, tx, height).Done? && id == SenderOf(cfg.c.hash, tx)
    ensures var (lock, next) := (LockFor(cfg, tx, height), ExportBody(cfg, l, id, acc, tx, height).value);
      var origin := ExportProvenance(tx.body.to, tx.body.targetDomain, tx.body.amount);
      && next.exported == (if lock.exportId in l.exported then l.exported else l.exported[lock.exportId := origin])
      && next.locks == (if HasLock(l, lock.exportId) then l.locks else l.locks + [lock])
      && next.imported == l.imported && next.pending == l.pending
  {
  }

  /** An export registers its provenance and locks its amount, each under its own id unless that is taken. */
  lemma ExportRecorded(cfg: LedgerCfg, l: Ledger, tx: SignedTx, height: u64, checked: bool)
    requires ApplyTx(cfg, l, tx, height, checked).Applied? && tx.body.Export?
    ensures var (lock, next) := (LockFor(cfg, tx, height), ApplyTx(cfg, l, tx, height, checked).ledger);
      var origin := ExportProvenance(tx.body.to, tx.body.targetDomain, tx.body.amount);
      && next.exported == (if lock.exportId in l.exported then l.exported else l.exported[lock.exportId := origin])
      && next.locks == (if HasLock(l, lock.exportId) then l.locks else l.locks + [lock])
      && next.imported == l.imported && next.pending == l.pending
  {
    var id, stubbed, acc, redirect := AppliedTrace(cfg, l, tx, height, checked);
    ExportBodyRecorded(cfg, l, id, acc, tx, height);
  }

  /** An import records its id and the export it settled, and touches no other. */
  lemma ImportRecorded(cfg: LedgerCfg, l: Ledger, tx: SignedTx, height: u64, checked: bool)
    requires ApplyTx(cfg, l, tx, height, checked).Applied? && tx.body.Import?
    ensures var (exportId, next) := (tx.body.exportId, ApplyTx(cfg, l, tx, height, checked).ledger);
      && exportId !in l.imported && next.imported == l.imported + {exportId} && next.pending == l.pending
      && (exportId in l.exported ==> next.exported == l.exported)
      && (exportId !in l.exported ==>
           tx.importProvenance.Some? && next.exported == l.exported[exportId := tx.importProvenance.value])
  {
    var id, stubbed, acc, redirect := AppliedTrace(cfg, l, tx, height, checked);
  }

  /** No other transaction touches a record, but for the sender's own waiting transfers that an emergency
      activation drops. */
  lemma OthersUnrecorded(cfg: LedgerCfg, l: Ledger, tx: SignedTx, height: u64, checked: bool)
    requires ApplyTx(cfg, l, tx, height, checked).Applied?
    requires !tx.body.Export? && !tx.body.Import? && !Waits(SenderOf(cfg.c.hash, tx), tx)
    ensures var (id, next) := (SenderOf(cfg.c.hash, tx), ApplyTx(cfg, l, tx, height, checked).ledger);
      && next.exported == l.exported && next.locks == l.locks && next.imported == l.imported
      && (if tx.body.Policy? && IsEmergency(tx.body.action)
          then forall row :: row in next.pending <==> row in l.pending && row.sender != id
          else next.pending == l.pending)
  {
    var id, stubbed, acc, redirect := AppliedTrace(cfg, l, tx, height, checked);
    var next := ApplyTx(cfg, l, tx, height, checked).ledger;
    if tx.body.Policy? && IsEmergency(tx.body.action) {
      WithoutSenderWithin(l.pending, id);
      forall row | row in l.pending && row.sender != id
        ensures row in next.pending
      {
        var i :| 0 <= i < |l.pending| && l.pending[i] == row;
        WithoutSenderHas(l.pending, id, i);
      }
    }
  }

  // ----- an export that nobody imports -----

  /** What could settle a lock: a refund pass at its height, or an import of its id. */
  predicate Settles(op: Op, lock: Lock) {
    match op
    case Refund(height) => height >= lock.unlockHeight
    case Apply(tx, _, _) => tx.body.Import? && tx.body.exportId == lock.exportId
    case _ => false
  }

  lemma {:induction false} UnsettledStays(ops: seq<Op>, lock: Lock)
    requires lock.state.Locked? && forall i :: 0 <= i < |ops| ==> !Settles(ops[i], lock)
    ensures FateOver(ops, lock) == Locked
    decreases |ops|
  {
    if ops != [] {
      assert forall i :: 0 <= i < |ops[1..]| ==> ops[1..][i] == ops[i + 1];
      UnsettledStays(ops[1..], lock.(state := Fate(ops[0], lock)));
    }
  }

  lemma {:induction false} RefundsOf(locks: seq<Lock>, height: u64, k: AccountId, i: nat)
    requires i < |locks| && locks[i].state.Locked? && locks[i].unlockHeight <= height && locks[i].refundAccount == k
    ensures Refunds(locks, height, k) == locks[i].amount + Refunds(locks[..i] + locks[i + 1..], height, k)
  {
    var others := locks[..i] + locks[i + 1..];
    if i == 0 {
      assert others == locks[1..];
    } else {
      RefundsOf(locks[1..], height, k, i - 1);
      assert others[0] == locks[0] && others[1..] == locks[1..][..i - 1] + locks[1..][i..];
    }
  }

  /** An export that nobody imports comes back: after any run in which nothing settles its lock, the first
      refund pass at its height gives its sender the amount, next to what other locks give. */
  lemma ExpiredExportReturns(cfg: LedgerCfg, l: Ledger, tx: SignedTx, height: u64, checked: bool, ops: seq<Op>,
                             last: Ledger, later: u64, lock: Lock)
    requires Inv(l) && ApplyTx(cfg, l, tx, height, checked).Applied? && tx.body.Export?
    requires lock == LockFor(cfg, tx, height) && !HasLock(l, lock.exportId)
    requires RunOps(cfg, ApplyTx(cfg, l, tx, height, checked).ledger, ops) == Some(last)
    requires forall i :: 0 <= i < |ops| ==> !Settles(ops[i], lock)
    requires lock.unlockHeight <= later && Supply(last) <= U128_MAX
    ensures var at := |l.locks|;
      && at < |last.locks| && last.locks[at] == lock
      && BalanceOf(RefundExpired(last, later), lock.sender)
         == BalanceOf(last, lock.sender) + tx.body.amount
            + Refunds(last.locks[..at] + last.locks[at + 1..], later, lock.sender)
  {
    var (next, at) := (ApplyTx(cfg, l, tx, height, checked).ledger, |l.locks|);
    TxKeepsInv(cfg, l, tx, height, checked);
    ExportRecorded(cfg, l, tx, height, checked);
    LockFate(cfg, next, ops, at);
    UnsettledStays(ops, lock);
    RunKeepsInv(cfg, next, ops);
    RefundBooks(last, later, lock.sender);
    RefundsOf(last.locks, later, lock.sender, at);
  }
}
