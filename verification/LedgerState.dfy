/** The ledger operations as the code performs them, updating one state object field by field. */
module LedgerState {
  import opened Basics
  import opened Transactions
  import opened TxMessage
  import opened Ledger

  /** Draining `rows` from `l` ends in `last`, and adds to the `remaining` rows what makes them `kept`. */
  ghost predicate DrainsTo(cfg: LedgerCfg, l: Ledger, rows: seq<Pending>, height: u64,
                           last: Ledger, remaining: seq<Pending>, kept: seq<Pending>) {
    match DrainRows(cfg, l, rows, height)
    case Some((end, more)) => end == last && remaining + more == kept
    case None => false
  }

  /** What is left to drain after the first row. */
  lemma DrainHead(cfg: LedgerCfg, l: Ledger, rows: seq<Pending>, height: u64,
                  last: Ledger, remaining: seq<Pending>, kept: seq<Pending>)
    requires rows != [] && DrainsTo(cfg, l, rows, height, last, remaining, kept)
    ensures height < rows[0].executeAt ==> DrainsTo(cfg, l, rows[1..], height, last, remaining + [rows[0]], kept)
    ensures height >= rows[0].executeAt ==>
      match ApplyDue(cfg, l, rows[0], height)
      case Abort => false
      case Done(next) => DrainsTo(cfg, next, rows[1..], height, last, remaining, kept)
      case Fail(_) => DrainsTo(cfg, l, rows[1..], height, last, remaining + [rows[0]], kept)
  {
  }

  class State {
    var accounts: map<AccountId, Account>
    var feePool: u128
    var imported: set<Bytes32>
    var exported: map<Bytes32, ExportProvenance>
    var locks: seq<Lock>
    var pending: seq<Pending>

    ghost function View(): Ledger
      reads this
    {
      Ledger(accounts, feePool, imported, exported, locks, pending)
    }

    constructor (l: Ledger)
      ensures View() == l
    {
      accounts, feePool, imported, exported := l.accounts, l.feePool, l.imported, l.exported;
      locks, pending := l.locks, l.pending;
    }

    method RefundExpLocks(height: u64)
      modifies this
      ensures View() == RefundExpired(old(View()), height)
    {
      var i := 0;
      while i < |locks|
        invariant 0 <= i <= |locks|
        invariant RefundFrom(View(), i, height) == RefundExpired(old(View()), height)
      {
        var lock := locks[i];
        if lock.state.Locked? && height >= lock.unlockHeight {
          if lock.refundAccount in accounts {
            accounts := accounts[lock.refundAccount := Credit(accounts[lock.refundAccount], lock.amount)];
          }
          locks := locks[i := lock.(state := Refunded)];
          imported := imported + {lock.exportId};
        }
        i := i + 1;
      }
    }

    /** The result of a step against the state: refused and unchanged, or done. */
    ghost predicate Follows(step: Step<Ledger>, before: Ledger, r: Result<(), TxError>)
      reads this
    {
      match step
      case Done(next) => r == Ok(()) && View() == next
      case Fail(e) => r == Err(e) && View() == before
      case Abort => false
    }

    method ApplyDueConservation(cfg: LedgerCfg, row: Pending, height: u64) returns (r: Result<(), TxError>)
      requires !ApplyDue(cfg, View(), row, height).Abort?
      modifies this
      ensures Follows(ApplyDue(cfg, old(View()), row, height), old(View()), r)
    {
      var l := Ledger(accounts, feePool, imported, exported, locks, pending);
      var checkedDue := CheckDue(l, row, height);
      if checkedDue.Err? { return Err(checkedDue.error); }
      var dst := checkedDue.value;
      var from := Debited(TouchAccount(cfg, accounts[row.sender], height), row.amount + row.fee);
      feePool := SatAdd128(feePool, row.fee);
      var to := TouchAccount(cfg, accounts[dst], height);
      to := Credit(to, row.amount);
      accounts := accounts[row.sender := from];
      accounts := accounts[dst := to];
      r := Ok(());
    }

    method DrainConservationAtHeight(cfg: LedgerCfg, height: u64)
      requires Drain(cfg, View(), height).Some?
      modifies this
      ensures Some(View()) == Drain(cfg, old(View()), height)
    {
      var rows, remaining := pending, [];
      pending := [];
      ghost var (last, kept) := DrainRows(cfg, View(), rows, height).value;
      var i := 0;
      assert rows[0..] == rows;
      while i < |rows|
        invariant 0 <= i <= |rows|
        invariant DrainsTo(cfg, View(), rows[i..], height, last, remaining, kept)
      {
        var row := rows[i];
        assert rows[i..][0] == row && rows[i..][1..] == rows[i + 1..];
        DrainHead(cfg, View(), rows[i..], height, last, remaining, kept);
        if height < row.executeAt {
          remaining := remaining + [row];
        } else {
          var r := ApplyDueConservation(cfg, row, height);
          if r.Err? {
            remaining := remaining + [row];
          }
        }
        i := i + 1;
      }
      pending := remaining;
      assert rows[|rows|..] == [] && remaining + [] == remaining;
    }

    method Settled(id: AccountId, from: Account, dst: AccountId, to: Account, amount: u128)
      modifies this`accounts
      ensures accounts == Settle(old(accounts), id, from, dst, to, amount)
    {
      if dst == id {
        accounts := accounts[id := Credit(from, amount)];
      } else {
        accounts := accounts[id := from];
        accounts := accounts[dst := Credit(to, amount)];
      }
    }

    method ApplyTransfer(cfg: LedgerCfg, id: AccountId, acc: Account, tx: SignedTx, redirect: Option<AccountId>,
                         height: u64)
      returns (r: Result<(), TxError>)
      requires tx.body.Transfer? && !TransferBody(cfg, View(), id, acc, tx, redirect, height).Abort?
      modifies this
      ensures Follows(TransferBody(cfg, old(View()), id, acc, tx, redirect, height), old(View()), r)
    {
      if !acc.initialized { return Err(NotInitialized); }
      var dst := match redirect case Some(to) => to case None => tx.body.to;
      if dst != id && dst !in accounts { return Err(RecipientMissing); }
      if dst != id && !accounts[dst].initialized { return Err(RecipientNotInitialized); }
      var total := tx.body.amount + tx.body.fee;
      if total > U128_MAX || acc.balance < total { return Err(Insufficient); }
      if ConservationFlag(id) {
        r := Queue(cfg, id, dst, tx, height);
        return;
      }
      var from := Debited(TouchAccount(cfg, acc, height), total);
      feePool := SatAdd128(feePool, tx.body.fee);
      var to := if dst == id then from else TouchAccount(cfg, accounts[dst], height);
      Settled(id, from, dst, to, tx.body.amount);
      r := Ok(());
    }

    method Queue(cfg: LedgerCfg, id: AccountId, dst: AccountId, tx: SignedTx, height: u64) returns (r: Result<(),
                 TxError>)
      requires tx.body.Transfer?
      modifies this
      ensures Follows(Enqueue(cfg, old(View()), id, dst, tx, height), old(View()), r)
    {
      var fee := tx.body.fee;
      if exists i :: 0 <= i < |pending| && pending[i].sender == id { return Err(ConservationPendingExists); }
      if fee > U64_MAX { return Err(PolicySchemaInvalid); }
      var executeAt := SatAdd64(height, cfg.conservationDelay);
      pending := pending + [Pending(id, dst, tx.body.amount, fee, tx.nonce, height, executeAt, TxHash(cfg.c.hash, tx))];
      r := Ok(());
    }

    method ApplyExport(cfg: LedgerCfg, id: AccountId, acc: Account, tx: SignedTx, height: u64) returns (r: Result<(),
                       TxError>)
      requires tx.body.Export? && !ExportBody(cfg, View(), id, acc, tx, height).Abort?
      modifies this
      ensures Follows(ExportBody(cfg, old(View()), id, acc, tx, height), old(View()), r)
    {
      var (amount, fee) := (tx.body.amount, tx.body.fee);
      if !acc.initialized { return Err(NotInitialized); }
      if !ExportContextOk(tx) { return Err(InvalidExport); }
      if amount + fee > U128_MAX || acc.balance < amount + fee { return Err(Insufficient); }
      CommitExport(cfg, id, acc, tx, height);
      r := Ok(());
    }

    /** The writes of an export that has passed its checks. */
    method CommitExport(cfg: LedgerCfg, id: AccountId, acc: Account, tx: SignedTx, height: u64)
      requires tx.body.Export? && ExportBody(cfg, View(), id, acc, tx, height).Done?
      modifies this
      ensures View() == ExportBody(cfg, old(View()), id, acc, tx, height).value
    {
      var (amount, fee) := (tx.body.amount, tx.body.fee);
      feePool := SatAdd128(feePool, fee);
      var exportId := ExportId(cfg.c.hash, tx).value;
      var unlockHeight := SatAdd64(height, cfg.lockTimeout);
      Register(
        ExportProvenance(tx.body.to, tx.body.targetDomain, amount),
        Lock(exportId, id, amount, tx.body.targetDomain, id, height, unlockHeight, Locked));
      accounts := accounts[id := Debited(acc, amount + fee)];
    }

    /** Registers an export and its lock, each unless its id is there already. */
    method Register(origin: ExportProvenance, lock: Lock)
      modifies this`exported, this`locks
      ensures exported
        == if lock.exportId in old(exported) then old(exported) else old(exported)[lock.exportId := origin]
      ensures locks == if LockIndex(old(locks), lock.exportId) < |old(locks)| then old(locks) else old(locks) + [lock]
    {
      if lock.exportId !in exported {
        exported := exported[lock.exportId := origin];
      }
      if LockIndex(locks, lock.exportId) == |locks| {
        locks := locks + [lock];
      }
    }

    method ApplyImport(id: AccountId, acc: Account, tx: SignedTx) returns (r: Result<(), TxError>)
      requires tx.body.Import? && !ImportBody(View(), id, acc, tx).Abort?
      modifies this
      ensures Follows(ImportBody(old(View()), id, acc, tx), old(View()), r)
    {
      var exportId := tx.body.exportId;
      var at := LockIndex(locks, exportId);
      var checkedImport := CheckImport(Ledger(accounts, feePool, imported, exported, locks, pending), id, acc, tx);
      if checkedImport.Err? { return Err(checkedImport.error); }
      var from := Debited(acc, tx.importFee.value);
      feePool := SatAdd128(feePool, tx.importFee.value);
      if exportId !in exported {
        exported := exported[exportId := checkedImport.value];
      }
      Settled(id, from, tx.body.to, if tx.body.to == id then from else accounts[tx.body.to], tx.body.amount);
      if at < |locks| && locks[at].state.Locked? {
        locks := locks[at := locks[at].(state := Released)];
      }
      imported := imported + {exportId};
      r := Ok(());
    }

    method ApplyPolicy(cfg: LedgerCfg, id: AccountId, acc: Account, tx: SignedTx, height: u64) returns (r: Result<(),
                       TxError>)
      requires tx.body.Policy? && !PolicyBody(cfg, View(), id, acc, tx, height).Abort?
      modifies this
      ensures Follows(PolicyBody(cfg, old(View()), id, acc, tx, height), old(View()), r)
    {
      var action := tx.body.action;
      if !acc.initialized { return Err(NotInitialized); }
      if tx.body.target != id { return Err(PolicyDenied); }
      var a := TouchAccount(cfg, acc, height);
      var l := Ledger(accounts, feePool, imported, exported, locks, pending);
      var valid := ValidatePolicyAction(cfg, l, a, action, tx);
      if valid.Err? { return Err(valid.error); }
      var acted := ApplyPolicyAction(a, action, height);
      if acted.Err? { return Err(acted.error); }
      if acted.value.balance < tx.body.fee { return Err(Insufficient); }
      a := Debited(acted.value, tx.body.fee);
      feePool := SatAdd128(feePool, tx.body.fee);
      if IsEmergency(action) {
        var target := action.activationTarget.value;
        pending := WithoutSender(pending, id);
        if target != id {
          accounts := accounts[target := Credit(Credit(accounts[target], a.balance), a.staked)];
          a := a.(balance := 0, staked := 0);
        }
      }
      accounts := accounts[id := a];
      r := Ok(());
    }

    method ApplyOwn(cfg: LedgerCfg, id: AccountId, acc: Account, tx: SignedTx, redirect: Option<AccountId>, height: u64)
      returns (r: Result<(), TxError>)
      requires IsOwn(tx.body) && !ApplyBody(cfg, View(), id, acc, tx, redirect, height).Abort?
      modifies this
      ensures Follows(ApplyBody(cfg, old(View()), id, acc, tx, redirect, height), old(View()), r)
    {
      var own := OwnBody(cfg, Ledger(accounts, feePool, imported, exported, locks, pending), id, acc, tx, height);
      if own.Fail? { return Err(own.error); }
      accounts := accounts[id := own.value];
      r := Ok(());
    }

    method Dispatch(cfg: LedgerCfg, id: AccountId, acc: Account, tx: SignedTx, redirect: Option<AccountId>, height: u64)
      returns (r: Result<(), TxError>)
      requires !ApplyBody(cfg, View(), id, acc, tx, redirect, height).Abort?
      modifies this
      ensures Follows(ApplyBody(cfg, old(View()), id, acc, tx, redirect, height), old(View()), r)
    {
      match tx.body
      case Transfer(_, _, _) => r := ApplyTransfer(cfg, id, acc, tx, redirect, height);
      case Export(_, _, _, _) => r := ApplyExport(cfg, id, acc, tx, height);
      case Import(_, _, _) => r := ApplyImport(id, acc, tx);
      case Policy(_, _, _) => r := ApplyPolicy(cfg, id, acc, tx, height);
      case _ => r := ApplyOwn(cfg, id, acc, tx, redirect, height);
    }

    /** One signed transaction; `checked` is false for one that was prevalidated at this tip. */
    method ApplyTxImpl(cfg: LedgerCfg, tx: SignedTx, height: u64, checked: bool) returns (r: Result<(), TxError>)
      requires !ApplyTx(cfg, View(), tx, height, checked).Aborted?
      modifies this
      ensures match ApplyTx(cfg, old(View()), tx, height, checked)
        case Applied(next) => r == Ok(()) && View() == next
        case Rejected(after, e) => r == Err(e) && View() == after
        case Aborted => false
    {
      var shape := ValidateShape(cfg.c, tx, checked);
      if shape.Err? { return Err(shape.error); }
      var id := SenderOf(cfg.c.hash, tx);
      if tx.body.Init? && id !in accounts {
        accounts := accounts[id := BlankAccount(tx.signerPk, tx.derivationIndex)];
      }
      assert View() == WithStub(old(View()), id, tx);
      var l := Ledger(accounts, feePool, imported, exported, locks, pending);
      var admitted := Admit(cfg, l, id, tx, height, checked);
      if admitted.Err? { return Err(admitted.error); }
      r := Dispatch(cfg, id, admitted.value.0, tx, admitted.value.1, height);
    }

    method RewardProducer(producer: AccountId, amount: u128, stakeMin: u128)
      modifies this
      ensures View() == Reward(old(View()), producer, amount, stakeMin)
    {
      if producer in accounts {
        if accounts[producer].staked < stakeMin { return; }
        accounts := accounts[producer := Credit(accounts[producer], amount)];
      }
    }
  }
}
