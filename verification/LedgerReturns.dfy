/** Whose transfers can come back: only those of an account that somebody names as a rescue account. */
module LedgerReturns {
  import opened Basics
  import opened Transactions
  import opened TxMessage
  import opened Ledger
  import opened LedgerInvariant
  import opened LedgerRuns
  import opened LedgerNonces
  import opened LedgerSafety

  /** Nobody's rescue account is `k`. */
  ghost predicate NoRescue(m: map<AccountId, Account>, k: AccountId) { forall j :: j in m ==> m[j].rescue != Some(k) }

  ghost predicate NotToSelf(rows: seq<Pending>, k: AccountId) {
    forall i :: 0 <= i < |rows| && rows[i].sender == k ==> rows[i].recipient != k
  }

  /** Nobody's rescue account is `k`, and no waiting transfer of `k` goes to `k`. */
  ghost predicate Unnamed(l: Ledger, k: AccountId) { NoRescue(l.accounts, k) && NotToSelf(l.pending, k) }

  /** An Init that names `k` as the rescue account. */
  predicate NamesRescue(tx: SignedTx, k: AccountId) {
    tx.body.Init? && tx.initV4.Some? && tx.initV4.value.rescueAddress == Some(k)
  }

  // ----- transactions -----

  lemma {:induction false} SetModesRescue(a: Account, entries: seq<InitPolicyEntry>, height: u64)
    ensures SetModes(a, entries, height).rescue == a.rescue
    decreases |entries|
  {
    if entries != [] {
      SetModesRescue(SetMode(a, entries[0].policy, entries[0].activation, height), entries[1..], height);
    }
  }

  lemma OwnRescue(cfg: LedgerCfg, l: Ledger, id: AccountId, acc: Account, tx: SignedTx, height: u64, k: AccountId)
    requires IsOwn(tx.body) && OwnBody(cfg, l, id, acc, tx, height).Done?
    requires acc.rescue != Some(k) && !NamesRescue(tx, k)
    ensures OwnBody(cfg, l, id, acc, tx, height).value.rescue != Some(k)
  {
    if tx.body.Init? && tx.initV4.Some? {
      SetModesRescue(Declared(acc, tx, tx.initV4.value), tx.initV4.value.initialPolicies, height);
    }
  }

  lemma TransferUnnamed(cfg: LedgerCfg, l: Ledger, id: AccountId, acc: Account, tx: SignedTx,
                        redirect: Option<AccountId>, height: u64, k: AccountId)
    requires Unnamed(l, k) && SignerRow(l, id, tx) == Ok(acc) && tx.body.Transfer?
    requires TransferBody(cfg, l, id, acc, tx, redirect, height).Done?
    requires id == k ==> tx.body.to != k && redirect != Some(k)
    ensures Unnamed(TransferBody(cfg, l, id, acc, tx, redirect, height).value, k)
  {
    if !ConservationFlag(id) {
      var dst, from, to := TransferSettles(cfg, l, id, acc, tx, redirect, height);
    }
  }

  lemma ImportUnnamed(l: Ledger, id: AccountId, acc: Account, tx: SignedTx, k: AccountId)
    requires Unnamed(l, k) && SignerRow(l, id, tx) == Ok(acc) && tx.body.Import? && ImportBody(l, id, acc, tx).Done?
    ensures Unnamed(ImportBody(l, id, acc, tx).value, k)
  {
  }

  lemma PolicyUnnamed(cfg: LedgerCfg, l: Ledger, id: AccountId, acc: Account, tx: SignedTx, height: u64, k: AccountId)
    requires Unnamed(l, k) && SignerRow(l, id, tx) == Ok(acc) && tx.body.Policy?
    requires PolicyBody(cfg, l, id, acc, tx, height).Done?
    ensures Unnamed(PolicyBody(cfg, l, id, acc, tx, height).value, k)
  {
    var touched := TouchAccount(cfg, acc, height);
    ActionKeeps(touched, tx.body.action, height);
    if IsEmergency(tx.body.action) {
      EmergencyTarget(cfg, l, touched, tx.body.action, tx);
      WithoutSenderWithin(l.pending, id);
      var kept := WithoutSender(l.pending, id);
      forall i | 0 <= i < |kept| && kept[i].sender == k
        ensures kept[i].recipient != k
      {
        assert kept[i] in l.pending;
      }
    }
  }

  lemma BodyUnnamed(cfg: LedgerCfg, l: Ledger, id: AccountId, acc: Account, tx: SignedTx, redirect: Option<AccountId>,
                    height: u64, k: AccountId)
    requires Unnamed(l, k) && SignerRow(l, id, tx) == Ok(acc) && !NamesRescue(tx, k)
    requires ApplyBody(cfg, l, id, acc, tx, redirect, height).Done?
    requires tx.body.Transfer? && id == k ==> tx.body.to != k && redirect != Some(k)
    ensures Unnamed(ApplyBody(cfg, l, id, acc, tx, redirect, height).value, k)
  {
    match tx.body
    case Transfer(_, _, _) => TransferUnnamed(cfg, l, id, acc, tx, redirect, height, k);
    case Export(_, _, _, _) =>
    case Import(_, _, _) => ImportUnnamed(l, id, acc, tx, k);
    case Policy(_, _, _) => PolicyUnnamed(cfg, l, id, acc, tx, height, k);
    case _ => OwnRescue(cfg, l, id, acc, tx, height, k);
  }

  /** A policy redirects to somebody's rescue account. */
  lemma RedirectIsRescue(cfg: LedgerCfg, l: Ledger, tx: SignedTx, height: u64, k: AccountId)
    requires NoRescue(l.accounts, k)
    ensures Evaluate(cfg, l, tx, height) != Ok(Some(k))
  {
  }

  lemma TxUnnamed(cfg: LedgerCfg, l: Ledger, tx: SignedTx, height: u64, checked: bool, k: AccountId)
    requires Unnamed(l, k) && !NamesRescue(tx, k) && ApplyTx(cfg, l, tx, height, checked).Applied?
    ensures Unnamed(ApplyTx(cfg, l, tx, height, checked).ledger, k)
  {
    var id, stubbed, acc, redirect := AppliedTrace(cfg, l, tx, height, checked);
    RedirectIsRescue(cfg, stubbed, tx, height, k);
    BodyUnnamed(cfg, stubbed, id, acc, tx, redirect, height, k);
  }

  // ----- block work -----

  lemma {:induction false} RefundUnnamed(l: Ledger, at: nat, height: u64, k: AccountId)
    requires Unnamed(l, k) && at <= |l.locks|
    ensures Unnamed(RefundFrom(l, at, height), k)
    decreases |l.locks| - at
  {
    if at < |l.locks| {
      RefundUnnamed(RefundLock(l, at, height), at + 1, height, k);
    }
  }

  /** A due transfer of an account that nobody names does not come back. */
  lemma DueUnnamed(cfg: LedgerCfg, l: Ledger, row: Pending, height: u64, k: AccountId)
    requires NoRescue(l.accounts, k) && ApplyDue(cfg, l, row, height).Done?
    ensures NoRescue(ApplyDue(cfg, l, row, height).value.accounts, k)
    ensures row.sender == k && row.recipient != k ==> !ReturnsToSender(l, row, height)
  {
  }

  ghost predicate NoneReturns(log: seq<Execution>, k: AccountId) {
    forall e :: e in log && e.account == k ==> !e.returned
  }

  lemma {:induction false} RowsUnnamed(cfg: LedgerCfg, l: Ledger, rows: seq<Pending>, height: u64, k: AccountId)
    requires NoRescue(l.accounts, k) && NotToSelf(rows, k) && DrainRows(cfg, l, rows, height).Some?
    ensures var (last, kept) := DrainRows(cfg, l, rows, height).value;
      NoRescue(last.accounts, k) && NotToSelf(kept, k)
    ensures NoneReturns(RowsExecuted(cfg, l, rows, height), k)
    decreases |rows|
  {
    if rows != [] {
      assert forall i :: 0 <= i < |rows[1..]| ==> rows[1..][i] == rows[i + 1];
      if height >= rows[0].executeAt && ApplyDue(cfg, l, rows[0], height).Done? {
        DueUnnamed(cfg, l, rows[0], height, k);
        RowsUnnamed(cfg, ApplyDue(cfg, l, rows[0], height).value, rows[1..], height, k);
      } else {
        RowsUnnamed(cfg, l, rows[1..], height, k);
      }
    }
  }

  lemma StepUnnamed(cfg: LedgerCfg, l: Ledger, op: Op, k: AccountId)
    requires Unnamed(l, k) && Perform(cfg, l, op).Some? && (op.Apply? ==> !NamesRescue(op.tx, k))
    ensures Unnamed(Perform(cfg, l, op).value, k) && NoneReturns(Executed(cfg, l, op), k)
  {
    match op
    case Refund(height) => RefundUnnamed(l, 0, height, k);
    case Apply(tx, height, checked) => TxUnnamed(cfg, l, tx, height, checked, k);
    case DrainDue(height) => RowsUnnamed(cfg, l.(pending := []), l.pending, height, k);
    case Pay(_, _, _) =>
  }

  // ----- runs -----

  lemma {:induction false} RunUnnamed(cfg: LedgerCfg, l: Ledger, ops: seq<Op>, k: AccountId)
    requires Unnamed(l, k) && RunOps(cfg, l, ops).Some?
    requires forall i :: 0 <= i < |ops| && ops[i].Apply? ==> !NamesRescue(ops[i].tx, k)
    ensures Unnamed(RunOps(cfg, l, ops).value, k) && NoneReturns(RunExecuted(cfg, l, ops), k)
    decreases |ops|
  {
    if ops != [] {
      StepUnnamed(cfg, l, ops[0], k);
      assert forall i :: 0 <= i < |ops[1..]| ==> ops[1..][i] == ops[i + 1];
      RunUnnamed(cfg, Perform(cfg, l, ops[0]).value, ops[1..], k);
    }
  }

  lemma {:induction false} ForAccountTwice(log: seq<Execution>, k: AccountId, q: AccountId)
    ensures ForAccount(ForAccount(log, k), q) == if q == k then ForAccount(log, k) else []
  {
    if log != [] {
      ForAccountTwice(log[1..], k, q);
      var rest := ForAccount(log[1..], k);
      if log[0].account == k {
        assert ([log[0]] + rest)[0] == log[0] && ([log[0]] + rest)[1..] == rest;
      } else {
        assert [] + rest == rest;
      }
    }
  }

  /** What can be told before a run: if nobody names `k` as a rescue account, no waiting transfer of `k` goes to
      `k`, and no Init of the run names `k`, then nothing that `k` sends comes back or executes twice. */
  lemma UnnamedNeverRepeats(cfg: LedgerCfg, l: Ledger, ops: seq<Op>, k: AccountId)
    requires Inv(l) && Unnamed(l, k) && RunOps(cfg, l, ops).Some?
    requires forall i :: 0 <= i < |ops| && ops[i].Apply? ==> !NamesRescue(ops[i].tx, k)
    ensures NoneReturns(RunExecuted(cfg, l, ops), k)
    ensures !Repeats(ForAccount(RunExecuted(cfg, l, ops), k))
  {
    var log := RunExecuted(cfg, l, ops);
    var own := ForAccount(log, k);
    RunUnnamed(cfg, l, ops, k);
    RunExecutes(cfg, l, ops, k);
    ForAccountHas(log, k);
    forall q
      ensures CountsSome(ForAccount(own, q))
    {
      ForAccountTwice(log, k, q);
      assert Counts([], 0, 0);
    }
    RepeatsExactly(own);
    forall i | 0 <= i < |own|
      ensures !own[i].returned
    {
      assert own[i] in own;
    }
  }
}
