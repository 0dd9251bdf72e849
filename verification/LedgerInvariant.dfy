/** What every ledger operation keeps: delayed transfers stay executable, and locks stay settled once. */
module LedgerInvariant {
  import opened Basics
  import opened Transactions
  import opened TxMessage
  import opened Marks
  import opened Ledger

  /** A waiting transfer belongs to an initialized conservation account, carries its next nonce, and is
      funded. */
  ghost predicate RowOk(l: Ledger, row: Pending) {
    && row.sender in l.accounts && l.accounts[row.sender].initialized
    && l.accounts[row.sender].nonce == row.nonce && ConservationFlag(row.sender)
    && row.amount + row.fee <= l.accounts[row.sender].balance
  }

  /** So when it is due, only policies can refuse it: the sender was finalized, or the recipient declines. */
  lemma DueRefusedByPolicyOnly(l: Ledger, row: Pending, height: u64)
    requires RowOk(l, row)
    ensures CheckDue(l, row, height)
      == if l.accounts[row.sender].finalized then Err(PolicyAccountFinalized) else DueDestination(l, row, height)
  {
  }

  ghost predicate DistinctSenders(rows: seq<Pending>) {
    forall i, j :: 0 <= i < j < |rows| ==> rows[i].sender != rows[j].sender
  }

  ghost predicate RowsOk(l: Ledger, rows: seq<Pending>) {
    (forall i :: 0 <= i < |rows| ==> RowOk(l, rows[i])) && DistinctSenders(rows)
  }

  /** A lock has a refund account and a registered export; a settled one is recorded as imported, and one
      that is not recorded still holds the registered amount. */
  ghost predicate LockOk(l: Ledger, lock: Lock) {
    && lock.refundAccount in l.accounts && lock.exportId in l.exported
    && (lock.state.Locked? || lock.exportId in l.imported)
    && (lock.exportId in l.imported || l.exported[lock.exportId].amount == lock.amount)
  }

  ghost predicate DistinctIds(locks: seq<Lock>) {
    forall i, j :: 0 <= i < j < |locks| ==> locks[i].exportId != locks[j].exportId
  }

  ghost predicate LocksOk(l: Ledger) {
    && (forall i :: 0 <= i < |l.locks| ==> LockOk(l, l.locks[i]))
    && DistinctIds(l.locks)
    && (forall id :: id in l.exported ==> id in l.imported || HasLock(l, id))
  }

  ghost predicate Inv(l: Ledger) { RowsOk(l, l.pending) && LocksOk(l) }

  // ----- accounts only -----

  function NonceOf(m: map<AccountId, Account>, k: AccountId): u64 { if k in m then m[k].nonce else 0 }

  /** Accounts may be added and changed, but none is lost or uninitialized, and outside `ids` nobody's
      nonce moves and nobody's balance falls. */
  ghost predicate Quiet(m: map<AccountId, Account>, n: map<AccountId, Account>, ids: set<AccountId>) {
    && (forall k :: k in m ==> k in n && (m[k].initialized ==> n[k].initialized))
    && (forall k :: k in m && k !in ids ==> k in n && n[k].balance >= m[k].balance)
    && (forall k :: k !in ids ==> NonceOf(n, k) == NonceOf(m, k))
  }

  lemma AccountsKeepLocks(l: Ledger, next: Ledger, ids: set<AccountId>)
    requires LocksOk(l) && Quiet(l.accounts, next.accounts, ids)
    requires next.locks == l.locks && next.imported == l.imported && next.exported == l.exported
    ensures LocksOk(next)
  {
  }

  lemma QuietKeepsRows(l: Ledger, next: Ledger, ids: set<AccountId>, rows: seq<Pending>)
    requires RowsOk(l, rows) && Quiet(l.accounts, next.accounts, ids)
    requires forall i :: 0 <= i < |rows| ==> rows[i].sender !in ids
    ensures RowsOk(next, rows)
  {
  }

  // ----- bodies -----

  /** The sender's nonce, and nobody else's, goes up by one. */
  ghost predicate Bumps(l: Ledger, next: Ledger, id: AccountId, acc: Account) {
    Quiet(l.accounts, next.accounts, {id}) && NonceOf(next.accounts, id) == acc.nonce + 1
  }

  lemma SettleQuiet(m: map<AccountId, Account>, id: AccountId, from: Account, dst: AccountId, to: Account, amount: u128)
    requires id in m && from.initialized
    requires dst != id ==> dst in m && to.nonce == m[dst].nonce && to.initialized == m[dst].initialized
    requires dst != id ==> to.balance >= m[dst].balance
    ensures var n := Settle(m, id, from, dst, to, amount); Quiet(m, n, {id}) && NonceOf(n, id) == from.nonce
  {
  }

  lemma EvacuateQuiet(m: map<AccountId, Account>, id: AccountId, a: Account, target: AccountId)
    requires id in m && a.initialized && (target != id ==> target in m)
    ensures var n := Evacuate(m, id, a, target); Quiet(m, n, {id}) && NonceOf(n, id) == a.nonce
  {
  }

  lemma EnqueueKeepsRows(cfg: LedgerCfg, l: Ledger, id: AccountId, acc: Account, dst: AccountId, tx: SignedTx,
                         height: u64)
    requires RowsOk(l, l.pending) && id in l.accounts && l.accounts[id].initialized && l.accounts[id].nonce == tx.nonce
    requires tx.body.Transfer? && tx.body.amount + tx.body.fee <= l.accounts[id].balance
    requires ConservationFlag(id) && Enqueue(cfg, l, id, dst, tx, height).Done?
    ensures var next := Enqueue(cfg, l, id, dst, tx, height).value; RowsOk(next, next.pending)
  {
  }

  lemma {:induction false} WithoutSenderWithin(rows: seq<Pending>, id: AccountId)
    ensures forall r :: r in WithoutSender(rows, id) ==> r in rows && r.sender != id
    decreases |rows|
  {
    if rows != [] {
      WithoutSenderWithin(rows[1..], id);
    }
  }

  lemma {:induction false} WithoutSenderDistinct(rows: seq<Pending>, id: AccountId)
    requires DistinctSenders(rows)
    ensures DistinctSenders(WithoutSender(rows, id))
    decreases |rows|
  {
    if rows != [] {
      assert forall i :: 0 <= i < |rows[1..]| ==> rows[1..][i] == rows[i + 1];
      WithoutSenderDistinct(rows[1..], id);
      WithoutSenderWithin(rows[1..], id);
      assert forall r :: r in rows[1..] ==> r.sender != rows[0].sender;
    }
  }

  lemma WithoutSenderKeeps(l: Ledger, rows: seq<Pending>, id: AccountId)
    requires RowsOk(l, rows)
    ensures RowsOk(l, WithoutSender(rows, id))
    ensures forall i :: 0 <= i < |WithoutSender(rows, id)| ==> WithoutSender(rows, id)[i].sender != id
  {
    WithoutSenderWithin(rows, id);
    WithoutSenderDistinct(rows, id);
    var kept := WithoutSender(rows, id);
    forall i | 0 <= i < |kept|
      ensures RowOk(l, kept[i])
    {
      assert kept[i] in rows;
    }
  }

  lemma LockIndexIs(locks: seq<Lock>, i: nat, exportId: Bytes32)
    requires i <= |locks| && (i < |locks| ==> locks[i].exportId == exportId)
    requires forall j :: 0 <= j < i ==> locks[j].exportId != exportId
    ensures LockIndex(locks, exportId) == i
  {
  }

  lemma LockIndexOfAppended(locks: seq<Lock>, lock: Lock, exportId: Bytes32)
    ensures LockIndex(locks + [lock], exportId)
      == if LockIndex(locks, exportId) == |locks| && exportId != lock.exportId then |locks| + 1
         else LockIndex(locks, exportId)
  {
    var i := LockIndex(locks, exportId);
    LockIndexIs(locks + [lock], if i == |locks| && exportId != lock.exportId then i + 1 else i, exportId);
  }

  /** Registering an export and its lock, each unless its id is there already. */
  lemma RegisteringKeepsLocks(l: Ledger, next: Ledger, lock: Lock, origin: ExportProvenance)
    requires LocksOk(l) && Quiet(l.accounts, next.accounts, {lock.sender}) && next.imported == l.imported
    requires lock.refundAccount in next.accounts && lock.state.Locked? && origin.amount == lock.amount
    requires next.exported == if lock.exportId in l.exported then l.exported else l.exported[lock.exportId := origin]
    requires next.locks == if HasLock(l, lock.exportId) then l.locks else l.locks + [lock]
    ensures LocksOk(next)
  {
    forall i | 0 <= i < |next.locks|
      ensures LockOk(next, next.locks[i])
    {
      if i < |l.locks| {
        assert LockOk(l, l.locks[i]) && next.locks[i] == l.locks[i];
      }
    }
    forall k | k in next.exported
      ensures k in next.imported || HasLock(next, k)
    {
      LockIndexOfAppended(l.locks, lock, k);
    }
  }

  lemma ExportKeepsLocks(cfg: LedgerCfg, l: Ledger, id: AccountId, acc: Account, tx: SignedTx, height: u64)
    requires LocksOk(l) && tx.body.Export? && ExportBody(cfg, l, id, acc, tx, height).Done?
    requires SignerRow(l, id, tx) == Ok(acc)
    ensures LocksOk(ExportBody(cfg, l, id, acc, tx, height).value)
  {
    var (amount, domain) := (tx.body.amount, tx.body.targetDomain);
    var exportId := ExportId(cfg.c.hash, tx).value;
    var unlockHeight := SatAdd64(height, cfg.lockTimeout);
    RegisteringKeepsLocks(l, ExportBody(cfg, l, id, acc, tx, height).value,
                          Lock(exportId, id, amount, domain, id, height, unlockHeight, Locked),
                          ExportProvenance(tx.body.to, domain, amount));
  }

  lemma SettledLock(locks: seq<Lock>, at: nat, s: LockState, exportId: Bytes32)
    requires at < |locks|
    ensures LockIndex(locks[at := locks[at].(state := s)], exportId) == LockIndex(locks, exportId)
  {
    LockIndexIs(locks[at := locks[at].(state := s)], LockIndex(locks, exportId), exportId);
  }

  /** Settling lock `at`, with its id recorded as imported. */
  lemma SettlingKeepsLocks(l: Ledger, next: Ledger, ids: set<AccountId>, at: nat, s: LockState)
    requires LocksOk(l) && at < |l.locks| && Quiet(l.accounts, next.accounts, ids)
    requires next.locks == l.locks[at := l.locks[at].(state := s)]
    requires next.imported == l.imported + {l.locks[at].exportId} && next.exported == l.exported
    ensures LocksOk(next)
  {
    forall i | 0 <= i < |next.locks|
      ensures LockOk(next, next.locks[i])
    {
      assert LockOk(l, l.locks[i]);
    }
    forall k | k in next.exported
      ensures k in next.imported || HasLock(next, k)
    {
      SettledLock(l.locks, at, s, k);
    }
  }

  /** Recording an id that no lock carries. */
  lemma RecordingKeepsLocks(l: Ledger, next: Ledger, ids: set<AccountId>, exportId: Bytes32)
    requires LocksOk(l) && Quiet(l.accounts, next.accounts, ids)
    requires next.locks == l.locks && next.imported == l.imported + {exportId}
    requires forall k :: k in l.exported ==> k in next.exported && next.exported[k] == l.exported[k]
    requires forall k :: k in next.exported ==> k in l.exported || k == exportId
    ensures LocksOk(next)
  {
  }

  /** An import that finds a lock finds it locked, with the imported amount. */
  lemma ImportFindsLock(l: Ledger, id: AccountId, acc: Account, tx: SignedTx)
    requires LocksOk(l) && tx.body.Import? && CheckImport(l, id, acc, tx).Ok? && HasLock(l, tx.body.exportId)
    ensures var lock := l.locks[LockIndex(l.locks, tx.body.exportId)];
      lock.state.Locked? && lock.amount == tx.body.amount && tx.body.exportId in l.exported
  {
    assert LockOk(l, l.locks[LockIndex(l.locks, tx.body.exportId)]);
  }

  lemma ImportQuiet(l: Ledger, id: AccountId, acc: Account, tx: SignedTx)
    requires tx.body.Import? && id in l.accounts && ImportBody(l, id, acc, tx).Done?
    ensures Bumps(l, ImportBody(l, id, acc, tx).value, id, acc)
  {
    var from := Debited(acc, tx.importFee.value);
    var to := if tx.body.to == id then from else l.accounts[tx.body.to];
    SettleQuiet(l.accounts, id, from, tx.body.to, to, tx.body.amount);
  }

  lemma ImportKeepsLocks(l: Ledger, id: AccountId, acc: Account, tx: SignedTx)
    requires LocksOk(l) && tx.body.Import? && id in l.accounts && ImportBody(l, id, acc, tx).Done?
    ensures LocksOk(ImportBody(l, id, acc, tx).value)
  {
    var next := ImportBody(l, id, acc, tx).value;
    var at := LockIndex(l.locks, tx.body.exportId);
    ImportQuiet(l, id, acc, tx);
    if at < |l.locks| {
      ImportFindsLock(l, id, acc, tx);
      SettlingKeepsLocks(l, next, {id}, at, Released);
    } else {
      RecordingKeepsLocks(l, next, {id}, tx.body.exportId);
    }
  }

  /** What a body may rely on: its account as the signer's row, and no waiting transfer that conflicts. */
  ghost predicate Admitted(l: Ledger, id: AccountId, acc: Account, tx: SignedTx) {
    SignerRow(l, id, tx) == Ok(acc) && !(HasPending(l, id) && PendingConflict(tx.body))
  }

  lemma NothingPending(l: Ledger, id: AccountId, acc: Account, tx: SignedTx)
    requires RowsOk(l, l.pending) && Admitted(l, id, acc, tx)
    requires PendingConflict(tx.body) || !ConservationFlag(id)
    ensures forall i :: 0 <= i < |l.pending| ==> l.pending[i].sender != id
  {
  }

  /** A body that leaves the locks and the waiting transfers alone. */
  lemma QuietKeepsInv(l: Ledger, next: Ledger, id: AccountId)
    requires Inv(l) && Quiet(l.accounts, next.accounts, {id})
    requires forall i :: 0 <= i < |l.pending| ==> l.pending[i].sender != id
    requires next.locks == l.locks && next.imported == l.imported && next.exported == l.exported
    requires next.pending == l.pending
    ensures Inv(next)
  {
    AccountsKeepLocks(l, next, {id});
    QuietKeepsRows(l, next, {id}, l.pending);
  }

  /** A transfer that does not wait settles at once, between accounts that differ from the stored ones in
      marks, and the sender's in its debit. */
  lemma TransferSettles(cfg: LedgerCfg, l: Ledger, id: AccountId, acc: Account, tx: SignedTx,
                        redirect: Option<AccountId>, height: u64) returns (dst: AccountId, from: Account, to: Account)
    requires tx.body.Transfer? && !ConservationFlag(id)
    requires TransferBody(cfg, l, id, acc, tx, redirect, height).Done?
    ensures tx.body.amount + tx.body.fee <= acc.balance && acc.nonce < U64_MAX
    ensures from == acc.(balance := acc.balance - tx.body.amount - tx.body.fee, nonce := acc.nonce + 1,
                         marks := from.marks)
    ensures from.initialized && (dst != id ==> dst in l.accounts && to == l.accounts[dst].(marks := to.marks))
    ensures TransferBody(cfg, l, id, acc, tx, redirect, height)
      == Done(l.(accounts := Settle(l.accounts, id, from, dst, to, tx.body.amount),
                 feePool := SatAdd128(l.feePool, tx.body.fee)))
  {
    dst := match redirect case Some(r) => r case None => tx.body.to;
    from := Debited(TouchAccount(cfg, acc, height), tx.body.amount + tx.body.fee);
    to := if dst == id then from else TouchAccount(cfg, l.accounts[dst], height);
  }

  lemma TransferQuiet(cfg: LedgerCfg, l: Ledger, id: AccountId, acc: Account, tx: SignedTx,
                      redirect: Option<AccountId>, height: u64)
    requires tx.body.Transfer? && id in l.accounts && TransferBody(cfg, l, id, acc, tx, redirect, height).Done?
    ensures var next := TransferBody(cfg, l, id, acc, tx, redirect, height).value;
      if ConservationFlag(id) then next.accounts == l.accounts else Bumps(l, next, id, acc)
  {
    if !ConservationFlag(id) {
      var dst, from, to := TransferSettles(cfg, l, id, acc, tx, redirect, height);
      SettleQuiet(l.accounts, id, from, dst, to, tx.body.amount);
    }
  }

  lemma TransferKeepsInv(cfg: LedgerCfg, l: Ledger, id: AccountId, acc: Account, tx: SignedTx,
                         redirect: Option<AccountId>, height: u64)
    requires Inv(l) && Admitted(l, id, acc, tx) && tx.body.Transfer?
    requires TransferBody(cfg, l, id, acc, tx, redirect, height).Done?
    ensures Inv(TransferBody(cfg, l, id, acc, tx, redirect, height).value)
  {
    var next := TransferBody(cfg, l, id, acc, tx, redirect, height).value;
    var dst := match redirect case Some(r) => r case None => tx.body.to;
    if ConservationFlag(id) {
      EnqueueKeepsRows(cfg, l, id, acc, dst, tx, height);
      AccountsKeepLocks(l, next, {});
    } else {
      TransferQuiet(cfg, l, id, acc, tx, redirect, height);
      NothingPending(l, id, acc, tx);
      QuietKeepsInv(l, next, id);
    }
  }

  lemma ExportKeepsInv(cfg: LedgerCfg, l: Ledger, id: AccountId, acc: Account, tx: SignedTx, height: u64)
    requires Inv(l) && Admitted(l, id, acc, tx) && tx.body.Export? && ExportBody(cfg, l, id, acc, tx, height).Done?
    ensures Inv(ExportBody(cfg, l, id, acc, tx, height).value)
  {
    ExportKeepsLocks(cfg, l, id, acc, tx, height);
    NothingPending(l, id, acc, tx);
    QuietKeepsRows(l, ExportBody(cfg, l, id, acc, tx, height).value, {id}, l.pending);
  }

  lemma ImportKeepsInv(l: Ledger, id: AccountId, acc: Account, tx: SignedTx)
    requires Inv(l) && Admitted(l, id, acc, tx) && tx.body.Import? && ImportBody(l, id, acc, tx).Done?
    ensures Inv(ImportBody(l, id, acc, tx).value)
  {
    ImportKeepsLocks(l, id, acc, tx);
    ImportQuiet(l, id, acc, tx);
    NothingPending(l, id, acc, tx);
    QuietKeepsRows(l, ImportBody(l, id, acc, tx).value, {id}, l.pending);
  }

  /** A validated emergency activation names an existing rescue account. */
  lemma EmergencyTarget(cfg: LedgerCfg, l: Ledger, a: Account, action: PolicyAction, tx: SignedTx)
    requires IsEmergency(action) && ValidatePolicyAction(cfg, l, a, action, tx).Ok?
    ensures action.activationTarget.Some? && action.activationTarget == a.rescue
    ensures action.activationTarget.value in l.accounts
  {
  }

  lemma ActionKeeps(a: Account, action: PolicyAction, height: u64)
    requires ApplyPolicyAction(a, action, height).Ok?
    ensures var b := ApplyPolicyAction(a, action, height).value;
      && b.balance == a.balance && b.staked == a.staked && b.nonce == a.nonce
      && b.initialized == a.initialized && b.rescue == a.rescue
  {
  }

  lemma PolicyQuiet(cfg: LedgerCfg, l: Ledger, id: AccountId, acc: Account, tx: SignedTx, height: u64)
    requires tx.body.Policy? && id in l.accounts && PolicyBody(cfg, l, id, acc, tx, height).Done?
    ensures Bumps(l, PolicyBody(cfg, l, id, acc, tx, height).value, id, acc)
  {
    var touched := TouchAccount(cfg, acc, height);
    ActionKeeps(touched, tx.body.action, height);
    if IsEmergency(tx.body.action) {
      var paid := Debited(ApplyPolicyAction(touched, tx.body.action, height).value, tx.body.fee);
      EmergencyTarget(cfg, l, touched, tx.body.action, tx);
      EvacuateQuiet(l.accounts, id, paid, tx.body.action.activationTarget.value);
    }
  }

  lemma PolicyKeepsInv(cfg: LedgerCfg, l: Ledger, id: AccountId, acc: Account, tx: SignedTx, height: u64)
    requires Inv(l) && Admitted(l, id, acc, tx) && tx.body.Policy? && PolicyBody(cfg, l, id, acc, tx, height).Done?
    ensures Inv(PolicyBody(cfg, l, id, acc, tx, height).value)
  {
    var next := PolicyBody(cfg, l, id, acc, tx, height).value;
    PolicyQuiet(cfg, l, id, acc, tx, height);
    if IsEmergency(tx.body.action) {
      AccountsKeepLocks(l, next, {id});
      WithoutSenderKeeps(l, l.pending, id);
      QuietKeepsRows(l, next, {id}, WithoutSender(l.pending, id));
    } else {
      NothingPending(l, id, acc, tx);
      QuietKeepsInv(l, next, id);
    }
  }

  lemma OwnQuiet(cfg: LedgerCfg, l: Ledger, id: AccountId, acc: Account, tx: SignedTx, height: u64)
    requires id in l.accounts && IsOwn(tx.body) && OwnBody(cfg, l, id, acc, tx, height).Done?
    ensures Bumps(l, l.(accounts := l.accounts[id := OwnBody(cfg, l, id, acc, tx, height).value]), id, acc)
  {
    if tx.body.Init? {
      InitKeeps(acc, tx, height);
    }
  }

  lemma {:induction false} SetModesKeep(a: Account, entries: seq<InitPolicyEntry>, height: u64)
    ensures var b := SetModes(a, entries, height);
      b.balance == a.balance && b.staked == a.staked && b.initialized == a.initialized
    decreases |entries|
  {
    if entries != [] {
      SetModesKeep(SetMode(a, entries[0].policy, entries[0].activation, height), entries[1..], height);
    }
  }

  lemma InitKeeps(acc: Account, tx: SignedTx, height: u64)
    requires tx.body.Init? && acc.nonce < U64_MAX
    ensures var b := InitAccount(acc, tx, height);
      b.initialized && b.nonce == acc.nonce + 1 && b.balance == acc.balance && b.staked == acc.staked
  {
    if tx.initV4.Some? {
      var ext := tx.initV4.value;
      SetModesKeep(Declared(acc, tx, ext), ext.initialPolicies, height);
    }
  }

  lemma OwnKeepsInv(cfg: LedgerCfg, l: Ledger, id: AccountId, acc: Account, tx: SignedTx, height: u64)
    requires Inv(l) && Admitted(l, id, acc, tx) && IsOwn(tx.body) && OwnBody(cfg, l, id, acc, tx, height).Done?
    ensures Inv(l.(accounts := l.accounts[id := OwnBody(cfg, l, id, acc, tx, height).value]))
  {
  }

  /** A delayed transfer waits with its nonce unspent; every other body spends it. */
  predicate Waits(id: AccountId, tx: SignedTx) { tx.body.Transfer? && ConservationFlag(id) }

  lemma ExportQuiet(cfg: LedgerCfg, l: Ledger, id: AccountId, acc: Account, tx: SignedTx, height: u64)
    requires tx.body.Export? && id in l.accounts && ExportBody(cfg, l, id, acc, tx, height).Done?
    ensures Bumps(l, ExportBody(cfg, l, id, acc, tx, height).value, id, acc)
  {
  }

  lemma BodyQuiet(cfg: LedgerCfg, l: Ledger, id: AccountId, acc: Account, tx: SignedTx, redirect: Option<AccountId>,
                  height: u64)
    requires id in l.accounts && ApplyBody(cfg, l, id, acc, tx, redirect, height).Done?
    ensures var next := ApplyBody(cfg, l, id, acc, tx, redirect, height).value;
      if Waits(id, tx) then next.accounts == l.accounts else Bumps(l, next, id, acc)
  {
    match tx.body
    case Transfer(_, _, _) => TransferQuiet(cfg, l, id, acc, tx, redirect, height);
    case Export(_, _, _, _) => ExportQuiet(cfg, l, id, acc, tx, height);
    case Import(_, _, _) => ImportQuiet(l, id, acc, tx);
    case Policy(_, _, _) => PolicyQuiet(cfg, l, id, acc, tx, height);
    case _ => OwnQuiet(cfg, l, id, acc, tx, height);
  }

  lemma BodyKeepsInv(cfg: LedgerCfg, l: Ledger, id: AccountId, acc: Account, tx: SignedTx, redirect: Option<AccountId>,
                     height: u64)
    requires Inv(l) && Admitted(l, id, acc, tx) && ApplyBody(cfg, l, id, acc, tx, redirect, height).Done?
    ensures Inv(ApplyBody(cfg, l, id, acc, tx, redirect, height).value)
  {
    match tx.body
    case Transfer(_, _, _) => TransferKeepsInv(cfg, l, id, acc, tx, redirect, height);
    case Export(_, _, _, _) => ExportKeepsInv(cfg, l, id, acc, tx, height);
    case Import(_, _, _) => ImportKeepsInv(l, id, acc, tx);
    case Policy(_, _, _) => PolicyKeepsInv(cfg, l, id, acc, tx, height);
    case _ => OwnKeepsInv(cfg, l, id, acc, tx, height);
  }

  lemma StubKeepsInv(l: Ledger, id: AccountId, tx: SignedTx)
    requires Inv(l)
    ensures Inv(WithStub(l, id, tx))
  {
  }

  /** What an applied transaction went through. */
  lemma AppliedTrace(cfg: LedgerCfg, l: Ledger, tx: SignedTx, height: u64, checked: bool)
    returns (id: AccountId, stubbed: Ledger, acc: Account, redirect: Option<AccountId>)
    requires ApplyTx(cfg, l, tx, height, checked).Applied?
    ensures id == SenderOf(cfg.c.hash, tx) && stubbed == WithStub(l, id, tx) && Admitted(stubbed, id, acc, tx)
    ensures Admit(cfg, stubbed, id, tx, height, checked) == Ok((acc, redirect))
    ensures ValidateShape(cfg.c, tx, checked).Ok?
    ensures ApplyBody(cfg, stubbed, id, acc, tx, redirect, height) == Done(ApplyTx(cfg, l, tx, height, checked).ledger)
  {
    id := SenderOf(cfg.c.hash, tx);
    stubbed := WithStub(l, id, tx);
    acc := Admit(cfg, stubbed, id, tx, height, checked).value.0;
    redirect := Admit(cfg, stubbed, id, tx, height, checked).value.1;
  }

  lemma TxKeepsInv(cfg: LedgerCfg, l: Ledger, tx: SignedTx, height: u64, checked: bool)
    requires Inv(l) && ApplyTx(cfg, l, tx, height, checked).Applied?
    ensures Inv(ApplyTx(cfg, l, tx, height, checked).ledger)
  {
    var id, stubbed, acc, redirect := AppliedTrace(cfg, l, tx, height, checked);
    StubKeepsInv(l, id, tx);
    BodyKeepsInv(cfg, stubbed, id, acc, tx, redirect, height);
  }

  // ----- block work -----

  lemma RefundLockKeepsInv(l: Ledger, at: nat, height: u64)
    requires Inv(l) && at < |l.locks|
    ensures Inv(RefundLock(l, at, height))
  {
    var next := RefundLock(l, at, height);
    if next != l {
      SettlingKeepsLocks(l, next, {}, at, Refunded);
      QuietKeepsRows(l, next, {}, l.pending);
    }
  }

  lemma {:induction false} RefundKeepsInv(l: Ledger, at: nat, height: u64)
    requires Inv(l) && at <= |l.locks|
    ensures Inv(RefundFrom(l, at, height))
    decreases |l.locks| - at
  {
    if at < |l.locks| {
      RefundLockKeepsInv(l, at, height);
      RefundKeepsInv(RefundLock(l, at, height), at + 1, height);
    }
  }

  ghost function Senders(rows: seq<Pending>): set<AccountId> { set r | r in rows :: r.sender }

  /** A due transfer whose destination has become its own sender: the debit is overwritten, and with it
      the nonce. */
  predicate ReturnsToSender(l: Ledger, row: Pending, height: u64) { CheckDue(l, row, height) == Ok(row.sender) }

  lemma DueQuiet(cfg: LedgerCfg, l: Ledger, row: Pending, height: u64)
    requires LocksOk(l) && ApplyDue(cfg, l, row, height).Done?
    ensures var next := ApplyDue(cfg, l, row, height).value;
      && Quiet(l.accounts, next.accounts, {row.sender}) && LocksOk(next)
      && NonceOf(next.accounts, row.sender) == row.nonce + (if ReturnsToSender(l, row, height) then 0 else 1)
      && next.locks == l.locks && next.imported == l.imported
      && next.exported == l.exported && next.pending == l.pending
  {
    AccountsKeepLocks(l, ApplyDue(cfg, l, row, height).value, {row.sender});
  }

  lemma QuietTrans(a: map<AccountId, Account>, b: map<AccountId, Account>, c: map<AccountId, Account>,
                   x: set<AccountId>, y: set<AccountId>, z: set<AccountId>)
    requires Quiet(a, b, x) && Quiet(b, c, y) && x <= z && y <= z
    ensures Quiet(a, c, z)
  {
  }

  lemma HeadAndTail(l: Ledger, rows: seq<Pending>)
    requires RowsOk(l, rows) && rows != []
    ensures RowOk(l, rows[0]) && RowsOk(l, rows[1..])
    ensures forall i :: 0 <= i < |rows[1..]| ==> rows[1..][i].sender != rows[0].sender
    ensures Senders(rows) == {rows[0].sender} + Senders(rows[1..]) && rows[0].sender !in Senders(rows[1..])
  {
  }

  lemma RowInFront(l: Ledger, row: Pending, kept: seq<Pending>)
    requires RowOk(l, row) && RowsOk(l, kept) && row.sender !in Senders(kept)
    ensures RowsOk(l, [row] + kept) && Senders([row] + kept) == {row.sender} + Senders(kept)
  {
  }

  /** Draining keeps the locks, keeps executable what it keeps, and moves no nonce but the rows' senders'. */
  lemma {:induction false} DrainRowsKeep(cfg: LedgerCfg, l: Ledger, rows: seq<Pending>, height: u64)
    requires LocksOk(l) && RowsOk(l, rows) && DrainRows(cfg, l, rows, height).Some?
    ensures var (last, kept) := DrainRows(cfg, l, rows, height).value;
      && LocksOk(last) && RowsOk(last, kept) && Senders(kept) <= Senders(rows)
      && Quiet(l.accounts, last.accounts, Senders(rows))
    decreases |rows|
  {
    if rows != [] {
      HeadAndTail(l, rows);
      var (row, rest) := (rows[0], rows[1..]);
      var (last, kept) := DrainRows(cfg, l, rows, height).value;
      if height >= row.executeAt && ApplyDue(cfg, l, row, height).Done? {
        var next := ApplyDue(cfg, l, row, height).value;
        DueQuiet(cfg, l, row, height);
        QuietKeepsRows(l, next, {row.sender}, rest);
        DrainRowsKeep(cfg, next, rest, height);
        QuietTrans(l.accounts, next.accounts, last.accounts, {row.sender}, Senders(rest), Senders(rows));
      } else {
        DrainRowsKeep(cfg, l, rest, height);
        KeptInFront(l, last, row, kept[1..], Senders(rest));
        assert kept == [row] + kept[1..];
      }
    }
  }

  lemma KeptInFront(l: Ledger, last: Ledger, row: Pending, kept: seq<Pending>, ids: set<AccountId>)
    requires RowOk(l, row) && RowsOk(last, kept) && Senders(kept) <= ids && row.sender !in ids
    requires Quiet(l.accounts, last.accounts, ids)
    ensures RowsOk(last, [row] + kept) && Senders([row] + kept) <= {row.sender} + ids
    ensures Quiet(l.accounts, last.accounts, {row.sender} + ids)
  {
    assert RowOk(last, row);
    RowInFront(last, row, kept);
  }

  lemma DrainKeepsInv(cfg: LedgerCfg, l: Ledger, height: u64)
    requires Inv(l) && Drain(cfg, l, height).Some?
    ensures Inv(Drain(cfg, l, height).value)
  {
    var taken := l.(pending := []);
    AccountsKeepLocks(l, taken, {});
    QuietKeepsRows(l, taken, {}, l.pending);
    DrainRowsKeep(cfg, taken, l.pending, height);
    var (last, kept) := DrainRows(cfg, taken, l.pending, height).value;
    var next := last.(pending := kept);
    AccountsKeepLocks(last, next, {});
    QuietKeepsRows(last, next, {}, kept);
  }

  lemma RewardKeepsInv(l: Ledger, producer: AccountId, amount: u128, stakeMin: u128)
    requires Inv(l)
    ensures Inv(Reward(l, producer, amount, stakeMin))
  {
  }
}
