/** What an applied transaction leaves behind besides coins: marks, keys, policies, records, signatures. */
module LedgerEffects {
  import opened Basics
  import opened Transactions
  import opened TxMessage
  import opened Marks
  import opened Ledger
  import opened LedgerInvariant
  import opened LedgerSafety
  import opened LedgerPolicies
  import opened LedgerRules
  import opened LedgerNonces
  import opened LedgerBooks

  // ----- the sender's account -----

  /** The sender's account before and after: it was initialized under the signer's key, and keeps everything
      but its coins, marks, nonce, policies and claimed phase. */
  ghost predicate KeepsRest(a: Account, b: Account, tx: SignedTx) {
    && a.initialized && a.signingPk == tx.signerPk && a.derivationIndex == tx.derivationIndex && a.nonce == tx.nonce
    && b == a.(balance := b.balance, staked := b.staked, marks := b.marks, nonce := b.nonce, active := b.active,
               dormant := b.dormant, deferred := b.deferred, finalized := b.finalized, claimedPhase := b.claimedPhase)
    && (!tx.body.Policy? ==>
         b.active == a.active && b.dormant == a.dormant && b.deferred == a.deferred && b.finalized == a.finalized)
    && b.claimedPhase == (if tx.body.ClaimIPv4Batch? then Some(tx.body.phase) else a.claimedPhase)
    && (tx.body.ClaimIPv4Batch? ==> a.claimedPhase.None?)
  }

  function Burnt(tx: SignedTx): nat { if tx.body.BurnMark? then tx.body.markAmount else 0 }

  /** The kinds that bring the sender's marks up to the height. */
  predicate BringsUp(id: AccountId, tx: SignedTx) {
    (tx.body.Transfer? && !ConservationFlag(id)) || tx.body.Stake? || tx.body.Unstake? || tx.body.BurnMark?
    || tx.body.Policy?
  }

  /** Marks at the height are the same before and after, less what is burned, whatever happens to the stake;
      and the cursor moves with the kinds that bring it up. */
  ghost predicate SpendsMarks(cfg: LedgerCfg, id: AccountId, a: Account, b: Account, tx: SignedTx, height: u64) {
    && MarksAt(cfg, b, height) + Burnt(tx) == MarksAt(cfg, a, height)
    && (if BringsUp(id, tx) then b.marks.lastBlock == height else b.marks == a.marks)
  }

  lemma TouchedMarks(cfg: LedgerCfg, a: Account, height: u64, staked: u128)
    ensures var b := TouchAccount(cfg, a, height);
      MarksAt(cfg, b.(staked := staked), height) == b.marks.stored == MarksAt(cfg, a, height)
  {
  }

  lemma OwnSender(cfg: LedgerCfg, l: Ledger, id: AccountId, acc: Account, tx: SignedTx, height: u64)
    requires IsOwn(tx.body) && !tx.body.Init? && SignerRow(l, id, tx) == Ok(acc)
    requires OwnBody(cfg, l, id, acc, tx, height).Done?
    ensures var b := OwnBody(cfg, l, id, acc, tx, height).value;
      KeepsRest(l.accounts[id], b, tx) && SpendsMarks(cfg, id, l.accounts[id], b, tx, height) && b.nonce == tx.nonce + 1
  {
    var b := OwnBody(cfg, l, id, acc, tx, height).value;
    TouchedMarks(cfg, acc, height, b.staked);
  }

  lemma TransferSender(cfg: LedgerCfg, l: Ledger, id: AccountId, acc: Account, tx: SignedTx,
                       redirect: Option<AccountId>, height: u64)
    requires tx.body.Transfer? && SignerRow(l, id, tx) == Ok(acc)
    requires TransferBody(cfg, l, id, acc, tx, redirect, height).Done?
    ensures var n := TransferBody(cfg, l, id, acc, tx, redirect, height).value.accounts;
      && id in n && KeepsRest(l.accounts[id], n[id], tx) && SpendsMarks(cfg, id, l.accounts[id], n[id], tx, height)
      && n[id].nonce == if ConservationFlag(id) then tx.nonce else tx.nonce + 1
  {
    TouchedMarks(cfg, acc, height, acc.staked);
  }

  lemma ImportSender(cfg: LedgerCfg, l: Ledger, id: AccountId, acc: Account, tx: SignedTx, height: u64)
    requires tx.body.Import? && SignerRow(l, id, tx) == Ok(acc) && ImportBody(l, id, acc, tx).Done?
    ensures var n := ImportBody(l, id, acc, tx).value.accounts;
      && id in n && KeepsRest(l.accounts[id], n[id], tx) && SpendsMarks(cfg, id, l.accounts[id], n[id], tx, height)
      && n[id].nonce == tx.nonce + 1
  {
  }

  lemma ExportSender(cfg: LedgerCfg, l: Ledger, id: AccountId, acc: Account, tx: SignedTx, height: u64)
    requires tx.body.Export? && SignerRow(l, id, tx) == Ok(acc) && ExportBody(cfg, l, id, acc, tx, height).Done?
    ensures var n := ExportBody(cfg, l, id, acc, tx, height).value.accounts;
      && id in n && KeepsRest(l.accounts[id], n[id], tx) && SpendsMarks(cfg, id, l.accounts[id], n[id], tx, height)
      && n[id].nonce == tx.nonce + 1
  {
  }

  lemma ActionRest(a: Account, action: PolicyAction, height: u64)
    requires ApplyPolicyAction(a, action, height).Ok?
    ensures var b := ApplyPolicyAction(a, action, height).value;
      b == a.(active := b.active, dormant := b.dormant, deferred := b.deferred, finalized := b.finalized)
  {
  }

  lemma PolicySender(cfg: LedgerCfg, l: Ledger, id: AccountId, acc: Account, tx: SignedTx, height: u64)
    requires tx.body.Policy? && SignerRow(l, id, tx) == Ok(acc) && PolicyBody(cfg, l, id, acc, tx, height).Done?
    ensures var n := PolicyBody(cfg, l, id, acc, tx, height).value.accounts;
      && id in n && KeepsRest(l.accounts[id], n[id], tx) && SpendsMarks(cfg, id, l.accounts[id], n[id], tx, height)
      && n[id].nonce == tx.nonce + 1
  {
    var n := PolicyBody(cfg, l, id, acc, tx, height).value.accounts;
    var touched := TouchAccount(cfg, acc, height);
    ActionRest(touched, tx.body.action, height);
    TouchedMarks(cfg, acc, height, n[id].staked);
  }

  lemma BodySender(cfg: LedgerCfg, l: Ledger, id: AccountId, acc: Account, tx: SignedTx, redirect: Option<AccountId>,
                   height: u64)
    requires !tx.body.Init? && SignerRow(l, id, tx) == Ok(acc)
    requires ApplyBody(cfg, l, id, acc, tx, redirect, height).Done?
    ensures var n := ApplyBody(cfg, l, id, acc, tx, redirect, height).value.accounts;
      && id in n && KeepsRest(l.accounts[id], n[id], tx) && SpendsMarks(cfg, id, l.accounts[id], n[id], tx, height)
      && n[id].nonce == if Waits(id, tx) then tx.nonce else tx.nonce + 1
  {
    match tx.body
    case Transfer(_, _, _) => TransferSender(cfg, l, id, acc, tx, redirect, height);
    case Export(_, _, _, _) => ExportSender(cfg, l, id, acc, tx, height);
    case Import(_, _, _) => ImportSender(cfg, l, id, acc, tx, height);
    case Policy(_, _, _) => PolicySender(cfg, l, id, acc, tx, height);
    case _ => OwnSender(cfg, l, id, acc, tx, height);
  }

  /** A transaction other than an Init comes from an initialized account under its own key, takes nothing from
      its marks but what it burns, and leaves the rest of it as it was. */
  lemma SenderEffect(cfg: LedgerCfg, l: Ledger, tx: SignedTx, height: u64, checked: bool)
    requires ApplyTx(cfg, l, tx, height, checked).Applied? && !tx.body.Init?
    ensures var (id, n) := (SenderOf(cfg.c.hash, tx), ApplyTx(cfg, l, tx, height, checked).ledger.accounts);
      && id in l.accounts && id in n && KeepsRest(l.accounts[id], n[id], tx)
      && SpendsMarks(cfg, id, l.accounts[id], n[id], tx, height)
      && n[id].nonce == if Waits(id, tx) then tx.nonce else tx.nonce + 1
  {
    var id, stubbed, acc, redirect := AppliedTrace(cfg, l, tx, height, checked);
    BodySender(cfg, l, id, acc, tx, redirect, height);
  }

  // ----- everybody else -----

  /** Untouched, or credited, or credited with its marks brought up to the height. */
  ghost predicate OnlyPaid(cfg: LedgerCfg, a: Account, b: Account, height: u64, up: bool) {
    b == a.(balance := b.balance, marks := if up then TouchAccount(cfg, a, height).marks else a.marks)
  }

  lemma TransferRest(cfg: LedgerCfg, l: Ledger, id: AccountId, acc: Account, tx: SignedTx,
                     redirect: Option<AccountId>, height: u64, k: AccountId)
    requires tx.body.Transfer? && TransferBody(cfg, l, id, acc, tx, redirect, height).Done?
    requires k in l.accounts && k != id
    ensures var n := TransferBody(cfg, l, id, acc, tx, redirect, height).value.accounts;
      var dst := match redirect case Some(r) => r case None => tx.body.to;
      k in n && OnlyPaid(cfg, l.accounts[k], n[k], height, !ConservationFlag(id) && k == dst)
  {
  }

  lemma OtherRest(cfg: LedgerCfg, l: Ledger, id: AccountId, acc: Account, tx: SignedTx, redirect: Option<AccountId>,
                  height: u64, k: AccountId)
    requires !tx.body.Transfer? && ApplyBody(cfg, l, id, acc, tx, redirect, height).Done?
    requires k in l.accounts && k != id
    ensures var n := ApplyBody(cfg, l, id, acc, tx, redirect, height).value.accounts;
      k in n && OnlyPaid(cfg, l.accounts[k], n[k], height, false)
  {
    if tx.body.Import? {
      ImportRest(cfg, l, id, acc, tx, height, k);
    } else if tx.body.Policy? {
      PolicyRest(cfg, l, id, acc, tx, height, k);
    }
  }

  lemma ImportRest(cfg: LedgerCfg, l: Ledger, id: AccountId, acc: Account, tx: SignedTx, height: u64, k: AccountId)
    requires tx.body.Import? && ImportBody(l, id, acc, tx).Done? && k in l.accounts && k != id
    ensures var n := ImportBody(l, id, acc, tx).value.accounts;
      k in n && OnlyPaid(cfg, l.accounts[k], n[k], height, false)
  {
  }

  lemma PolicyRest(cfg: LedgerCfg, l: Ledger, id: AccountId, acc: Account, tx: SignedTx, height: u64, k: AccountId)
    requires tx.body.Policy? && PolicyBody(cfg, l, id, acc, tx, height).Done? && k in l.accounts && k != id
    ensures var n := PolicyBody(cfg, l, id, acc, tx, height).value.accounts;
      k in n && OnlyPaid(cfg, l.accounts[k], n[k], height, false)
  {
  }

  /** A transaction opens no account but its sender's, and does nothing to any other than pay it; whom a
      transfer pays at once has its marks brought up to the height. */
  lemma OthersEffect(cfg: LedgerCfg, l: Ledger, tx: SignedTx, height: u64, checked: bool, k: AccountId)
    requires ApplyTx(cfg, l, tx, height, checked).Applied? && k != SenderOf(cfg.c.hash, tx)
    ensures var (id, n) := (SenderOf(cfg.c.hash, tx), ApplyTx(cfg, l, tx, height, checked).ledger.accounts);
      && (k in n <==> k in l.accounts)
      && (k in l.accounts ==>
           var up := tx.body.Transfer? && !ConservationFlag(id)
             && k == if checked then PaidFor(l, tx.body.to, height) else tx.body.to;
           OnlyPaid(cfg, l.accounts[k], n[k], height, up))
  {
    var id, stubbed, acc, redirect := AppliedTrace(cfg, l, tx, height, checked);
    BodyKeys(cfg, stubbed, id, acc, tx, redirect, height);
    if k in l.accounts {
      if tx.body.Transfer? {
        AppliedDestination(cfg, l, tx, height, checked, id, acc, redirect);
        TransferRest(cfg, l, id, acc, tx, redirect, height, k);
      } else {
        OtherRest(cfg, stubbed, id, acc, tx, redirect, height, k);
      }
    }
  }

  // ----- Init -----

  function Blank(l: Ledger, id: AccountId, tx: SignedTx): Account {
    if id in l.accounts then l.accounts[id] else BlankAccount(tx.signerPk, tx.derivationIndex)
  }

  /** An account as an Init leaves it, but for its policies. */
  ghost predicate Opens(a: Account, b: Account, tx: SignedTx, height: u64)
    requires tx.body.Init?
  {
    && !a.initialized && b.initialized
    && b.signingPk == tx.signerPk && b.derivationIndex == tx.derivationIndex
    && a.nonce == tx.nonce && b.nonce == tx.nonce + 1 && b.marks == Meter(a.marks.stored, height)
    && b.balance == a.balance && b.staked == a.staked && b.claimedPhase == a.claimedPhase && b.finalized == a.finalized
    && b.profile.index == tx.body.index && b.profile.flags == tx.body.flags
    && match tx.initV4
       case None =>
         && b.rescue == a.rescue && b.profile == a.profile.(index := tx.body.index, flags := tx.body.flags)
         && SamePolicies(a, b)
       case Some(ext) =>
         && b.rescue == ext.rescueAddress
         && b.profile.ownerKind == ext.ownerKind && b.profile.ownerDisplayName == ext.ownerDisplayName
         && b.profile.ownerCountryHint == ext.ownerCountryHint
         && b.profile.metadataCommitment == Some(ext.companyMetadataCommitment)
         && b.profile.verificationRef == Some(ext.externalVerificationRef)
         && b.profile.requestedDomainLo == Some(ext.requestedDomainLo)
  }

  lemma {:induction false} SetModesRest(a: Account, entries: seq<InitPolicyEntry>, height: u64)
    ensures var b := SetModes(a, entries, height);
      b == a.(active := b.active, dormant := b.dormant, deferred := b.deferred)
    decreases |entries|
  {
    if entries != [] {
      SetModesRest(SetMode(a, entries[0].policy, entries[0].activation, height), entries[1..], height);
    }
  }

  lemma InitOpens(acc: Account, tx: SignedTx, height: u64, a: Account)
    requires tx.body.Init? && acc.nonce < U64_MAX && acc.nonce == tx.nonce && !acc.initialized
    requires acc == a.(signingPk := tx.signerPk, derivationIndex := tx.derivationIndex)
    ensures Opens(a, InitAccount(acc, tx, height), tx, height)
  {
    if tx.initV4.Some? {
      var ext := tx.initV4.value;
      SetModesRest(Declared(acc, tx, ext), ext.initialPolicies, height);
    }
  }

  /** An Init opens an account that was not open, as its extension declares it, and touches nothing else. */
  lemma InitEffect(cfg: LedgerCfg, l: Ledger, tx: SignedTx, height: u64, checked: bool)
    requires ApplyTx(cfg, l, tx, height, checked).Applied? && tx.body.Init?
    ensures var (id, next) := (SenderOf(cfg.c.hash, tx), ApplyTx(cfg, l, tx, height, checked).ledger);
      && id in next.accounts && next == l.(accounts := l.accounts[id := next.accounts[id]])
      && Opens(Blank(l, id, tx), next.accounts[id], tx, height)
  {
    var id, stubbed, acc, redirect := AppliedTrace(cfg, l, tx, height, checked);
    var next := ApplyTx(cfg, l, tx, height, checked).ledger;
    InitOpens(acc, tx, height, Blank(l, id, tx));
    assert next == stubbed.(accounts := stubbed.accounts[id := InitAccount(acc, tx, height)]);
    assert stubbed.accounts[id := next.accounts[id]] == l.accounts[id := next.accounts[id]];
  }

  /** It installs the policies of its extension: the last entry for each policy decides whether that policy
      can be activated, and from which height it is in force. */
  lemma InitInstalls(cfg: LedgerCfg, l: Ledger, tx: SignedTx, height: u64, checked: bool, q: PolicyKind, later: u64)
    requires ApplyTx(cfg, l, tx, height, checked).Applied? && tx.body.Init? && tx.initV4.Some? && height <= later
    ensures var (id, n) := (SenderOf(cfg.c.hash, tx), ApplyTx(cfg, l, tx, height, checked).ledger.accounts);
      && id in n
      && match LastMode(tx.initV4.value.initialPolicies, q)
         case None => PolicyActive(n[id], q, later) == PolicyActive(Blank(l, id, tx), q, later)
         case Some(m) =>
           && (q in n[id].dormant <==> m.Dormant?)
           && PolicyActive(n[id], q, later) == (m.Immediately? || (m.Deferred? && later >= m.activateAtHeight))
  {
    var id, stubbed, acc, redirect := AppliedTrace(cfg, l, tx, height, checked);
    var ext := tx.initV4.value;
    SetModesEffect(Declared(acc, tx, ext), ext.initialPolicies, height, q, later);
    InitPolicies(acc, tx, height, q, later);
  }

  lemma InitPolicies(acc: Account, tx: SignedTx, height: u64, q: PolicyKind, later: u64)
    requires tx.body.Init? && tx.initV4.Some? && acc.nonce < U64_MAX
    ensures var b := SetModes(Declared(acc, tx, tx.initV4.value), tx.initV4.value.initialPolicies, height);
      && PolicyActive(InitAccount(acc, tx, height), q, later) == PolicyActive(b, q, later)
      && InitAccount(acc, tx, height).dormant == b.dormant
    ensures PolicyActive(Declared(acc, tx, tx.initV4.value), q, later) == PolicyActive(acc, q, later)
  {
  }

  // ----- policy changes -----

  /** An applied policy transaction does to the sender's policies what its action says: from this height on a
      set policy follows its mode, an activated one is in force, and a reversible one that was still ahead or
      in force by its bit has been taken back; no other policy changes, except that a finalization follows an
      emergency activation. */
  lemma PolicyTxEffect(cfg: LedgerCfg, l: Ledger, tx: SignedTx, height: u64, checked: bool, q: PolicyKind, later: u64)
    requires ApplyTx(cfg, l, tx, height, checked).Applied? && tx.body.Policy? && height <= later
    requires AllPoliciesOk(l, height)
    ensures var (id, n) := (SenderOf(cfg.c.hash, tx), ApplyTx(cfg, l, tx, height, checked).ledger.accounts);
      && id in l.accounts && id in n && tx.body.target == id
      && ActionShows(l.accounts[id], n[id], tx.body.action, height, q, later)
  {
    var id, stubbed, acc, redirect := AppliedTrace(cfg, l, tx, height, checked);
    var touched := TouchAccount(cfg, acc, height);
    SenderPolicies(cfg, l, id, acc, tx, redirect, height);
    assert PoliciesOk(l.accounts[id], height);
    ActionEffect(touched, tx.body.action, height, q, later);
    PolicyKeepsAction(cfg, l, id, acc, tx, height);
  }

  ghost predicate ActionShows(a: Account, b: Account, action: PolicyAction, height: u64, q: PolicyKind, later: u64) {
    match action
    case SetPolicy(p, m) =>
      && PolicyActive(b, q, later) == (if q != p then PolicyActive(a, q, later)
                                       else m.Immediately? || (m.Deferred? && later >= m.activateAtHeight))
      && b.finalized == a.finalized
    case ActivatePolicy(pid, _) =>
      && PolicyActive(b, q, later) == (q.Id() == pid || PolicyActive(a, q, later))
      && (b.finalized <==> a.finalized || (pid == 1 && RoutingEmergencyRedirect !in a.active))
    case DeactivatePolicy(pid) =>
      && (q.Id() != pid ==> PolicyActive(b, q, later) == PolicyActive(a, q, later))
      && (q.Id() == pid ==>
           && !q.RoutingEmergencyRedirect?
           && var ahead := match DeferredHeight(a.deferred, q) case Some(at) => height < at case None => false;
           && (ahead || q in a.active)
           && (PolicyActive(b, q, height) <==> DeferredHeight(a.deferred, q).Some? && !ahead))
      && b.finalized == a.finalized
  }

  lemma ActionEffect(a: Account, action: PolicyAction, height: u64, q: PolicyKind, later: u64)
    requires PoliciesOk(a, height) && height <= later && ApplyPolicyAction(a, action, height).Ok?
    ensures ActionShows(a, ApplyPolicyAction(a, action, height).value, action, height, q, later)
  {
    match action
    case SetPolicy(p, m) => SetModeEffect(a, p, m, height, q, later);
    case ActivatePolicy(pid, _) =>
      PolicyIdBack(q);
      ActivateEffect(a, PolicyFromId(pid).value, height, q, later);
    case DeactivatePolicy(pid) =>
      PolicyIdBack(q);
      DeactivateEffect(a, q, height);
      DeactivateOthers(a, PolicyFromId(pid).value, height, q, later);
  }

  lemma DeactivateOthers(a: Account, p: PolicyKind, height: u64, q: PolicyKind, later: u64)
    requires Deactivate(a, p, height).Ok?
    ensures q != p ==> PolicyActive(Deactivate(a, p, height).value, q, later) == PolicyActive(a, q, later)
    ensures Deactivate(a, p, height).value.finalized == a.finalized
  {
    if q != p && Cancelled(a.deferred, p, height).Some? {
      CancelledKeeps(a.deferred, p, height, q, later);
    }
  }

  lemma PolicyKeepsAction(cfg: LedgerCfg, l: Ledger, id: AccountId, acc: Account, tx: SignedTx, height: u64)
    requires tx.body.Policy? && PolicyBody(cfg, l, id, acc, tx, height).Done?
    ensures tx.body.target == id
    ensures var n := PolicyBody(cfg, l, id, acc, tx, height).value.accounts;
      && id in n && ApplyPolicyAction(TouchAccount(cfg, acc, height), tx.body.action, height).Ok?
      && n[id].finalized == ApplyPolicyAction(TouchAccount(cfg, acc, height), tx.body.action, height).value.finalized
  {
  }

  // ----- block work -----

  /** A due transfer changes nothing else of its two accounts than balance, marks and the sender's nonce, and
      nothing at all of the others. */
  lemma DueEffect(cfg: LedgerCfg, l: Ledger, row: Pending, height: u64, k: AccountId)
    requires ApplyDue(cfg, l, row, height).Done?
    ensures var (dst, n) := (PaidFor(l, row.recipient, height), ApplyDue(cfg, l, row, height).value.accounts);
      && (k in n <==> k in l.accounts)
      && (k in l.accounts ==>
           && n[k].nonce == l.accounts[k].nonce + (if k == row.sender && dst != row.sender then 1 else 0)
           && OnlyPaid(cfg, l.accounts[k].(nonce := n[k].nonce), n[k], height, k == row.sender || k == dst)
           && (k != row.sender && k != dst ==> n[k] == l.accounts[k]))
  {
    DuePaysFor(l, row, height);
  }

  /** Every row of a drain is executed or kept. */
  lemma {:induction false} RowsSettled(cfg: LedgerCfg, l: Ledger, rows: seq<Pending>, height: u64, row: Pending)
    requires DrainRows(cfg, l, rows, height).Some? && row in rows
    ensures row in DrainRows(cfg, l, rows, height).value.1
      || exists e :: e in RowsExecuted(cfg, l, rows, height) && e.account == row.sender && e.nonce == row.nonce
    decreases |rows|
  {
    if height >= rows[0].executeAt && ApplyDue(cfg, l, rows[0], height).Done? {
      var e := Execution(rows[0].sender, rows[0].nonce, ReturnsToSender(l, rows[0], height));
      var later := RowsExecuted(cfg, ApplyDue(cfg, l, rows[0], height).value, rows[1..], height);
      assert RowsExecuted(cfg, l, rows, height) == [e] + later && e in [e] + later;
      if row != rows[0] {
        RowsSettled(cfg, ApplyDue(cfg, l, rows[0], height).value, rows[1..], height, row);
      }
    } else if row != rows[0] {
      RowsSettled(cfg, l, rows[1..], height, row);
    }
  }

  predicate Expires(lock: Lock, height: u64) { lock.state.Locked? && lock.unlockHeight <= height }

  ghost predicate ExpiresFrom(locks: seq<Lock>, at: nat, height: u64, exportId: Bytes32) {
    exists i :: at <= i < |locks| && Expires(locks[i], height) && locks[i].exportId == exportId
  }

  lemma {:induction false} RefundEffect(l: Ledger, at: nat, height: u64, k: AccountId, exportId: Bytes32)
    requires at <= |l.locks|
    ensures var next := RefundFrom(l, at, height);
      && (k in next.accounts <==> k in l.accounts)
      && (k in l.accounts ==> next.accounts[k] == l.accounts[k].(balance := next.accounts[k].balance))
      && (exportId in next.imported <==> exportId in l.imported || ExpiresFrom(l.locks, at, height, exportId))
      && next.exported == l.exported && next.pending == l.pending
    decreases |l.locks| - at
  {
    if at < |l.locks| {
      var next := RefundLock(l, at, height);
      RefundEffect(next, at + 1, height, k, exportId);
      LaterLocks(l, next, at, height, exportId);
    }
  }

  lemma LaterLocks(l: Ledger, next: Ledger, at: nat, height: u64, exportId: Bytes32)
    requires at < |l.locks| && next == RefundLock(l, at, height)
    ensures ExpiresFrom(l.locks, at, height, exportId)
      <==> ExpiresFrom(next.locks, at + 1, height, exportId)
           || (Expires(l.locks[at], height) && l.locks[at].exportId == exportId)
  {
    assert forall i :: at < i < |l.locks| ==> next.locks[i] == l.locks[i];
  }
}
