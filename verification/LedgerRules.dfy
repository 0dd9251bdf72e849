/** What the ledger enforces: recipients' policies, cosigning, and well-formed policies on every account. */
module LedgerRules {
  import opened Basics
  import opened Transactions
  import opened TxMessage
  import opened Ledger
  import opened LedgerInvariant
  import opened LedgerSupply
  import opened LedgerRuns
  import opened LedgerSafety
  import opened LedgerPolicies

  // ----- whom a transfer pays -----

  /** A transfer's coins on their way to `dst`: waiting under its name, or paid. */
  ghost predicate PaysTo(l: Ledger, next: Ledger, id: AccountId, tx: SignedTx, dst: AccountId)
    requires tx.body.Transfer?
  {
    var (amount, fee) := (tx.body.amount, tx.body.fee);
    if ConservationFlag(id) then
      && next == l.(pending := next.pending) && |next.pending| == |l.pending| + 1
      && next.pending[..|l.pending|] == l.pending
      && var row := next.pending[|l.pending|];
      && row.sender == id && row.recipient == dst && row.amount == amount && row.fee == fee
    else
      && id in l.accounts && dst in l.accounts && id in next.accounts && dst in next.accounts
      && next.feePool == l.feePool + fee
      && (if dst == id then next.accounts[id].balance == l.accounts[id].balance - fee
          else
            && next.accounts[id].balance == l.accounts[id].balance - amount - fee
            && next.accounts[dst].balance == l.accounts[dst].balance + amount)
  }

  lemma TransferPays(cfg: LedgerCfg, l: Ledger, id: AccountId, acc: Account, tx: SignedTx, redirect: Option<AccountId>,
                     height: u64)
    requires tx.body.Transfer? && SignerRow(l, id, tx) == Ok(acc) && Supply(l) <= U128_MAX
    requires TransferBody(cfg, l, id, acc, tx, redirect, height).Done?
    ensures PaysTo(l, TransferBody(cfg, l, id, acc, tx, redirect, height).value, id, tx,
                   match redirect case Some(r) => r case None => tx.body.to)
  {
    if !ConservationFlag(id) {
      var dst := match redirect case Some(r) => r case None => tx.body.to;
      TotalUpdate(l.accounts, id, acc);
      if dst != id {
        TwoAccounts(l.accounts, id, dst);
      }
    }
  }

  /** A finalized account whose coins go to its rescue account. */
  predicate Redirects(a: Account, height: u64) { a.finalized && PolicyActive(a, RoutingEmergencyRedirect, height) }

  /** A transfer applied on the checked path has an initialized recipient and respects it: a finalized one
      is paid through its rescue account, in the sender's domain, and any other is paid itself, none of
      its refusing policies being in force. */
  lemma RecipientRespected(cfg: LedgerCfg, l: Ledger, tx: SignedTx, height: u64)
    requires ApplyTx(cfg, l, tx, height, true).Applied? && tx.body.Transfer? && Supply(l) <= U128_MAX
    ensures Recipient(l, tx.body.to).Ok?
    ensures var (id, to) := (SenderOf(cfg.c.hash, tx), l.accounts[tx.body.to]);
      var next := ApplyTx(cfg, l, tx, height, true).ledger;
      if Redirects(to, height) then
        && to.rescue.Some? && DomainHi(to.rescue.value) == DomainHi(id)
        && PaysTo(l, next, id, tx, to.rescue.value)
      else
        && !PolicyActive(to, SenderFilter, height) && !PolicyActive(to, DefaultBehavior, height)
        && (PolicyActive(to, RoutingSameDomainOnly, height) ==> DomainHi(id) == DomainHi(tx.body.to))
        && PaysTo(l, next, id, tx, tx.body.to)
  {
    var id, stubbed, acc, redirect := AppliedTrace(cfg, l, tx, height, true);
    TransferPays(cfg, l, id, acc, tx, redirect, height);
  }

  // ----- what happens to an account's policies -----

  predicate SamePolicies(a: Account, b: Account) {
    && a.active == b.active && a.dormant == b.dormant && a.deferred == b.deferred
    && (a.initialized ==> b.initialized)
  }

  ghost predicate AllSame(m: map<AccountId, Account>, n: map<AccountId, Account>) {
    m.Keys == n.Keys && forall k :: k in m ==> SamePolicies(m[k], n[k])
  }

  lemma BodyKeys(cfg: LedgerCfg, l: Ledger, id: AccountId, acc: Account, tx: SignedTx, redirect: Option<AccountId>,
                 height: u64)
    requires id in l.accounts && ApplyBody(cfg, l, id, acc, tx, redirect, height).Done?
    ensures ApplyBody(cfg, l, id, acc, tx, redirect, height).value.accounts.Keys == l.accounts.Keys
  {
    if tx.body.Policy? && IsEmergency(tx.body.action) {
      EmergencyTarget(cfg, l, TouchAccount(cfg, acc, height), tx.body.action, tx);
    }
  }

  /** The sender's account before any payment: what an Init or an action makes of it. */
  function Acted(cfg: LedgerCfg, acc: Account, tx: SignedTx, height: u64): Option<Account> {
    match tx.body
    case Init(_, _) => if acc.nonce == U64_MAX then None else Some(InitAccount(acc, tx, height))
    case Policy(_, action, _) =>
      (match ApplyPolicyAction(TouchAccount(cfg, acc, height), action, height)
       case Ok(a) => Some(a)
       case Err(_) => None)
    case _ => Some(acc)
  }

  lemma TransferPolicies(cfg: LedgerCfg, l: Ledger, id: AccountId, acc: Account, tx: SignedTx,
                         redirect: Option<AccountId>, height: u64)
    requires tx.body.Transfer? && SignerRow(l, id, tx) == Ok(acc)
    requires TransferBody(cfg, l, id, acc, tx, redirect, height).Done?
    ensures var next := TransferBody(cfg, l, id, acc, tx, redirect, height).value;
      id in next.accounts && SamePolicies(acc, next.accounts[id])
  {
  }

  lemma ImportPolicies(l: Ledger, id: AccountId, acc: Account, tx: SignedTx)
    requires tx.body.Import? && ImportBody(l, id, acc, tx).Done?
    ensures var next := ImportBody(l, id, acc, tx).value;
      id in next.accounts && SamePolicies(acc, next.accounts[id])
  {
  }

  lemma ActionPolicies(cfg: LedgerCfg, l: Ledger, id: AccountId, acc: Account, tx: SignedTx, height: u64)
    requires tx.body.Policy? && PolicyBody(cfg, l, id, acc, tx, height).Done?
    ensures var next := PolicyBody(cfg, l, id, acc, tx, height).value;
      && id in next.accounts && Acted(cfg, acc, tx, height).Some?
      && SamePolicies(Acted(cfg, acc, tx, height).value, next.accounts[id])
  {
  }

  lemma OwnPolicies(cfg: LedgerCfg, l: Ledger, id: AccountId, acc: Account, tx: SignedTx, height: u64)
    requires IsOwn(tx.body) && OwnBody(cfg, l, id, acc, tx, height).Done?
    ensures Acted(cfg, acc, tx, height).Some?
    ensures SamePolicies(Acted(cfg, acc, tx, height).value, OwnBody(cfg, l, id, acc, tx, height).value)
    ensures tx.body.Init? ==> !acc.initialized
  {
  }

  lemma SenderPolicies(cfg: LedgerCfg, l: Ledger, id: AccountId, acc: Account, tx: SignedTx,
                       redirect: Option<AccountId>, height: u64)
    requires SignerRow(l, id, tx) == Ok(acc) && ApplyBody(cfg, l, id, acc, tx, redirect, height).Done?
    ensures var next := ApplyBody(cfg, l, id, acc, tx, redirect, height).value;
      && id in next.accounts && Acted(cfg, acc, tx, height).Some?
      && SamePolicies(Acted(cfg, acc, tx, height).value, next.accounts[id])
      && (tx.body.Init? ==> !acc.initialized)
  {
    match tx.body
    case Transfer(_, _, _) => TransferPolicies(cfg, l, id, acc, tx, redirect, height);
    case Export(_, _, _, _) =>
    case Import(_, _, _) => ImportPolicies(l, id, acc, tx);
    case Policy(_, _, _) => ActionPolicies(cfg, l, id, acc, tx, height);
    case _ => OwnPolicies(cfg, l, id, acc, tx, height);
  }

  lemma {:induction false} RefundSame(l: Ledger, at: nat, height: u64)
    requires at <= |l.locks|
    ensures AllSame(l.accounts, RefundFrom(l, at, height).accounts)
    decreases |l.locks| - at
  {
    if at < |l.locks| {
      RefundSame(RefundLock(l, at, height), at + 1, height);
    }
  }

  lemma DueSame(cfg: LedgerCfg, l: Ledger, row: Pending, height: u64)
    requires ApplyDue(cfg, l, row, height).Done?
    ensures AllSame(l.accounts, ApplyDue(cfg, l, row, height).value.accounts)
  {
  }

  lemma {:induction false} RowsSame(cfg: LedgerCfg, l: Ledger, rows: seq<Pending>, height: u64)
    requires DrainRows(cfg, l, rows, height).Some?
    ensures AllSame(l.accounts, DrainRows(cfg, l, rows, height).value.0.accounts)
    decreases |rows|
  {
    if rows != [] {
      if height >= rows[0].executeAt && ApplyDue(cfg, l, rows[0], height).Done? {
        DueSame(cfg, l, rows[0], height);
        RowsSame(cfg, ApplyDue(cfg, l, rows[0], height).value, rows[1..], height);
      } else {
        RowsSame(cfg, l, rows[1..], height);
      }
    }
  }

  /** Only transactions touch policies. */
  lemma OtherOpsSame(cfg: LedgerCfg, l: Ledger, op: Op)
    requires !op.Apply? && Perform(cfg, l, op).Some?
    ensures AllSame(l.accounts, Perform(cfg, l, op).value.accounts)
  {
    match op
    case Refund(height) => RefundSame(l, 0, height);
    case DrainDue(height) => RowsSame(cfg, l.(pending := []), l.pending, height);
    case Pay(_, _, _) =>
  }

  // ----- well-formed policies on every account -----

  ghost predicate AllPoliciesOk(l: Ledger, height: u64)
  {
    forall k :: k in l.accounts ==> PoliciesOk(l.accounts[k], height)
  }

  lemma ActedOk(cfg: LedgerCfg, acc: Account, tx: SignedTx, height: u64)
    requires PoliciesOk(acc, height) && Acted(cfg, acc, tx, height).Some?
    ensures PoliciesOk(Acted(cfg, acc, tx, height).value, height)
  {
    match tx.body
    case Init(_, _) => InitOk(acc, tx, height);
    case Policy(_, action, _) => ActionKeepsOk(TouchAccount(cfg, acc, height), action, height);
    case _ =>
  }

  lemma InitOk(acc: Account, tx: SignedTx, height: u64)
    requires tx.body.Init? && acc.nonce < U64_MAX && PoliciesOk(acc, height)
    ensures PoliciesOk(InitAccount(acc, tx, height), height)
  {
    if tx.initV4.Some? {
      var ext := tx.initV4.value;
      SetModesKeepOk(Declared(acc, tx, ext), ext.initialPolicies, height);
    }
  }

  lemma BodyPoliciesOk(cfg: LedgerCfg, l: Ledger, id: AccountId, acc: Account, tx: SignedTx,
                       redirect: Option<AccountId>, height: u64)
    requires AllPoliciesOk(l, height) && SignerRow(l, id, tx) == Ok(acc)
    requires ApplyBody(cfg, l, id, acc, tx, redirect, height).Done?
    ensures AllPoliciesOk(ApplyBody(cfg, l, id, acc, tx, redirect, height).value, height)
  {
    var next := ApplyBody(cfg, l, id, acc, tx, redirect, height).value;
    BodyKeys(cfg, l, id, acc, tx, redirect, height);
    BodyOthers(cfg, l, id, acc, tx, redirect, height);
    SenderPolicies(cfg, l, id, acc, tx, redirect, height);
    ActedOk(cfg, acc, tx, height);
    forall k | k in next.accounts
      ensures PoliciesOk(next.accounts[k], height)
    {
      assert k in l.accounts && PoliciesOk(l.accounts[k], height);
    }
  }

  lemma LaterPoliciesOk(l: Ledger, height: u64, later: u64)
    requires AllPoliciesOk(l, height) && height <= later
    ensures AllPoliciesOk(l, later)
  {
    forall k | k in l.accounts
      ensures PoliciesOk(l.accounts[k], later)
    {
      StillOk(l.accounts[k], height, later);
    }
  }

  lemma TxPoliciesOk(cfg: LedgerCfg, l: Ledger, tx: SignedTx, height: u64, checked: bool)
    requires AllPoliciesOk(l, height) && ApplyTx(cfg, l, tx, height, checked).Applied?
    ensures AllPoliciesOk(ApplyTx(cfg, l, tx, height, checked).ledger, height)
  {
    var id, stubbed, acc, redirect := AppliedTrace(cfg, l, tx, height, checked);
    BodyPoliciesOk(cfg, stubbed, id, acc, tx, redirect, height);
  }

  lemma StepPoliciesOk(cfg: LedgerCfg, l: Ledger, op: Op, height: u64)
    requires AllPoliciesOk(l, height) && Perform(cfg, l, op).Some? && height <= HeightAt(op, height)
    ensures AllPoliciesOk(Perform(cfg, l, op).value, HeightAt(op, height))
  {
    LaterPoliciesOk(l, height, HeightAt(op, height));
    if op.Apply? {
      TxPoliciesOk(cfg, l, op.tx, op.height, op.checked);
    } else {
      OtherOpsSame(cfg, l, op);
    }
  }

  /** Over any run of rising heights every account keeps one deferred row for each policy at most, and one
      still ahead neither in force nor dormant by its bit. */
  lemma {:induction false} RunPoliciesOk(cfg: LedgerCfg, l: Ledger, ops: seq<Op>, height: u64)
    requires AllPoliciesOk(l, height) && RunOps(cfg, l, ops).Some? && Rising(ops, height)
    ensures AllPoliciesOk(RunOps(cfg, l, ops).value, HeightAfter(ops, height))
    decreases |ops|
  {
    if ops != [] {
      StepPoliciesOk(cfg, l, ops[0], height);
      RunPoliciesOk(cfg, Perform(cfg, l, ops[0]).value, ops[1..], HeightAt(ops[0], height));
    }
  }

  // ----- cosigning -----

  /** An initialized account whose id forbids giving up its cosigning demand, with the demand in force. */
  ghost predicate Demands(l: Ledger, k: AccountId, height: u64) {
    && k in l.accounts && l.accounts[k].initialized
    && CosignNonDisableable(k) && PolicyActive(l.accounts[k], CosignRequired, height)
  }

  /** On the checked path a flagged account's transfers and policy changes, and the policy changes of an
      account that demands it, carry a cosignature that verifies; and on either path no transaction takes
      a flagged account's demand out of force. */
  lemma CosignEnforced(cfg: LedgerCfg, l: Ledger, tx: SignedTx, height: u64, checked: bool)
    requires ApplyTx(cfg, l, tx, height, checked).Applied?
    ensures var id := SenderOf(cfg.c.hash, tx);
      checked && (tx.body.Transfer? || tx.body.Policy?) ==>
        && id in l.accounts
        && (CosignNonDisableable(id) || (tx.body.Policy? && PolicyActive(l.accounts[id], CosignRequired, height)) ==>
             exists i :: 0 <= i < |tx.cosigns|
               && cfg.c.verify(tx.cosigns[i].signerPk, EncTx(tx), tx.cosigns[i].signature))
    ensures forall k :: Demands(l, k, height) ==> Demands(ApplyTx(cfg, l, tx, height, checked).ledger, k, height)
  {
    var next := ApplyTx(cfg, l, tx, height, checked).ledger;
    forall k | Demands(l, k, height)
      ensures Demands(next, k, height)
    {
      if k == SenderOf(cfg.c.hash, tx) {
        SenderStillDemands(cfg, l, tx, height, checked);
      } else {
        OnlySenderPays(cfg, l, tx, height, checked);
      }
    }
  }

  lemma NeverWeakened(cfg: LedgerCfg, l: Ledger, id: AccountId, acc: Account, tx: SignedTx,
                      redirect: Option<AccountId>, height: u64)
    requires id == SenderOf(cfg.c.hash, tx) && CosignNonDisableable(id) && tx.body.Policy?
    requires ApplyBody(cfg, l, id, acc, tx, redirect, height).Done?
    ensures !WeakensCosign(tx.body.action)
  {
  }

  lemma SenderStillDemands(cfg: LedgerCfg, l: Ledger, tx: SignedTx, height: u64, checked: bool)
    requires ApplyTx(cfg, l, tx, height, checked).Applied? && Demands(l, SenderOf(cfg.c.hash, tx), height)
    ensures Demands(ApplyTx(cfg, l, tx, height, checked).ledger, SenderOf(cfg.c.hash, tx), height)
  {
    var id, stubbed, acc, redirect := AppliedTrace(cfg, l, tx, height, checked);
    SenderPolicies(cfg, stubbed, id, acc, tx, redirect, height);
    if tx.body.Policy? {
      NeverWeakened(cfg, stubbed, id, acc, tx, redirect, height);
      ActionKeepsDemand(TouchAccount(cfg, acc, height), tx.body.action, height);
      ActionKeeps(TouchAccount(cfg, acc, height), tx.body.action, height);
    }
  }

  lemma StepStillDemands(cfg: LedgerCfg, l: Ledger, op: Op, k: AccountId, height: u64)
    requires Demands(l, k, height) && Perform(cfg, l, op).Some? && height <= HeightAt(op, height)
    ensures Demands(Perform(cfg, l, op).value, k, HeightAt(op, height))
  {
    StillActive(l.accounts[k], CosignRequired, height, HeightAt(op, height));
    if op.Apply? {
      CosignEnforced(cfg, l, op.tx, op.height, op.checked);
    } else {
      OtherOpsSame(cfg, l, op);
    }
  }

  /** Over any run of rising heights, by whichever path, a flagged account's demand stays in force. */
  lemma {:induction false} RunStillDemands(cfg: LedgerCfg, l: Ledger, ops: seq<Op>, k: AccountId, height: u64)
    requires Demands(l, k, height) && RunOps(cfg, l, ops).Some? && Rising(ops, height)
    ensures Demands(RunOps(cfg, l, ops).value, k, HeightAfter(ops, height))
    decreases |ops|
  {
    if ops != [] {
      StepStillDemands(cfg, l, ops[0], k, height);
      RunStillDemands(cfg, Perform(cfg, l, ops[0]).value, ops[1..], k, HeightAt(ops[0], height));
    }
  }
}
