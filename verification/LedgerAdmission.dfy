/** Exactly which transactions the ledger applies. */
module LedgerAdmission {
  import opened Basics
  import opened Text
  import opened Transactions
  import opened TxMessage
  import opened Marks
  import opened Ledger
  import opened LedgerInvariant
  import opened LedgerSupply
  import opened LedgerSafety
  import opened LedgerPolicies
  import opened LedgerRules
  import opened LedgerBooks

  // ----- shape -----

  predicate ExtShaped(ext: InitV4Extension) {
    && ext.ownerKind != "" && ByteLength(ext.ownerKind) <= 32
    && ext.ownerDisplayName != "" && ByteLength(ext.ownerDisplayName) <= 64
    && ext.ownerCountryHint != "" && ByteLength(ext.ownerCountryHint) <= 8
    && ByteLength(ext.externalVerificationRef) <= 96 && |ext.initialPolicies| <= 16
  }

  predicate PurposeShaped(purpose: string) {
    1 <= ByteLength(purpose) <= 80
    && forall i :: 0 <= i < |purpose| ==> ' ' <= purpose[i] && !('\U{007F}' <= purpose[i] <= '\U{009F}')
  }

  /** Setting and removing cost a fee; activating is free unless it is the emergency, which names a target. A
      flagged account does not weaken its cosigning. */
  predicate ActionShaped(id: AccountId, action: PolicyAction, fee: u128) {
    match action
    case SetPolicy(p, m) => fee > 0 && (CosignNonDisableable(id) && p.CosignRequired? ==> m.Immediately?)
    case ActivatePolicy(pid, target) => pid < 5 && (if pid == 1 then target.Some? else fee == 0 && target.None?)
    case DeactivatePolicy(pid) => fee > 0 && pid < 5 && !(CosignNonDisableable(id) && pid == 4)
  }

  predicate BodyShaped(id: AccountId, tx: SignedTx) {
    if tx.body.Init? then tx.initV4.Some? ==> ExtShaped(tx.initV4.value)
    else
      && tx.initV4.None?
      && if tx.body.BurnMark? then tx.burnPurpose.Some? && PurposeShaped(Trim(tx.burnPurpose.value))
         else
           && tx.burnPurpose.None?
           && match tx.body
              case ClaimIPv4Batch(_, _, sig) => exists i :: 0 <= i < 64 && sig[i] != 0
              case Import(_, _, _) => tx.importFee.Some? && tx.importFee.value >= 10_000
              case Transfer(to, _, _) => to != id && tx.importFee.None? && tx.importProvenance.None?
              case Policy(target, action, fee) =>
                tx.importFee.None? && tx.importProvenance.None? && target == id && ActionShaped(id, action, fee)
              case _ => tx.importFee.None? && tx.importProvenance.None?
  }

  lemma ActionShapedExactly(id: AccountId, target: AccountId, action: PolicyAction, fee: u128)
    ensures ValidatePolicyBody(id, target, action, fee).Ok? <==> target == id && ActionShaped(id, action, fee)
  {
  }

  lemma PurposeShapedExactly(purpose: string)
    ensures ValidateBurnPurpose(purpose).Ok? <==> PurposeShaped(purpose)
  {
    assert forall c: char :: IsControl(c) <==> !(' ' <= c && !('\U{007F}' <= c <= '\U{009F}'));
  }

  lemma ExtShapedExactly(ext: InitV4Extension)
    ensures ValidateInitExt(ext).Ok? <==> ExtShaped(ext)
  {
  }

  lemma BodyShapedExactly(id: AccountId, tx: SignedTx)
    ensures ValidateBody(id, tx).Ok? <==> BodyShaped(id, tx)
  {
    match tx.body
    case Init(_, _) => if tx.initV4.Some? { ExtShapedExactly(tx.initV4.value); }
    case BurnMark(_, _) => if tx.burnPurpose.Some? { PurposeShapedExactly(Trim(tx.burnPurpose.value)); }
    case Policy(target, action, fee) => ActionShapedExactly(id, target, action, fee);
    case _ =>
  }

  /** The sender's own domain, a well-formed body, and on the checked path the signer's signature. */
  predicate Shaped(c: Crypto, tx: SignedTx, checked: bool) {
    var id := SenderOf(c.hash, tx);
    && (checked ==> c.verify(tx.signerPk, EncTx(tx), tx.signature))
    && 256 * (id[0] as int) + id[1] == tx.domainCode && BodyShaped(id, tx)
  }

  lemma ShapedExactly(c: Crypto, tx: SignedTx, checked: bool)
    ensures ValidateShape(c, tx, checked).Ok? <==> Shaped(c, tx, checked)
  {
    BodyShapedExactly(SenderOf(c.hash, tx), tx);
  }

  // ----- policies -----

  predicate Open(l: Ledger, k: AccountId) { k in l.accounts && l.accounts[k].initialized }

  predicate Cosigned(c: Crypto, tx: SignedTx) {
    exists i :: 0 <= i < |tx.cosigns| && c.verify(tx.cosigns[i].signerPk, EncTx(tx), tx.cosigns[i].signature)
  }

  /** A finalized recipient takes coins through an open rescue account of the sender's domain; any other must
      neither filter senders nor refuse by default, nor keep to its own domain against this sender. */
  predicate Welcomes(l: Ledger, id: AccountId, to: AccountId, height: u64)
    requires to in l.accounts
  {
    var a := l.accounts[to];
    if Redirects(a, height) then a.rescue.Some? && Open(l, a.rescue.value) && DomainHi(a.rescue.value) == DomainHi(id)
    else
      && !PolicyActive(a, DefaultBehavior, height) && (PolicyActive(a, SenderFilter, height) ==> id == to)
      && (PolicyActive(a, RoutingSameDomainOnly, height) ==> DomainHi(id) == DomainHi(to))
  }

  lemma WelcomesExactly(l: Ledger, id: AccountId, to: AccountId, height: u64)
    requires to in l.accounts
    ensures Routing(l, id, to, l.accounts[to], height).Ok? <==> Welcomes(l, id, to, height)
  {
  }

  /** What the policies leave to a sender: a finalized account has its Init and the emergency it has not used;
      flagged accounts have transfers and policy changes cosigned, as have those that demand it for policy
      changes; and a transfer is welcome. */
  predicate Permitted(cfg: LedgerCfg, l: Ledger, id: AccountId, tx: SignedTx, height: u64)
    requires id in l.accounts
  {
    var a := l.accounts[id];
    && (a.finalized && !tx.body.Init? ==>
         tx.body.Policy? && IsEmergency(tx.body.action)
         && RoutingEmergencyRedirect !in a.active && RoutingEmergencyRedirect in a.dormant)
    && (CosignNonDisableable(id) && (tx.body.Transfer? || tx.body.Policy?) ==> Cosigned(cfg.c, tx))
    && (tx.body.Policy? && PolicyActive(a, CosignRequired, height) ==> Cosigned(cfg.c, tx))
    && (tx.body.Transfer? && Open(l, tx.body.to) ==> Welcomes(l, id, tx.body.to, height))
  }

  lemma PermittedExactly(cfg: LedgerCfg, l: Ledger, id: AccountId, tx: SignedTx, height: u64)
    requires id == SenderOf(cfg.c.hash, tx) && id in l.accounts && (tx.body.Policy? ==> tx.body.target == id)
    ensures Evaluate(cfg, l, tx, height).Ok? <==> Permitted(cfg, l, id, tx, height)
  {
    if tx.body.Transfer? && tx.body.to in l.accounts {
      WelcomesExactly(l, id, tx.body.to, height);
    }
  }

  // ----- bodies -----

  predicate Waiting(l: Ledger, k: AccountId) { exists i :: 0 <= i < |l.pending| && l.pending[i].sender == k }

  predicate TransferFits(l: Ledger, id: AccountId, tx: SignedTx, height: u64, checked: bool)
    requires id in l.accounts && tx.body.Transfer?
  {
    var (to, amount, fee) := (tx.body.to, tx.body.amount, tx.body.fee);
    var dst := if checked then PaidFor(l, to, height) else to;
    && Open(l, id) && Open(l, to) && (dst == id || Open(l, dst)) && amount + fee <= l.accounts[id].balance
    && if ConservationFlag(id) then !Waiting(l, id) && fee <= U64_MAX else tx.nonce < U64_MAX
  }

  /** The first row of the phase names an open registry, whose key signed this claim. */
  ghost predicate ClaimSigned(cfg: LedgerCfg, l: Ledger, id: AccountId, phase: byte, batchRoot: Bytes32, sig: Bytes64) {
    exists i :: 0 <= i < |cfg.claimPhases| && FirstOfPhase(cfg.claimPhases, i, phase)
      && Open(l, cfg.claimPhases[i].registry)
      && cfg.c.verify(l.accounts[cfg.claimPhases[i].registry].signingPk, CLAIM_TAG + [phase] + batchRoot + id, sig)
  }

  predicate FirstOfPhase(phases: seq<ClaimPhase>, i: nat, phase: byte)
    requires i < |phases|
  {
    phases[i].phase == phase && forall j :: 0 <= j < i ==> phases[j].phase != phase
  }

  /** The registered export that an import settles, which a declared one must repeat, or else the declared one;
      it names this amount, this recipient and this domain. */
  predicate Matches(l: Ledger, tx: SignedTx)
    requires tx.body.Import?
  {
    var (to, amount, exportId) := (tx.body.to, tx.body.amount, tx.body.exportId);
    var declared := tx.importProvenance;
    && (exportId in l.exported || declared.Some?)
    && (exportId in l.exported && declared.Some? ==> declared.value == l.exported[exportId])
    && var origin := if exportId in l.exported then l.exported[exportId] else declared.value;
    && origin.amount == amount && origin.to == to && origin.targetDomain / 256 == tx.domainCode / 256
  }

  predicate ImportFitsIn(l: Ledger, id: AccountId, tx: SignedTx)
    requires id in l.accounts && tx.body.Import?
  {
    var (to, amount, exportId) := (tx.body.to, tx.body.amount, tx.body.exportId);
    && Open(l, id) && (to == id || Open(l, to)) && amount > 0 && to[0] == tx.domainCode / 256
    && exportId !in l.imported && !(HasLock(l, exportId) && l.locks[LockIndex(l.locks, exportId)].state.Refunded?)
    && Matches(l, tx) && tx.importFee.Some? && 10_000 <= tx.importFee.value <= l.accounts[id].balance
    && tx.nonce < U64_MAX
  }

  /** The rescue account, of one domain with its owner, is open, is the target, and has cosigned. */
  predicate RescueAgrees(cfg: LedgerCfg, l: Ledger, id: AccountId, tx: SignedTx, target: Option<AccountId>)
    requires id in l.accounts
  {
    var rescue := l.accounts[id].rescue;
    && rescue.Some? && target == rescue && rescue.value[0] == id[0] && Open(l, rescue.value)
    && var pk := l.accounts[rescue.value].signingPk;
    exists i :: 0 <= i < |tx.cosigns| && tx.cosigns[i].role == Rescue && tx.cosigns[i].signerPk == pk
      && cfg.c.verify(pk, EncTx(tx), tx.cosigns[i].signature)
  }

  /** An action that the account's policies allow: what is to be activated is in force by its bit or dormant,
      without a deferred row; what is to be deactivated is reversible and ahead or in force by its bit. */
  predicate Actionable(a: Account, action: PolicyAction, height: u64) {
    match action
    case SetPolicy(_, _) => true
    case ActivatePolicy(pid, _) =>
      pid < 5
      && var p := PolicyFromId(pid).value;
      DeferredHeight(a.deferred, p).None? && (p in a.active || p in a.dormant)
    case DeactivatePolicy(pid) =>
      pid < 5
      && var p := PolicyFromId(pid).value;
      !p.RoutingEmergencyRedirect? && (p in a.active || Cancelled(a.deferred, p, height).Some?)
  }

  predicate PolicyFits(cfg: LedgerCfg, l: Ledger, id: AccountId, tx: SignedTx, height: u64)
    requires id in l.accounts && tx.body.Policy?
  {
    && Open(l, id) && Actionable(l.accounts[id], tx.body.action, height)
    && (IsEmergency(tx.body.action) ==> RescueAgrees(cfg, l, id, tx, tx.body.action.activationTarget))
    && tx.body.fee <= l.accounts[id].balance && tx.nonce < U64_MAX
  }

  lemma TransferExactly(cfg: LedgerCfg, l: Ledger, id: AccountId, acc: Account, tx: SignedTx,
                        redirect: Option<AccountId>, height: u64, checked: bool)
    requires tx.body.Transfer? && SignerRow(l, id, tx) == Ok(acc) && tx.body.to != id
    requires var dst := match redirect case Some(r) => r case None => tx.body.to;
      dst == (if checked && Open(l, tx.body.to) then PaidFor(l, tx.body.to, height) else tx.body.to)
    ensures TransferBody(cfg, l, id, acc, tx, redirect, height).Done? <==> TransferFits(l, id, tx, height, checked)
  {
  }

  ghost predicate OwnFits(cfg: LedgerCfg, l: Ledger, id: AccountId, tx: SignedTx, height: u64)
    requires id in l.accounts && IsOwn(tx.body)
  {
    var a := l.accounts[id];
    && tx.nonce < U64_MAX
    && match tx.body
       case Init(_, _) => !a.initialized
       case Stake(amount) => Open(l, id) && amount <= a.balance
       case Unstake(amount) => Open(l, id) && amount <= a.staked
       case BurnMark(amount, _) => Open(l, id) && amount <= MarksAt(cfg, a, height)
       case ClaimIPv4Batch(phase, batchRoot, sig) =>
         Open(l, id) && a.claimedPhase.None? && ClaimSigned(cfg, l, id, phase, batchRoot, sig)
       case _ => false
  }

  /** `ClaimSigned`, as it is computed. */
  predicate ClaimVerifies(cfg: LedgerCfg, l: Ledger, id: AccountId, phase: byte, batchRoot: Bytes32, sig: Bytes64) {
    match FindPhase(cfg.claimPhases, phase)
    case None => false
    case Some(row) => RegistrySigned(cfg, l, id, row, batchRoot, sig).Ok?
  }

  lemma {:induction false} FirstPhase(phases: seq<ClaimPhase>, phase: byte)
    ensures FindPhase(phases, phase).None? ==> forall i :: 0 <= i < |phases| ==> !FirstOfPhase(phases, i, phase)
    ensures FindPhase(phases, phase).Some? ==>
      exists i :: 0 <= i < |phases| && FirstOfPhase(phases, i, phase) && phases[i] == FindPhase(phases, phase).value
    decreases |phases|
  {
    if phases != [] {
      if phases[0].phase == phase {
        assert FirstOfPhase(phases, 0, phase);
      } else {
        FirstPhase(phases[1..], phase);
        if FindPhase(phases[1..], phase).Some? {
          var i :| 0 <= i < |phases[1..]| && FirstOfPhase(phases[1..], i, phase)
            && phases[1..][i] == FindPhase(phases, phase).value;
          FirstMoved(phases, i, phase);
        } else {
          forall i | 0 <= i < |phases|
            ensures !FirstOfPhase(phases, i, phase)
          {
            if i > 0 && FirstOfPhase(phases, i, phase) {
              FirstMovedBack(phases, i - 1, phase);
            }
          }
        }
      }
    }
  }

  lemma FirstMoved(phases: seq<ClaimPhase>, i: nat, phase: byte)
    requires i + 1 < |phases| && FirstOfPhase(phases[1..], i, phase) && phases[0].phase != phase
    ensures FirstOfPhase(phases, i + 1, phase)
  {
    forall j | 0 <= j < i + 1
      ensures phases[j].phase != phase
    {
      if j > 0 {
        assert phases[j] == phases[1..][j - 1];
      }
    }
  }

  lemma FirstMovedBack(phases: seq<ClaimPhase>, i: nat, phase: byte)
    requires i + 1 < |phases| && FirstOfPhase(phases, i + 1, phase)
    ensures FirstOfPhase(phases[1..], i, phase)
  {
    forall j | 0 <= j < i
      ensures phases[1..][j].phase != phase
    {
      assert phases[1..][j] == phases[j + 1];
    }
  }

  lemma OneFirst(phases: seq<ClaimPhase>, i: nat, j: nat, phase: byte)
    requires i < |phases| && j < |phases| && FirstOfPhase(phases, i, phase) && FirstOfPhase(phases, j, phase)
    ensures i == j
  {
  }

  lemma ClaimSignedExactly(cfg: LedgerCfg, l: Ledger, id: AccountId, phase: byte, batchRoot: Bytes32, sig: Bytes64)
    ensures ClaimVerifies(cfg, l, id, phase, batchRoot, sig) <==> ClaimSigned(cfg, l, id, phase, batchRoot, sig)
  {
    var phases := cfg.claimPhases;
    FirstPhase(phases, phase);
    if FindPhase(phases, phase).Some? {
      var i :| 0 <= i < |phases| && FirstOfPhase(phases, i, phase) && phases[i] == FindPhase(phases, phase).value;
      forall j | 0 <= j < |phases| && FirstOfPhase(phases, j, phase)
        ensures i == j
      {
        OneFirst(phases, i, j, phase);
      }
    }
  }

  lemma OwnExactly(cfg: LedgerCfg, l: Ledger, id: AccountId, acc: Account, tx: SignedTx, height: u64)
    requires IsOwn(tx.body) && SignerRow(l, id, tx) == Ok(acc) && Supply(l) <= U128_MAX
    ensures OwnBody(cfg, l, id, acc, tx, height).Done? <==> OwnFits(cfg, l, id, tx, height)
  {
    OneWorth(l.accounts, id);
    if tx.body.ClaimIPv4Batch? {
      ClaimSignedExactly(cfg, l, id, tx.body.phase, tx.body.batchRoot, tx.body.registrySig);
    }
  }

  predicate ExportFits(l: Ledger, id: AccountId, tx: SignedTx)
    requires id in l.accounts && tx.body.Export?
  {
    && Open(l, id) && tx.body.amount > 0 && tx.domainCode / 256 != tx.body.targetDomain / 256
    && tx.body.to[0] == tx.body.targetDomain / 256
    && tx.body.amount + tx.body.fee <= l.accounts[id].balance && tx.nonce < U64_MAX
  }

  lemma ExportExactly(cfg: LedgerCfg, l: Ledger, id: AccountId, acc: Account, tx: SignedTx, height: u64)
    requires tx.body.Export? && SignerRow(l, id, tx) == Ok(acc)
    ensures ExportBody(cfg, l, id, acc, tx, height).Done? <==> ExportFits(l, id, tx)
  {
  }

  lemma ImportExactly(l: Ledger, id: AccountId, acc: Account, tx: SignedTx)
    requires tx.body.Import? && SignerRow(l, id, tx) == Ok(acc)
    ensures ImportBody(l, id, acc, tx).Done? <==> ImportFitsIn(l, id, tx)
  {
  }

  lemma ActionableExactly(cfg: LedgerCfg, a: Account, action: PolicyAction, height: u64)
    ensures ApplyPolicyAction(TouchAccount(cfg, a, height), action, height).Ok? <==> Actionable(a, action, height)
  {
  }

  lemma PolicyExactly(cfg: LedgerCfg, l: Ledger, id: AccountId, acc: Account, tx: SignedTx, height: u64)
    requires tx.body.Policy? && SignerRow(l, id, tx) == Ok(acc) && id == SenderOf(cfg.c.hash, tx)
    requires tx.body.target == id && ActionShaped(id, tx.body.action, tx.body.fee)
    ensures PolicyBody(cfg, l, id, acc, tx, height).Done? <==> PolicyFits(cfg, l, id, tx, height)
  {
    var touched := TouchAccount(cfg, acc, height);
    ActionableExactly(cfg, acc, tx.body.action, height);
    if ApplyPolicyAction(touched, tx.body.action, height).Ok? {
      ActionKeeps(touched, tx.body.action, height);
    }
    RescueExactly(cfg, l, id, touched, acc, tx);
  }

  lemma RescueExactly(cfg: LedgerCfg, l: Ledger, id: AccountId, touched: Account, acc: Account, tx: SignedTx)
    requires tx.body.Policy? && SignerRow(l, id, tx) == Ok(acc) && id == SenderOf(cfg.c.hash, tx)
    requires ActionShaped(id, tx.body.action, tx.body.fee) && touched.rescue == acc.rescue
    ensures ValidatePolicyAction(cfg, l, touched, tx.body.action, tx).Ok?
      <==> (IsEmergency(tx.body.action) ==> RescueAgrees(cfg, l, id, tx, tx.body.action.activationTarget))
  {
  }

  // ----- the whole transaction -----

  /** The sender's row: its own key once it is open, and its next nonce; an Init needs none. */
  predicate SenderReady(l: Ledger, id: AccountId, tx: SignedTx) {
    if id in l.accounts then
      && (l.accounts[id].initialized ==>
           tx.signerPk == l.accounts[id].signingPk && tx.derivationIndex == l.accounts[id].derivationIndex)
      && tx.nonce == l.accounts[id].nonce
    else tx.body.Init? && tx.nonce == 0
  }

  ghost predicate BodyFits(cfg: LedgerCfg, l: Ledger, id: AccountId, tx: SignedTx, height: u64, checked: bool)
    requires id in l.accounts
  {
    match tx.body
    case Transfer(_, _, _) => TransferFits(l, id, tx, height, checked)
    case Export(_, _, _, _) => ExportFits(l, id, tx)
    case Import(_, _, _) => ImportFitsIn(l, id, tx)
    case Policy(_, _, _) => PolicyFits(cfg, l, id, tx, height)
    case _ => OwnFits(cfg, l, id, tx, height)
  }

  /** While a delayed transfer waits, only transfers and the emergency activation go through. */
  predicate NotHeldUp(l: Ledger, id: AccountId, tx: SignedTx) {
    Waiting(l, id) ==> tx.body.Transfer? || (tx.body.Policy? && IsEmergency(tx.body.action))
  }

  lemma BodyExactly(cfg: LedgerCfg, l: Ledger, id: AccountId, acc: Account, tx: SignedTx, redirect: Option<AccountId>,
                    height: u64, checked: bool)
    requires SignerRow(l, id, tx) == Ok(acc) && id == SenderOf(cfg.c.hash, tx) && BodyShaped(id, tx)
    requires tx.body.Transfer? ==>
      var dst := match redirect case Some(r) => r case None => tx.body.to;
      dst == (if checked && Open(l, tx.body.to) then PaidFor(l, tx.body.to, height) else tx.body.to)
    requires Supply(l) <= U128_MAX
    ensures ApplyBody(cfg, l, id, acc, tx, redirect, height).Done? <==> BodyFits(cfg, l, id, tx, height, checked)
  {
    match tx.body
    case Transfer(_, _, _) => TransferExactly(cfg, l, id, acc, tx, redirect, height, checked);
    case Export(_, _, _, _) => ExportExactly(cfg, l, id, acc, tx, height);
    case Import(_, _, _) => ImportExactly(l, id, acc, tx);
    case Policy(_, _, _) => PolicyExactly(cfg, l, id, acc, tx, height);
    case _ => OwnExactly(cfg, l, id, acc, tx, height);
  }

  lemma AdmittedExactly(cfg: LedgerCfg, l: Ledger, id: AccountId, tx: SignedTx, height: u64, checked: bool)
    requires id in l.accounts && id == SenderOf(cfg.c.hash, tx) && BodyShaped(id, tx)
    ensures Admit(cfg, l, id, tx, height, checked).Ok?
      <==> SenderReady(l, id, tx) && (checked ==> Permitted(cfg, l, id, tx, height)) && NotHeldUp(l, id, tx)
    ensures Admit(cfg, l, id, tx, height, checked).Ok? ==>
      var (acc, redirect) := Admit(cfg, l, id, tx, height, checked).value;
      && SignerRow(l, id, tx) == Ok(acc)
      && (tx.body.Transfer? ==>
           var dst := match redirect case Some(r) => r case None => tx.body.to;
           dst == (if checked && Open(l, tx.body.to) then PaidFor(l, tx.body.to, height) else tx.body.to))
  {
    PermittedExactly(cfg, l, id, tx, height);
    assert HasPending(l, id) <==> Waiting(l, id);
    if checked && tx.body.Transfer? && Open(l, tx.body.to) && Evaluate(cfg, l, tx, height).Ok? {
      RedirectIsPaidFor(cfg, l, id, tx, height);
    }
  }

  /** With the blank row of a first Init in place. */
  ghost predicate Acceptable(cfg: LedgerCfg, l: Ledger, id: AccountId, tx: SignedTx, height: u64, checked: bool)
    requires id in l.accounts
  {
    && SenderReady(l, id, tx) && (checked ==> Permitted(cfg, l, id, tx, height)) && NotHeldUp(l, id, tx)
    && BodyFits(cfg, l, id, tx, height, checked)
  }

  lemma AcceptedWithRow(cfg: LedgerCfg, l: Ledger, tx: SignedTx, height: u64, checked: bool, id: AccountId, row: Ledger)
    requires id == SenderOf(cfg.c.hash, tx) && row == WithStub(l, id, tx) && id in row.accounts
    requires Shaped(cfg.c, tx, checked) && Supply(row) <= U128_MAX
    ensures ApplyTx(cfg, l, tx, height, checked).Applied? <==> Acceptable(cfg, row, id, tx, height, checked)
  {
    ShapedExactly(cfg.c, tx, checked);
    AdmittedExactly(cfg, row, id, tx, height, checked);
    if Admit(cfg, row, id, tx, height, checked).Ok? {
      var (acc, redirect) := Admit(cfg, row, id, tx, height, checked).value;
      BodyExactly(cfg, row, id, acc, tx, redirect, height, checked);
    }
  }

  /** A transaction is applied if and only if it is well shaped, its sender has a row or is opening one, and
      that row, the policies and the body's own conditions accept it. */
  lemma TxAcceptedExactly(cfg: LedgerCfg, l: Ledger, tx: SignedTx, height: u64, checked: bool, id: AccountId)
    requires id == SenderOf(cfg.c.hash, tx) && Supply(l) <= U128_MAX
    ensures ApplyTx(cfg, l, tx, height, checked).Applied?
      <==> Shaped(cfg.c, tx, checked) && (id in l.accounts || tx.body.Init?)
           && var blank := BlankAccount(tx.signerPk, tx.derivationIndex);
              var row := if id in l.accounts then l else l.(accounts := l.accounts[id := blank]);
              Acceptable(cfg, row, id, tx, height, checked)
  {
    ShapedExactly(cfg.c, tx, checked);
    TotalUpdate(l.accounts, id, BlankAccount(tx.signerPk, tx.derivationIndex));
    if Shaped(cfg.c, tx, checked) && (id in l.accounts || tx.body.Init?) {
      AcceptedWithRow(cfg, l, tx, height, checked, id, WithStub(l, id, tx));
    }
  }

  /** Which error comes first: the signature, the domain, the account, its key, its nonce; and, where policies
      permit it, a transfer that still waits. */
  lemma FirstError(cfg: LedgerCfg, l: Ledger, tx: SignedTx, height: u64, checked: bool, id: AccountId)
    requires id == SenderOf(cfg.c.hash, tx)
    ensures var r := ApplyTx(cfg, l, tx, height, checked);
      if checked && !cfg.c.verify(tx.signerPk, EncTx(tx), tx.signature) then r == Rejected(l, BadSignature)
      else if 256 * (id[0] as int) + id[1] != tx.domainCode then r == Rejected(l, DomainMismatch)
      else if !BodyShaped(id, tx) then r.Rejected? && r.ledger == l
      else if id !in l.accounts then tx.body.Init? || r == Rejected(l, NoAccount)
      else
        var a := l.accounts[id];
        if a.initialized && (a.signingPk != tx.signerPk || a.derivationIndex != tx.derivationIndex) then
          r == Rejected(l, BadSignature)
        else if a.nonce != tx.nonce then r == Rejected(l, BadNonce)
        else if checked && !Permitted(cfg, l, id, tx, height) then r.Rejected? && r.ledger == l
        else NotHeldUp(l, id, tx) || r == Rejected(l, ConservationPendingExists)
  {
    BodyShapedExactly(id, tx);
    if id in l.accounts && BodyShaped(id, tx) {
      PermittedExactly(cfg, l, id, tx, height);
      assert HasPending(l, id) <==> Waiting(l, id);
    }
  }

  // ----- delayed transfers -----

  /** A waiting transfer goes through at its height exactly when its sender is not finalized, and its recipient
      is open and welcomes it. */
  lemma DueExactly(l: Ledger, row: Pending, height: u64)
    requires RowOk(l, row)
    ensures CheckDue(l, row, height).Ok?
      <==> !l.accounts[row.sender].finalized && Open(l, row.recipient) && Welcomes(l, row.sender, row.recipient, height)
  {
    if row.recipient in l.accounts {
      WelcomesExactly(l, row.sender, row.recipient, height);
    }
  }
}
