/** The ledger of state.rs: accounts, the fee pool, cross-shard locks, and delayed transfers. */
module Ledger {
  import opened Basics
  import opened Transactions
  import opened TxMessage
  import opened Marks

  /** How far an operation gets: a new value, a refusal, or an abort on arithmetic overflow. */
  datatype Step<+T> = Done(value: T) | Fail(error: TxError) | Abort

  datatype DeferredPolicy = DeferredPolicy(policy: PolicyKind, activateAtHeight: u64)

  /** What an Init declares about the owner; no rule reads it. */
  datatype Profile = Profile(
    index: u32, flags: u32, ownerKind: string, ownerDisplayName: string, ownerCountryHint: string,
    metadataCommitment: Option<Bytes32>, verificationRef: Option<string>, requestedDomainLo: Option<byte>)

  /** The policy bit masks are sets. */
  datatype Account = Account(
    signingPk: Bytes32, derivationIndex: u32, balance: u128, staked: u128, marks: Meter, initialized: bool, nonce: u64,
    rescue: Option<AccountId>, active: set<PolicyKind>, dormant: set<PolicyKind>, deferred: seq<DeferredPolicy>,
    claimedPhase: Option<byte>, finalized: bool, profile: Profile)

  datatype LockState = Locked | Released | Refunded

  datatype Lock = Lock(
    exportId: Bytes32, sender: AccountId, amount: u128, targetDomain: u16, refundAccount: AccountId,
    lockHeight: u64, unlockHeight: u64, state: LockState)

  /** A transfer out of a conservation account, waiting for its height. */
  datatype Pending = Pending(
    sender: AccountId, recipient: AccountId, amount: u128, fee: u64, nonce: u64,
    enqueueHeight: u64, executeAt: u64, txHash: Bytes32)

  datatype Ledger = Ledger(
    accounts: map<AccountId, Account>, feePool: u128, imported: set<Bytes32>,
    exported: map<Bytes32, ExportProvenance>, locks: seq<Lock>, pending: seq<Pending>)

  datatype ClaimPhase = ClaimPhase(phase: byte, registry: AccountId, allocation: u128)

  /** The genesis parameters that the ledger reads, and the primitives it calls. */
  datatype LedgerCfg = LedgerCfg(
    c: Crypto, accrual: Accrual, claimPhases: seq<ClaimPhase>, conservationDelay: u64, lockTimeout: u64)

  const NO_PROFILE: Profile := Profile(0, 0, "", "", "", None, None, None)

  function BlankAccount(pk: Bytes32, derivationIndex: u32): Account {
    Account(pk, derivationIndex, 0, 0, Meter(0, 0), false, 0, None, {}, {}, [], None, false, NO_PROFILE)
  }

  // ----- accounts -----

  function TouchAccount(cfg: LedgerCfg, a: Account, height: u64): Account {
    a.(marks := Touch(a.marks, a.staked, height, cfg.accrual))
  }

  function Credit(a: Account, amount: u128): Account { a.(balance := SatAdd128(a.balance, amount)) }

  /** The account that may receive coins at `id`. */
  function Recipient(l: Ledger, id: AccountId): Result<Account, TxError> {
    if id !in l.accounts then Err(RecipientMissing)
    else if !l.accounts[id].initialized then Err(RecipientNotInitialized)
    else Ok(l.accounts[id])
  }

  // ----- policies -----

  function Without(deferred: seq<DeferredPolicy>, p: PolicyKind): seq<DeferredPolicy> {
    if deferred == [] then []
    else if deferred[0].policy == p then Without(deferred[1..], p)
    else [deferred[0]] + Without(deferred[1..], p)
  }

  function SetMode(a: Account, p: PolicyKind, activation: ActivationMode, height: u64): Account {
    var clear := a.(active := a.active - {p}, dormant := a.dormant - {p}, deferred := Without(a.deferred, p));
    match activation
    case Dormant => clear.(dormant := clear.dormant + {p})
    case Immediately => clear.(active := clear.active + {p})
    case Deferred(at) =>
      clear.(deferred := clear.deferred + [DeferredPolicy(p, at)],
             active := if at <= height then clear.active + {p} else clear.active)
  }

  function SetModes(a: Account, entries: seq<InitPolicyEntry>, height: u64): Account
    decreases |entries|
  {
    if entries == [] then a
    else SetModes(SetMode(a, entries[0].policy, entries[0].activation, height), entries[1..], height)
  }

  predicate Matured(rows: seq<DeferredPolicy>, p: PolicyKind, height: u64) {
    exists i :: 0 <= i < |rows| && rows[i].policy == p && height >= rows[i].activateAtHeight
  }

  predicate PolicyActive(a: Account, p: PolicyKind, height: u64) { p in a.active || Matured(a.deferred, p, height) }

  /** The height of the first deferred row for `p`. */
  function DeferredHeight(deferred: seq<DeferredPolicy>, p: PolicyKind): Option<u64> {
    if deferred == [] then None
    else if deferred[0].policy == p then Some(deferred[0].activateAtHeight)
    else DeferredHeight(deferred[1..], p)
  }

  /** The rows without the first one for `p` still ahead of `height`, if there is one. */
  function Cancelled(deferred: seq<DeferredPolicy>, p: PolicyKind, height: u64): Option<seq<DeferredPolicy>> {
    if deferred == [] then None
    else if deferred[0].policy == p && height < deferred[0].activateAtHeight then Some(deferred[1..])
    else match Cancelled(deferred[1..], p, height)
      case None => None
      case Some(rest) => Some([deferred[0]] + rest)
  }

  function Activate(a: Account, p: PolicyKind, height: u64): Result<Account, TxError> {
    match DeferredHeight(a.deferred, p)
    case Some(at) => Err(if height < at then PolicyNotActive else PolicyDenied)
    case None =>
      if p in a.active then Ok(a)
      else if p !in a.dormant then Err(PolicyNotInstalled)
      else Ok(a.(dormant := a.dormant - {p}, active := a.active + {p},
                 finalized := a.finalized || p.RoutingEmergencyRedirect?))
  }

  function Deactivate(a: Account, p: PolicyKind, height: u64): Result<Account, TxError> {
    if p.RoutingEmergencyRedirect? then Err(PolicyIrreversible)
    else match Cancelled(a.deferred, p, height)
      case Some(rest) => Ok(a.(deferred := rest))
      case None =>
        if p !in a.active then Err(PolicyNotActive)
        else Ok(a.(active := a.active - {p}, dormant := a.dormant + {p}))
  }

  function ApplyPolicyAction(a: Account, action: PolicyAction, height: u64): Result<Account, TxError> {
    match action
    case SetPolicy(p, activation) => Ok(SetMode(a, p, activation, height))
    case ActivatePolicy(id, _) =>
      (match PolicyFromId(id) case None => Err(PolicySchemaInvalid) case Some(p) => Activate(a, p, height))
    case DeactivatePolicy(id) =>
      match PolicyFromId(id) case None => Err(PolicySchemaInvalid) case Some(p) => Deactivate(a, p, height)
  }

  predicate IsEmergency(action: PolicyAction)
  {
    action.ActivatePolicy? && action.policyId == RoutingEmergencyRedirect.Id()
  }

  /** Some cosignature on the transaction verifies. */
  predicate HasCosign(c: Crypto, tx: SignedTx) {
    exists i :: 0 <= i < |tx.cosigns| && c.verify(tx.cosigns[i].signerPk, EncTx(tx), tx.cosigns[i].signature)
  }

  predicate HasRescueCosign(c: Crypto, tx: SignedTx, pk: Bytes32) {
    exists i :: 0 <= i < |tx.cosigns| && tx.cosigns[i].role == Rescue && tx.cosigns[i].signerPk == pk
      && c.verify(pk, EncTx(tx), tx.cosigns[i].signature)
  }

  /** Where a finalized account's redirect sends coins. */
  function RedirectTarget(l: Ledger, sender: AccountId, recipient: Account): Result<AccountId, TxError> {
    match recipient.rescue
    case None => Err(PolicyRescueRequired)
    case Some(rescue) =>
      match Recipient(l, rescue)
      case Err(e) => Err(e)
      case Ok(_) => if DomainHi(sender) != DomainHi(rescue) then Err(PolicyRoutingDenied) else Ok(rescue)
  }

  /** The recipient's own policies: refusal, another destination, or none of either. */
  function Routing(l: Ledger, sender: AccountId, to: AccountId, recipient: Account,
                   height: u64): Result<Option<AccountId>, TxError>
  {
    if recipient.finalized && PolicyActive(recipient, RoutingEmergencyRedirect, height) then
      match RedirectTarget(l, sender, recipient) case Err(e) => Err(e) case Ok(rescue) => Ok(Some(rescue))
    else if PolicyActive(recipient, RoutingSameDomainOnly, height) && DomainHi(sender) != DomainHi(to) then
      Err(PolicyRoutingDenied)
    else if PolicyActive(recipient, SenderFilter, height) && sender != to then Err(PolicySenderFiltered)
    else if PolicyActive(recipient, DefaultBehavior, height) then Err(PolicyDenied)
    else Ok(None)
  }

  /** What a finalized account may still do. */
  predicate FinalizedBlocks(body: TxBody, a: Account) {
    match body
    case Init(_, _) => false
    case Policy(_, action, _) =>
      !(IsEmergency(action) && RoutingEmergencyRedirect !in a.active && RoutingEmergencyRedirect in a.dormant)
    case _ => true
  }

  /** The policy evaluator: refusal, or leave to go on, with another destination for some transfers. */
  function Evaluate(cfg: LedgerCfg, l: Ledger, tx: SignedTx, height: u64): Result<Option<AccountId>, TxError> {
    var id := SenderOf(cfg.c.hash, tx);
    if id !in l.accounts then Err(NoAccount)
    else if l.accounts[id].finalized && FinalizedBlocks(tx.body, l.accounts[id]) then Err(PolicyAccountFinalized)
    else if CosignNonDisableable(id) && (tx.body.Transfer? || tx.body.Policy?) && !HasCosign(cfg.c, tx) then
      Err(PolicyMissingCosign)
    else if tx.body.Transfer? && Recipient(l, tx.body.to).Ok? then
      Routing(l, id, tx.body.to, l.accounts[tx.body.to], height)
    else if tx.body.Policy? && tx.body.target in l.accounts
      && (PolicyActive(l.accounts[tx.body.target], CosignRequired, height) || CosignNonDisableable(tx.body.target))
      && !HasCosign(cfg.c, tx) then Err(PolicyMissingCosign)
    else Ok(None)
  }

  function ValidatePolicyAction(cfg: LedgerCfg, l: Ledger, a: Account, action: PolicyAction, tx: SignedTx): Result<(),
                                TxError>
  {
    var id := SenderOf(cfg.c.hash, tx);
    if CosignNonDisableable(id) && WeakensCosign(action) then Err(PolicyFlagNonDisableable)
    else if !action.ActivatePolicy? then Ok(())
    else if PolicyFromId(action.policyId).None? then Err(PolicySchemaInvalid)
    else if !IsEmergency(action) then Ok(())
    else if a.rescue.None? then Err(PolicyRescueRequired)
    else if action.activationTarget.None? then Err(PolicyActivationTargetRequired)
    else if action.activationTarget != a.rescue then Err(PolicyActivationTargetMismatch)
    else if DomainHi(id) != DomainHi(a.rescue.value) then Err(PolicyRoutingDenied)
    else if Recipient(l, a.rescue.value).Err? then Err(PolicyEmergencyCosignRequired)
    else if HasRescueCosign(cfg.c, tx, l.accounts[a.rescue.value].signingPk) then Ok(())
    else Err(PolicyEmergencyCosignRequired)
  }

  // ----- bodies that touch only the sender's account -----

  /** The account as an Init's extension declares it, before its policies. */
  function Declared(acc: Account, tx: SignedTx, ext: InitV4Extension): Account
    requires tx.body.Init?
  {
    acc.(initialized := true,
         rescue := ext.rescueAddress,
         profile := Profile(
           tx.body.index, tx.body.flags, ext.ownerKind, ext.ownerDisplayName, ext.ownerCountryHint,
           Some(ext.companyMetadataCommitment), Some(ext.externalVerificationRef), Some(ext.requestedDomainLo)))
  }

  function InitAccount(acc: Account, tx: SignedTx, height: u64): Account
    requires tx.body.Init? && acc.nonce < U64_MAX
  {
    var b := match tx.initV4
      case None => acc.(initialized := true, profile := acc.profile.(index := tx.body.index, flags := tx.body.flags))
      case Some(ext) => SetModes(Declared(acc, tx, ext), ext.initialPolicies, height);
    b.(marks := b.marks.(lastBlock := height), nonce := acc.nonce + 1)
  }

  function FindPhase(phases: seq<ClaimPhase>, phase: byte): Option<ClaimPhase> {
    if phases == [] then None else if phases[0].phase == phase then Some(phases[0]) else FindPhase(phases[1..], phase)
  }

  /** "PWM/IPV4/CLAIM/V1". */
  const CLAIM_TAG: seq<byte> := [80, 87, 77, 47, 73, 80, 86, 52, 47, 67, 76, 65, 73, 77, 47, 86, 49]

  /** The registry's account exists, and its key signed this claim. */
  function RegistrySigned(cfg: LedgerCfg, l: Ledger, id: AccountId, row: ClaimPhase, batchRoot: Bytes32,
                          sig: Bytes64): Result<(), TxError>
  {
    if Recipient(l, row.registry).Err? then Err(PolicySchemaInvalid)
    else if cfg.c.verify(l.accounts[row.registry].signingPk, CLAIM_TAG + [row.phase] + batchRoot + id, sig) then Ok(())
    else Err(BadSignature)
  }

  /** Init, Stake, Unstake, BurnMark and ClaimIPv4Batch: the sender's account afterwards. */
  function OwnBody(cfg: LedgerCfg, l: Ledger, id: AccountId, acc: Account, tx: SignedTx, height: u64): Step<Account> {
    var a := TouchAccount(cfg, acc, height);
    match tx.body
    case Init(_, _) =>
      if acc.initialized then Fail(AlreadyInit)
      else if acc.nonce == U64_MAX then Abort
      else Done(InitAccount(acc, tx, height))
    case Stake(amount) =>
      if !acc.initialized then Fail(NotInitialized)
      else if acc.balance < amount then Fail(Insufficient)
      else if acc.staked + amount > U128_MAX || acc.nonce == U64_MAX then Abort
      else Done(a.(balance := acc.balance - amount, staked := acc.staked + amount, nonce := acc.nonce + 1))
    case Unstake(amount) =>
      if !acc.initialized then Fail(NotInitialized)
      else if acc.staked < amount then Fail(Insufficient)
      else if acc.balance + amount > U128_MAX || acc.nonce == U64_MAX then Abort
      else Done(a.(balance := acc.balance + amount, staked := acc.staked - amount, nonce := acc.nonce + 1))
    case BurnMark(amount, _) =>
      if !acc.initialized then Fail(NotInitialized)
      else if a.marks.stored < amount then Fail(InsufficientMarks)
      else if acc.nonce == U64_MAX then Abort
      else Done(a.(marks := a.marks.(stored := a.marks.stored - amount), nonce := acc.nonce + 1))
    case ClaimIPv4Batch(phase, batchRoot, sig) =>
      if !acc.initialized then Fail(NotInitialized)
      else if acc.claimedPhase.Some? then Fail(PolicyDenied)
      else (match FindPhase(cfg.claimPhases, phase)
        case None => Fail(PolicySchemaInvalid)
        case Some(row) =>
          match RegistrySigned(cfg, l, id, row, batchRoot, sig)
          case Err(e) => Fail(e)
          case Ok(_) =>
            if acc.nonce == U64_MAX then Abort
            else Done(Credit(acc, row.allocation).(claimedPhase := Some(phase), nonce := acc.nonce + 1)))
    case _ => Fail(PolicySchemaInvalid)
  }

  predicate IsOwn(body: TxBody) { body.Init? || body.Stake? || body.Unstake? || body.BurnMark? || body.ClaimIPv4Batch? }

  // ----- bodies that move coins -----

  /** Debited sender and credited destination; one account when they are the same. */
  function Settle(accounts: map<AccountId, Account>, id: AccountId, from: Account, dst: AccountId, to: Account,
                  amount: u128): map<AccountId, Account>
  {
    if dst == id then accounts[id := Credit(from, amount)] else accounts[id := from][dst := Credit(to, amount)]
  }

  function Debited(acc: Account, total: u128): Account
    requires total <= acc.balance && acc.nonce < U64_MAX
  {
    acc.(balance := acc.balance - total, nonce := acc.nonce + 1)
  }

  function TransferBody(cfg: LedgerCfg, l: Ledger, id: AccountId, acc: Account, tx: SignedTx,
                        redirect: Option<AccountId>, height: u64): Step<Ledger>
    requires tx.body.Transfer?
  {
    var (amount, fee) := (tx.body.amount, tx.body.fee);
    var dst := match redirect case Some(r) => r case None => tx.body.to;
    if !acc.initialized then Fail(NotInitialized)
    else if dst != id && Recipient(l, dst).Err? then Fail(Recipient(l, dst).error)
    else if amount + fee > U128_MAX || acc.balance < amount + fee then Fail(Insufficient)
    else if ConservationFlag(id) then Enqueue(cfg, l, id, dst, tx, height)
    else if acc.nonce == U64_MAX then Abort
    else
      var from := Debited(TouchAccount(cfg, acc, height), amount + fee);
      var to := if dst == id then from else TouchAccount(cfg, l.accounts[dst], height);
      Done(l.(accounts := Settle(l.accounts, id, from, dst, to, amount), feePool := SatAdd128(l.feePool, fee)))
  }

  predicate HasPending(l: Ledger, id: AccountId) { exists i :: 0 <= i < |l.pending| && l.pending[i].sender == id }

  function Enqueue(cfg: LedgerCfg, l: Ledger, id: AccountId, dst: AccountId, tx: SignedTx, height: u64): Step<Ledger>
    requires tx.body.Transfer?
  {
    if HasPending(l, id) then Fail(ConservationPendingExists)
    else if tx.body.fee > U64_MAX then Fail(PolicySchemaInvalid)
    else
      var executeAt := SatAdd64(height, cfg.conservationDelay);
      var row := Pending(id, dst, tx.body.amount, tx.body.fee, tx.nonce, height, executeAt, TxHash(cfg.c.hash, tx));
      Done(l.(pending := l.pending + [row]))
  }

  predicate ExportContextOk(tx: SignedTx)
    requires tx.body.Export?
  {
    && tx.body.amount != 0
    && HiByte(tx.domainCode) != HiByte(tx.body.targetDomain)
    && DomainHi(tx.body.to) == HiByte(tx.body.targetDomain)
  }

  /** The position of the lock with this id, or the number of locks. */
  function LockIndex(locks: seq<Lock>, exportId: Bytes32): (i: nat)
    ensures i <= |locks|
    ensures i < |locks| ==> locks[i].exportId == exportId
    ensures forall j :: 0 <= j < i ==> locks[j].exportId != exportId
  {
    if locks == [] || locks[0].exportId == exportId then 0 else 1 + LockIndex(locks[1..], exportId)
  }

  predicate HasLock(l: Ledger, exportId: Bytes32) { LockIndex(l.locks, exportId) < |l.locks| }

  function ExportBody(cfg: LedgerCfg, l: Ledger, id: AccountId, acc: Account, tx: SignedTx, height: u64): Step<Ledger>
    requires tx.body.Export?
  {
    var (amount, fee) := (tx.body.amount, tx.body.fee);
    if !acc.initialized then Fail(NotInitialized)
    else if !ExportContextOk(tx) then Fail(InvalidExport)
    else if amount + fee > U128_MAX || acc.balance < amount + fee then Fail(Insufficient)
    else if acc.nonce == U64_MAX then Abort
    else
      var exportId := ExportId(cfg.c.hash, tx).value;
      var unlockHeight := SatAdd64(height, cfg.lockTimeout);
      var lock := Lock(exportId, id, amount, tx.body.targetDomain, id, height, unlockHeight, Locked);
      Done(l.(
        accounts := l.accounts[id := Debited(acc, amount + fee)],
        feePool := SatAdd128(l.feePool, fee),
        exported := if exportId in l.exported then l.exported
                    else l.exported[exportId := ExportProvenance(tx.body.to, tx.body.targetDomain, amount)],
        locks := if HasLock(l, exportId) then l.locks else l.locks + [lock]))
  }

  predicate ImportContextOk(tx: SignedTx)
    requires tx.body.Import?
  {
    tx.body.amount != 0 && DomainHi(tx.body.to) == HiByte(tx.domainCode)
  }

  /** The export that an import settles: the registered one, which any declared one must repeat, or else
      the declared one. */
  function ExpectedExport(l: Ledger, tx: SignedTx): Option<ExportProvenance>
    requires tx.body.Import?
  {
    if tx.body.exportId in l.exported then
      var existing := l.exported[tx.body.exportId];
      if tx.importProvenance.Some? && tx.importProvenance.value != existing then None else Some(existing)
    else tx.importProvenance
  }

  function CheckImport(l: Ledger, id: AccountId, acc: Account, tx: SignedTx): Result<ExportProvenance, TxError>
    requires tx.body.Import?
  {
    var exportId := tx.body.exportId;
    var at := LockIndex(l.locks, exportId);
    if !acc.initialized then Err(NotInitialized)
    else if !ImportContextOk(tx) then Err(InvalidImport)
    else if at < |l.locks| && l.locks[at].state.Refunded? then Err(ExportLockRefunded)
    else if exportId in l.imported then Err(DuplicateImport)
    else match ExpectedExport(l, tx)
      case None => Err(InvalidImport)
      case Some(origin) =>
        if origin.amount != tx.body.amount || origin.to != tx.body.to
          || HiByte(origin.targetDomain) != HiByte(tx.domainCode) then Err(InvalidImport)
        else if tx.body.to != id && Recipient(l, tx.body.to).Err? then Err(Recipient(l, tx.body.to).error)
        else if tx.importFee.None? || tx.importFee.value < MIN_IMPORT_FEE_UNITS then Err(ImportFeeTooLow)
        else if acc.balance < tx.importFee.value then Err(Insufficient)
        else Ok(origin)
  }

  function ReleaseLock(locks: seq<Lock>, exportId: Bytes32): (r: seq<Lock>)
    ensures |r| == |locks|
  {
    var at := LockIndex(locks, exportId);
    if at < |locks| && locks[at].state.Locked? then locks[at := locks[at].(state := Released)] else locks
  }

  function ImportBody(l: Ledger, id: AccountId, acc: Account, tx: SignedTx): Step<Ledger>
    requires tx.body.Import?
  {
    match CheckImport(l, id, acc, tx)
    case Err(e) => Fail(e)
    case Ok(origin) =>
      if acc.nonce == U64_MAX then Abort
      else
        var from := Debited(acc, tx.importFee.value);
        var to := if tx.body.to == id then from else l.accounts[tx.body.to];
        Done(l.(
          accounts := Settle(l.accounts, id, from, tx.body.to, to, tx.body.amount),
          feePool := SatAdd128(l.feePool, tx.importFee.value),
          exported := if tx.body.exportId in l.exported then l.exported else l.exported[tx.body.exportId := origin],
          locks := ReleaseLock(l.locks, tx.body.exportId),
          imported := l.imported + {tx.body.exportId}))
  }

  function WithoutSender(pending: seq<Pending>, id: AccountId): seq<Pending> {
    if pending == [] then []
    else if pending[0].sender == id then WithoutSender(pending[1..], id)
    else [pending[0]] + WithoutSender(pending[1..], id)
  }

  /** Everything the account has goes to its rescue account; a rescue account that is the account itself
      changes nothing. */
  function Evacuate(accounts: map<AccountId, Account>, id: AccountId, a: Account, target: AccountId): map<AccountId,
                    Account>
    requires target != id ==> target in accounts
  {
    if target == id then accounts[id := a]
    else
      var to := Credit(Credit(accounts[target], a.balance), a.staked);
      accounts[target := to][id := a.(balance := 0, staked := 0)]
  }

  function PolicyBody(cfg: LedgerCfg, l: Ledger, id: AccountId, acc: Account, tx: SignedTx, height: u64): Step<Ledger>
    requires tx.body.Policy?
  {
    var (action, fee) := (tx.body.action, tx.body.fee);
    var touched := TouchAccount(cfg, acc, height);
    if !acc.initialized then Fail(NotInitialized)
    else if tx.body.target != id then Fail(PolicyDenied)
    else match ValidatePolicyAction(cfg, l, touched, action, tx)
      case Err(e) => Fail(e)
      case Ok(_) =>
        match ApplyPolicyAction(touched, action, height)
        case Err(e) => Fail(e)
        case Ok(a) =>
          if a.balance < fee then Fail(Insufficient)
          else if a.nonce == U64_MAX then Abort
          else
            var paid := Debited(a, fee);
            if IsEmergency(action) then
              Done(l.(accounts := Evacuate(l.accounts, id, paid, action.activationTarget.value),
                      feePool := SatAdd128(l.feePool, fee),
                      pending := WithoutSender(l.pending, id)))
            else
              Done(l.(accounts := l.accounts[id := paid], feePool := SatAdd128(l.feePool, fee)))
  }

  // ----- one transaction -----

  /** An Init creates a blank row for its sender first. */
  function WithStub(l: Ledger, id: AccountId, tx: SignedTx): Ledger {
    if tx.body.Init? && id !in l.accounts
    then l.(accounts := l.accounts[id := BlankAccount(tx.signerPk, tx.derivationIndex)])
    else l
  }

  /** While a delayed transfer waits, only a transfer or the emergency activation may be attempted. */
  predicate PendingConflict(body: TxBody) { !body.Transfer? && !(body.Policy? && IsEmergency(body.action)) }

  /** The row the bodies work on: an account without an Init takes the signer of the day. */
  function SignerRow(l: Ledger, id: AccountId, tx: SignedTx): Result<Account, TxError> {
    if id !in l.accounts then Err(NoAccount)
    else
      var acc := l.accounts[id];
      if acc.initialized && (acc.signingPk != tx.signerPk || acc.derivationIndex != tx.derivationIndex) then
        Err(BadSignature)
      else if acc.nonce != tx.nonce then Err(BadNonce)
      else Ok(acc.(signingPk := tx.signerPk, derivationIndex := tx.derivationIndex))
  }

  function ApplyBody(cfg: LedgerCfg, l: Ledger, id: AccountId, acc: Account, tx: SignedTx, redirect: Option<AccountId>,
                     height: u64): Step<Ledger>
  {
    match tx.body
    case Transfer(_, _, _) => TransferBody(cfg, l, id, acc, tx, redirect, height)
    case Export(_, _, _, _) => ExportBody(cfg, l, id, acc, tx, height)
    case Import(_, _, _) => ImportBody(l, id, acc, tx)
    case Policy(_, _, _) => PolicyBody(cfg, l, id, acc, tx, height)
    case _ =>
      match OwnBody(cfg, l, id, acc, tx, height)
      case Abort => Abort
      case Fail(e) => Fail(e)
      case Done(a) => Done(l.(accounts := l.accounts[id := a]))
  }

  /** Where a transaction may go: refused, or on to its body with the policy's other destination. A
      prechecked transaction skips the signature and the policies. */
  function Admit(cfg: LedgerCfg, l: Ledger, id: AccountId, tx: SignedTx, height: u64, checked: bool): Result<(Account,
                 Option<AccountId>), TxError>
  {
    match SignerRow(l, id, tx)
    case Err(e) => Err(e)
    case Ok(acc) =>
      match (if checked then Evaluate(cfg, l, tx, height) else Ok(None))
      case Err(e) => Err(e)
      case Ok(redirect) =>
        if HasPending(l, id) && PendingConflict(tx.body) then Err(ConservationPendingExists) else Ok((acc, redirect))
  }

  /** An applied transaction's ledger; or the ledger a refused one leaves behind. */
  datatype Outcome = Applied(ledger: Ledger) | Rejected(ledger: Ledger, error: TxError) | Aborted

  function ApplyTx(cfg: LedgerCfg, l: Ledger, tx: SignedTx, height: u64, checked: bool): Outcome {
    match ValidateShape(cfg.c, tx, checked)
    case Err(e) => Rejected(l, e)
    case Ok(_) =>
      var id := SenderOf(cfg.c.hash, tx);
      var stubbed := WithStub(l, id, tx);
      match Admit(cfg, stubbed, id, tx, height, checked)
      case Err(e) => Rejected(stubbed, e)
      case Ok((acc, redirect)) =>
        match ApplyBody(cfg, stubbed, id, acc, tx, redirect, height)
        case Abort => Aborted
        case Fail(e) => Rejected(stubbed, e)
        case Done(next) => Applied(next)
  }

  // ----- block work -----

  function RefundLock(l: Ledger, at: nat, height: u64): Ledger
    requires at < |l.locks|
  {
    var lock := l.locks[at];
    if !lock.state.Locked? || height < lock.unlockHeight then l
    else
      l.(accounts := if lock.refundAccount in l.accounts
                     then l.accounts[lock.refundAccount := Credit(l.accounts[lock.refundAccount], lock.amount)]
                     else l.accounts,
         locks := l.locks[at := lock.(state := Refunded)],
         imported := l.imported + {lock.exportId})
  }

  function RefundFrom(l: Ledger, at: nat, height: u64): (r: Ledger)
    requires at <= |l.locks|
    decreases |l.locks| - at
  {
    if at == |l.locks| then l else RefundFrom(RefundLock(l, at, height), at + 1, height)
  }

  /** Every lock that has reached its height goes back to its refund account. */
  function RefundExpired(l: Ledger, height: u64): Ledger { RefundFrom(l, 0, height) }

  /** Where a delayed transfer goes when it is due. */
  function DueDestination(l: Ledger, row: Pending, height: u64): Result<AccountId, TxError> {
    if Recipient(l, row.recipient).Err? then Err(RecipientNotInitialized)
    else
      match Routing(l, row.sender, row.recipient, l.accounts[row.recipient], height)
      case Err(e) => Err(e)
      case Ok(Some(rescue)) => Ok(rescue)
      case Ok(None) => Ok(row.recipient)
  }

  function CheckDue(l: Ledger, row: Pending, height: u64): Result<AccountId, TxError> {
    if row.sender !in l.accounts then Err(NoAccount)
    else
      var acc := l.accounts[row.sender];
      if !acc.initialized then Err(NotInitialized)
      else if acc.nonce != row.nonce then Err(BadNonce)
      else if acc.finalized then Err(PolicyAccountFinalized)
      else match DueDestination(l, row, height)
        case Err(e) => Err(e)
        case Ok(dst) =>
          if Recipient(l, dst).Err? then Err(Recipient(l, dst).error)
          else if row.amount + row.fee > U128_MAX || acc.balance < row.amount + row.fee then Err(Insufficient)
          else Ok(dst)
  }

  /** A due transfer. The destination is read before the debit is stored and written after it. */
  function ApplyDue(cfg: LedgerCfg, l: Ledger, row: Pending, height: u64): Step<Ledger> {
    match CheckDue(l, row, height)
    case Err(e) => Fail(e)
    case Ok(dst) =>
      var acc := l.accounts[row.sender];
      if acc.nonce == U64_MAX then Abort
      else
        var from := Debited(TouchAccount(cfg, acc, height), row.amount + row.fee);
        var to := TouchAccount(cfg, l.accounts[dst], height);
        Done(l.(accounts := l.accounts[row.sender := from][dst := Credit(to, row.amount)],
                feePool := SatAdd128(l.feePool, row.fee)))
  }

  /** Rows in order: due ones are paid, and kept when they are refused. */
  function DrainRows(cfg: LedgerCfg, l: Ledger, rows: seq<Pending>, height: u64): Option<(Ledger, seq<Pending>)>
    decreases |rows|
  {
    if rows == [] then Some((l, []))
    else
      var row := rows[0];
      match (if height < row.executeAt then Fail(BadNonce) else ApplyDue(cfg, l, row, height))
      case Abort => None
      case Done(next) => DrainRows(cfg, next, rows[1..], height)
      case Fail(_) =>
        match DrainRows(cfg, l, rows[1..], height)
        case None => None
        case Some((last, kept)) => Some((last, [row] + kept))
  }

  /** Delayed transfers whose height has come; nothing on an abort. */
  function Drain(cfg: LedgerCfg, l: Ledger, height: u64): Option<Ledger> {
    match DrainRows(cfg, l.(pending := []), l.pending, height)
    case None => None
    case Some((last, kept)) => Some(last.(pending := kept))
  }

  /** The producer's reward; `stakeMin` is zero under the first policy version. */
  function Reward(l: Ledger, producer: AccountId, amount: u128, stakeMin: u128): Ledger {
    if producer in l.accounts && l.accounts[producer].staked >= stakeMin
    then l.(accounts := l.accounts[producer := Credit(l.accounts[producer], amount)])
    else l
  }
}
