/** Signed transactions of tx.rs: their parts, and the structural checks made before state application. */
module Transactions {
  import opened Basics
  import opened Text
  import Utf8

  type AccountId = Bytes32

  const MIN_IMPORT_FEE_UNITS: int := 10_000

  datatype ActivationMode = Dormant | Immediately | Deferred(activateAtHeight: u64)

  datatype PolicyKind =
    RoutingSameDomainOnly | RoutingEmergencyRedirect | SenderFilter | DefaultBehavior | CosignRequired
  {
    function Id(): byte {
      match this
      case RoutingSameDomainOnly => 0
      case RoutingEmergencyRedirect => 1
      case SenderFilter => 2
      case DefaultBehavior => 3
      case CosignRequired => 4
    }
  }

  function PolicyFromId(id: byte): (r: Option<PolicyKind>)
    ensures r.Some? ==> r.value.Id() == id
  {
    if id == 0 then Some(RoutingSameDomainOnly)
    else if id == 1 then Some(RoutingEmergencyRedirect)
    else if id == 2 then Some(SenderFilter)
    else if id == 3 then Some(DefaultBehavior)
    else if id == 4 then Some(CosignRequired)
    else None
  }

  lemma PolicyIdBack(p: PolicyKind)
    ensures PolicyFromId(p.Id()) == Some(p)
  {
  }

  datatype PolicyAction =
    | SetPolicy(policy: PolicyKind, activation: ActivationMode)
    | ActivatePolicy(policyId: byte, activationTarget: Option<AccountId>)
    | DeactivatePolicy(policyId: byte)

  datatype CosignRole = Rescue | Organization | Witness

  datatype Cosignature = Cosignature(signerPk: Bytes32, role: CosignRole, signature: Bytes64)

  datatype InitPolicyEntry = InitPolicyEntry(policy: PolicyKind, activation: ActivationMode)

  /** The optional extension of an Init; `cosignPolicy` is the minimum number of signers. */
  datatype InitV4Extension = InitV4Extension(
    ownerKind: string,
    ownerDisplayName: string,
    ownerCountryHint: string,
    companyMetadataCommitment: Bytes32,
    externalVerificationRef: string,
    requestedDomainLo: byte,
    rescueAddress: Option<AccountId>,
    initialPolicies: seq<InitPolicyEntry>,
    cosignPolicy: Option<byte>)

  datatype ExportProvenance = ExportProvenance(to: AccountId, targetDomain: u16, amount: u128)

  datatype TxBody =
    | Init(index: u32, flags: u32)
    | Transfer(to: AccountId, amount: u128, fee: u128)
    | Stake(amount: u128)
    | Unstake(amount: u128)
    | BurnMark(markAmount: u32, beneficiary: Option<AccountId>)
    | ClaimIPv4Batch(phase: byte, batchRoot: Bytes32, registrySig: Bytes64)
    | Export(to: AccountId, targetDomain: u16, amount: u128, fee: u128)
    | Import(to: AccountId, amount: u128, exportId: Bytes32)
    | Policy(target: AccountId, action: PolicyAction, fee: u128)

  datatype SignedTx = SignedTx(
    domainCode: u16,
    signerPk: Bytes32,
    derivationIndex: u32,
    nonce: u64,
    body: TxBody,
    burnPurpose: Option<string>,
    importFee: Option<u128>,
    importProvenance: Option<ExportProvenance>,
    initV4: Option<InitV4Extension>,
    cosigns: seq<Cosignature>,
    signature: Bytes64)

  datatype TxError =
    | BadSignature | DomainMismatch | NoAccount | NotInitialized | RecipientMissing | RecipientNotInitialized
    | BadNonce | Insufficient | InsufficientMarks | AlreadyInit | InvalidTransfer | InvalidExport | InvalidImport
    | DuplicateImport | ExportLockRefunded | InvalidPurposeLength | InvalidPurposeChars | ImportFeeTooLow
    | PolicySchemaInvalid | PolicyNotInstalled | PolicyNotActive | PolicyDenied | PolicySenderFiltered
    | PolicyRoutingDenied | PolicyMissingCosign | PolicyRescueRequired | PolicyEmergencyCosignRequired
    | PolicyAccountFinalized | PolicyIrreversible | PolicyFlagNonDisableable | ConservationPendingExists
    | PolicyActivationFeeMustBeZero | PolicyActivationTargetMismatch | PolicyActivationTargetRequired
    | PolicyActivationTargetNotAllowed

  type SigningKey = Bytes32

  /** BLAKE3 and Ed25519, left uninterpreted. */
  datatype Crypto = Crypto(
    hash: Hasher,
    sign: (SigningKey, seq<byte>) -> Bytes64,
    verify: (Bytes32, seq<byte>, Bytes64) -> bool)

  /** The one law of Ed25519 (RFC 8032, section 5.1) that is used: what the key signs, its public key accepts. */
  ghost predicate KeyPair(c: Crypto, sk: SigningKey, pk: Bytes32) {
    forall m :: c.verify(pk, m, c.sign(sk, m))
  }

  // ----- account ids -----

  function AccountIdOf(hash: Hasher, pk: Bytes32, derivationIndex: u32): AccountId {
    hash(pk + LE(derivationIndex, 4))
  }

  function DomainOf(id: AccountId): u16 { 256 * (id[0] as int) + id[1] }

  function DomainHi(id: AccountId): byte { id[0] }

  function HiByte(domain: u16): byte { domain / 256 }

  /** Bit 0 of the big-endian flag word in bytes 2 to 5. */
  predicate CosignNonDisableable(id: AccountId) { id[5] % 2 == 1 }

  /** Bit 1 of the flag word. */
  predicate ConservationFlag(id: AccountId) { id[5] / 2 % 2 == 1 }

  /** Account ids are as unique as the key and index they derive from. */
  lemma AccountIdBinds(hash: Hasher, pk: Bytes32, i: u32, qk: Bytes32, j: u32)
    requires CollisionFree(hash, {pk + LE(i, 4), qk + LE(j, 4)})
    ensures AccountIdOf(hash, pk, i) == AccountIdOf(hash, qk, j) <==> pk == qk && i == j
  {
    var (x, y) := (pk + LE(i, 4), qk + LE(j, 4));
    if x == y {
      assert x[..32] == pk && y[..32] == qk && x[32..] == LE(i, 4) && y[32..] == LE(j, 4);
      WidthBounds();
      FromLEOfLE(i, 4);
      FromLEOfLE(j, 4);
    }
  }

  /** The big-endian word in bytes 2 to 5. */
  function FlagWord(id: AccountId): nat {
    var (a: int, b: int, c: int, d: int) := (id[2], id[3], id[4], id[5]);
    0x100_0000 * a + 0x1_0000 * b + 0x100 * c + d
  }

  /** The two flags are its low bits. */
  lemma FlagBits(id: AccountId)
    ensures CosignNonDisableable(id) <==> FlagWord(id) % 2 == 1
    ensures ConservationFlag(id) <==> FlagWord(id) / 2 % 2 == 1
  {
    var (a: int, b: int, c: int, d: int) := (id[2], id[3], id[4], id[5]);
    assert FlagWord(id) == 4 * (0x40_0000 * a + 0x4000 * b + 0x40 * c) + d;
  }

  // ----- structural checks -----

  const INIT_OWNER_KIND_MAX: int := 32
  const INIT_OWNER_NAME_MAX: int := 64
  const INIT_OWNER_COUNTRY_MAX: int := 8
  const INIT_EXT_REF_MAX: int := 96
  const INIT_MAX_POLICIES: int := 16

  function ByteLength(s: string): nat { |Utf8.Encode(s)| }

  function ValidateInitExt(ext: InitV4Extension): Result<(), TxError> {
    if ext.ownerKind == [] || ByteLength(ext.ownerKind) > INIT_OWNER_KIND_MAX then Err(PolicySchemaInvalid)
    else if ext.ownerDisplayName == [] || ByteLength(ext.ownerDisplayName) > INIT_OWNER_NAME_MAX then
      Err(PolicySchemaInvalid)
    else if ext.ownerCountryHint == [] || ByteLength(ext.ownerCountryHint) > INIT_OWNER_COUNTRY_MAX then
      Err(PolicySchemaInvalid)
    else if ByteLength(ext.externalVerificationRef) > INIT_EXT_REF_MAX then Err(PolicySchemaInvalid)
    else if |ext.initialPolicies| > INIT_MAX_POLICIES then Err(PolicySchemaInvalid)
    else if exists i :: 0 <= i < |ext.initialPolicies| && ext.initialPolicies[i].policy.Id() >= 16 then
      Err(PolicySchemaInvalid)
    else Ok(())
  }

  predicate IsControl(c: char) { c <= '\U{001F}' || '\U{007F}' <= c <= '\U{009F}' }

  function ValidateBurnPurpose(purpose: string): Result<(), TxError> {
    if !(1 <= ByteLength(purpose) <= 80) then Err(InvalidPurposeLength)
    else if exists i :: 0 <= i < |purpose| && IsControl(purpose[i]) then Err(InvalidPurposeChars)
    else Ok(())
  }

  predicate WeakensCosign(action: PolicyAction) {
    match action
    case SetPolicy(policy, activation) => policy.CosignRequired? && !activation.Immediately?
    case DeactivatePolicy(id) => id == CosignRequired.Id()
    case ActivatePolicy(_, _) => false
  }

  function ValidatePolicyBody(aid: AccountId, target: AccountId, action: PolicyAction, fee: u128): Result<(), TxError> {
    if target != aid then Err(PolicySchemaInvalid)
    else if CosignNonDisableable(aid) && WeakensCosign(action) then Err(PolicyFlagNonDisableable)
    else
      match action
      case SetPolicy(_, _) => if fee == 0 then Err(PolicySchemaInvalid) else Ok(())
      case ActivatePolicy(id, activationTarget) =>
        (match PolicyFromId(id)
         case None => Err(PolicySchemaInvalid)
         case Some(policy) =>
           if fee != 0 && !policy.RoutingEmergencyRedirect? then Err(PolicyActivationFeeMustBeZero)
           else if policy.RoutingEmergencyRedirect? && activationTarget.None? then Err(PolicyActivationTargetRequired)
           else if !policy.RoutingEmergencyRedirect? && activationTarget.Some? then
             Err(PolicyActivationTargetNotAllowed)
           else Ok(()))
      case DeactivatePolicy(id) =>
        if fee == 0 then Err(PolicySchemaInvalid)
        else if PolicyFromId(id).None? then Err(PolicySchemaInvalid)
        else Ok(())
  }

  /** The checks on the body, once the signature and the domain are settled. The Init, BurnMark and
      ClaimIPv4Batch arms answer before the later guards on fields that do not belong to them. */
  function ValidateBody(aid: AccountId, tx: SignedTx): Result<(), TxError> {
    var body := tx.body;
    if body.Transfer? && body.to == aid then Err(InvalidTransfer)
    else if body.Init? then (if tx.initV4.Some? then ValidateInitExt(tx.initV4.value) else Ok(()))
    else if tx.initV4.Some? then Err(PolicySchemaInvalid)
    else if body.BurnMark? then
      if tx.burnPurpose.None? then Err(InvalidPurposeLength) else ValidateBurnPurpose(Trim(tx.burnPurpose.value))
    else if tx.burnPurpose.Some? then Err(PolicySchemaInvalid)
    else if body.ClaimIPv4Batch? then
      if forall i :: 0 <= i < 64 ==> body.registrySig[i] == 0 then Err(PolicySchemaInvalid) else Ok(())
    else if body.Import? then
      if tx.importFee.None? || tx.importFee.value < MIN_IMPORT_FEE_UNITS then Err(ImportFeeTooLow) else Ok(())
    else if tx.importFee.Some? || tx.importProvenance.Some? then Err(PolicySchemaInvalid)
    else if body.Policy? then ValidatePolicyBody(aid, body.target, body.action, body.fee)
    else Ok(())
  }
}
