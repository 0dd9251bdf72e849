/** The canonical signing message of tx.rs: a tagged binary layout with optional parts.

    Each `Enc` function writes its value in front of the bytes that follow it, so that a decoder can be
    matched against it field by field. */
module TxMessage {
  import opened Basics
  import opened Text
  import opened Transactions
  import Utf8

  const TX_TAG: seq<byte> := [80, 87, 77, 118, 48, 47, 84, 88] // "PWMv0/TX"

  // ----- the layout -----

  /** A length prefix of two bytes; a longer payload would saturate it. */
  function EncLenPrefixed(payload: seq<byte>, rest: seq<byte>): seq<byte> {
    LE(Min(|payload|, U16_MAX), 2) + (payload + rest)
  }

  function EncText(s: string, rest: seq<byte>): seq<byte> { EncLenPrefixed(Utf8.Encode(s), rest) }

  function EncOptId(id: Option<AccountId>, rest: seq<byte>): seq<byte> {
    match id
    case Some(v) => [1] + (v + rest)
    case None => [0] + rest
  }

  function EncActivation(a: ActivationMode, rest: seq<byte>): seq<byte> {
    match a
    case Dormant => [0] + rest
    case Immediately => [1] + rest
    case Deferred(h) => [2] + (LE(h, 8) + rest)
  }

  function EncEntry(row: InitPolicyEntry, rest: seq<byte>): seq<byte> {
    [row.policy.Id()] + EncActivation(row.activation, rest)
  }

  function EncEntries(rows: seq<InitPolicyEntry>, rest: seq<byte>): seq<byte> {
    if rows == [] then rest else EncEntry(rows[0], EncEntries(rows[1..], rest))
  }

  /** The count byte saturates at 255, and only that many rows are written. */
  function EncPolicies(rows: seq<InitPolicyEntry>, rest: seq<byte>): seq<byte> {
    var count: byte := Min(|rows|, 0xFF);
    [count] + EncEntries(rows[..count], rest)
  }

  function EncCosignPolicy(minSigners: Option<byte>, rest: seq<byte>): seq<byte> {
    match minSigners
    case Some(n) => [1] + ([n] + rest)
    case None => [0] + rest
  }

  function EncExtTail(ext: InitV4Extension, rest: seq<byte>): seq<byte> {
    [ext.requestedDomainLo]
    + EncOptId(ext.rescueAddress, EncPolicies(ext.initialPolicies, EncCosignPolicy(ext.cosignPolicy, rest)))
  }

  function EncExt(ext: InitV4Extension, rest: seq<byte>): seq<byte> {
    EncText(ext.ownerKind, EncText(ext.ownerDisplayName, EncText(ext.ownerCountryHint,
      ext.companyMetadataCommitment + EncText(ext.externalVerificationRef, EncExtTail(ext, rest)))))
  }

  function EncProvenance(p: Option<ExportProvenance>, rest: seq<byte>): seq<byte> {
    match p
    case Some(v) => [1] + (v.to + (LE(v.targetDomain, 2) + (LE(v.amount, 16) + rest)))
    case None => [0] + rest
  }

  function EncAction(action: PolicyAction, rest: seq<byte>): seq<byte> {
    match action
    case SetPolicy(policy, activation) => [0] + ([policy.Id()] + EncActivation(activation, rest))
    case ActivatePolicy(id, target) => [1] + ([id] + EncOptId(target, rest))
    case DeactivatePolicy(id) => [2] + ([id] + rest)
  }

  /** The purpose that is signed: trimmed, and empty when absent. */
  function SignedPurpose(tx: SignedTx): string {
    match tx.burnPurpose
    case Some(p) => Trim(p)
    case None => []
  }

  function SignedImportFee(tx: SignedTx): u128 {
    match tx.importFee
    case Some(fee) => fee
    case None => 0
  }

  function EncBody(tx: SignedTx): seq<byte> {
    match tx.body
    case Init(index, flags) =>
      [1] + (LE(index, 4) + (LE(flags, 4) +
        match tx.initV4
        case Some(ext) => [1] + EncExt(ext, [])
        case None => []))
    case Transfer(to, amount, fee) => [2] + (to + (LE(amount, 16) + (LE(fee, 16) + [])))
    case Stake(amount) => [3] + (LE(amount, 16) + [])
    case Unstake(amount) => [4] + (LE(amount, 16) + [])
    case BurnMark(markAmount, beneficiary) =>
      [5] + (LE(markAmount, 4) + EncText(SignedPurpose(tx), EncOptId(beneficiary, [])))
    case Export(to, targetDomain, amount, fee) =>
      [6] + (to + (LE(targetDomain, 2) + (LE(amount, 16) + (LE(fee, 16) + []))))
    case Import(to, amount, exportId) =>
      var origin := exportId + EncProvenance(tx.importProvenance, []);
      [7] + (to + (LE(amount, 16) + (LE(SignedImportFee(tx), 16) + origin)))
    case ClaimIPv4Batch(phase, batchRoot, registrySig) => [8] + ([phase] + (batchRoot + (registrySig + [])))
    case Policy(target, action, fee) => [9] + (target + EncAction(action, LE(fee, 16) + []))
  }

  function EncTx(tx: SignedTx): seq<byte> {
    TX_TAG + (LE(tx.domainCode, 2) + (tx.signerPk + (LE(tx.derivationIndex, 4) + (LE(tx.nonce, 8) + EncBody(tx)))))
  }

  // ----- the code that builds it -----

  /** The growing byte vector. `todo` is what remains to be written after this call: appending keeps
      "written so far, then the rest" unchanged. */
  class ByteVec {
    var bytes: seq<byte>

    constructor ()
      ensures bytes == []
    {
      bytes := [];
    }

    method Extend(part: seq<byte>, ghost todo: seq<byte>)
      modifies this
      ensures bytes == old(bytes) + part
      ensures bytes + todo == old(bytes) + (part + todo)
    {
      bytes := bytes + part;
    }

    method PushLenPrefixedBytes(payload: seq<byte>, ghost todo: seq<byte>)
      modifies this
      ensures bytes + todo == old(bytes) + EncLenPrefixed(payload, todo)
    {
      var len := Min(|payload|, U16_MAX);
      Extend(LE(len, 2), payload + todo);
      Extend(payload, todo);
    }

    method PushOptAccountId(id: Option<AccountId>, ghost todo: seq<byte>)
      modifies this
      ensures bytes + todo == old(bytes) + EncOptId(id, todo)
    {
      match id
      case Some(v) =>
        Extend([1], v + todo);
        Extend(v, todo);
      case None =>
        Extend([0], todo);
    }

    method PushActivation(a: ActivationMode, ghost todo: seq<byte>)
      modifies this
      ensures bytes + todo == old(bytes) + EncActivation(a, todo)
    {
      match a
      case Dormant => Extend([0], todo);
      case Immediately => Extend([1], todo);
      case Deferred(h) =>
        Extend([2], LE(h, 8) + todo);
        Extend(LE(h, 8), todo);
    }

    method PushPolicyAction(action: PolicyAction, ghost todo: seq<byte>)
      modifies this
      ensures bytes + todo == old(bytes) + EncAction(action, todo)
    {
      match action
      case SetPolicy(policy, activation) =>
        Extend([0], [policy.Id()] + EncActivation(activation, todo));
        Extend([policy.Id()], EncActivation(activation, todo));
        PushActivation(activation, todo);
      case ActivatePolicy(id, target) =>
        Extend([1], [id] + EncOptId(target, todo));
        Extend([id], EncOptId(target, todo));
        PushOptAccountId(target, todo);
      case DeactivatePolicy(id) =>
        Extend([2], [id] + todo);
        Extend([id], todo);
    }

    method PushPolicies(rows: seq<InitPolicyEntry>, ghost todo: seq<byte>)
      modifies this
      ensures bytes + todo == old(bytes) + EncPolicies(rows, todo)
    {
      var count: byte := Min(|rows|, 0xFF);
      Extend([count], EncEntries(rows[..count], todo));
      var i := 0;
      while i < count
        invariant 0 <= i <= count
        invariant bytes + EncEntries(rows[i..count], todo) == old(bytes) + EncPolicies(rows, todo)
      {
        assert rows[i..count][1..] == rows[i + 1..count];
        Extend([rows[i].policy.Id()], EncActivation(rows[i].activation, EncEntries(rows[i + 1..count], todo)));
        PushActivation(rows[i].activation, EncEntries(rows[i + 1..count], todo));
        i := i + 1;
      }
    }

    method PushExt(ext: InitV4Extension)
      modifies this
      ensures bytes == old(bytes) + EncExt(ext, [])
    {
      ghost var t0 := EncCosignPolicy(ext.cosignPolicy, []);
      ghost var t1 := EncPolicies(ext.initialPolicies, t0);
      ghost var t2 := EncOptId(ext.rescueAddress, t1);
      ghost var t3 := [ext.requestedDomainLo] + t2;
      ghost var t4 := EncText(ext.externalVerificationRef, t3);
      ghost var t5 := ext.companyMetadataCommitment + t4;
      ghost var t6 := EncText(ext.ownerCountryHint, t5);
      ghost var t7 := EncText(ext.ownerDisplayName, t6);
      PushLenPrefixedBytes(Utf8.Encode(ext.ownerKind), t7);
      PushLenPrefixedBytes(Utf8.Encode(ext.ownerDisplayName), t6);
      PushLenPrefixedBytes(Utf8.Encode(ext.ownerCountryHint), t5);
      Extend(ext.companyMetadataCommitment, t4);
      PushLenPrefixedBytes(Utf8.Encode(ext.externalVerificationRef), t3);
      Extend([ext.requestedDomainLo], t2);
      PushOptAccountId(ext.rescueAddress, t1);
      PushPolicies(ext.initialPolicies, t0);
      if ext.cosignPolicy.Some? {
        Extend([1], [ext.cosignPolicy.value] + []);
        Extend([ext.cosignPolicy.value], []);
      } else {
        Extend([0], []);
      }
    }

    method PushProvenance(p: Option<ExportProvenance>)
      modifies this
      ensures bytes == old(bytes) + EncProvenance(p, [])
    {
      match p
      case Some(v) =>
        Extend([1], v.to + (LE(v.targetDomain, 2) + (LE(v.amount, 16) + [])));
        Extend(v.to, LE(v.targetDomain, 2) + (LE(v.amount, 16) + []));
        Extend(LE(v.targetDomain, 2), LE(v.amount, 16) + []);
        Extend(LE(v.amount, 16), []);
      case None =>
        Extend([0], []);
    }

    /** The Init, BurnMark and Policy arms: the ones with optional or nested parts. */
    method PushNestedBody(tx: SignedTx)
      requires tx.body.Init? || tx.body.BurnMark? || tx.body.Policy?
      modifies this
      ensures bytes == old(bytes) + EncBody(tx)
    {
      match tx.body
      case Init(index, flags) =>
        ghost var ext := match tx.initV4 case Some(e) => [1] + EncExt(e, []) case None => [];
        Extend([1], LE(index, 4) + (LE(flags, 4) + ext));
        Extend(LE(index, 4), LE(flags, 4) + ext);
        Extend(LE(flags, 4), ext);
        if tx.initV4.Some? {
          Extend([1], EncExt(tx.initV4.value, []));
          PushExt(tx.initV4.value);
        }
      case BurnMark(markAmount, beneficiary) =>
        var purpose := match tx.burnPurpose case Some(p) => Trim(p) case None => [];
        ghost var t := EncText(purpose, EncOptId(beneficiary, []));
        Extend([5], LE(markAmount, 4) + t);
        Extend(LE(markAmount, 4), t);
        PushLenPrefixedBytes(Utf8.Encode(purpose), EncOptId(beneficiary, []));
        PushOptAccountId(beneficiary, []);
      case Policy(target, action, fee) =>
        Extend([9], target + EncAction(action, LE(fee, 16) + []));
        Extend(target, EncAction(action, LE(fee, 16) + []));
        PushPolicyAction(action, LE(fee, 16) + []);
        Extend(LE(fee, 16), []);
    }

    /** The arms of fixed layout, and Import with its optional provenance. */
    method PushFlatBody(tx: SignedTx)
      requires !tx.body.Init? && !tx.body.BurnMark? && !tx.body.Policy?
      modifies this
      ensures bytes == old(bytes) + EncBody(tx)
    {
      match tx.body
      case Transfer(to, amount, fee) =>
        Extend([2], to + (LE(amount, 16) + (LE(fee, 16) + [])));
        Extend(to, LE(amount, 16) + (LE(fee, 16) + []));
        Extend(LE(amount, 16), LE(fee, 16) + []);
        Extend(LE(fee, 16), []);
      case Stake(amount) =>
        Extend([3], LE(amount, 16) + []);
        Extend(LE(amount, 16), []);
      case Unstake(amount) =>
        Extend([4], LE(amount, 16) + []);
        Extend(LE(amount, 16), []);
      case ClaimIPv4Batch(phase, batchRoot, registrySig) =>
        Extend([8], [phase] + (batchRoot + (registrySig + [])));
        Extend([phase], batchRoot + (registrySig + []));
        Extend(batchRoot, registrySig + []);
        Extend(registrySig, []);
      case Export(to, targetDomain, amount, fee) =>
        ghost var t := LE(amount, 16) + (LE(fee, 16) + []);
        Extend([6], to + (LE(targetDomain, 2) + t));
        Extend(to, LE(targetDomain, 2) + t);
        Extend(LE(targetDomain, 2), t);
        Extend(LE(amount, 16), LE(fee, 16) + []);
        Extend(LE(fee, 16), []);
      case Import(to, amount, exportId) =>
        var fee := match tx.importFee case Some(f) => f case None => 0;
        ghost var t := exportId + EncProvenance(tx.importProvenance, []);
        Extend([7], to + (LE(amount, 16) + (LE(fee, 16) + t)));
        Extend(to, LE(amount, 16) + (LE(fee, 16) + t));
        Extend(LE(amount, 16), LE(fee, 16) + t);
        Extend(LE(fee, 16), t);
        Extend(exportId, EncProvenance(tx.importProvenance, []));
        PushProvenance(tx.importProvenance);
    }
  }

  method SigningMessage(tx: SignedTx) returns (message: seq<byte>)
    ensures message == EncTx(tx)
  {
    var out := new ByteVec();
    ghost var t := LE(tx.derivationIndex, 4) + (LE(tx.nonce, 8) + EncBody(tx));
    out.Extend(TX_TAG, LE(tx.domainCode, 2) + (tx.signerPk + t));
    out.Extend(LE(tx.domainCode, 2), tx.signerPk + t);
    out.Extend(tx.signerPk, t);
    out.Extend(LE(tx.derivationIndex, 4), LE(tx.nonce, 8) + EncBody(tx));
    out.Extend(LE(tx.nonce, 8), EncBody(tx));
    if tx.body.Init? || tx.body.BurnMark? || tx.body.Policy? {
      out.PushNestedBody(tx);
    } else {
      out.PushFlatBody(tx);
    }
    message := out.bytes;
  }

  // ----- hashes and checks over the message -----

  function TxHash(hash: Hasher, tx: SignedTx): Bytes32 { hash(EncTx(tx)) }

  predicate SigValid(c: Crypto, tx: SignedTx) { c.verify(tx.signerPk, EncTx(tx), tx.signature) }

  function SenderOf(hash: Hasher, tx: SignedTx): AccountId { AccountIdOf(hash, tx.signerPk, tx.derivationIndex) }

  function ValidateShape(c: Crypto, tx: SignedTx, checkSig: bool): Result<(), TxError> {
    if checkSig && !SigValid(c, tx) then Err(BadSignature)
    else
      var aid := SenderOf(c.hash, tx);
      if DomainOf(aid) != tx.domainCode then Err(DomainMismatch)
      else ValidateBody(aid, tx)
  }

  /** What an export id hashes; the output index is fixed at zero. */
  function ExportIdInput(hash: Hasher, tx: SignedTx): seq<byte> {
    LE(tx.domainCode, 2) + (TxHash(hash, tx) + (LE(0, 4) + LE(tx.nonce, 8)))
  }

  function ExportId(hash: Hasher, tx: SignedTx): Option<Bytes32> {
    if tx.body.Export? then Some(hash(ExportIdInput(hash, tx))) else None
  }
}
