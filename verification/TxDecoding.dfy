/** Unique decodability of the signing message.

    A decoder is written against the layout alone. Decoding the message of any shape-valid transaction
    gives back everything that was signed; so two shape-valid transactions with one message agree on it. */
module TxDecoding {
  import opened Basics
  import opened Text
  import opened Transactions
  import opened TxMessage
  import Utf8

  /** What a signature covers: the common fields, the body, and the extras of that body kind. */
  datatype Content = Content(
    domainCode: u16, signerPk: Bytes32, derivationIndex: u32, nonce: u64, body: TxBody, extras: Extras)

  datatype Extras =
    | NoExtras
    | InitExtras(ext: Option<InitV4Extension>)
    | BurnExtras(purpose: string)
    | ImportExtras(fee: u128, provenance: Option<ExportProvenance>)

  function ContentOf(tx: SignedTx): Content {
    var extras := match tx.body
      case Init(_, _) => InitExtras(tx.initV4)
      case BurnMark(_, _) => BurnExtras(SignedPurpose(tx))
      case Import(_, _, _) => ImportExtras(SignedImportFee(tx), tx.importProvenance)
      case _ => NoExtras;
    Content(tx.domainCode, tx.signerPk, tx.derivationIndex, tx.nonce, tx.body, extras)
  }

  // ----- field decoders -----

  datatype Parsed<+T> = Malformed | Parsed(value: T, rest: seq<byte>) {
    predicate IsFailure() { Malformed? }
    function PropagateFailure<U>(): Parsed<U> requires Malformed? { Malformed }
    function Extract(): (T, seq<byte>) requires Parsed? { (value, rest) }
  }

  function GetBytes(k: nat, bs: seq<byte>): (r: Parsed<seq<byte>>)
    ensures r.Parsed? ==> |r.value| == k
  {
    if |bs| < k then Malformed else Parsed(bs[..k], bs[k..])
  }

  function GetByte(bs: seq<byte>): Parsed<byte> {
    if bs == [] then Malformed else Parsed(bs[0], bs[1..])
  }

  function GetU16(bs: seq<byte>): Parsed<u16> {
    if |bs| < 2 then Malformed else LEFits(bs[..2]); Parsed(FromLE(bs[..2]), bs[2..])
  }

  function GetU32(bs: seq<byte>): Parsed<u32> {
    if |bs| < 4 then Malformed else LEFits(bs[..4]); Parsed(FromLE(bs[..4]), bs[4..])
  }

  function GetU64(bs: seq<byte>): Parsed<u64> {
    if |bs| < 8 then Malformed else LEFits(bs[..8]); Parsed(FromLE(bs[..8]), bs[8..])
  }

  function GetU128(bs: seq<byte>): Parsed<u128> {
    if |bs| < 16 then Malformed else LEFits(bs[..16]); Parsed(FromLE(bs[..16]), bs[16..])
  }

  lemma {:induction false} LEBound(bs: seq<byte>)
    ensures FromLE(bs) < Pow256(|bs|)
  {
    if bs != [] {
      LEBound(bs[1..]);
    }
  }

  lemma LEFits(bs: seq<byte>)
    ensures |bs| == 2 ==> FromLE(bs) <= U16_MAX
    ensures |bs| == 4 ==> FromLE(bs) <= U32_MAX
    ensures |bs| == 8 ==> FromLE(bs) <= U64_MAX
    ensures |bs| == 16 ==> FromLE(bs) <= U128_MAX
  {
    LEBound(bs);
    WidthBounds();
  }

  lemma GetBytesBack(part: seq<byte>, rest: seq<byte>)
    ensures GetBytes(|part|, part + rest) == Parsed(part, rest)
  {
  }

  lemma GetByteBack(b: byte, rest: seq<byte>)
    ensures GetByte([b] + rest) == Parsed(b, rest)
  {
  }

  lemma GetU16Back(n: u16, rest: seq<byte>)
    ensures GetU16(LE(n, 2) + rest) == Parsed(n, rest)
  {
    WidthBounds();
    FromLEOfLE(n, 2);
    assert (LE(n, 2) + rest)[..2] == LE(n, 2);
  }

  lemma GetU32Back(n: u32, rest: seq<byte>)
    ensures GetU32(LE(n, 4) + rest) == Parsed(n, rest)
  {
    WidthBounds();
    FromLEOfLE(n, 4);
    assert (LE(n, 4) + rest)[..4] == LE(n, 4);
  }

  lemma GetU64Back(n: u64, rest: seq<byte>)
    ensures GetU64(LE(n, 8) + rest) == Parsed(n, rest)
  {
    WidthBounds();
    FromLEOfLE(n, 8);
    assert (LE(n, 8) + rest)[..8] == LE(n, 8);
  }

  lemma GetU128Back(n: u128, rest: seq<byte>)
    ensures GetU128(LE(n, 16) + rest) == Parsed(n, rest)
  {
    WidthBounds();
    FromLEOfLE(n, 16);
    assert (LE(n, 16) + rest)[..16] == LE(n, 16);
  }

  // ----- decoders for the parts -----

  function DecText(bs: seq<byte>): Parsed<string> {
    var (len, r0) :- GetU16(bs);
    var (payload, r1) :- GetBytes(len, r0);
    match Utf8.Decode(payload)
    case Some(s) => Parsed(s, r1)
    case None => Malformed
  }

  function DecOptId(bs: seq<byte>): Parsed<Option<AccountId>> {
    var (flag, r0) :- GetByte(bs);
    if flag == 0 then Parsed(None, r0)
    else if flag == 1 then var (id, r1) :- GetBytes(32, r0); Parsed(Some(id), r1)
    else Malformed
  }

  function DecActivation(bs: seq<byte>): Parsed<ActivationMode> {
    var (tag, r0) :- GetByte(bs);
    if tag == 0 then Parsed(Dormant, r0)
    else if tag == 1 then Parsed(Immediately, r0)
    else if tag == 2 then var (h, r1) :- GetU64(r0); Parsed(Deferred(h), r1)
    else Malformed
  }

  function DecEntries(n: nat, bs: seq<byte>): Parsed<seq<InitPolicyEntry>> {
    if n == 0 then Parsed([], bs)
    else
      var (id, r0) :- GetByte(bs);
      match PolicyFromId(id)
      case None => Malformed
      case Some(policy) =>
        var (activation, r1) :- DecActivation(r0);
        var (rows, r2) :- DecEntries(n - 1, r1);
        Parsed([InitPolicyEntry(policy, activation)] + rows, r2)
  }

  function DecPolicies(bs: seq<byte>): Parsed<seq<InitPolicyEntry>> {
    var (n, r0) :- GetByte(bs);
    DecEntries(n, r0)
  }

  function DecCosignPolicy(bs: seq<byte>): Parsed<Option<byte>> {
    var (flag, r0) :- GetByte(bs);
    if flag == 0 then Parsed(None, r0)
    else if flag == 1 then var (n, r1) :- GetByte(r0); Parsed(Some(n), r1)
    else Malformed
  }

  function DecExt(bs: seq<byte>): Parsed<InitV4Extension> {
    var (kind, r0) :- DecText(bs);
    var (name, r1) :- DecText(r0);
    var (country, r2) :- DecText(r1);
    var (commitment, r3) :- GetBytes(32, r2);
    var (reference, r4) :- DecText(r3);
    var (lo, r5) :- GetByte(r4);
    var (rescue, r6) :- DecOptId(r5);
    var (rows, r7) :- DecPolicies(r6);
    var (cosign, r8) :- DecCosignPolicy(r7);
    Parsed(InitV4Extension(kind, name, country, commitment, reference, lo, rescue, rows, cosign), r8)
  }

  function DecProvenance(bs: seq<byte>): Parsed<Option<ExportProvenance>> {
    var (flag, r0) :- GetByte(bs);
    if flag == 0 then Parsed(None, r0)
    else if flag == 1 then
      var (to, r1) :- GetBytes(32, r0);
      var (domain, r2) :- GetU16(r1);
      var (amount, r3) :- GetU128(r2);
      Parsed(Some(ExportProvenance(to, domain, amount)), r3)
    else Malformed
  }

  function DecAction(bs: seq<byte>): Parsed<PolicyAction> {
    var (tag, r0) :- GetByte(bs);
    var (id, r1) :- GetByte(r0);
    if tag == 0 then
      match PolicyFromId(id)
      case None => Malformed
      case Some(policy) => var (activation, r2) :- DecActivation(r1); Parsed(SetPolicy(policy, activation), r2)
    else if tag == 1 then var (target, r2) :- DecOptId(r1); Parsed(ActivatePolicy(id, target), r2)
    else if tag == 2 then Parsed(DeactivatePolicy(id), r1)
    else Malformed
  }

  type BodyDecoder = seq<byte> -> Parsed<(TxBody, Extras)>

  /** One decoder per tag byte. */
  function DecoderFor(tag: byte): BodyDecoder {
    if tag == 1 then DecInit
    else if tag == 2 then DecTransfer
    else if tag == 3 then DecStake
    else if tag == 4 then DecUnstake
    else if tag == 5 then DecBurn
    else if tag == 6 then DecExport
    else if tag == 7 then DecImport
    else if tag == 8 then DecClaim
    else if tag == 9 then DecPolicyBody
    else DecNothing
  }

  /** The body and its extras; a well-formed message ends with them. */
  function DecBody(bs: seq<byte>): Parsed<(TxBody, Extras)> {
    var (tag, r0) :- GetByte(bs);
    DecoderFor(tag)(r0)
  }

  function DecNothing(bs: seq<byte>): Parsed<(TxBody, Extras)> { Malformed }

  function DecTransfer(bs: seq<byte>): Parsed<(TxBody, Extras)> {
    var (to, r1) :- GetBytes(32, bs);
    var (amount, r2) :- GetU128(r1);
    var (fee, r3) :- GetU128(r2);
    Parsed((Transfer(to, amount, fee), NoExtras), r3)
  }

  function DecStake(bs: seq<byte>): Parsed<(TxBody, Extras)> {
    var (amount, r1) :- GetU128(bs);
    Parsed((Stake(amount), NoExtras), r1)
  }

  function DecUnstake(bs: seq<byte>): Parsed<(TxBody, Extras)> {
    var (amount, r1) :- GetU128(bs);
    Parsed((Unstake(amount), NoExtras), r1)
  }

  function DecClaim(bs: seq<byte>): Parsed<(TxBody, Extras)> {
    var (phase, r1) :- GetByte(bs);
    var (root, r2) :- GetBytes(32, r1);
    var (sig, r3) :- GetBytes(64, r2);
    Parsed((ClaimIPv4Batch(phase, root, sig), NoExtras), r3)
  }

  function DecPolicyBody(bs: seq<byte>): Parsed<(TxBody, Extras)> {
    var (target, r1) :- GetBytes(32, bs);
    var (action, r2) :- DecAction(r1);
    var (fee, r3) :- GetU128(r2);
    Parsed((Policy(target, action, fee), NoExtras), r3)
  }

  function DecInit(bs: seq<byte>): Parsed<(TxBody, Extras)> {
    var (index, r1) :- GetU32(bs);
    var (flags, r2) :- GetU32(r1);
    if r2 == [] then Parsed((Init(index, flags), InitExtras(None)), r2)
    else
      var (flag, r3) :- GetByte(r2);
      if flag != 1 then Malformed
      else var (ext, r4) :- DecExt(r3); Parsed((Init(index, flags), InitExtras(Some(ext))), r4)
  }

  function DecBurn(bs: seq<byte>): Parsed<(TxBody, Extras)> {
    var (amount, r1) :- GetU32(bs);
    var (purpose, r2) :- DecText(r1);
    var (beneficiary, r3) :- DecOptId(r2);
    Parsed((BurnMark(amount, beneficiary), BurnExtras(purpose)), r3)
  }

  function DecExport(bs: seq<byte>): Parsed<(TxBody, Extras)> {
    var (to, r1) :- GetBytes(32, bs);
    var (domain, r2) :- GetU16(r1);
    var (amount, r3) :- GetU128(r2);
    var (fee, r4) :- GetU128(r3);
    Parsed((Export(to, domain, amount, fee), NoExtras), r4)
  }

  function DecImport(bs: seq<byte>): Parsed<(TxBody, Extras)> {
    var (to, r1) :- GetBytes(32, bs);
    var (amount, r2) :- GetU128(r1);
    var (fee, r3) :- GetU128(r2);
    var (exportId, r4) :- GetBytes(32, r3);
    var (provenance, r5) :- DecProvenance(r4);
    Parsed((Import(to, amount, exportId), ImportExtras(fee, provenance)), r5)
  }

  function DecHeader(bs: seq<byte>): Parsed<(u16, Bytes32, u32, u64)> {
    var (tag, r0) :- GetBytes(8, bs);
    if tag != TX_TAG then Malformed
    else
      var (domain, r1) :- GetU16(r0);
      var (pk, r2) :- GetBytes(32, r1);
      var (index, r3) :- GetU32(r2);
      var (nonce, r4) :- GetU64(r3);
      Parsed((domain, pk, index, nonce), r4)
  }

  function DecTx(bs: seq<byte>): Option<Content> {
    match DecHeader(bs)
    case Malformed => None
    case Parsed((domain, pk, index, nonce), r) =>
      match DecBody(r)
      case Malformed => None
      case Parsed((body, extras), end) =>
        if end == [] then Some(Content(domain, pk, index, nonce, body, extras)) else None
  }

  // ----- decoding what was encoded -----

  lemma TextBack(s: string, rest: seq<byte>)
    requires ByteLength(s) <= U16_MAX
    ensures DecText(EncText(s, rest)) == Parsed(s, rest)
  {
    var payload := Utf8.Encode(s);
    GetU16Back(|payload|, payload + rest);
    GetBytesBack(payload, rest);
    Utf8.DecodeOfEncode(s);
  }

  lemma OptIdBack(id: Option<AccountId>, rest: seq<byte>)
    ensures DecOptId(EncOptId(id, rest)) == Parsed(id, rest)
  {
  }

  lemma ActivationBack(a: ActivationMode, rest: seq<byte>)
    ensures DecActivation(EncActivation(a, rest)) == Parsed(a, rest)
  {
    match a
    case Dormant => GetByteBack(0, rest);
    case Immediately => GetByteBack(1, rest);
    case Deferred(h) =>
      GetByteBack(2, LE(h, 8) + rest);
      GetU64Back(h, rest);
  }

  lemma {:induction false} EntriesBack(rows: seq<InitPolicyEntry>, rest: seq<byte>)
    ensures DecEntries(|rows|, EncEntries(rows, rest)) == Parsed(rows, rest)
  {
    if rows != [] {
      var row, more := rows[0], EncEntries(rows[1..], rest);
      GetByteBack(row.policy.Id(), EncActivation(row.activation, more));
      PolicyIdBack(row.policy);
      ActivationBack(row.activation, more);
      EntriesBack(rows[1..], rest);
      assert [row] + rows[1..] == rows;
    }
  }

  lemma PoliciesBack(rows: seq<InitPolicyEntry>, rest: seq<byte>)
    requires |rows| <= 0xFF
    ensures DecPolicies(EncPolicies(rows, rest)) == Parsed(rows, rest)
  {
    assert rows[..|rows|] == rows;
    GetByteBack(|rows|, EncEntries(rows, rest));
    EntriesBack(rows, rest);
  }

  lemma CosignPolicyBack(n: Option<byte>, rest: seq<byte>)
    ensures DecCosignPolicy(EncCosignPolicy(n, rest)) == Parsed(n, rest)
  {
  }

  /** The lengths that validation bounds all fit their prefixes. */
  predicate ExtFits(ext: InitV4Extension) {
    && ByteLength(ext.ownerKind) <= U16_MAX && ByteLength(ext.ownerDisplayName) <= U16_MAX
    && ByteLength(ext.ownerCountryHint) <= U16_MAX && ByteLength(ext.externalVerificationRef) <= U16_MAX
    && |ext.initialPolicies| <= 0xFF
  }

  lemma ExtBack(ext: InitV4Extension, rest: seq<byte>)
    requires ExtFits(ext)
    ensures DecExt(EncExt(ext, rest)) == Parsed(ext, rest)
  {
    var t0 := EncCosignPolicy(ext.cosignPolicy, rest);
    var t1 := EncPolicies(ext.initialPolicies, t0);
    var t2 := EncOptId(ext.rescueAddress, t1);
    var t3 := [ext.requestedDomainLo] + t2;
    var t4 := EncText(ext.externalVerificationRef, t3);
    var t5 := ext.companyMetadataCommitment + t4;
    var t6 := EncText(ext.ownerCountryHint, t5);
    var t7 := EncText(ext.ownerDisplayName, t6);
    TextBack(ext.ownerKind, t7);
    TextBack(ext.ownerDisplayName, t6);
    TextBack(ext.ownerCountryHint, t5);
    GetBytesBack(ext.companyMetadataCommitment, t4);
    TextBack(ext.externalVerificationRef, t3);
    GetByteBack(ext.requestedDomainLo, t2);
    OptIdBack(ext.rescueAddress, t1);
    PoliciesBack(ext.initialPolicies, t0);
    CosignPolicyBack(ext.cosignPolicy, rest);
  }

  lemma ProvenanceBack(p: Option<ExportProvenance>, rest: seq<byte>)
    ensures DecProvenance(EncProvenance(p, rest)) == Parsed(p, rest)
  {
    match p
    case Some(v) =>
      GetByteBack(1, v.to + (LE(v.targetDomain, 2) + (LE(v.amount, 16) + rest)));
      GetBytesBack(v.to, LE(v.targetDomain, 2) + (LE(v.amount, 16) + rest));
      GetU16Back(v.targetDomain, LE(v.amount, 16) + rest);
      GetU128Back(v.amount, rest);
    case None =>
      GetByteBack(0, rest);
  }

  lemma ActionBack(action: PolicyAction, rest: seq<byte>)
    ensures DecAction(EncAction(action, rest)) == Parsed(action, rest)
  {
    match action
    case SetPolicy(policy, activation) =>
      GetByteBack(0, [policy.Id()] + EncActivation(activation, rest));
      GetByteBack(policy.Id(), EncActivation(activation, rest));
      PolicyIdBack(policy);
      ActivationBack(activation, rest);
    case ActivatePolicy(id, target) =>
      GetByteBack(1, [id] + EncOptId(target, rest));
      GetByteBack(id, EncOptId(target, rest));
      OptIdBack(target, rest);
    case DeactivatePolicy(id) =>
      GetByteBack(2, [id] + rest);
      GetByteBack(id, rest);
  }

  /** Every length the encoder would saturate is within its prefix. */
  predicate Fits(tx: SignedTx) {
    && (tx.body.Init? && tx.initV4.Some? ==> ExtFits(tx.initV4.value))
    && (tx.body.BurnMark? ==> ByteLength(SignedPurpose(tx)) <= U16_MAX)
  }

  lemma TaggedBody(tag: byte, tail: seq<byte>)
    ensures DecBody([tag] + tail) == DecoderFor(tag)(tail)
  {
  }

  lemma InitTagged(tail: seq<byte>)
    ensures DecBody([1] + tail) == DecInit(tail)
  {
  }

  lemma BurnTagged(tail: seq<byte>)
    ensures DecBody([5] + tail) == DecBurn(tail)
  {
  }

  lemma ImportTagged(tail: seq<byte>)
    ensures DecBody([7] + tail) == DecImport(tail)
  {
  }

  lemma PolicyTagged(tail: seq<byte>)
    ensures DecBody([9] + tail) == DecPolicyBody(tail)
  {
  }

  lemma InitBack(index: u32, flags: u32, ext: Option<InitV4Extension>)
    requires ext.Some? ==> ExtFits(ext.value)
    ensures DecInit(LE(index, 4) + (LE(flags, 4) + match ext case Some(e) => [1] + EncExt(e, []) case None => []))
      == Parsed((Init(index, flags), InitExtras(ext)), [])
  {
    var t := match ext case Some(e) => [1] + EncExt(e, []) case None => [];
    GetU32Back(index, LE(flags, 4) + t);
    GetU32Back(flags, t);
    if ext.Some? {
      GetByteBack(1, EncExt(ext.value, []));
      ExtBack(ext.value, []);
    }
  }

  lemma TransferBack(to: AccountId, amount: u128, fee: u128)
    ensures DecTransfer(to + (LE(amount, 16) + (LE(fee, 16) + []))) == Parsed((Transfer(to, amount, fee), NoExtras), [])
  {
    GetBytesBack(to, LE(amount, 16) + (LE(fee, 16) + []));
    GetU128Back(amount, LE(fee, 16) + []);
    GetU128Back(fee, []);
  }

  lemma StakeBack(amount: u128)
    ensures DecStake(LE(amount, 16) + []) == Parsed((Stake(amount), NoExtras), [])
    ensures DecUnstake(LE(amount, 16) + []) == Parsed((Unstake(amount), NoExtras), [])
  {
    GetU128Back(amount, []);
  }

  lemma BurnBack(markAmount: u32, purpose: string, beneficiary: Option<AccountId>)
    requires ByteLength(purpose) <= U16_MAX
    ensures DecBurn(LE(markAmount, 4) + EncText(purpose, EncOptId(beneficiary, [])))
      == Parsed((BurnMark(markAmount, beneficiary), BurnExtras(purpose)), [])
  {
    GetU32Back(markAmount, EncText(purpose, EncOptId(beneficiary, [])));
    TextBack(purpose, EncOptId(beneficiary, []));
    OptIdBack(beneficiary, []);
  }

  lemma ExportBack(to: AccountId, domain: u16, amount: u128, fee: u128)
    ensures DecExport(to + (LE(domain, 2) + (LE(amount, 16) + (LE(fee, 16) + []))))
      == Parsed((Export(to, domain, amount, fee), NoExtras), [])
  {
    var t := LE(amount, 16) + (LE(fee, 16) + []);
    GetBytesBack(to, LE(domain, 2) + t);
    GetU16Back(domain, t);
    GetU128Back(amount, LE(fee, 16) + []);
    GetU128Back(fee, []);
  }

  lemma ImportBack(to: AccountId, amount: u128, fee: u128, exportId: Bytes32, p: Option<ExportProvenance>)
    ensures DecImport(to + (LE(amount, 16) + (LE(fee, 16) + (exportId + EncProvenance(p, [])))))
      == Parsed((Import(to, amount, exportId), ImportExtras(fee, p)), [])
  {
    var t := exportId + EncProvenance(p, []);
    GetBytesBack(to, LE(amount, 16) + (LE(fee, 16) + t));
    GetU128Back(amount, LE(fee, 16) + t);
    GetU128Back(fee, t);
    GetBytesBack(exportId, EncProvenance(p, []));
    ProvenanceBack(p, []);
  }

  lemma ClaimBack(phase: byte, root: Bytes32, sig: Bytes64)
    ensures DecClaim([phase] + (root + (sig + []))) == Parsed((ClaimIPv4Batch(phase, root, sig), NoExtras), [])
  {
  }

  lemma PolicyBack(target: AccountId, action: PolicyAction, fee: u128)
    ensures DecPolicyBody(target + EncAction(action, LE(fee, 16) + []))
      == Parsed((Policy(target, action, fee), NoExtras), [])
  {
    GetBytesBack(target, EncAction(action, LE(fee, 16) + []));
    ActionBack(action, LE(fee, 16) + []);
    GetU128Back(fee, []);
  }

  lemma InitDecodes(tx: SignedTx)
    requires tx.body.Init? && Fits(tx)
    ensures DecBody(EncBody(tx)) == Parsed((tx.body, ContentOf(tx).extras), [])
  {
    var Init(index, flags) := tx.body;
    InitTagged(LE(index, 4) + (LE(flags, 4) + match tx.initV4 case Some(e) => [1] + EncExt(e, []) case None => []));
    InitBack(index, flags, tx.initV4);
  }

  lemma BurnDecodes(tx: SignedTx)
    requires tx.body.BurnMark? && Fits(tx)
    ensures DecBody(EncBody(tx)) == Parsed((tx.body, ContentOf(tx).extras), [])
  {
    var BurnMark(markAmount, beneficiary) := tx.body;
    BurnTagged(LE(markAmount, 4) + EncText(SignedPurpose(tx), EncOptId(beneficiary, [])));
    BurnBack(markAmount, SignedPurpose(tx), beneficiary);
  }

  lemma ImportDecodes(tx: SignedTx)
    requires tx.body.Import?
    ensures DecBody(EncBody(tx)) == Parsed((tx.body, ContentOf(tx).extras), [])
  {
    var Import(to, amount, exportId) := tx.body;
    ImportTagged(
      to + (LE(amount, 16) + (LE(SignedImportFee(tx), 16) + (exportId + EncProvenance(tx.importProvenance, [])))));
    ImportBack(to, amount, SignedImportFee(tx), exportId, tx.importProvenance);
  }

  lemma PolicyDecodes(tx: SignedTx)
    requires tx.body.Policy?
    ensures DecBody(EncBody(tx)) == Parsed((tx.body, ContentOf(tx).extras), [])
  {
    var Policy(target, action, fee) := tx.body;
    PolicyPayloadDecodes(target, EncAction(action, LE(fee, 16) + []), action, fee);
  }

  lemma PolicyPayloadDecodes(target: AccountId, payload: seq<byte>, action: PolicyAction, fee: u128)
    requires payload == EncAction(action, LE(fee, 16) + [])
    ensures DecBody([9] + (target + payload)) == Parsed((Policy(target, action, fee), NoExtras), [])
  {
    PolicyTagged(target + payload);
    PolicyBack(target, action, fee);
  }

  lemma FlatDecodes(tx: SignedTx)
    requires tx.body.Transfer? || tx.body.Stake? || tx.body.Unstake? || tx.body.ClaimIPv4Batch? || tx.body.Export?
    ensures DecBody(EncBody(tx)) == Parsed((tx.body, ContentOf(tx).extras), [])
  {
    match tx.body
    case Transfer(to, amount, fee) =>
      TaggedBody(2, to + (LE(amount, 16) + (LE(fee, 16) + [])));
      TransferBack(to, amount, fee);
    case Stake(amount) =>
      TaggedBody(3, LE(amount, 16) + []);
      StakeBack(amount);
    case Unstake(amount) =>
      TaggedBody(4, LE(amount, 16) + []);
      StakeBack(amount);
    case ClaimIPv4Batch(phase, root, sig) =>
      TaggedBody(8, [phase] + (root + (sig + [])));
      ClaimBack(phase, root, sig);
    case Export(to, domain, amount, fee) =>
      TaggedBody(6, to + (LE(domain, 2) + (LE(amount, 16) + (LE(fee, 16) + []))));
      ExportBack(to, domain, amount, fee);
  }

  lemma BodyBack(tx: SignedTx)
    requires Fits(tx)
    ensures DecBody(EncBody(tx)) == Parsed((tx.body, ContentOf(tx).extras), [])
  {
    match tx.body
    case Init(_, _) => InitDecodes(tx);
    case BurnMark(_, _) => BurnDecodes(tx);
    case Import(_, _, _) => ImportDecodes(tx);
    case Policy(_, _, _) => PolicyDecodes(tx);
    case _ => FlatDecodes(tx);
  }

  lemma HeaderBack(tx: SignedTx)
    ensures DecHeader(EncTx(tx)) == Parsed((tx.domainCode, tx.signerPk, tx.derivationIndex, tx.nonce), EncBody(tx))
  {
    var t := LE(tx.derivationIndex, 4) + (LE(tx.nonce, 8) + EncBody(tx));
    GetBytesBack(TX_TAG, LE(tx.domainCode, 2) + (tx.signerPk + t));
    GetU16Back(tx.domainCode, tx.signerPk + t);
    GetBytesBack(tx.signerPk, t);
    GetU32Back(tx.derivationIndex, LE(tx.nonce, 8) + EncBody(tx));
    GetU64Back(tx.nonce, EncBody(tx));
  }

  lemma FittingDecodes(tx: SignedTx)
    requires Fits(tx)
    ensures DecTx(EncTx(tx)) == Some(ContentOf(tx))
  {
    HeaderBack(tx);
    BodyBack(tx);
  }

  // ----- the theorems -----

  /** Validation is what keeps the saturating prefixes honest. */
  lemma ValidFits(c: Crypto, tx: SignedTx, checkSig: bool)
    requires ValidateShape(c, tx, checkSig).Ok?
    ensures Fits(tx)
  {
  }

  /** The message of a shape-valid transaction decodes to everything that was signed. */
  lemma ValidDecodes(c: Crypto, tx: SignedTx, checkSig: bool)
    requires ValidateShape(c, tx, checkSig).Ok?
    ensures DecTx(EncTx(tx)) == Some(ContentOf(tx))
  {
    ValidFits(c, tx, checkSig);
    FittingDecodes(tx);
  }

  /** Unique decodability: shape-valid transactions have one message exactly when they sign one content. */
  lemma MessageIsInjective(c: Crypto, s: SignedTx, t: SignedTx)
    requires ValidateShape(c, s, false).Ok? && ValidateShape(c, t, false).Ok?
    ensures EncTx(s) == EncTx(t) <==> ContentOf(s) == ContentOf(t)
  {
    ValidDecodes(c, s, false);
    ValidDecodes(c, t, false);
    if ContentOf(s) == ContentOf(t) {
      SameContentSameMessage(s, t);
    }
  }

  lemma SameContentSameMessage(s: SignedTx, t: SignedTx)
    requires ContentOf(s) == ContentOf(t)
    ensures EncTx(s) == EncTx(t)
  {
  }

  /** Validation is needed: past 255 rows the encoder stops writing policies, so rows can be added to an
      unvalidated Init without changing its message. */
  lemma RowsPast255AreUnsigned(tx: SignedTx, ext: InitV4Extension, more: seq<InitPolicyEntry>)
    requires tx.body.Init? && tx.initV4 == Some(ext) && |ext.initialPolicies| == 255
    ensures EncTx(tx.(initV4 := Some(ext.(initialPolicies := ext.initialPolicies + more)))) == EncTx(tx)
  {
    var longer := ext.(initialPolicies := ext.initialPolicies + more);
    assert longer.initialPolicies[..255] == ext.initialPolicies[..255];
    assert EncPolicies(longer.initialPolicies, EncCosignPolicy(ext.cosignPolicy, []))
        == EncPolicies(ext.initialPolicies, EncCosignPolicy(ext.cosignPolicy, []));
    assert EncExtTail(longer, []) == EncExtTail(ext, []);
  }

  /** Transactions that hash alike sign alike, unless BLAKE3 collides on their two messages. */
  lemma TxHashBinds(c: Crypto, s: SignedTx, t: SignedTx)
    requires ValidateShape(c, s, false).Ok? && ValidateShape(c, t, false).Ok?
    requires CollisionFree(c.hash, {EncTx(s), EncTx(t)})
    ensures TxHash(c.hash, s) == TxHash(c.hash, t) <==> ContentOf(s) == ContentOf(t)
  {
    MessageIsInjective(c, s, t);
  }

  lemma MiddlePart(a: seq<byte>, middle: Bytes32, b: seq<byte>)
    requires |a| == 2
    ensures |a + (middle + b)| >= 34 && (a + (middle + b))[2..34] == middle
  {
  }

  /** Export ids are as unique as what was signed. */
  lemma ExportIdBinds(c: Crypto, s: SignedTx, t: SignedTx)
    requires ValidateShape(c, s, false).Ok? && ValidateShape(c, t, false).Ok?
    requires s.body.Export? && t.body.Export?
    requires CollisionFree(c.hash, {EncTx(s), EncTx(t), ExportIdInput(c.hash, s), ExportIdInput(c.hash, t)})
    ensures ExportId(c.hash, s) == ExportId(c.hash, t) <==> ContentOf(s) == ContentOf(t)
  {
    MessageIsInjective(c, s, t);
    var (x, y) := (ExportIdInput(c.hash, s), ExportIdInput(c.hash, t));
    if x == y {
      MiddlePart(LE(s.domainCode, 2), TxHash(c.hash, s), LE(0, 4) + LE(s.nonce, 8));
      MiddlePart(LE(t.domainCode, 2), TxHash(c.hash, t), LE(0, 4) + LE(t.nonce, 8));
    }
  }
}
