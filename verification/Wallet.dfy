/** Wallet header normalisation of wallet_read.rs. */
module Wallet {
  import opened Basics
  import opened Text
  import opened Hex
  import opened Domains
  import opened Transactions
  import opened AccountIds

  datatype BookEntry = AddressOnly(address: string) | WithLabel(address: string, name: Option<string>)
  {
    function WithAddress(a: string): BookEntry {
      match this
      case AddressOnly(_) => AddressOnly(a)
      case WithLabel(_, n) => WithLabel(a, n)
    }

    function Name(): Option<string> {
      match this
      case AddressOnly(_) => None
      case WithLabel(_, n) => n
    }
  }

  /** The header fields that normalisation reads or writes; `ignoredEntries` is not persisted. */
  datatype Header = Header(
    derivationIndex: u32,
    derivationPath: Option<string>,
    domain: u16,
    accountIdHex: Option<string>,
    accountIdHuman: string,
    addressBook: seq<BookEntry>,
    signingKeyHex: Option<string>,
    masterSeedHex: Option<string>,
    ignoredEntries: nat)

  datatype WalletError = BadPath | BadSeed | BadKey | BadHex | BadHuman | DomainMismatch | BadBookEntry(at: nat)

  /** Key derivation (SLIP-0010 and Ed25519) left uninterpreted: public keys from a seed and index, or a key. */
  datatype Keys = Keys(hash: Hasher, seedPk: (Bytes32, u32) -> Bytes32, keyPk: Bytes32 -> Bytes32)

  /** The domain tables, the bech32 library and key derivation. */
  datatype Codecs = Codecs(ix: DomainIndex, b: Bech32, keys: Keys)

  // ----- identity -----

  /** A field that is present and not blank, trimmed. */
  function NonBlank(field: Option<string>): Option<string> {
    match field
    case None => None
    case Some(text) => if Trim(text) == [] then None else Some(Trim(text))
  }

  /** Digits, with an optional plus sign, that fit 32 bits. */
  function ParseU32(text: string): Option<u32> {
    var digits := if text != [] && text[0] == '+' then text[1..] else text;
    if digits == [] || !AllDigits(digits) || DecimalValue(digits) > U32_MAX then None else Some(DecimalValue(digits))
  }

  function DerivationIndex(h: Header): Result<u32, WalletError> {
    match NonBlank(h.derivationPath)
    case None => Ok(h.derivationIndex)
    case Some(path) =>
      match StripPrefix(path, "m/0/")
      case None => Err(BadPath)
      case Some(index) => match ParseU32(index) case Some(n) => Ok(n) case None => Err(BadPath)
  }

  function Hex32(text: string): Option<Bytes32> {
    match HexDecode(text)
    case Some(bytes) => if |bytes| == 32 then Some(bytes) else None
    case None => None
  }

  /** The id that the wallet's own secrets determine, if it has any in the clear: the seed comes first. */
  function IdFromSource(keys: Keys, h: Header): Result<Option<AccountId>, WalletError> {
    match DerivationIndex(h)
    case Err(e) => Err(e)
    case Ok(index) =>
      match NonBlank(h.masterSeedHex)
      case Some(text) =>
        (match Hex32(text)
         case None => Err(BadSeed)
         case Some(seed) => Ok(Some(AccountIdOf(keys.hash, keys.seedPk(seed, index), index))))
      case None =>
        match NonBlank(h.signingKeyHex)
        case Some(text) =>
          (match Hex32(text)
           case None => Err(BadKey)
           case Some(key) => Ok(Some(AccountIdOf(keys.hash, keys.keyPk(key), index))))
        case None => Ok(None)
  }

  function InDomain(h: Header, id: AccountId): Result<AccountId, WalletError> {
    if DomainOf(id) == h.domain then Ok(id) else Err(WalletError.DomainMismatch)
  }

  /** The wallet's identity: its secrets, else the hexadecimal id, else the printed one. */
  function ResolveId(c: Codecs, h: Header): Result<AccountId, WalletError> { Identify(c, IdFromSource(c.keys, h), h) }

  function Identify(c: Codecs, source: Result<Option<AccountId>, WalletError>, h: Header): Result<AccountId,
                    WalletError>
  {
    match source
    case Err(e) => Err(e)
    case Ok(Some(id)) => InDomain(h, id)
    case Ok(None) =>
      match NonBlank(h.accountIdHex)
      case Some(text) =>
        (match ParseAccountId(c.ix, c.b, text) case Some(id) => InDomain(h, id) case None => Err(BadHex))
      case None =>
        match ParseForMigration(c.ix, c.b, Trim(h.accountIdHuman))
        case Ok(id) => InDomain(h, id)
        case Err(_) => Err(BadHuman)
  }

  // ----- the address book -----

  predicate IsLegacyPretty(address: string) { PRETTY_PREFIX <= Trim(address) }

  function EntryId(c: Codecs, e: BookEntry): Result<AccountId, ParseError> {
    ParseForMigration(c.ix, c.b, Trim(e.address))
  }

  /** What becomes of one entry: dropped in the old printed form, refused, or kept in canonical form. */
  datatype Verdict = Drop | Refuse | Keep(canonical: string)

  function Judge(c: Codecs, e: BookEntry): Verdict {
    if IsLegacyPretty(e.address) then Drop
    else
      match EntryId(c, e)
      case Err(_) => Refuse
      case Ok(id) => Keep(ToBech32(c.b, id))
  }

  type Judgement = BookEntry -> Verdict

  function JudgeBy(c: Codecs): Judgement { e => Judge(c, e) }

  datatype BookOut = BookOut(kept: seq<BookEntry>, changed: bool, ignored: nat)

  /** The book, entry by entry; `at` counts entries for error reports. */
  function NormalizeBook(judge: Judgement, entries: seq<BookEntry>, at: nat): Result<BookOut, WalletError>
    decreases |entries|
  {
    if entries == [] then Ok(BookOut([], false, 0))
    else
      var e := entries[0];
      match judge(e)
      case Refuse => Err(BadBookEntry(at))
      case Drop =>
        (match NormalizeBook(judge, entries[1..], at + 1)
         case Err(e) => Err(e)
         case Ok(out) => Ok(BookOut(out.kept, true, out.ignored + 1)))
      case Keep(canonical) =>
        match NormalizeBook(judge, entries[1..], at + 1)
        case Err(e) => Err(e)
        case Ok(out) =>
          Ok(BookOut([e.WithAddress(canonical)] + out.kept, out.changed || Trim(e.address) != canonical, out.ignored))
  }

  /** What the loop has so far, followed by what the rest gives. */
  function Extend(kept: seq<BookEntry>, changed: bool, ignored: nat, rest: Result<BookOut,
                  WalletError>): Result<BookOut, WalletError>
  {
    match rest
    case Err(e) => Err(e)
    case Ok(out) => Ok(BookOut(kept + out.kept, changed || out.changed, ignored + out.ignored))
  }

  method NormalizeAddressBookEntries(c: Codecs, entries: seq<BookEntry>) returns (r: Result<BookOut, WalletError>)
    ensures r == NormalizeBook(JudgeBy(c), entries, 0)
  {
    r := NormalizeEntries(JudgeBy(c), entries);
  }

  method NormalizeEntries(judge: Judgement, entries: seq<BookEntry>) returns (r: Result<BookOut, WalletError>)
    ensures r == NormalizeBook(judge, entries, 0)
  {
    var changed, ignored, normalized := false, 0, [];
    var idx := 0;
    assert entries[0..] == entries;
    ExtendNothing(NormalizeBook(judge, entries, 0));
    while idx < |entries|
      invariant 0 <= idx <= |entries| && |normalized| + ignored == idx
      invariant ignored > 0 ==> changed
      invariant Extend(normalized, changed, ignored, NormalizeBook(judge, entries[idx..], idx))
        == NormalizeBook(judge, entries, 0)
    {
      var entry := entries[idx];
      assert entries[idx..][1..] == entries[idx + 1..];
      match judge(entry) {
      case Drop =>
        ignored := ignored + 1;
        changed := true;
      case Refuse =>
        return Err(BadBookEntry(idx));
      case Keep(canonical) =>
        ExtendByOne(normalized, entry.WithAddress(canonical), NormalizeBook(judge, entries[idx + 1..], idx + 1));
        if Trim(entry.address) != canonical {
          changed := true;
        }
        normalized := normalized + [entry.WithAddress(canonical)];
      }
      idx := idx + 1;
    }
    assert entries[idx..] == [];
    assert normalized + [] == normalized;
    if |normalized| != |entries| {
      changed := true;
    }
    r := Ok(BookOut(normalized, changed, ignored));
  }

  lemma ExtendNothing(r: Result<BookOut, WalletError>)
    ensures Extend([], false, 0, r) == r
  {
    if r.Ok? {
      assert [] + r.value.kept == r.value.kept;
    }
  }

  lemma ExtendByOne(before: seq<BookEntry>, e: BookEntry, rest: Result<BookOut, WalletError>)
    ensures rest.Ok? ==> before + ([e] + rest.value.kept) == before + [e] + rest.value.kept
  {
  }

  // ----- the header -----

  function Normalize(c: Codecs, h: Header): Result<(Header, bool), WalletError> {
    match ResolveId(c, h)
    case Err(e) => Err(e)
    case Ok(id) =>
      var human := Render(c.ix, id);
      match NormalizeBook(JudgeBy(c), h.addressBook, 0)
      case Err(e) => Err(e)
      case Ok(book) =>
        Ok((h.(accountIdHuman := human, addressBook := book.kept, ignoredEntries := book.ignored),
            h.accountIdHuman != human || book.changed))
  }

  method NormalizeWalletHeader(c: Codecs, header: Header) returns (r: Result<(Header, bool), WalletError>)
    ensures r == Normalize(c, header)
  {
    var wallet, changed := header, false;
    var id := ResolveId(c, wallet);
    if id.Err? {
      return Err(id.error);
    }
    var normalized := Render(c.ix, id.value);
    if wallet.accountIdHuman != normalized {
      wallet := wallet.(accountIdHuman := normalized);
      changed := true;
    }
    var book := NormalizeAddressBookEntries(c, wallet.addressBook);
    if book.Err? {
      return Err(book.error);
    }
    wallet := wallet.(addressBook := book.value.kept, ignoredEntries := book.value.ignored);
    if book.value.changed {
      changed := true;
    }
    r := Ok((wallet, changed));
  }
}
