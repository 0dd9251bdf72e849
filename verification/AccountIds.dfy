/** The account-id codecs of types.rs: the printer, the general parser, and the two strict parsers. */
module AccountIds {
  import opened Basics
  import opened Text
  import opened Hex
  import opened Domains
  import opened Transactions

  // ----- bech32m, as a foreign codec -----

  datatype Bech32Parts = Bech32Parts(hrp: string, isBech32m: bool, payload: Option<seq<byte>>)

  /** The bech32 library: encoding under the fixed prefix and bech32m, and decoding. */
  datatype Bech32 = Bech32(encode: seq<byte> -> string, decode: string -> Option<Bech32Parts>)

  const BECH32DX_HRP: string := "pwm"
  const BECH32DX_VERSION: byte := 1
  const BECH32DX_PAYLOAD_LEN: nat := 38
  const LEGACY_PREFIX: string := "PWMv0-"
  const PRETTY_PREFIX: string := "pwm1-"

  /** The data alphabet of BIP-173: no "1", no "b", "i" or "o", and nothing but letters and digits. */
  predicate InCharset(c: char) {
    ('0' <= c <= '9' && c != '1') || ('a' <= c <= 'z' && c !in "bio") || ('A' <= c <= 'Z' && c !in "BIO")
  }

  /** A text split where bech32 splits it: at its last "1", before nothing but data characters. */
  ghost predicate SplitsAt(s: string, i: nat, hrp: string) {
    && i < |s| && s[i] == '1' && Lower(s[..i]) == hrp
    && forall k :: i < k < |s| ==> InCharset(s[k])
  }

  /** What is assumed of the library, from BIP-173 and BIP-350. */
  ghost predicate Lawful(b: Bech32) {
    && (forall p :: b.decode(b.encode(p)) == Some(Bech32Parts(BECH32DX_HRP, true, Some(p))))
    && (forall p :: |b.encode(p)| > 4 && b.encode(p)[..4] == BECH32DX_HRP + "1")
    && (forall s :: b.decode(s).Some? ==> exists i :: SplitsAt(s, i, b.decode(s).value.hrp))
  }

  function DomainRaw(id: AccountId): u32 { 0x100 * (id[0] as int) + id[1] }

  /** Version, flags, the domain again, and the id. */
  function Bech32Payload(id: AccountId): seq<byte> { [BECH32DX_VERSION, 0] + BE(DomainRaw(id), 4) + id }

  function ToBech32(b: Bech32, id: AccountId): string { b.encode(Bech32Payload(id)) }

  function ParseBech32(b: Bech32, s: string): Option<AccountId> {
    match b.decode(s)
    case None => None
    case Some(parts) =>
      if parts.hrp != BECH32DX_HRP || !parts.isBech32m || parts.payload.None? then None
      else
        var p := parts.payload.value;
        if |p| != BECH32DX_PAYLOAD_LEN || p[0] != BECH32DX_VERSION then None else Some(p[6..])
  }

  // ----- printing -----

  /** A domain label, or the domain in hexadecimal behind a dollar sign; and whether it was a label. */
  function FormatDomain(ix: DomainIndex, raw: u32): (string, bool) {
    match ix.LookupForDisplay(raw)
    case Some(e) => (e.name, true)
    case None => ("$" + HexNumber(raw, if raw <= 0xFFFF then 4 else 5), false)
  }

  /** The domain part of the printed form: country labels carry the low byte, unknown domains a "!". */
  function DomainHint(ix: DomainIndex, id: AccountId): string {
    var (text, known) := FormatDomain(ix, DomainRaw(id));
    if !known then text + "!"
    else if CategoryForRaw(DomainRaw(id)) == Some(Regulatory) then text + "/" + HexNumber(id[1], 2)
    else text
  }

  function FlagsText(id: AccountId): string { HexNumber(FromBE(id[2..6]), 8) }

  function Render(ix: DomainIndex, id: AccountId): string {
    PRETTY_PREFIX + (DomainHint(ix, id) + "-f" + (FlagsText(id) + "-t" + HexEncode(id[6..])))
  }

  // ----- parsing -----

  function StripPrefix(s: string, prefix: string): Option<string> {
    if prefix <= s then Some(s[|prefix|..]) else None
  }

  /** The hexadecimal domain form: a dollar sign, four or five digits, and perhaps a "!". */
  function ParseDollarDomain(text: string): Option<u32> {
    var body := if text != [] && text[|text| - 1] == '!' then text[..|text| - 1] else text;
    match StripPrefix(body, "$")
    case None => None
    case Some(hex) =>
      if !(|hex| == 4 || |hex| == 5) || !AllHex(hex) then None
      else
        HexValueBound(hex);
        HexWidths();
        Some(HexValue(hex))
  }

  function ParsePrettyDomain(ix: DomainIndex, text: string): Option<u32> {
    match SplitOnce(text, '/')
    case Some((name, lo)) =>
      if |lo| != 2 || !AllHex(lo) then None
      else
        (match ix.LookupByLabel(name)
         case None => None
         case Some(e) =>
           HexValueBound(lo);
           HexWidths();
           Some(e.raw / 0x100 % 0x100 * 0x100 + HexValue(lo)))
    case None =>
      match ix.LookupByLabel(text)
      case Some(e) => Some(e.raw)
      case None => ParseDollarDomain(text)
  }

  function ParsePretty(ix: DomainIndex, s: string): Option<AccountId> {
    match StripPrefix(s, PRETTY_PREFIX)
    case None => None
    case Some(rest) =>
      match SplitOnce2(rest, '-', 'f')
      case None => None
      case Some((domain, afterDomain)) =>
        match SplitOnce2(afterDomain, '-', 't')
        case None => None
        case Some((flags, tail)) => ParsePrettyParts(ix, domain, flags, tail)
  }

  function ParsePrettyParts(ix: DomainIndex, domain: string, flags: string, tail: string): Option<AccountId> {
    if |flags| != 8 || !AllHex(flags) || |tail| != 52 || !AllHex(tail) then None
    else
      match ParsePrettyDomain(ix, domain)
      case None => None
      case Some(raw) =>
        if raw > U16_MAX then None
        else Some(BE(raw, 2) + BE(HexValue(flags), 4) + HexDecode(tail).value)
  }

  /** The general parser: bech32m, the printed form, then the legacy hexadecimal forms. */
  function ParseAccountId(ix: DomainIndex, b: Bech32, input: string): Option<AccountId> {
    var s := Trim(input);
    match ParseBech32(b, s)
    case Some(id) => Some(id)
    case None =>
      match ParsePretty(ix, s)
      case Some(id) => Some(id)
      case None => if PRETTY_PREFIX <= s then None else ParseLegacy(b, s)
  }

  /** Old texts may carry a dollar suffix, the legacy prefix, or neither. */
  function ParseLegacy(b: Bech32, s: string): Option<AccountId> {
    var head := match SplitOnce(s, '$') case Some((h, _)) => h case None => s;
    match ParseBech32(b, head)
    case Some(id) => Some(id)
    case None =>
      var hex := match StripPrefix(head, LEGACY_PREFIX) case Some(rest) => rest case None => head;
      match HexDecode(hex)
      case Some(bytes) => if |bytes| == 32 then Some(bytes) else None
      case None => None
  }

  datatype ParseError = AmbiguousDomain(userInput: bool) | Malformed

  /** The domain part of a text that looks like the printed form. */
  function PrettyDomainPart(s: string): Option<string> {
    match StripPrefix(s, PRETTY_PREFIX)
    case None => None
    case Some(rest) =>
      match SplitOnce2(rest, '-', 'f')
      case Some((domain, _)) => Some(domain)
      case None => None
  }

  /** A country label without its low byte does not determine a domain. */
  predicate Ambiguous(ix: DomainIndex, domain: string) {
    '/' !in domain
    && match ix.LookupByLabel(domain)
      case Some(e) => CategoryForRaw(e.raw) == Some(Regulatory)
      case None => false
  }

  /** The strict parsers for user input and for migration differ only in the error they report. */
  function ParseStrict(ix: DomainIndex, b: Bech32, input: string, userInput: bool): Result<AccountId, ParseError> {
    var s := Trim(input);
    match PrettyDomainPart(s)
    case Some(domain) =>
      if Ambiguous(ix, domain) then Err(AmbiguousDomain(userInput)) else ParseOrMalformed(ix, b, s)
    case None => ParseOrMalformed(ix, b, s)
  }

  function ParseOrMalformed(ix: DomainIndex, b: Bech32, s: string): Result<AccountId, ParseError> {
    match ParseAccountId(ix, b, s)
    case Some(id) => Ok(id)
    case None => Err(Malformed)
  }

  function ParseForUserInput(ix: DomainIndex, b: Bech32, input: string): Result<AccountId, ParseError> {
    ParseStrict(ix, b, input, true)
  }

  function ParseForMigration(ix: DomainIndex, b: Bech32, input: string): Result<AccountId, ParseError> {
    ParseStrict(ix, b, input, false)
  }
}
