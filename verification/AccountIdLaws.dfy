/** Every printed account id is read back, by all three parsers. */
module AccountIdLaws {
  import opened Basics
  import opened Text
  import opened Hex
  import opened Domains
  import opened Transactions
  import opened AccountIds

  // ----- what the bech32 attempt refuses -----

  lemma DecodedPrefix(b: Bech32, s: string) returns (i: nat)
    requires Lawful(b) && ParseBech32(b, s).Some?
    ensures i == 3 && SplitsAt(s, 3, BECH32DX_HRP)
    ensures LowerChar(s[0]) == 'p'
  {
    i :| SplitsAt(s, i, b.decode(s).value.hrp);
    assert |Lower(s[..i])| == i;
    assert Lower(s[..i])[0] == LowerChar(s[..i][0]);
  }

  /** Nothing that starts "pwm1-" is bech32m: the data part would start with a dash. */
  lemma PrettyIsNotBech32(b: Bech32, s: string)
    requires Lawful(b) && PRETTY_PREFIX <= s
    ensures ParseBech32(b, s) == None
  {
    assert s[4] == '-';
    if ParseBech32(b, s).Some? {
      var i := DecodedPrefix(b, s);
    }
  }

  /** Nor is anything that starts with a hexadecimal digit, or with the legacy prefix. */
  lemma HexIsNotBech32(b: Bech32, s: string)
    requires Lawful(b) && s != [] && IsHex(s[0])
    ensures ParseBech32(b, s) == None
  {
  }

  lemma LegacyIsNotBech32(b: Bech32, s: string)
    requires Lawful(b) && LEGACY_PREFIX <= s
    ensures ParseBech32(b, s) == None
  {
  }

  // ----- the domain part -----

  lemma HexHasNo(s: string, c: char)
    requires AllHex(s) && !IsHex(c)
    ensures c !in s
  {
  }

  lemma DomainBytes(id: AccountId)
    ensures BE(DomainRaw(id), 2) == id[..2]
    ensures DomainRaw(id) <= U16_MAX && DomainRaw(id) / 0x100 == id[0] && DomainRaw(id) % 0x100 == id[1]
  {
  }

  lemma LowByteText(id: AccountId)
    ensures HexValue(HexNumber(id[1], 2)) == id[1]
  {
    HexWidths();
    HexNumberValue(id[1], 2);
  }

  ghost predicate HintOk(ix: DomainIndex, hint: string, raw: u32) {
    '-' !in hint && ParsePrettyDomain(ix, hint) == Some(raw) && !Ambiguous(ix, hint)
  }

  lemma SlashDomain(ix: DomainIndex, text: string, name: string, lo: string)
    requires SplitOnce(text, '/') == Some((name, lo)) && AllHex(lo) && |lo| == 2
    requires ix.LookupByLabel(name).Some?
    ensures ParsePrettyDomain(ix, text) == Some(ix.LookupByLabel(name).value.raw / 0x100 % 0x100 * 0x100 + HexValue(lo))
  {
  }

  lemma CountryText(ix: DomainIndex, name: string, lo: string)
    requires '/' !in name && '-' !in name && ix.LookupByLabel(name).Some? && AllHex(lo) && |lo| == 2
    ensures var hint := name + ['/'] + lo;
      '-' !in hint && '/' in hint
      && ParsePrettyDomain(ix, hint) == Some(ix.LookupByLabel(name).value.raw / 0x100 % 0x100 * 0x100 + HexValue(lo))
  {
    HexHasNo(lo, '-');
    SplitOnceAt(name, '/', lo);
    SlashDomain(ix, name + ['/'] + lo, name, lo);
  }

  lemma CountryDisplay(ix: DomainIndex, id: AccountId) returns (name: string)
    requires IndexOk(ix) && 0x0300 <= DomainRaw(id) <= 0xC5FF
    ensures DomainHint(ix, id) == name + ['/'] + HexNumber(id[1], 2)
    ensures '/' !in name && '-' !in name
    ensures ix.LookupByLabel(name).Some? && ix.LookupByLabel(name).value.raw / 0x100 % 0x100 == id[0]
  {
    var raw := DomainRaw(id);
    var k := raw / 0x100 - FIRST_HI;
    DomainBytes(id);
    RegulatoryDisplay(ix, raw);
    assert RowOk(ix.regs[k], FIRST_HI + k);
    RegulatoryLabel(ix, k);
    name := ix.regs[k].name;
  }

  lemma CountryHint(ix: DomainIndex, id: AccountId)
    requires IndexOk(ix) && 0x0300 <= DomainRaw(id) <= 0xC5FF
    ensures HintOk(ix, DomainHint(ix, id), DomainRaw(id))
  {
    var name := CountryDisplay(ix, id);
    LowByteText(id);
    CountryText(ix, name, HexNumber(id[1], 2));
  }

  lemma LabelHint(ix: DomainIndex, id: AccountId)
    requires IndexOk(ix) && !(0x0300 <= DomainRaw(id) <= 0xC5FF) && ix.LookupForDisplay(DomainRaw(id)).Some?
    ensures HintOk(ix, DomainHint(ix, id), DomainRaw(id))
  {
    OtherDisplay(ix, DomainRaw(id));
  }

  lemma DollarText(raw: u32)
    requires raw <= U16_MAX
    ensures var text := "$" + HexNumber(raw, 4) + "!";
      ParseDollarDomain(text) == Some(raw) && '-' !in text && '/' !in text && Trimmed(text)
  {
    var hex := HexNumber(raw, 4);
    var text := "$" + hex + "!";
    HexWidths();
    HexNumberValue(raw, 4);
    HexHasNo(hex, '-');
    HexHasNo(hex, '/');
    assert text[..|text| - 1] == "$" + hex;
    assert ("$" + hex)[1..] == hex;
  }

  lemma UnknownHint(ix: DomainIndex, id: AccountId)
    requires IndexOk(ix) && ix.LookupForDisplay(DomainRaw(id)).None?
    ensures HintOk(ix, DomainHint(ix, id), DomainRaw(id))
  {
    var raw := DomainRaw(id);
    DomainBytes(id);
    DollarText(raw);
    DollarIsNoLabel(ix, "$" + HexNumber(raw, 4) + "!");
  }

  /** In every domain the printed domain part is read back, and is never ambiguous. */
  lemma HintParses(ix: DomainIndex, id: AccountId)
    requires IndexOk(ix)
    ensures HintOk(ix, DomainHint(ix, id), DomainRaw(id))
  {
    if ix.LookupForDisplay(DomainRaw(id)).None? {
      UnknownHint(ix, id);
    } else if 0x0300 <= DomainRaw(id) <= 0xC5FF {
      CountryHint(ix, id);
    } else {
      LabelHint(ix, id);
    }
  }

  // ----- the printed form -----

  lemma FlagsBack(id: AccountId)
    ensures AllHex(FlagsText(id)) && |FlagsText(id)| == 8 && BE(HexValue(FlagsText(id)), 4) == id[2..6]
  {
    BEOfFromBE(id[2..6]);
    WidthBounds();
    HexWidths();
    HexNumberValue(FromBE(id[2..6]), 8);
  }

  lemma PartsParse(ix: DomainIndex, id: AccountId, hint: string)
    requires HintOk(ix, hint, DomainRaw(id))
    ensures ParsePrettyParts(ix, hint, FlagsText(id), HexEncode(id[6..])) == Some(id)
  {
    FlagsBack(id);
    DomainBytes(id);
    HexRoundTrip(id[6..]);
    assert id == id[..2] + id[2..6] + id[6..];
  }

  lemma PrettySplits(hint: string, flags: string, tail: string)
    requires '-' !in hint && AllHex(flags)
    ensures var rest := hint + "-f" + (flags + "-t" + tail);
      && SplitOnce2(rest, '-', 'f') == Some((hint, flags + "-t" + tail))
      && SplitOnce2(flags + "-t" + tail, '-', 't') == Some((flags, tail))
  {
    HexHasNo(flags, '-');
    SplitOnce2At(hint, '-', 'f', flags + "-t" + tail);
    SplitOnce2At(flags, '-', 't', tail);
  }

  lemma RenderedShape(ix: DomainIndex, id: AccountId)
    requires IndexOk(ix)
    ensures var s := Render(ix, id);
      && PRETTY_PREFIX <= s && Trim(s) == s
      && ParsePretty(ix, s) == Some(id)
      && PrettyDomainPart(s) == Some(DomainHint(ix, id))
  {
    var (hint, flags, tail) := (DomainHint(ix, id), FlagsText(id), HexEncode(id[6..]));
    var rest := hint + "-f" + (flags + "-t" + tail);
    var s := Render(ix, id);
    HintParses(ix, id);
    PrettySplits(hint, flags, tail);
    PartsParse(ix, id, hint);
    assert s[|PRETTY_PREFIX|..] == rest;
    assert s[|s| - 1] == tail[|tail| - 1];
    TrimFixed(s);
  }

  /** The printed form of every account id is accepted by the general, user-input and migration parsers,
      in every domain, and all three return that id. */
  lemma RenderRoundTrip(ix: DomainIndex, b: Bech32, id: AccountId)
    requires IndexOk(ix) && Lawful(b)
    ensures ParseAccountId(ix, b, Render(ix, id)) == Some(id)
    ensures ParseForUserInput(ix, b, Render(ix, id)) == Ok(id)
    ensures ParseForMigration(ix, b, Render(ix, id)) == Ok(id)
  {
    RenderedShape(ix, id);
    HintParses(ix, id);
    PrettyIsNotBech32(b, Render(ix, id));
  }

  /** The printed form: the prefix, the domain part, eight upper-case digits that spell the flag word, and
      52 lower-case digits that spell the rest of the id. */
  lemma RenderedText(ix: DomainIndex, id: AccountId) returns (flags: string, tail: string)
    ensures Render(ix, id) == "pwm1-" + (DomainHint(ix, id) + "-f" + (flags + "-t" + tail))
    ensures |flags| == 8 && AllHex(flags) && HexValue(flags) == FlagWord(id)
    ensures |tail| == 52 && HexDecode(tail) == Some(id[6..])
    ensures forall c :: c in flags ==> '0' <= c <= '9' || 'A' <= c <= 'F'
    ensures forall c :: c in tail ==> '0' <= c <= '9' || 'a' <= c <= 'f'
  {
    flags, tail := FlagsText(id), HexEncode(id[6..]);
    FlagNumber(id);
    HexNumberUpper(FromBE(id[2..6]), 8);
    HexEncodeLower(id[6..]);
    HexRoundTrip(id[6..]);
  }

  lemma FlagNumber(id: AccountId)
    ensures FromBE(id[2..6]) == FlagWord(id)
    ensures AllHex(FlagsText(id)) && HexValue(FlagsText(id)) == FlagWord(id)
  {
    var s := id[2..6];
    assert s[..3] == id[2..5] && s[..3][..2] == id[2..4] && s[..3][..2][..1] == id[2..3];
    assert FromBE(s[..3]) == 256 * FromBE(id[2..4]) + id[4];
    assert FromBE(id[2..4]) == 256 * FromBE(id[2..3]) + id[3];
    assert FromBE(id[2..3]) == id[2];
    HexWidths();
    HexNumberValue(FromBE(id[2..6]), 8);
  }

  /** The canonical payload: version one, no flags, the domain once more, and the id. */
  lemma PayloadFields(id: AccountId)
    ensures var p := Bech32Payload(id);
      |p| == 38 && p[0] == 1 && p[1] == 0 && p[2] == 0 && p[3] == 0 && p[4] == id[0] && p[5] == id[1] && p[6..] == id
  {
    DomainBytes(id);
    var (raw, hi) := (DomainRaw(id), BE(DomainRaw(id), 2));
    assert BE(raw, 4) == BE(raw / 256, 3) + [raw % 256];
    assert BE(raw / 256, 3) == BE(raw / 256 / 256, 2) + [raw / 256 % 256];
    assert raw / 256 / 256 == 0 && BE(0, 2) == BE(0, 1) + [0] && BE(0, 1) == BE(0, 0) + [0];
    var p := Bech32Payload(id);
    assert p[6..] == id;
  }

  /** So printing never confuses two ids. */
  lemma RenderInjective(ix: DomainIndex, b: Bech32, x: AccountId, y: AccountId)
    requires IndexOk(ix) && Lawful(b) && Render(ix, x) == Render(ix, y)
    ensures x == y
  {
    RenderRoundTrip(ix, b, x);
    RenderRoundTrip(ix, b, y);
  }

  /** A country label alone leaves the low byte of the domain open: the strict parsers refuse it as ambiguous,
      and the general one takes the low byte for zero. */
  lemma CountryAloneRefused(ix: DomainIndex, b: Bech32, k: nat, flags: string, tail: string, userInput: bool)
    requires IndexOk(ix) && Lawful(b) && k < |ix.regs|
    requires |flags| == 8 && AllHex(flags) && |tail| == 52 && AllHex(tail)
    ensures var s := PRETTY_PREFIX + (ix.regs[k].name + "-f" + (flags + "-t" + tail));
      && ParseStrict(ix, b, s, userInput) == Err(AmbiguousDomain(userInput))
      && ParseAccountId(ix, b, s)
         == Some(BE(0x100 * (FIRST_HI + k), 2) + BE(HexValue(flags), 4) + HexDecode(tail).value)
  {
    var name := ix.regs[k].name;
    var s := PRETTY_PREFIX + (name + "-f" + (flags + "-t" + tail));
    CountryDomain(ix, k);
    PrettyShape(ix, name, flags, tail, s);
    CountryParts(ix, k, flags, tail);
    PrettyIsNotBech32(b, s);
    RefusedAlone(ix, b, s, name, userInput);
  }

  lemma CountryDomain(ix: DomainIndex, k: nat)
    requires IndexOk(ix) && k < |ix.regs|
    ensures var name := ix.regs[k].name;
      '-' !in name && Ambiguous(ix, name) && ParsePrettyDomain(ix, name) == Some(0x100 * (FIRST_HI + k))
  {
    assert RowOk(ix.regs[k], FIRST_HI + k);
    RegulatoryLabel(ix, k);
    NoSlash(ix.regs[k].name);
  }

  lemma CountryParts(ix: DomainIndex, k: nat, flags: string, tail: string)
    requires IndexOk(ix) && k < |ix.regs| && |flags| == 8 && AllHex(flags) && |tail| == 52 && AllHex(tail)
    ensures HexDecode(tail).Some?
    ensures ParsePrettyParts(ix, ix.regs[k].name, flags, tail)
      == Some(BE(0x100 * (FIRST_HI + k), 2) + BE(HexValue(flags), 4) + HexDecode(tail).value)
  {
    CountryDomain(ix, k);
  }

  lemma RefusedAlone(ix: DomainIndex, b: Bech32, s: string, name: string, userInput: bool)
    requires Trim(s) == s && PrettyDomainPart(s) == Some(name) && Ambiguous(ix, name) && ParseBech32(b, s) == None
    ensures ParseStrict(ix, b, s, userInput) == Err(AmbiguousDomain(userInput))
    ensures ParsePretty(ix, s).Some? ==> ParseAccountId(ix, b, s) == ParsePretty(ix, s)
  {
  }

  lemma PrettyShape(ix: DomainIndex, name: string, flags: string, tail: string, s: string)
    requires '-' !in name && AllHex(flags) && |tail| == 52 && AllHex(tail)
    requires s == PRETTY_PREFIX + (name + "-f" + (flags + "-t" + tail))
    ensures PRETTY_PREFIX <= s && Trim(s) == s && PrettyDomainPart(s) == Some(name)
    ensures ParsePretty(ix, s) == ParsePrettyParts(ix, name, flags, tail)
  {
    PrettySplits(name, flags, tail);
    assert s[|PRETTY_PREFIX|..] == name + "-f" + (flags + "-t" + tail);
    assert s[|s| - 1] == tail[51];
    TrimFixed(s);
  }

  lemma NoSlash(s: string)
    requires '/' !in s
    ensures SplitOnce(s, '/').None?
  {
  }

  /** With the tables as shipped. */
  lemma ShippedRoundTrip(b: Bech32, id: AccountId)
    requires Lawful(b)
    ensures ParseAccountId(ShippedIndex(), b, Render(ShippedIndex(), id)) == Some(id)
    ensures ParseForUserInput(ShippedIndex(), b, Render(ShippedIndex(), id)) == Ok(id)
    ensures ParseForMigration(ShippedIndex(), b, Render(ShippedIndex(), id)) == Ok(id)
  {
    ShippedIndexOk();
    RenderRoundTrip(ShippedIndex(), b, id);
  }

  // ----- the other forms -----

  ghost predicate AllAccept(ix: DomainIndex, b: Bech32, text: string, id: AccountId) {
    && ParseAccountId(ix, b, text) == Some(id)
    && ParseForUserInput(ix, b, text) == Ok(id)
    && ParseForMigration(ix, b, text) == Ok(id)
  }

  /** A text without the printed prefix goes the same way through all three parsers. */
  lemma StrictIsGeneral(ix: DomainIndex, b: Bech32, text: string, id: AccountId)
    requires Trim(text) == text && !(PRETTY_PREFIX <= text) && ParseAccountId(ix, b, text) == Some(id)
    ensures AllAccept(ix, b, text, id)
  {
  }

  /** 64 hexadecimal digits, in either case, are the id they spell. */
  lemma HexForm(ix: DomainIndex, b: Bech32, hex: string)
    requires Lawful(b) && AllHex(hex) && |hex| == 64
    ensures HexDecode(hex).Some? && |HexDecode(hex).value| == 32
    ensures AllAccept(ix, b, hex, HexDecode(hex).value)
  {
    assert IsHex(hex[0]) && IsHex(hex[63]);
    TrimFixed(hex);
    HexIsNotBech32(b, hex);
    HexHasNo(hex, '$');
    assert !(PRETTY_PREFIX <= hex) by { assert PRETTY_PREFIX[0] == 'p'; }
    assert !(LEGACY_PREFIX <= hex) by { assert LEGACY_PREFIX[0] == 'P'; }
    StrictIsGeneral(ix, b, hex, HexDecode(hex).value);
  }

  /** So are they behind the legacy prefix. */
  lemma LegacyForm(ix: DomainIndex, b: Bech32, hex: string)
    requires Lawful(b) && AllHex(hex) && |hex| == 64
    ensures HexDecode(hex).Some? && |HexDecode(hex).value| == 32
    ensures AllAccept(ix, b, LEGACY_PREFIX + hex, HexDecode(hex).value)
  {
    var s := LEGACY_PREFIX + hex;
    assert s[0] == 'P' && s[|s| - 1] == hex[63] && IsHex(hex[63]);
    TrimFixed(s);
    LegacyIsNotBech32(b, s);
    HexHasNo(hex, '$');
    assert s[|LEGACY_PREFIX|..] == hex;
    assert !(PRETTY_PREFIX <= s) by { assert PRETTY_PREFIX[0] == 'p'; }
    StrictIsGeneral(ix, b, s, HexDecode(hex).value);
  }

  lemma Bech32Shape(b: Bech32, id: AccountId)
    requires Lawful(b)
    ensures var s := ToBech32(b, id);
      Trim(s) == s && !(PRETTY_PREFIX <= s) && ParseBech32(b, s) == Some(id)
  {
    var s, p := ToBech32(b, id), Bech32Payload(id);
    assert b.decode(s) == Some(Bech32Parts(BECH32DX_HRP, true, Some(p)));
    assert p[6..] == id;
    var i := DecodedPrefix(b, s);
    assert s[..4] == BECH32DX_HRP + "1" && s[0] == s[..4][0] == 'p';
    assert InCharset(s[4]) && InCharset(s[|s| - 1]);
    TrimFixed(s);
    assert PRETTY_PREFIX[4] == '-';
  }

  /** The canonical bech32m form is read back too. */
  lemma Bech32Form(ix: DomainIndex, b: Bech32, id: AccountId)
    requires Lawful(b)
    ensures AllAccept(ix, b, ToBech32(b, id), id)
  {
    Bech32Shape(b, id);
    StrictIsGeneral(ix, b, ToBech32(b, id), id);
  }

  /** The strict parsers accept what the general one accepts, less the ambiguous texts, with one result. */
  lemma StrictVsGeneral(ix: DomainIndex, b: Bech32, input: string, userInput: bool, id: AccountId)
    ensures var domain := PrettyDomainPart(Trim(input));
      var ambiguous := domain.Some? && Ambiguous(ix, domain.value);
      ParseStrict(ix, b, input, userInput) == Ok(id) <==> !ambiguous && ParseAccountId(ix, b, input) == Some(id)
  {
    TrimTrims(input);
  }
}
