/** Decimal coin amounts of display.rs: one coin is 1_000_000 raw units. */
module Amounts {
  import opened Basics
  import opened Text

  datatype AmountError = Missing | Negative | NotDecimal | TooPrecise | Overflow

  // ----- printing -----

  /** `s` without its trailing zeros. */
  function StripZeros(s: string): string {
    if s != [] && s[|s| - 1] == '0' then StripZeros(s[..|s| - 1]) else s
  }

  /** The printed amount without the unit. */
  function Shown(raw: u128): string {
    var frac := raw % PWM_RAW_SCALE;
    Decimal(raw / PWM_RAW_SCALE) + if frac == 0 then [] else "." + StripZeros(Padded(frac, 6))
  }

  method FormatPwm(raw: u128) returns (text: string)
    ensures text == Shown(raw) + " PWM"
  {
    var whole := raw / PWM_RAW_SCALE;
    var frac := raw % PWM_RAW_SCALE;
    if frac == 0 {
      return Decimal(whole) + " PWM";
    }
    var fracText := Padded(frac, 6);
    while fracText != [] && fracText[|fracText| - 1] == '0'
      invariant StripZeros(fracText) == StripZeros(Padded(frac, 6))
    {
      fracText := fracText[..|fracText| - 1];
    }
    text := Decimal(whole) + "." + fracText + " PWM";
    assert Decimal(whole) + "." + fracText == Decimal(whole) + ("." + fracText);
  }

  // ----- parsing -----

  /** Digits as a u128, or nothing when they do not fit. */
  function ParseU128(s: string): Option<u128>
    requires AllDigits(s)
  {
    if DecimalValue(s) <= U128_MAX then Some(DecimalValue(s)) else None
  }

  function ParseFraction(frac: Option<string>): Result<u128, AmountError> {
    match frac
    case None => Ok(0)
    case Some(f) =>
      if f == [] || !AllDigits(f) then Err(NotDecimal)
      else if |f| > 6 then Err(TooPrecise)
      else match ParseU128(f + Zeros(6 - |f|))
        case None => Err(Overflow)
        case Some(units) => Ok(units)
  }

  function ParseUnits(raw: string): Result<u128, AmountError> {
    var s := Trim(raw);
    if s == [] then Err(Missing)
    else if s[0] == '-' then Err(Negative)
    else
      var (whole, frac) := match SplitOnce(s, '.')
        case Some((w, f)) => (w, Some(f))
        case None => (s, None);
      if whole == [] || !AllDigits(whole) then Err(NotDecimal)
      else if DecimalValue(whole) > U128_MAX || DecimalValue(whole) * PWM_RAW_SCALE > U128_MAX then Err(Overflow)
      else
        match ParseFraction(frac)
        case Err(e) => Err(e)
        case Ok(units) =>
          var total := DecimalValue(whole) * PWM_RAW_SCALE + units;
          if total > U128_MAX then Err(Overflow) else Ok(total)
  }

  method ParseDecimalPwmUnits(raw: string) returns (r: Result<u128, AmountError>)
    ensures r == ParseUnits(raw)
  {
    var s := Trim(raw);
    if s == [] { return Err(Missing); }
    if s[0] == '-' { return Err(Negative); }
    var whole, frac := s, None;
    var cut := SplitOnce(s, '.');
    if cut.Some? {
      whole, frac := cut.value.0, Some(cut.value.1);
    }
    if whole == [] || !AllDigits(whole) { return Err(NotDecimal); }
    var wholeValue := ParseU128(whole);
    if wholeValue.None? || wholeValue.value * PWM_RAW_SCALE > U128_MAX { return Err(Overflow); }
    var wholeUnits: u128 := wholeValue.value * PWM_RAW_SCALE;
    var fracUnits: u128 := 0;
    if frac.Some? {
      var fracRaw := frac.value;
      if fracRaw == [] || !AllDigits(fracRaw) { return Err(NotDecimal); }
      if |fracRaw| > 6 { return Err(TooPrecise); }
      var padded := fracRaw;
      while |padded| < 6
        invariant |fracRaw| <= |padded| <= 6
        invariant padded == fracRaw + Zeros(|padded| - |fracRaw|)
      {
        padded := padded + "0";
      }
      var parsed := ParseU128(padded);
      if parsed.None? { return Err(Overflow); }
      fracUnits := parsed.value;
    }
    if wholeUnits + fracUnits > U128_MAX { return Err(Overflow); }
    r := Ok(wholeUnits + fracUnits);
  }

  // ----- what parsing accepts -----

  /** `s` is a numeral with an optional fraction of one to six digits, and denotes `units` raw units. */
  ghost predicate Denotes(s: string, units: nat) {
    exists w, f :: DenotesParts(s, w, f, units)
  }

  ghost predicate DenotesParts(s: string, w: string, f: string, units: nat) {
    && w != [] && AllDigits(w) && AllDigits(f) && |f| <= 6
    && s == (if f == [] then w else w + ['.'] + f)
    && units == DecimalValue(w) * PWM_RAW_SCALE + DecimalValue(f) * Pow10(6 - |f|)
  }

  lemma FractionUnits(f: string)
    requires f != [] && AllDigits(f) && |f| <= 6
    ensures ParseFraction(Some(f)) == Ok(DecimalValue(f) * Pow10(6 - |f|))
  {
    ZerosScale(f, 6 - |f|);
    SixDigits(f + Zeros(6 - |f|));
  }

  lemma {:induction false} DecimalBound(s: string)
    requires AllDigits(s)
    ensures DecimalValue(s) < Pow10(|s|)
  {
    if s != [] {
      DecimalBound(s[..|s| - 1]);
    }
  }

  lemma SixDigits(s: string)
    requires AllDigits(s) && |s| == 6
    ensures DecimalValue(s) < PWM_RAW_SCALE
  {
    DecimalBound(s);
    assert Pow10(6) == 100 * Pow10(4) && Pow10(4) == 100 * Pow10(2);
  }

  lemma DigitsHaveNoDot(w: string)
    requires AllDigits(w)
    ensures '.' !in w
  {
  }

  lemma ParsesWhole(raw: string, w: string)
    requires Trim(raw) == w && w != [] && AllDigits(w)
    ensures var units := DecimalValue(w) * PWM_RAW_SCALE;
      ParseUnits(raw) == if units <= U128_MAX then Ok(units) else Err(Overflow)
  {
  }

  lemma ParsesFraction(raw: string, w: string, f: string, part: nat)
    requires Trim(raw) == w + ['.'] + f && w != [] && AllDigits(w)
    requires SplitOnce(Trim(raw), '.') == Some((w, f)) && ParseFraction(Some(f)) == Ok(part)
    ensures var units := DecimalValue(w) * PWM_RAW_SCALE + part;
      ParseUnits(raw) == if units <= U128_MAX then Ok(units) else Err(Overflow)
  {
  }

  /** A well-formed amount is parsed to exactly what it denotes, or overflows. */
  lemma ParsesWhatItDenotes(raw: string, w: string, f: string, units: nat)
    requires DenotesParts(Trim(raw), w, f, units)
    ensures ParseUnits(raw) == if units <= U128_MAX then Ok(units) else Err(Overflow)
  {
    if f == [] {
      ParsesWhole(raw, w);
    } else {
      DigitsHaveNoDot(w);
      SplitOnceAt(w, '.', f);
      FractionUnits(f);
      ParsesFraction(raw, w, f, DecimalValue(f) * Pow10(6 - |f|));
    }
  }

  lemma AcceptedIsDenoted(raw: string)
    requires ParseUnits(raw).Ok?
    ensures Denotes(Trim(raw), ParseUnits(raw).value)
  {
    var s := Trim(raw);
    var cut := SplitOnce(s, '.');
    if cut.Some? {
      FractionUnits(cut.value.1);
      assert DenotesParts(s, cut.value.0, cut.value.1, ParseUnits(raw).value);
    } else {
      assert DenotesParts(s, s, [], ParseUnits(raw).value);
    }
  }

  /** Parsing succeeds exactly on the numerals whose value fits, and returns that value. */
  lemma ParseIsExact(raw: string, units: nat)
    ensures ParseUnits(raw) == Ok(units) <==> Denotes(Trim(raw), units) && units <= U128_MAX
  {
    if Denotes(Trim(raw), units) {
      var w, f :| DenotesParts(Trim(raw), w, f, units);
      ParsesWhatItDenotes(raw, w, f, units);
    }
    if ParseUnits(raw) == Ok(units) {
      AcceptedIsDenoted(raw);
    }
  }

  // ----- round trip -----

  lemma {:induction false} StripZerosPads(s: string)
    requires AllDigits(s)
    ensures AllDigits(StripZeros(s)) && |StripZeros(s)| <= |s|
    ensures s == StripZeros(s) + Zeros(|s| - |StripZeros(s)|)
  {
    if s != [] && s[|s| - 1] == '0' {
      StripZerosPads(s[..|s| - 1]);
      assert s == s[..|s| - 1] + ['0'];
    }
  }

  lemma FractionText(frac: nat)
    requires 0 < frac < PWM_RAW_SCALE
    ensures var f := StripZeros(Padded(frac, 6));
      f != [] && AllDigits(f) && |f| <= 6 && DecimalValue(f) * Pow10(6 - |f|) == frac
  {
    var full := Padded(frac, 6);
    var f := StripZeros(full);
    assert Pow10(6) == 100 * Pow10(4) && Pow10(4) == 100 * Pow10(2);
    PaddedValue(frac, 6);
    StripZerosPads(full);
    ZerosScale(f, 6 - |f|);
  }

  /** Every amount survives printing and parsing, with or without surrounding white space. */
  lemma RoundTrip(raw: u128, text: string)
    requires Trim(text) == Shown(raw)
    ensures ParseUnits(text) == Ok(raw)
  {
    var w, frac := Decimal(raw / PWM_RAW_SCALE), raw % PWM_RAW_SCALE;
    if frac == 0 {
      assert DenotesParts(Shown(raw), w, [], raw);
      ParsesWhatItDenotes(text, w, [], raw);
    } else {
      var f := StripZeros(Padded(frac, 6));
      FractionText(frac);
      assert Shown(raw) == w + ['.'] + f;
      assert DenotesParts(Shown(raw), w, f, raw);
      ParsesWhatItDenotes(text, w, f, raw);
    }
  }

  /** The printed form needs no trimming, so it parses as it stands. */
  lemma ShownParses(raw: u128)
    ensures ParseUnits(Shown(raw)) == Ok(raw)
  {
    var s := Shown(raw);
    var w, frac := Decimal(raw / PWM_RAW_SCALE), raw % PWM_RAW_SCALE;
    assert IsDigit(s[0]);
    if frac == 0 {
      assert s == w;
    } else {
      FractionText(frac);
    }
    assert IsDigit(s[|s| - 1]);
    TrimFixed(s);
    RoundTrip(raw, s);
  }

  // ----- the shortest form -----

  lemma {:induction false} DecimalShortest(n: nat, w: string)
    requires w != [] && AllDigits(w) && DecimalValue(w) == n
    ensures |Decimal(n)| <= |w|
    decreases |w|
  {
    if n >= 10 {
      var rest := w[..|w| - 1];
      assert DecimalValue(rest) == n / 10;
      DecimalShortest(n / 10, rest);
    }
  }

  lemma {:induction false} PaddedUnique(s: string, n: nat, width: nat)
    requires AllDigits(s) && |s| == width && DecimalValue(s) == n
    ensures s == Padded(n, width)
    decreases width
  {
    if width > 0 {
      PaddedUnique(s[..width - 1], n / 10, width - 1);
      assert s == s[..width - 1] + [s[width - 1]];
    }
  }

  lemma {:induction false} StripsPadding(f: string, k: nat)
    ensures |StripZeros(f + Zeros(k))| <= |f|
    decreases k
  {
    if k > 0 {
      var s := f + Zeros(k);
      assert s[|s| - 1] == '0' && s[..|s| - 1] == f + Zeros(k - 1);
      StripsPadding(f, k - 1);
    } else {
      assert f + Zeros(0) == f;
      StripNoLonger(f);
    }
  }

  lemma {:induction false} StripNoLonger(s: string)
    ensures |StripZeros(s)| <= |s|
  {
    if s != [] && s[|s| - 1] == '0' {
      StripNoLonger(s[..|s| - 1]);
    }
  }

  /** The two parts of a numeral are the whole coins and the rest. */
  lemma PartsOf(w: string, f: string, units: nat)
    requires AllDigits(w) && AllDigits(f) && |f| <= 6
    requires units == DecimalValue(w) * PWM_RAW_SCALE + DecimalValue(f) * Pow10(6 - |f|)
    ensures DecimalValue(w) == units / PWM_RAW_SCALE
    ensures DecimalValue(f + Zeros(6 - |f|)) == units % PWM_RAW_SCALE
  {
    ZerosScale(f, 6 - |f|);
    SixDigits(f + Zeros(6 - |f|));
  }

  /** No text that parses to an amount is shorter than the printed one. */
  lemma ShownIsShortest(raw: u128, s: string)
    requires ParseUnits(s) == Ok(raw)
    ensures |Shown(raw)| <= |Trim(s)|
  {
    ParseIsExact(s, raw);
    var w, f :| DenotesParts(Trim(s), w, f, raw);
    var (whole, frac) := (raw / PWM_RAW_SCALE, raw % PWM_RAW_SCALE);
    PartsOf(w, f, raw);
    DecimalShortest(whole, w);
    if frac != 0 {
      FractionShortest(frac, f);
    }
    ShownLength(raw, whole, frac);
  }

  lemma ShownLength(raw: u128, whole: nat, frac: nat)
    requires whole == raw / PWM_RAW_SCALE && frac == raw % PWM_RAW_SCALE
    ensures |Shown(raw)| == |Decimal(whole)| + if frac == 0 then 0 else 1 + |StripZeros(Padded(frac, 6))|
  {
  }

  lemma {:induction false} ZerosAreZero(k: nat)
    ensures DecimalValue(Zeros(k)) == 0
  {
    if k > 0 {
      ZerosAreZero(k - 1);
      assert Zeros(k)[..k - 1] == Zeros(k - 1);
    }
  }

  lemma NoFraction(f: string)
    requires AllDigits(f) && |f| <= 6
    ensures f == [] ==> DecimalValue(f + Zeros(6 - |f|)) == 0
  {
    ZerosAreZero(6);
    assert [] + Zeros(6) == Zeros(6);
  }

  lemma FractionShortest(frac: nat, f: string)
    requires frac > 0 && AllDigits(f) && |f| <= 6 && DecimalValue(f + Zeros(6 - |f|)) == frac
    ensures f != [] && |StripZeros(Padded(frac, 6))| <= |f|
  {
    NoFraction(f);
    StripsToFraction(frac, f, 6 - |f|, f + Zeros(6 - |f|));
  }

  lemma StripsToFraction(frac: nat, f: string, k: nat, full: string)
    requires AllDigits(full) && |full| == 6 && DecimalValue(full) == frac && full == f + Zeros(k)
    ensures |StripZeros(Padded(frac, 6))| <= |f|
  {
    PaddedUnique(full, frac, 6);
    StripsPadding(f, k);
  }

  /** Which error is reported: nothing but white space, a sign in front, more than six digits of a fraction,
      a value beyond 128 bits; and for everything else, no decimal numeral. */
  lemma ParseErrors(raw: string)
    ensures var s := Trim(raw);
      && (ParseUnits(raw) == Err(Missing) <==> s == [])
      && (ParseUnits(raw) == Err(Negative) <==> s != [] && s[0] == '-')
      && (ParseUnits(raw) == Err(Overflow) ==>
           exists w :: w <= s && AllDigits(w) && (DecimalValue(w) + 1) * PWM_RAW_SCALE > U128_MAX)
      && (ParseUnits(raw) == Err(TooPrecise) ==>
           exists w, f :: s == w + ['.'] + f && AllDigits(w) && AllDigits(f) && |f| > 6)
  {
    var s := Trim(raw);
    var cut := SplitOnce(s, '.');
    if ParseUnits(raw) == Err(TooPrecise) {
      assert s == cut.value.0 + ['.'] + cut.value.1;
    }
    if ParseUnits(raw) == Err(Overflow) {
      if cut.Some? {
        assert cut.value.0 <= s;
        OverflowingFraction(cut.value.0, cut.value.1);
      } else {
        assert s <= s;
      }
    }
  }

  lemma OverflowingFraction(w: string, f: string)
    requires AllDigits(w)
    ensures ParseFraction(Some(f)).Ok? ==> ParseFraction(Some(f)).value < PWM_RAW_SCALE
    ensures ParseFraction(Some(f)) != Err(Overflow)
  {
    if f != [] && AllDigits(f) && |f| <= 6 {
      FractionUnits(f);
      SixDigits(f + Zeros(6 - |f|));
    }
  }
}
