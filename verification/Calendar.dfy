/** The civil date conversion of purpose_expand.rs against the proleptic Gregorian calendar of
    ISO 8601:2004, section 3.2.1. */
module Calendar {
  import opened Basics
  import opened Division
  import opened Text

  const I64_MAX: int := 0x7FFF_FFFF_FFFF_FFFF
  type i64 = x: int | -I64_MAX - 1 <= x <= I64_MAX

  datatype Date = Date(year: int, month: int, day: int)

  // ----- the calendar -----

  predicate IsLeap(year: int) { year % 4 == 0 && (year % 100 != 0 || year % 400 == 0) }

  function DaysInMonth(year: int, month: int): int {
    if month == 2 then (if IsLeap(year) then 29 else 28)
    else if month in {4, 6, 9, 11} then 30
    else 31
  }

  predicate Real(d: Date) { 1 <= d.month <= 12 && 1 <= d.day <= DaysInMonth(d.year, d.month) }

  /** The day after `d`. */
  function Next(d: Date): Date {
    if d.day < DaysInMonth(d.year, d.month) then d.(day := d.day + 1)
    else if d.month < 12 then Date(d.year, d.month + 1, 1)
    else Date(d.year + 1, 1, 1)
  }

  function DaysBeforeMonth(year: int, month: nat): int
    requires 1 <= month <= 12
  {
    if month == 1 then 0 else DaysBeforeMonth(year, month - 1) + DaysInMonth(year, month - 1)
  }

  /** Leap years before `year`, counted from year 1. */
  function LeapsBefore(year: int): int { (year - 1) / 4 - (year - 1) / 100 + (year - 1) / 400 }

  function DaysBeforeYear(year: int): int { 365 * (year - 1970) + LeapsBefore(year) - LeapsBefore(1970) }

  /** Days from 1970-01-01 to `d`, counted year by year and month by month. */
  function DayNumber(d: Date): int
    requires 1 <= d.month <= 12
  {
    DaysBeforeYear(d.year) + DaysBeforeMonth(d.year, d.month) + d.day - 1
  }

  lemma LeapStep(n: int)
    ensures (n + 1) / 4 - (n + 1) / 100 + (n + 1) / 400
      == n / 4 - n / 100 + n / 400 + if IsLeap(n + 1) then 1 else 0
  {
    DivStep(n, 4);
    DivStep(n, 100);
    DivStep(n, 400);
    if (n + 1) % 400 == 0 {
      DivUnique(n + 1, 100, 4 * ((n + 1) / 400), 0);
    }
    if (n + 1) % 100 == 0 {
      DivUnique(n + 1, 4, 25 * ((n + 1) / 100), 0);
    }
  }

  /** The count is the calendar's: a year is as long as its twelve months. */
  lemma YearLength(year: int)
    ensures DaysBeforeYear(year + 1) == DaysBeforeYear(year) + DaysBeforeMonth(year, 12) + 31
  {
    MonthTable(year);
    LeapStep(year - 1);
  }

  lemma MonthTable(year: int)
    ensures var leap := if IsLeap(year) then 1 else 0;
      && DaysBeforeMonth(year, 1) == 0 && DaysBeforeMonth(year, 2) == 31
      && DaysBeforeMonth(year, 3) == 59 + leap && DaysBeforeMonth(year, 4) == 90 + leap
      && DaysBeforeMonth(year, 5) == 120 + leap && DaysBeforeMonth(year, 6) == 151 + leap
      && DaysBeforeMonth(year, 7) == 181 + leap && DaysBeforeMonth(year, 8) == 212 + leap
      && DaysBeforeMonth(year, 9) == 243 + leap && DaysBeforeMonth(year, 10) == 273 + leap
      && DaysBeforeMonth(year, 11) == 304 + leap && DaysBeforeMonth(year, 12) == 334 + leap
  {
  }

  // ----- the conversion -----

  const EPOCH_SHIFT: int := 719_468

  /** Division as the source language does it: toward zero. */
  function TruncDiv(a: int, b: int): int
    requires b > 0
  {
    if a >= 0 then a / b else -(-a / b)
  }

  /** Days since 1970-01-01 to a date. The source overflows, and so aborts, beyond the stated bound;
      the typed locals show that nothing else does. */
  function CivilFromDays(days: i64): Date
    requires days <= I64_MAX - EPOCH_SHIFT
  {
    var (year, doy) := SplitDays(days + EPOCH_SHIFT);
    FromMarch(year, doy)
  }

  /** The March-based year of a day and the day of that year. Past the era every operand is
      non-negative, where both kinds of division agree. */
  function SplitDays(z: i64): (i64, nat)
    requires z >= EPOCH_SHIFT - I64_MAX - 1
  {
    var shifted: i64 := if z >= 0 then z else z - 146_096;
    var era: i64 := TruncDiv(shifted, 146_097);
    EraBounds(z);
    var doe: i64 := z - era * 146_097;
    DayOfYearBounds(doe);
    var yoe: i64 := YearOfEra(doe);
    (yoe + era * 400, doe - (365 * yoe + yoe / 4 - yoe / 100))
  }

  function YearOfEra(doe: nat): nat
    requires doe < 146_097
  {
    (doe - doe / 1_460 + doe / 36_524 - doe / 146_096) / 365
  }

  /** Month and day within a year that begins in March. */
  function FromMarch(y: int, doy: nat): Date {
    var mp := (5 * doy + 2) / 153;
    var day := doy - (153 * mp + 2) / 5 + 1;
    var month := mp + if mp < 10 then 3 else -9;
    Date(y + if month <= 2 then 1 else 0, month, day)
  }

  lemma EraBounds(z: int)
    ensures var era := TruncDiv(if z >= 0 then z else z - 146_096, 146_097);
      era == z / 146_097 && 0 <= z - era * 146_097 < 146_097
  {
  }

  // ----- years that begin in March -----

  /** Days from 0000-03-01 to the 1st of March of `y`. */
  function MarchDays(y: int): int { 365 * y + y / 4 - y / 100 + y / 400 }

  function MarchLength(y: int): int { 365 + if IsLeap(y + 1) then 1 else 0 }

  lemma MarchYearLength(y: int)
    ensures MarchDays(y + 1) == MarchDays(y) + MarchLength(y)
  {
    LeapStep(y);
  }

  lemma MarchEra(era: int, k: nat)
    requires k <= 400
    ensures MarchDays(400 * era + k) == 146_097 * era + MarchDays(k)
  {
    assert (400 * era + k) / 4 == 100 * era + k / 4;
    assert (400 * era + k) / 100 == 4 * era + k / 100;
    assert (400 * era + k) / 400 == era + k / 400;
  }

  /** The year-of-era formula, on a day written as centuries, four-year groups, years and days. */
  lemma YoeOfParts(c: nat, b: nat, e: nat, r: nat)
    requires c <= 3 && b <= 24 && e <= 3 && r <= 365
    requires r == 365 ==> e == 3 && (b < 24 || c == 3)
    ensures 36_524 * c + 1_461 * b + 365 * e + r < 146_097
    ensures YearOfEra(36_524 * c + 1_461 * b + 365 * e + r) == 100 * c + 4 * b + e
  {
    var doe := 36_524 * c + 1_461 * b + 365 * e + r;
    var t := if 24 * c + b + 365 * e + r >= 1_460 then 1 else 0;
    var last := if c == 3 && b == 24 && e == 3 && r == 365 then 1 else 0;
    assert doe == 1_460 * (25 * c + b + t) + (24 * c + b + 365 * e + r - 1_460 * t);
    assert doe / 1_460 == 25 * c + b + t;
    assert doe / 36_524 == c + last;
    assert doe / 146_096 == last;
    assert doe - doe / 1_460 + doe / 36_524 - doe / 146_096 == 365 * (100 * c + 4 * b + e) + (r - t);
  }

  lemma YoeOfMarchDay(k: nat, r: nat)
    requires k < 400 && r < MarchLength(k)
    ensures 0 <= MarchDays(k) + r < 146_097
    ensures YearOfEra(MarchDays(k) + r) == k
  {
    var c, b, e := k / 100, k % 100 / 4, k % 4;
    assert k == 100 * c + 4 * b + e;
    assert MarchDays(k) == 36_524 * c + 1_461 * b + 365 * e;
    YoeOfParts(c, b, e, r);
  }

  lemma YearOfDay(doe: nat) returns (k: nat)
    requires doe < 146_097
    ensures k < 400 && MarchDays(k) <= doe < MarchDays(k + 1)
  {
    assert MarchDays(400) == 146_097 && MarchDays(0) == 0;
    k := 0;
    while MarchDays(k + 1) <= doe
      invariant k < 400 && MarchDays(k) <= doe
    {
      MarchYearLength(k);
      k := k + 1;
    }
  }

  lemma DayOfYearBounds(doe: nat)
    requires doe < 146_097
    ensures var k := YearOfEra(doe); k < 400 && 0 <= doe - (365 * k + k / 4 - k / 100) <= 365
  {
    var k := YearOfDay(doe);
    MarchYearLength(k);
    YoeOfMarchDay(k, doe - MarchDays(k));
  }

  lemma EraOfMarchDay(y: int, doy: nat)
    requires doy < MarchLength(y)
    ensures var era, k, z := y / 400, y % 400, MarchDays(y) + doy;
      && y == 400 * era + k && MarchLength(k) == MarchLength(y)
      && z / 146_097 == era && z - 146_097 * era == MarchDays(k) + doy
  {
    var era, k := y / 400, y % 400;
    MarchEra(era, k);
    LeapPeriod(era, k + 1);
    YoeOfMarchDay(k, doy);
    DivUnique(MarchDays(y) + doy, 146_097, era, MarchDays(k) + doy);
  }

  lemma LeapPeriod(era: int, k: int)
    ensures IsLeap(400 * era + k) <==> IsLeap(k)
  {
    DivUnique(400 * era + k, 4, 100 * era + k / 4, k % 4);
    DivUnique(400 * era + k, 100, 4 * era + k / 100, k % 100);
    DivUnique(400 * era + k, 400, era + k / 400, k % 400);
  }

  lemma SplitByParts(z: i64, era: int, doe: nat, k: nat)
    requires z >= EPOCH_SHIFT - I64_MAX - 1 && z == era * 146_097 + doe
    requires era == TruncDiv(if z >= 0 then z else z - 146_096, 146_097)
    requires doe < 146_097 && k == YearOfEra(doe)
    ensures SplitDays(z) == (400 * era + k, doe - (365 * k + k / 4 - k / 100))
  {
  }

  lemma SplitOfEra(z: i64, era: int, k: nat, doy: nat)
    requires z >= EPOCH_SHIFT - I64_MAX - 1 && era == z / 146_097
    requires k < 400 && doy < MarchLength(k) && z == 146_097 * era + MarchDays(k) + doy
    ensures SplitDays(z) == (400 * era + k, doy)
  {
    EraBounds(z);
    YoeOfMarchDay(k, doy);
    FirstCentury(k);
    SplitByParts(z, era, MarchDays(k) + doy, k);
  }

  lemma SplitOfMarchDay(z: i64, y: int, doy: nat)
    requires z >= EPOCH_SHIFT - I64_MAX - 1
    requires doy < MarchLength(y) && MarchDays(y) + doy == z
    ensures SplitDays(z) == (y, doy)
  {
    EraOfMarchDay(y, doy);
    SplitOfEra(z, y / 400, y % 400, doy);
  }

  lemma FirstCentury(k: nat)
    requires k < 400
    ensures MarchDays(k) == 365 * k + k / 4 - k / 100
  {
  }

  /** The conversion, on a day given as a March-based year and a day of that year. */
  lemma CivilOfMarchDay(days: i64, y: int, doy: nat)
    requires days <= I64_MAX - EPOCH_SHIFT
    requires doy < MarchLength(y) && MarchDays(y) + doy == days + EPOCH_SHIFT
    ensures CivilFromDays(days) == FromMarch(y, doy)
  {
    SplitOfMarchDay(days + EPOCH_SHIFT, y, doy);
  }

  /** Every day belongs to one March-based year. */
  lemma MarchDayOf(z: int) returns (y: int, doy: nat)
    ensures doy < MarchLength(y) && MarchDays(y) + doy == z
  {
    var era := z / 146_097;
    var k := YearOfDay(z - 146_097 * era);
    MarchYearLength(k);
    MarchEra(era, k);
    LeapPeriod(era, k + 1);
    y, doy := 400 * era + k, z - 146_097 * era - MarchDays(k);
  }

  // ----- the date of a March day -----

  /** Days from the 1st of March to the start of the `mp`-th month after it. */
  function MarchMonth(mp: nat): nat { (153 * mp + 2) / 5 }

  lemma MonthOfMarchDay(doy: nat)
    requires doy <= 365
    ensures var mp := (5 * doy + 2) / 153;
      mp <= 11 && MarchMonth(mp) <= doy < (if mp == 11 then 366 else MarchMonth(mp + 1))
  {
  }

  lemma MarchMonthTable()
    ensures MarchMonth(0) == 0 && MarchMonth(1) == 31 && MarchMonth(2) == 61 && MarchMonth(3) == 92
    ensures MarchMonth(4) == 122 && MarchMonth(5) == 153 && MarchMonth(6) == 184 && MarchMonth(7) == 214
    ensures MarchMonth(8) == 245 && MarchMonth(9) == 275 && MarchMonth(10) == 306 && MarchMonth(11) == 337
  {
  }

  /** Where the months from March to December begin, and how long they are. */
  lemma MonthsOfFirstYear(y: int, mp: nat)
    requires mp <= 9
    ensures DaysBeforeMonth(y, mp + 3) == 59 + (if IsLeap(y) then 1 else 0) + MarchMonth(mp)
    ensures DaysInMonth(y, mp + 3) == MarchMonth(mp + 1) - MarchMonth(mp)
  {
    MonthTable(y);
    MarchMonthTable();
  }

  lemma MarchStart(y: int)
    ensures DaysBeforeYear(y) + 59 + (if IsLeap(y) then 1 else 0) == MarchDays(y) - EPOCH_SHIFT
  {
    LeapStep(y - 1);
  }

  lemma DateInFirstYear(y: int, doy: nat, mp: nat)
    requires mp == (5 * doy + 2) / 153 && mp <= 9 && MarchMonth(mp) <= doy < MarchMonth(mp + 1)
    ensures Real(FromMarch(y, doy))
    ensures DayNumber(FromMarch(y, doy)) == MarchDays(y) + doy - EPOCH_SHIFT
  {
    MonthsOfFirstYear(y, mp);
    MarchStart(y);
  }

  lemma DateInSecondYear(y: int, doy: nat, mp: nat)
    requires mp == (5 * doy + 2) / 153 && 10 <= mp <= 11 && doy < MarchLength(y)
    requires MarchMonth(mp) <= doy && (mp == 10 ==> doy < MarchMonth(11))
    ensures Real(FromMarch(y, doy))
    ensures DayNumber(FromMarch(y, doy)) == MarchDays(y) + doy - EPOCH_SHIFT
  {
    MarchMonthTable();
    MarchStart(y);
    YearLength(y);
    MonthTable(y);
    assert DaysBeforeMonth(y + 1, 1) == 0 && DaysBeforeMonth(y + 1, 2) == 31;
  }

  lemma DateOfMarchDay(y: int, doy: nat)
    requires doy < MarchLength(y)
    ensures Real(FromMarch(y, doy))
    ensures DayNumber(FromMarch(y, doy)) == MarchDays(y) + doy - EPOCH_SHIFT
  {
    MonthOfMarchDay(doy);
    var mp := (5 * doy + 2) / 153;
    if mp <= 9 {
      DateInFirstYear(y, doy, mp);
    } else {
      DateInSecondYear(y, doy, mp);
    }
  }

  // ----- the theorems -----

  /** Every day becomes a real date, and counting the days to that date gives the day back. */
  lemma DayNumberOfCivil(days: i64)
    requires days <= I64_MAX - EPOCH_SHIFT
    ensures Real(CivilFromDays(days))
    ensures DayNumber(CivilFromDays(days)) == days
  {
    var y, doy := MarchDayOf(days + EPOCH_SHIFT);
    CivilOfMarchDay(days, y, doy);
    DateOfMarchDay(y, doy);
  }

  /** The next date counts one more. */
  lemma DayNumberOfNext(d: Date)
    requires Real(d)
    ensures Real(Next(d)) && DayNumber(Next(d)) == DayNumber(d) + 1
  {
    if d.day == DaysInMonth(d.year, d.month) && d.month == 12 {
      YearLength(d.year);
    }
  }

  lemma {:induction false} MonthsGrow(year: int, m: nat, n: nat)
    requires 1 <= m < n <= 12
    ensures DaysBeforeMonth(year, m) + DaysInMonth(year, m) <= DaysBeforeMonth(year, n)
    decreases n
  {
    if m + 1 < n {
      MonthsGrow(year, m, n - 1);
    }
  }

  lemma {:induction false} YearsGrow(x: int, y: int)
    requires x < y
    ensures DaysBeforeYear(x + 1) <= DaysBeforeYear(y)
    decreases y - x
  {
  }

  lemma DayWithinYear(d: Date)
    requires Real(d)
    ensures DaysBeforeYear(d.year) <= DayNumber(d) < DaysBeforeYear(d.year + 1)
  {
    YearLength(d.year);
    MonthTable(d.year);
    if d.month < 12 {
      MonthsGrow(d.year, d.month, 12);
    }
    if d.month > 1 {
      MonthsGrow(d.year, 1, d.month);
    }
  }

  /** No two real dates have one day number. */
  lemma DayNumberInjective(d: Date, e: Date)
    requires Real(d) && Real(e) && DayNumber(d) == DayNumber(e)
    ensures d == e
  {
    DayWithinYear(d);
    DayWithinYear(e);
    if d.year < e.year { YearsGrow(d.year, e.year); }
    if e.year < d.year { YearsGrow(e.year, d.year); }
    if d.month < e.month { MonthsGrow(d.year, d.month, e.month); }
    if e.month < d.month { MonthsGrow(d.year, e.month, d.month); }
  }

  lemma NextIsSuccessor(d: Date, e: Date)
    requires Real(d) && Real(e) && DayNumber(e) == DayNumber(d) + 1
    ensures e == Next(d)
  {
    DayNumberOfNext(d);
    DayNumberInjective(Next(d), e);
  }

  /** Conversely every real date is the image of its own day count: the conversion is a bijection
      between days and real dates. */
  lemma CivilOfDayNumber(d: Date)
    requires Real(d) && -I64_MAX - 1 <= DayNumber(d) <= I64_MAX - EPOCH_SHIFT
    ensures CivilFromDays(DayNumber(d)) == d
  {
    DayNumberOfCivil(DayNumber(d));
    DayNumberInjective(CivilFromDays(DayNumber(d)), d);
  }

  lemma CivilStart()
    ensures CivilFromDays(0) == Date(1970, 1, 1)
  {
    CivilOfMarchDay(0, 1969, 306);
  }

  /** The day after `days` is the calendar's next date. */
  lemma CivilStep(days: i64)
    requires days < I64_MAX - EPOCH_SHIFT
    ensures CivilFromDays(days + 1) == Next(CivilFromDays(days))
  {
    DayNumberOfCivil(days);
    DayNumberOfCivil(days + 1);
    NextIsSuccessor(CivilFromDays(days), CivilFromDays(days + 1));
  }

  // ----- the time stamp -----

  /** "dd-mm-yy hh:mm:ssZ"; every number written is below 100, so two digits do. */
  function Stamp(date: Date, second: nat): (text: string)
    requires Real(date) && second < 86_400
    ensures |text| == 18
    ensures text[2] == text[5] == '-' && text[8] == ' ' && text[11] == text[14] == ':' && text[17] == 'Z'
  {
    Padded(date.day, 2) + "-" + Padded(date.month, 2) + "-" + Padded(date.year % 100, 2) + " "
    + Padded(second / 3_600, 2) + ":" + Padded(second % 3_600 / 60, 2) + ":" + Padded(second % 60, 2) + "Z"
  }

  /** Whole days in a number of seconds, well within the range of the conversion. */
  function DayOf(ts: u64): (days: i64)
    ensures 0 <= days <= I64_MAX - EPOCH_SHIFT
  {
    DivBounds(ts, 86_400);
    ts / 86_400
  }

  /** The stamp of a number of seconds since 1970. */
  function FmtUtcTime(ts: u64): string {
    DayNumberOfCivil(DayOf(ts));
    Stamp(CivilFromDays(DayOf(ts)), ts % 86_400)
  }

  /** The two-digit number at a position of a time stamp. */
  function Field(text: string, at: nat): nat
    requires at + 2 <= |text|
  {
    if AllDigits(text[at..at + 2]) then DecimalValue(text[at..at + 2]) else 0
  }

  lemma FieldIs(text: string, at: nat, n: nat)
    requires at + 2 <= |text| && n < 100 && text[at..at + 2] == Padded(n, 2)
    ensures Field(text, at) == n
  {
    assert Pow10(2) == 100;
    PaddedValue(n, 2);
  }

  lemma TimeOfDay(second: nat)
    requires second < 86_400
    ensures second / 3_600 < 24 && second % 3_600 / 60 < 60
    ensures 3_600 * (second / 3_600) + 60 * (second % 3_600 / 60) + second % 60 == second
  {
  }

  /** The stamp reads back as the date, with the year of its century, and the time of day. */
  lemma StampFields(date: Date, second: nat)
    requires Real(date) && second < 86_400
    ensures var text := Stamp(date, second);
      && Field(text, 0) == date.day && Field(text, 3) == date.month && Field(text, 6) == date.year % 100
      && 3_600 * Field(text, 9) + 60 * Field(text, 12) + Field(text, 15) == second
      && Field(text, 9) < 24 && Field(text, 12) < 60 && Field(text, 15) < 60
  {
    var text := Stamp(date, second);
    StampParts(text, Padded(date.day, 2), Padded(date.month, 2), Padded(date.year % 100, 2),
               Padded(second / 3_600, 2), Padded(second % 3_600 / 60, 2), Padded(second % 60, 2));
    TimeOfDay(second);
    FieldIs(text, 0, date.day);
    FieldIs(text, 3, date.month);
    FieldIs(text, 6, date.year % 100);
    FieldIs(text, 9, second / 3_600);
    FieldIs(text, 12, second % 3_600 / 60);
    FieldIs(text, 15, second % 60);
  }

  lemma StampParts(text: string, a: string, b: string, c: string, d: string, e: string, f: string)
    requires |a| == |b| == |c| == |d| == |e| == |f| == 2
    requires text == a + "-" + b + "-" + c + " " + d + ":" + e + ":" + f + "Z"
    ensures |text| == 18 && text[0..2] == a && text[3..5] == b && text[6..8] == c
    ensures |text| == 18 && text[9..11] == d && text[12..14] == e && text[15..17] == f
  {
  }

  /** Two moments whose calendar years are less than a century apart have one stamp only if they are one
      moment. */
  lemma StampBinds(s: u64, t: u64)
    requires FmtUtcTime(s) == FmtUtcTime(t)
    requires -100 < CivilFromDays(DayOf(s)).year - CivilFromDays(DayOf(t)).year < 100
    ensures s == t
  {
    DivBounds(s, 86_400);
    DivBounds(t, 86_400);
    DayNumberOfCivil(DayOf(s));
    DayNumberOfCivil(DayOf(t));
    SameStamp(CivilFromDays(DayOf(s)), s % 86_400, CivilFromDays(DayOf(t)), t % 86_400);
  }

  lemma SameStamp(d: Date, m: nat, e: Date, n: nat)
    requires Real(d) && Real(e) && m < 86_400 && n < 86_400
    requires Stamp(d, m) == Stamp(e, n) && -100 < d.year - e.year < 100
    ensures d == e && m == n
  {
    StampFields(d, m);
    StampFields(e, n);
    SameInCentury(d.year, e.year);
  }

  lemma SameInCentury(x: int, y: int)
    requires -100 < x - y < 100 && x % 100 == y % 100
    ensures x == y
  {
  }
}
