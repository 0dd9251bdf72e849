/** Lazy marks accrual of marks.rs: saturating machine arithmetic against its closed form over the
    unbounded integers, and what re-basing the cursor costs. */
module Marks {
  import opened Basics
  import opened Division

  const MARKS_CAP: u32 := U32_MAX

  /** The two genesis parameters that accrual reads. */
  datatype Accrual = Accrual(blocksPerHour: u64, marksPerHour: u64)

  /** The account fields that accrual reads. */
  datatype Meter = Meter(stored: u32, lastBlock: u64)

  function CeilDiv(numer: u64, denom: u64): u64
    requires denom > 0
  {
    if numer == 0 then 0
    else
      DivShrinks(numer - 1, denom);
      1 + (numer - 1) / denom
  }

  lemma DivShrinks(n: nat, d: nat)
    requires d > 0
    ensures 0 <= n / d <= n
  {
    DivBounds(n, d);
    MulMono(1, d, n / d);
  }

  /** The code: effective marks at `height`. */
  function ComputeLazyMarks(m: Meter, staked: u128, height: u64, p: Accrual): u32 {
    if m.stored == MARKS_CAP || height <= m.lastBlock then m.stored
    else if p.blocksPerHour == 0 then m.stored
    else
      DivShrinks(height - m.lastBlock, p.blocksPerHour);
      var deltaHours: u64 := (height - m.lastBlock) / p.blocksPerHour;
      if deltaHours == 0 then m.stored
      else
        var whole: u128 := staked / PWM_RAW_SCALE;
        var rate := p.marksPerHour;
        if whole == 0 || rate == 0 then m.stored
        else
          var remaining: u64 := MARKS_CAP - m.stored;
          var whole64: u64 := Min(whole, U64_MAX);
          var perHour := SatMul64(whole64, rate);
          if perHour == 0 then m.stored
          else
            var saturHours := CeilDiv(remaining, perHour);
            var effectiveHours: u64 := Min(deltaHours, saturHours);
            var generated := SatMul64(perHour, effectiveHours);
            Min(SatAdd64(m.stored, generated), MARKS_CAP)
  }

  /** Marks per elapsed hour, without any bound. */
  function PerHour(staked: u128, p: Accrual): nat {
    MulNat(staked / PWM_RAW_SCALE, p.marksPerHour);
    staked / PWM_RAW_SCALE * p.marksPerHour
  }

  /** Whole hours between the cursor and `height`; none when hours are not configured. */
  function Hours(from: u64, height: u64, p: Accrual): nat {
    if p.blocksPerHour == 0 || height <= from then 0
    else
      DivBounds(height - from, p.blocksPerHour);
      (height - from) / p.blocksPerHour
  }

  /** The closed form. */
  function Accrued(m: Meter, staked: u128, height: u64, p: Accrual): u32 {
    MulNat(PerHour(staked, p), Hours(m.lastBlock, height, p));
    Min(MARKS_CAP, m.stored + PerHour(staked, p) * Hours(m.lastBlock, height, p))
  }

  lemma MulAtLeastOne(a: nat, b: nat)
    requires a >= 1 && b >= 1
    ensures a * b >= a && a * b >= b
  {
  }

  /** When the hours to saturation have passed, the product covers what is missing. */
  lemma CeilCovers(remaining: u64, perHour: u64)
    requires remaining > 0 && perHour > 0
    ensures perHour * CeilDiv(remaining, perHour) >= remaining
    ensures forall h: nat :: h < CeilDiv(remaining, perHour) ==> perHour * h < remaining
  {
    var q := (remaining - 1) / perHour;
    DivBounds(remaining - 1, perHour);
    assert perHour * (q + 1) == perHour * q + perHour;
    forall h: nat | h < CeilDiv(remaining, perHour) ensures perHour * h < remaining {
      MulMono(h, q, perHour);
    }
  }

  /** The saturated hourly rate never exceeds the true one, and equals it below the cap. */
  lemma SaturatedRate(whole: nat, rate: u64)
    requires whole >= 1 && rate >= 1
    ensures var perHour := SatMul64(Min(whole, U64_MAX), rate);
      && 1 <= perHour <= whole * rate
      && (perHour < U64_MAX ==> perHour == whole * rate)
  {
    var whole64: u64 := Min(whole, U64_MAX);
    MulAtLeastOne(whole64, rate);
    MulMono(whole64, whole, rate);
  }

  /** The marks the code generates are the true ones, up to the room that is left. */
  lemma GeneratedIsExact(remaining: u64, whole: nat, rate: u64, hours: u64)
    requires 1 <= remaining <= U32_MAX && whole >= 1 && rate >= 1 && hours >= 1
    ensures var perHour := SatMul64(Min(whole, U64_MAX), rate);
      perHour >= 1
      && Min(SatMul64(perHour, Min(hours, CeilDiv(remaining, perHour))), remaining)
        == Min(whole * rate * hours, remaining)
  {
    var perHour := SatMul64(Min(whole, U64_MAX), rate);
    SaturatedRate(whole, rate);
    CeilCovers(remaining, perHour);
    var satur := CeilDiv(remaining, perHour);
    MulMono(perHour, whole * rate, hours);
    if satur <= hours {
      MulMono(satur, hours, perHour);
    } else {
      MulAtLeastOne(perHour, hours);
    }
  }

  /** Saturation never shows: for every stake, height and rate the code computes the closed form. */
  lemma LazyMarksAreExact(m: Meter, staked: u128, height: u64, p: Accrual)
    ensures ComputeLazyMarks(m, staked, height, p) == Accrued(m, staked, height, p)
  {
    var whole, rate, hours := staked / PWM_RAW_SCALE, p.marksPerHour, Hours(m.lastBlock, height, p);
    if m.stored == MARKS_CAP || hours == 0 || whole == 0 || rate == 0 {
      MulNat(PerHour(staked, p), hours);
    } else {
      DivShrinks(height - m.lastBlock, p.blocksPerHour);
      GeneratedIsExact(MARKS_CAP - m.stored, whole, rate, hours);
    }
  }

  // ----- re-basing -----

  /** Store the marks at `height` and move the cursor there, as every ledger touch does. */
  function Touch(m: Meter, staked: u128, height: u64, p: Accrual): Meter {
    Meter(ComputeLazyMarks(m, staked, height, p), height)
  }

  function TouchAll(m: Meter, staked: u128, heights: seq<u64>, p: Accrual): Meter
    decreases |heights|
  {
    if heights == [] then m else TouchAll(Touch(m, staked, heights[0], p), staked, heights[1..], p)
  }

  /** Heights that never step back, starting at `from`. */
  predicate Ascending(from: u64, heights: seq<u64>)
    decreases |heights|
  {
    heights == [] || (from <= heights[0] && Ascending(heights[0], heights[1..]))
  }

  /** Every height but the last is a whole number of hours after the one before it. */
  predicate WholeHours(from: u64, heights: seq<u64>, p: Accrual)
    decreases |heights|
  {
    |heights| <= 1 || p.blocksPerHour == 0
    || ((heights[0] - from) % p.blocksPerHour == 0 && WholeHours(heights[0], heights[1..], p))
  }

  lemma {:induction false} AscendingLast(from: u64, heights: seq<u64>)
    requires Ascending(from, heights) && heights != []
    ensures from <= heights[0] <= heights[|heights| - 1]
    decreases |heights|
  {
    if |heights| > 1 {
      AscendingLast(heights[0], heights[1..]);
    }
  }

  /** Cutting a span in two loses at most one hour, and none when the first part is whole hours. */
  lemma HoursSplit(a: u64, b: u64, c: u64, p: Accrual)
    requires a <= b <= c
    ensures Hours(a, b, p) + Hours(b, c, p) <= Hours(a, c, p) <= Hours(a, b, p) + Hours(b, c, p) + 1
    ensures p.blocksPerHour > 0 && (b - a) % p.blocksPerHour == 0
      ==> Hours(a, c, p) == Hours(a, b, p) + Hours(b, c, p)
  {
    if p.blocksPerHour > 0 {
      DivAdd(b - a, c - b, p.blocksPerHour);
      DivZero(b - a, p.blocksPerHour);
      DivZero(c - b, p.blocksPerHour);
      DivZero(c - a, p.blocksPerHour);
    }
  }

  lemma DivZero(n: nat, d: nat)
    requires d > 0
    ensures n == 0 ==> n / d == 0
  {
  }

  /** Accruing `a` hours and then `b` hours at a capped meter is accruing `a + b` hours. */
  lemma CappedTwice(stored: nat, g: nat, a: nat, b: nat)
    requires stored <= MARKS_CAP
    ensures Min(MARKS_CAP, Min(MARKS_CAP, stored + g * a) + g * b) == Min(MARKS_CAP, stored + g * (a + b))
  {
  }

  /** The hours credited by re-basing at every listed height. */
  function CreditedHours(from: u64, heights: seq<u64>, p: Accrual): nat
    decreases |heights|
  {
    if heights == [] then 0 else Hours(from, heights[0], p) + CreditedHours(heights[0], heights[1..], p)
  }

  lemma {:induction false} TouchAllCredits(m: Meter, staked: u128, heights: seq<u64>, p: Accrual)
    requires Ascending(m.lastBlock, heights)
    ensures TouchAll(m, staked, heights, p).stored
      == Min(MARKS_CAP, m.stored + PerHour(staked, p) * CreditedHours(m.lastBlock, heights, p))
    decreases |heights|
  {
    if heights != [] {
      var h := heights[0];
      LazyMarksAreExact(m, staked, h, p);
      TouchAllCredits(Touch(m, staked, h, p), staked, heights[1..], p);
      CappedTwice(m.stored, PerHour(staked, p), Hours(m.lastBlock, h, p), CreditedHours(h, heights[1..], p));
    }
  }

  lemma {:induction false} CreditedBounds(from: u64, heights: seq<u64>, p: Accrual)
    requires Ascending(from, heights) && heights != []
    ensures var direct := Hours(from, heights[|heights| - 1], p);
      && CreditedHours(from, heights, p) <= direct < CreditedHours(from, heights, p) + |heights|
      && (WholeHours(from, heights, p) ==> CreditedHours(from, heights, p) == direct)
    decreases |heights|
  {
    if |heights| > 1 {
      var last := heights[|heights| - 1];
      AscendingLast(from, heights);
      AscendingLast(heights[0], heights[1..]);
      CreditedBounds(heights[0], heights[1..], p);
      HoursSplit(from, heights[0], last, p);
    } else {
      assert heights[1..] == [];
    }
  }

  lemma CappedBounds(stored: nat, g: nat, credited: nat, direct: nat, slack: nat)
    requires credited <= direct <= credited + slack
    ensures Min(MARKS_CAP, stored + g * credited) <= Min(MARKS_CAP, stored + g * direct)
    ensures Min(MARKS_CAP, stored + g * direct) <= Min(MARKS_CAP, stored + g * credited) + g * slack
  {
  }

  /** With constant stake, re-basing at k heights never yields more than evaluating once at the last of
      them, falls short by less than k hours' worth, and loses nothing when every cut before the last
      lies a whole number of hours after the cursor it moves. */
  lemma RebasingCost(m: Meter, staked: u128, heights: seq<u64>, p: Accrual)
    requires heights != [] && Ascending(m.lastBlock, heights)
    ensures var direct := ComputeLazyMarks(m, staked, heights[|heights| - 1], p);
      var rebased := TouchAll(m, staked, heights, p).stored;
      && rebased <= direct <= rebased + PerHour(staked, p) * (|heights| - 1)
      && (WholeHours(m.lastBlock, heights, p) ==> rebased == direct)
  {
    var last := heights[|heights| - 1];
    LazyMarksAreExact(m, staked, last, p);
    TouchAllCredits(m, staked, heights, p);
    CreditedBounds(m.lastBlock, heights, p);
    var credited, direct := CreditedHours(m.lastBlock, heights, p), Hours(m.lastBlock, last, p);
    CappedBounds(m.stored, PerHour(staked, p), credited, direct, |heights| - 1);
  }

  /** One cut before the last evaluation: what it costs, and exactly when it costs nothing. */
  lemma OneCut(m: Meter, staked: u128, cut: u64, later: u64, p: Accrual)
    requires m.lastBlock <= cut <= later
    ensures var direct := ComputeLazyMarks(m, staked, later, p);
      var rebased := ComputeLazyMarks(Touch(m, staked, cut, p), staked, later, p);
      var credited := Hours(m.lastBlock, cut, p) + Hours(cut, later, p);
      var capped := m.stored + PerHour(staked, p) * credited >= MARKS_CAP;
      && rebased <= direct <= rebased + PerHour(staked, p)
      && (rebased == direct <==> PerHour(staked, p) == 0 || capped || credited == Hours(m.lastBlock, later, p))
  {
    var (a, b, whole) := (Hours(m.lastBlock, cut, p), Hours(cut, later, p), Hours(m.lastBlock, later, p));
    LazyMarksAreExact(m, staked, later, p);
    LazyMarksAreExact(m, staked, cut, p);
    LazyMarksAreExact(Touch(m, staked, cut, p), staked, later, p);
    CappedTwice(m.stored, PerHour(staked, p), a, b);
    HoursSplit(m.lastBlock, cut, later, p);
    CappedBounds(m.stored, PerHour(staked, p), a + b, whole, 1);
    CappedApart(m.stored, PerHour(staked, p), a + b, whole);
  }

  lemma CappedApart(stored: nat, g: nat, credited: nat, direct: nat)
    requires credited <= direct <= credited + 1
    ensures Min(MARKS_CAP, stored + g * credited) == Min(MARKS_CAP, stored + g * direct)
      <==> g == 0 || stored + g * credited >= MARKS_CAP || credited == direct
  {
    MulNat(g, credited);
    if direct == credited + 1 {
      assert g * direct == g * credited + g;
    }
  }

  /** An account with one staked coin that is touched every nine of ten blocks to the hour: never a mark. */
  lemma BegunHoursLost()
    ensures var (m, p) := (Meter(0, 0), Accrual(10, 1));
      && ComputeLazyMarks(m, PWM_RAW_SCALE, 18, p) == 1
      && TouchAll(m, PWM_RAW_SCALE, [9, 18], p).stored == 0
  {
    var (m, p) := (Meter(0, 0), Accrual(10, 1));
    LazyMarksAreExact(m, PWM_RAW_SCALE, 18, p);
    LazyMarksAreExact(m, PWM_RAW_SCALE, 9, p);
    LazyMarksAreExact(Meter(0, 9), PWM_RAW_SCALE, 18, p);
    assert [9, 18][1..] == [18] && [18][1..] == [];
  }
}
