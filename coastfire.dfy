/**
 * The Coast FIRE calculator: the savings that, left to grow at the real rate of return, reach
 * the retirement target (yearly spending over the safe withdrawal rate) by the retirement age.
 * Ages are numbers that may be fractional, so the powers are Math.pow with a real exponent,
 * passed in as `pow` (see Numbers.IsPositivePow).
 */
module CoastFire {
  import opened Numbers

  datatype ProjectionRow = ProjectionRow(age: real, year: int, netWorth: real, coastFireTarget: real)

  datatype CoastFireResults = CoastFireResults(
    coastFireNumber: real,
    projectedNetWorth: real,
    yearsToRetirement: real,
    realReturnRate: real,
    isCoastFire: bool,
    shortfall: real,
    monthlyContributionNeeded: real,
    projectionData: seq<ProjectionRow>)

  /** The real rate of return as a fraction: (return − inflation) / 100. */
  function RealReturn(investmentReturn: real, inflationRate: real): real
  {
    (investmentReturn - inflationRate) / 100.0
  }

  /** Math.pow(1 + r, years): positive, 1 over no time, and at least 1 over time at a return that is not negative. */
  function Growth(pow: (real, real) -> real, r: real, years: real): (g: real)
    requires IsPositivePow(pow) && r > -1.0
    ensures g > 0.0
    ensures years == 0.0 ==> g == 1.0
    ensures r >= 0.0 && years >= 0.0 ==> g >= 1.0
  {
    assert IsInteger(0.0) && 0.0.Floor == 0;
    pow(1.0 + r, years)
  }

  /** The savings needed at retirement: yearly spending / (withdrawal rate / 100). */
  function FutureValueNeeded(annualSpending: real, safeWithdrawalRate: real): real
    requires safeWithdrawalRate != 0.0
  {
    annualSpending / (safeWithdrawalRate / 100.0)
  }

  /**
   * The Coast FIRE number: the retirement target discounted over the years left. It has the
   * target's sign, is the target itself when no time is left, and never exceeds the target at a
   * return that is not negative.
   */
  function CoastFireNumber(pow: (real, real) -> real, annualSpending: real, safeWithdrawalRate: real, r: real, years: real): (n: real)
    requires IsPositivePow(pow) && safeWithdrawalRate != 0.0 && r > -1.0
    ensures years == 0.0 ==> n == FutureValueNeeded(annualSpending, safeWithdrawalRate)
    ensures n > 0.0 <==> FutureValueNeeded(annualSpending, safeWithdrawalRate) > 0.0
    ensures r >= 0.0 && years >= 0.0 && FutureValueNeeded(annualSpending, safeWithdrawalRate) >= 0.0
      ==> n <= FutureValueNeeded(annualSpending, safeWithdrawalRate)
  {
    var target := FutureValueNeeded(annualSpending, safeWithdrawalRate);
    var g := Growth(pow, r, years);
    DiscountFacts(target, g);
    target / g
  }

  /** Dividing by a positive factor keeps the sign, and a factor of at least 1 does not raise a non-negative value. */
  lemma DiscountFacts(t: real, g: real)
    requires g > 0.0
    ensures t / g > 0.0 <==> t > 0.0
    ensures g >= 1.0 && t >= 0.0 ==> t / g <= t
  {
    DivMulCancel(t, g);
    if g >= 1.0 && t >= 0.0 {
      assert (t / g) * g == t;
      assert (t / g) * 1.0 <= (t / g) * g;
    }
  }

  /** The savings grown over the years left: today's savings over no time, and no less at a return that is not negative. */
  function ProjectedNetWorth(pow: (real, real) -> real, currentSavings: real, r: real, years: real): (w: real)
    requires IsPositivePow(pow) && r > -1.0
    ensures years == 0.0 ==> w == currentSavings
    ensures currentSavings >= 0.0 && r >= 0.0 && years >= 0.0 ==> w >= currentSavings
  {
    var g := Growth(pow, r, years);
    assert currentSavings >= 0.0 && g >= 1.0 ==> currentSavings * g >= currentSavings * 1.0;
    currentSavings * g
  }

  /** The Coast FIRE number is exactly what grows to the retirement target. */
  lemma CoastNumberGrowsToTarget(pow: (real, real) -> real, annualSpending: real, safeWithdrawalRate: real, r: real, years: real)
    requires IsPositivePow(pow) && safeWithdrawalRate != 0.0 && r > -1.0
    ensures CoastFireNumber(pow, annualSpending, safeWithdrawalRate, r, years) * Growth(pow, r, years)
         == FutureValueNeeded(annualSpending, safeWithdrawalRate)
  {
    DivMulCancel(FutureValueNeeded(annualSpending, safeWithdrawalRate), Growth(pow, r, years));
  }

  /** Savings reach the Coast FIRE number exactly when, left to grow, they reach the target. */
  lemma CoastFireIffOnTrack(
    pow: (real, real) -> real, currentSavings: real, annualSpending: real, safeWithdrawalRate: real, r: real, years: real)
    requires IsPositivePow(pow) && safeWithdrawalRate != 0.0 && r > -1.0
    ensures currentSavings >= CoastFireNumber(pow, annualSpending, safeWithdrawalRate, r, years)
        <==> ProjectedNetWorth(pow, currentSavings, r, years) >= FutureValueNeeded(annualSpending, safeWithdrawalRate)
  {
    var g := Growth(pow, r, years);
    var n := CoastFireNumber(pow, annualSpending, safeWithdrawalRate, r, years);
    CoastNumberGrowsToTarget(pow, annualSpending, safeWithdrawalRate, r, years);
    assert ProjectedNetWorth(pow, currentSavings, r, years) == currentSavings * g;
    assert n * g == FutureValueNeeded(annualSpending, safeWithdrawalRate);
    ScaledCompare(currentSavings, n, g);
  }

  /** Scaling by a positive factor keeps the order of two numbers, in both directions. */
  lemma ScaledCompare(a: real, b: real, f: real)
    requires f > 0.0
    ensures a >= b <==> a * f >= b * f
  {
    if a * f >= b * f {
      MulCancelLe(b, a, f);
    } else {
      MulCancelLt(a, b, f);
    }
  }

  // ---------------------------------------------------------------------------------------------
  // Monthly contribution

  /** The value at the end of m months of a contribution of 1 made at the end of every month. */
  function Accumulated(monthlyRate: real, m: nat): real
  {
    if m == 0 then 0.0 else Accumulated(monthlyRate, m - 1) * (1.0 + monthlyRate) + 1.0
  }

  /** The annuity factor of the source's formula over a whole number of months. */
  function WholeMonthsFactor(monthlyRate: real, totalMonths: nat): real
  {
    if monthlyRate == 0.0 then totalMonths as real
    else (Pow(1.0 + monthlyRate, totalMonths) - 1.0) / monthlyRate
  }

  /** The annuity factor over whole months is the value of m contributions of 1. */
  lemma {:induction false} FactorIsAccumulated(monthlyRate: real, m: nat)
    ensures WholeMonthsFactor(monthlyRate, m) == Accumulated(monthlyRate, m)
  {
    if m > 0 {
      FactorIsAccumulated(monthlyRate, m - 1);
      if monthlyRate != 0.0 {
        var q := Pow(1.0 + monthlyRate, m - 1);
        assert Pow(1.0 + monthlyRate, m) == (1.0 + monthlyRate) * q;
        AccumulatedStep(q, monthlyRate);
      }
    }
  }

  /** FactorIsAccumulated for a count of months held as a real number. */
  lemma FactorIsAccumulatedOnWhole(monthlyRate: real, totalMonths: real)
    ensures totalMonths >= 0.0 && IsInteger(totalMonths)
      ==> WholeMonthsFactor(monthlyRate, totalMonths.Floor) == Accumulated(monthlyRate, totalMonths.Floor)
  {
    if totalMonths >= 0.0 && IsInteger(totalMonths) {
      FactorIsAccumulated(monthlyRate, totalMonths.Floor);
    }
  }

  /** One more month of the annuity factor, in closed form. */
  lemma AccumulatedStep(q: real, monthlyRate: real)
    requires monthlyRate != 0.0
    ensures ((q - 1.0) / monthlyRate) * (1.0 + monthlyRate) + 1.0 == ((1.0 + monthlyRate) * q - 1.0) / monthlyRate
  {
    var a := (q - 1.0) / monthlyRate;
    var x := a * (1.0 + monthlyRate) + 1.0;
    assert a * monthlyRate == q - 1.0;
    assert x * monthlyRate == a * monthlyRate * (1.0 + monthlyRate) + monthlyRate;
    assert x * monthlyRate == (1.0 + monthlyRate) * q - 1.0;
    MulDivCancel(x, monthlyRate);
  }

  /**
   * The source's annuity factor for a possibly fractional number of months: positive for a
   * positive number of months at a monthly rate above −1, and the value of the contributions of
   * 1 when the months are whole.
   */
  function FutureValueFactor(pow: (real, real) -> real, monthlyRate: real, totalMonths: real): (f: real)
    requires IsPositivePow(pow) && monthlyRate > -1.0
    ensures totalMonths > 0.0 ==> f > 0.0
    ensures totalMonths >= 0.0 && IsInteger(totalMonths) ==> f == Accumulated(monthlyRate, totalMonths.Floor)
  {
    FactorIsAccumulatedOnWhole(monthlyRate, totalMonths);
    if monthlyRate == 0.0 then totalMonths
    else
      var p := pow(1.0 + monthlyRate, totalMonths);
      QuotientPositive(p - 1.0, monthlyRate);
      (p - 1.0) / monthlyRate
  }

  /** A quotient of two numbers of the same sign is positive. */
  lemma QuotientPositive(x: real, y: real)
    requires y != 0.0
    ensures (x > 0.0 && y > 0.0) || (x < 0.0 && y < 0.0) ==> x / y > 0.0
  {
  }

  /**
   * calculateMonthlyContribution: nothing when no years are left; otherwise the monthly amount
   * whose remaining months, at the monthly rate, are worth exactly the target; over a whole number
   * of months that is the amount that, paid at the end of each month and grown, reaches the target.
   */
  function MonthlyContribution(pow: (real, real) -> real, targetAmount: real, annualRate: real, years: real): (c: real)
    requires IsPositivePow(pow) && annualRate > -1.0
    ensures years <= 0.0 ==> c == 0.0
    ensures years > 0.0 ==> c * FutureValueFactor(pow, annualRate / 12.0, years * 12.0) == targetAmount
    ensures years > 0.0 && IsInteger(years * 12.0) ==> c * Accumulated(annualRate / 12.0, (years * 12.0).Floor) == targetAmount
    ensures years > 0.0 && targetAmount >= 0.0 ==> c >= 0.0
  {
    if years <= 0.0 then 0.0
    else
      var monthlyRate := annualRate / 12.0;
      var totalMonths := years * 12.0;
      var f := FutureValueFactor(pow, monthlyRate, totalMonths);
      DivMulCancel(targetAmount, f);
      if monthlyRate == 0.0 then targetAmount / totalMonths
      else targetAmount / f
  }

  // ---------------------------------------------------------------------------------------------
  // Projection

  /** The number of ages `for (age = currentAge; age <= retirementAge; age++)` visits. */
  function Rows(currentAge: real, retirementAge: real): (n: nat)
    ensures n > 0 <==> currentAge <= retirementAge
    ensures n > 0 ==> currentAge + (n - 1) as real <= retirementAge < currentAge + n as real
  {
    if currentAge <= retirementAge then Floor(retirementAge - currentAge) + 1 else 0
  }

  /** The projection row i years from now: savings grown so far and the Coast FIRE target at that age. */
  function ProjectionAt(
    pow: (real, real) -> real, currentAge: real, retirementAge: real, currentSavings: real,
    annualSpending: real, r: real, safeWithdrawalRate: real, currentYear: int, i: nat): (row: ProjectionRow)
    requires IsPositivePow(pow) && safeWithdrawalRate != 0.0 && r > -1.0
    ensures row.age == currentAge + i as real && row.year == currentYear + i
    ensures row.netWorth == ProjectedNetWorth(pow, currentSavings, r, i as real)
    ensures retirementAge - row.age > 0.0
      ==> row.coastFireTarget == CoastFireNumber(pow, annualSpending, safeWithdrawalRate, r, retirementAge - row.age)
    ensures retirementAge - row.age <= 0.0 ==> row.coastFireTarget == FutureValueNeeded(annualSpending, safeWithdrawalRate)
  {
    var age := currentAge + i as real;
    var yearsToRetirement := retirementAge - age;
    var target := FutureValueNeeded(annualSpending, safeWithdrawalRate);
    ProjectionRow(
      age, currentYear + i, ProjectedNetWorth(pow, currentSavings, r, i as real),
      if yearsToRetirement > 0.0 then target / Growth(pow, r, yearsToRetirement) else target)
  }

  /**
   * generateProjectionData: one row per age from the current age while it is at most the
   * retirement age; the first row holds today's savings, and the last lies less than a year
   * before retirement, at retirement itself (with the full target) when the years between are whole.
   */
  method ProjectionData(
    pow: (real, real) -> real, currentAge: real, retirementAge: real, currentSavings: real,
    annualSpending: real, r: real, safeWithdrawalRate: real, currentYear: int)
    returns (data: seq<ProjectionRow>)
    requires IsPositivePow(pow) && safeWithdrawalRate != 0.0 && r > -1.0
    ensures |data| == Rows(currentAge, retirementAge)
    ensures forall i :: 0 <= i < |data| ==>
      data[i] == ProjectionAt(pow, currentAge, retirementAge, currentSavings, annualSpending, r, safeWithdrawalRate, currentYear, i)
    ensures |data| > 0 ==> data[0].netWorth == currentSavings && data[0].age == currentAge
    ensures |data| > 0 ==> var last := data[|data| - 1];
      && last.age <= retirementAge < last.age + 1.0
      && (IsInteger(retirementAge - currentAge)
          ==> last.age == retirementAge && last.coastFireTarget == FutureValueNeeded(annualSpending, safeWithdrawalRate))
  {
    data := [];
    var age := currentAge;
    while age <= retirementAge
      invariant age == currentAge + |data| as real && |data| <= Rows(currentAge, retirementAge)
      invariant forall i :: 0 <= i < |data| ==>
        data[i] == ProjectionAt(pow, currentAge, retirementAge, currentSavings, annualSpending, r, safeWithdrawalRate, currentYear, i)
      decreases Rows(currentAge, retirementAge) - |data|
    {
      var yearsFromNow := age - currentAge;
      var yearsToRetirement := retirementAge - age;
      var netWorth := ProjectedNetWorth(pow, currentSavings, r, yearsFromNow);
      var futureValueNeeded := FutureValueNeeded(annualSpending, safeWithdrawalRate);
      var coastFireTarget := if yearsToRetirement > 0.0 then futureValueNeeded / Growth(pow, r, yearsToRetirement) else futureValueNeeded;
      data := data + [ProjectionRow(age, currentYear + |data|, netWorth, coastFireTarget)];
      age := age + 1.0;
    }
    if |data| > 0 && IsInteger(retirementAge - currentAge) {
      LastAgeWhole(currentAge, retirementAge);
    }
  }

  /** When the years to retirement are whole, the last age visited is the retirement age. */
  lemma LastAgeWhole(currentAge: real, retirementAge: real)
    requires currentAge <= retirementAge && IsInteger(retirementAge - currentAge)
    ensures currentAge + (Rows(currentAge, retirementAge) - 1) as real == retirementAge
  {
  }

  // ---------------------------------------------------------------------------------------------
  // The whole calculation

  /**
   * calculateCoastFire: the Coast FIRE number, the projected savings, whether the savings have
   * reached the number, the shortfall, the monthly contribution that closes it, and the projection.
   * The inputs are required to keep the divisions finite: a withdrawal rate that is not zero and a
   * real rate of return above −100%.
   */
  method CalculateCoastFire(
    pow: (real, real) -> real, currentAge: real, retirementAge: real, currentSavings: real, annualSpending: real,
    investmentReturn: real, inflationRate: real, safeWithdrawalRate: real, currentYear: int)
    returns (results: CoastFireResults)
    requires IsPositivePow(pow) && safeWithdrawalRate != 0.0 && RealReturn(investmentReturn, inflationRate) > -1.0
    ensures var r, years := RealReturn(investmentReturn, inflationRate), retirementAge - currentAge;
      && results.yearsToRetirement == years
      && results.realReturnRate == r * 100.0
      && results.coastFireNumber == CoastFireNumber(pow, annualSpending, safeWithdrawalRate, r, years)
      && results.projectedNetWorth == ProjectedNetWorth(pow, currentSavings, r, years)
      && (results.isCoastFire <==> currentSavings >= results.coastFireNumber)
      && (results.isCoastFire <==> results.projectedNetWorth >= FutureValueNeeded(annualSpending, safeWithdrawalRate))
      && results.shortfall == Max(0.0, results.coastFireNumber - currentSavings)
      && (results.isCoastFire <==> results.shortfall == 0.0)
      && (results.isCoastFire ==> results.monthlyContributionNeeded == 0.0)
      && (!results.isCoastFire ==> results.monthlyContributionNeeded == MonthlyContribution(pow, results.shortfall, r, years))
      && |results.projectionData| == Rows(currentAge, retirementAge)
      && (forall i :: 0 <= i < |results.projectionData| ==>
            results.projectionData[i]
            == ProjectionAt(pow, currentAge, retirementAge, currentSavings, annualSpending, r, safeWithdrawalRate, currentYear, i))
  {
    var yearsToRetirement := retirementAge - currentAge;
    var realReturnRate := RealReturn(investmentReturn, inflationRate);
    var coastFireNumber := CoastFireNumber(pow, annualSpending, safeWithdrawalRate, realReturnRate, yearsToRetirement);
    var projectedNetWorth := ProjectedNetWorth(pow, currentSavings, realReturnRate, yearsToRetirement);
    var isCoastFire := currentSavings >= coastFireNumber;
    var shortfall := Max(0.0, coastFireNumber - currentSavings);
    var monthlyContributionNeeded := if isCoastFire then 0.0 else MonthlyContribution(pow, shortfall, realReturnRate, yearsToRetirement);
    var projectionData := ProjectionData(
      pow, currentAge, retirementAge, currentSavings, annualSpending, realReturnRate, safeWithdrawalRate, currentYear);
    CoastFireIffOnTrack(pow, currentSavings, annualSpending, safeWithdrawalRate, realReturnRate, yearsToRetirement);
    return CoastFireResults(
      coastFireNumber, projectedNetWorth, yearsToRetirement, realReturnRate * 100.0,
      isCoastFire, shortfall, monthlyContributionNeeded, projectionData);
  }
}
