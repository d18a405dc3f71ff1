/**
 * The Roth IRA calculator: an initial balance and a yearly contribution grown until retirement,
 * either untaxed (Roth) or with each year's gain taxed (a taxable account).
 */
module RothIra {
  import opened Numbers

  datatype Result = Result(balance: real, principal: real, interest: real, tax: real)

  datatype ScheduleRow = ScheduleRow(
    age: real,
    startPrincipal: real,
    endPrincipal: real,
    startRoth: real,
    endRoth: real,
    startTaxable: real,
    endTaxable: real)

  /** A Roth year: the contribution is added and the sum grows by the rate of return. */
  function RothStep(balance: real, annual: real, rate: real): real
  {
    (balance + annual) * (1.0 + rate)
  }

  /** The Roth balance after k years. */
  function RothAfter(initial: real, annual: real, rate: real, k: nat): real
  {
    if k == 0 then initial else RothStep(RothAfter(initial, annual, rate, k - 1), annual, rate)
  }

  /** A year's gain in the taxable account, before tax. */
  function Gain(balance: real, annual: real, rate: real): real
  {
    (balance + annual) * rate
  }

  /** The share of a gain left after tax. */
  function AfterTax(gain: real, taxRate: real): real
  {
    gain * (1.0 - taxRate)
  }

  /** The tax on a gain. */
  function TaxOn(gain: real, taxRate: real): real
  {
    gain * taxRate
  }

  /** The taxable balance after k years: the contribution and the gain less its tax are added. */
  function TaxableAfter(initial: real, annual: real, rate: real, taxRate: real, k: nat): real
  {
    if k == 0 then initial
    else
      var b := TaxableAfter(initial, annual, rate, taxRate, k - 1);
      b + annual + AfterTax(Gain(b, annual, rate), taxRate)
  }

  /** The tax paid on the gains of the first k years. */
  function TaxBefore(initial: real, annual: real, rate: real, taxRate: real, k: nat): real
  {
    if k == 0 then 0.0
    else
      TaxBefore(initial, annual, rate, taxRate, k - 1)
      + TaxOn(Gain(TaxableAfter(initial, annual, rate, taxRate, k - 1), annual, rate), taxRate)
  }

  /** The money put in by the end of year k: the initial balance and k contributions. */
  function ContributedAfter(initial: real, annual: real, k: nat): real
  {
    if k == 0 then initial else ContributedAfter(initial, annual, k - 1) + annual
  }

  /** getYearlyBalancesRothIRA: the balance at the start and at the end of every year. */
  method YearlyBalancesRoth(initial: real, annual: real, rate: real, years: real) returns (data: seq<real>)
    ensures |data| == TurnsBelow(years) + 1
    ensures forall k :: 0 <= k < |data| ==> data[k] == RothAfter(initial, annual, rate, k)
  {
    var balance := initial;
    data := [balance];
    var i := 0;
    while (i as real) < years
      invariant 0 <= i <= TurnsBelow(years) && |data| == i + 1
      invariant balance == RothAfter(initial, annual, rate, i)
      invariant forall k :: 0 <= k < |data| ==> data[k] == RothAfter(initial, annual, rate, k)
    {
      balance := RothStep(balance, annual, rate);
      data := data + [balance];
      i := i + 1;
    }
  }

  /** getYearlyBalancesTaxable: the taxable balance at the start and at the end of every year. */
  method YearlyBalancesTaxable(initial: real, annual: real, rate: real, years: real, taxRate: real)
    returns (data: seq<real>)
    ensures |data| == TurnsBelow(years) + 1
    ensures forall k :: 0 <= k < |data| ==> data[k] == TaxableAfter(initial, annual, rate, taxRate, k)
  {
    var balance := initial;
    data := [balance];
    var i := 0;
    while (i as real) < years
      invariant 0 <= i <= TurnsBelow(years) && |data| == i + 1
      invariant balance == TaxableAfter(initial, annual, rate, taxRate, i)
      invariant forall k :: 0 <= k < |data| ==> data[k] == TaxableAfter(initial, annual, rate, taxRate, k)
    {
      var gain := Gain(balance, annual, rate);
      var taxedGain := AfterTax(gain, taxRate);
      balance := balance + annual + taxedGain;
      data := data + [balance];
      i := i + 1;
    }
  }

  /** calculateRothIRA: the final balance, the money put in, the growth, and no tax. */
  method CalculateRothIra(initial: real, annual: real, rate: real, years: real) returns (result: Result)
    ensures result.balance == RothAfter(initial, annual, rate, TurnsBelow(years))
    ensures result.principal == ContributedAfter(initial, annual, TurnsBelow(years))
    ensures result.interest == result.balance - result.principal
    ensures result.tax == 0.0
  {
    var balance := initial;
    var principal := initial;
    var i := 0;
    while (i as real) < years
      invariant 0 <= i <= TurnsBelow(years)
      invariant balance == RothAfter(initial, annual, rate, i)
      invariant principal == ContributedAfter(initial, annual, i)
    {
      balance := RothStep(balance, annual, rate);
      principal := principal + annual;
      i := i + 1;
    }
    return Result(balance, principal, balance - principal, 0.0);
  }

  /** calculateTaxable: the final taxable balance, the money put in, the growth and the tax paid. */
  method CalculateTaxable(initial: real, annual: real, rate: real, years: real, taxRate: real)
    returns (result: Result)
    ensures result.balance == TaxableAfter(initial, annual, rate, taxRate, TurnsBelow(years))
    ensures result.principal == ContributedAfter(initial, annual, TurnsBelow(years))
    ensures result.interest == result.balance - result.principal
    ensures result.tax == TaxBefore(initial, annual, rate, taxRate, TurnsBelow(years))
  {
    var balance := initial;
    var principal := initial;
    var totalTax := 0.0;
    var i := 0;
    while (i as real) < years
      invariant 0 <= i <= TurnsBelow(years)
      invariant balance == TaxableAfter(initial, annual, rate, taxRate, i)
      invariant principal == ContributedAfter(initial, annual, i)
      invariant totalTax == TaxBefore(initial, annual, rate, taxRate, i)
    {
      var gain := Gain(balance, annual, rate);
      var taxedGain := AfterTax(gain, taxRate);
      totalTax := totalTax + TaxOn(gain, taxRate);
      balance := balance + annual + taxedGain;
      principal := principal + annual;
      i := i + 1;
    }
    return Result(balance, principal, balance - principal, totalTax);
  }

  /** Row i of the yearly schedule: the year's age and its start and end values. */
  function YearRow(initial: real, annual: real, rate: real, taxRate: real, currentAge: real, i: nat): (row: ScheduleRow)
    ensures row.age == currentAge + i as real
    ensures row.startRoth == RothAfter(initial, annual, rate, i) && row.endRoth == RothAfter(initial, annual, rate, i + 1)
    ensures row.startTaxable == TaxableAfter(initial, annual, rate, taxRate, i)
    ensures row.endTaxable == TaxableAfter(initial, annual, rate, taxRate, i + 1)
    ensures row.startPrincipal == ContributedAfter(initial, annual, i)
    ensures row.endPrincipal == ContributedAfter(initial, annual, i + 1)
  {
    ScheduleRow(
      currentAge + i as real,
      ContributedAfter(initial, annual, i), ContributedAfter(initial, annual, i + 1),
      RothAfter(initial, annual, rate, i), RothAfter(initial, annual, rate, i + 1),
      TaxableAfter(initial, annual, rate, taxRate, i), TaxableAfter(initial, annual, rate, taxRate, i + 1))
  }

  /** getYearlySchedule: one row per year until retirement. */
  method YearlySchedule(initial: real, annual: real, rate: real, years: real, taxRate: real, currentAge: real)
    returns (schedule: seq<ScheduleRow>)
    ensures |schedule| == TurnsBelow(years)
    ensures forall i :: 0 <= i < |schedule| ==> schedule[i] == YearRow(initial, annual, rate, taxRate, currentAge, i)
  {
    var rothBalance := initial;
    var taxableBalance := initial;
    var principal := initial;
    schedule := [];
    var i := 0;
    while (i as real) < years
      invariant 0 <= i <= TurnsBelow(years) && |schedule| == i
      invariant rothBalance == RothAfter(initial, annual, rate, i)
      invariant taxableBalance == TaxableAfter(initial, annual, rate, taxRate, i)
      invariant principal == ContributedAfter(initial, annual, i)
      invariant forall k :: 0 <= k < i ==> schedule[k] == YearRow(initial, annual, rate, taxRate, currentAge, k)
    {
      var age := currentAge + i as real;
      var startPrincipal := principal;
      var startRoth := rothBalance;
      var startTaxable := taxableBalance;
      rothBalance := RothStep(rothBalance, annual, rate);
      var gain := Gain(taxableBalance, annual, rate);
      var taxedGain := AfterTax(gain, taxRate);
      taxableBalance := taxableBalance + annual + taxedGain;
      principal := principal + annual;
      schedule := schedule + [ScheduleRow(age, startPrincipal, principal, startRoth, rothBalance, startTaxable, taxableBalance)];
      i := i + 1;
    }
  }

  /** The money put in by the end of year k is the initial balance plus k contributions. */
  lemma {:induction false} ContributedClosedForm(initial: real, annual: real, k: nat)
    ensures ContributedAfter(initial, annual, k) == initial + annual * k as real
  {
    if k > 0 {
      ContributedClosedForm(initial, annual, k - 1);
      assert annual * k as real == annual * (k - 1) as real + annual;
    }
  }

  /** Without tax, the taxable account grows exactly like the Roth account and pays no tax. */
  lemma {:induction false} UntaxedMatchesRoth(initial: real, annual: real, rate: real, k: nat)
    ensures TaxableAfter(initial, annual, rate, 0.0, k) == RothAfter(initial, annual, rate, k)
    ensures TaxBefore(initial, annual, rate, 0.0, k) == 0.0
  {
    if k > 0 {
      UntaxedMatchesRoth(initial, annual, rate, k - 1);
      var b := RothAfter(initial, annual, rate, k - 1);
      assert b + annual + AfterTax(Gain(b, annual, rate), 0.0) == RothStep(b, annual, rate);
    }
  }

  /** The step of RothAtLeastTaxable: a year's growth keeps the order of the two balances. */
  lemma GrowthKeepsOrder(t: real, b: real, annual: real, rate: real, taxRate: real)
    requires 0.0 <= t + annual && t <= b && rate >= 0.0 && 0.0 <= taxRate <= 1.0
    ensures 0.0 <= t + annual + AfterTax(Gain(t, annual, rate), taxRate) <= RothStep(b, annual, rate)
  {
    var x := t + annual;
    assert AfterTax(Gain(t, annual, rate), taxRate) == x * (rate * (1.0 - taxRate));
    assert 0.0 <= rate * (1.0 - taxRate) <= rate;
    assert x * (rate * (1.0 - taxRate)) <= x * rate;
    assert x * (1.0 + rate) <= (b + annual) * (1.0 + rate);
  }

  /**
   * For money that is not negative, a return that is not negative and a tax rate in 0..1, the
   * taxable balance never exceeds the Roth balance, and stays non-negative.
   */
  lemma {:induction false} RothAtLeastTaxable(initial: real, annual: real, rate: real, taxRate: real, k: nat)
    requires initial >= 0.0 && annual >= 0.0 && rate >= 0.0 && 0.0 <= taxRate <= 1.0
    ensures 0.0 <= TaxableAfter(initial, annual, rate, taxRate, k) <= RothAfter(initial, annual, rate, k)
  {
    if k > 0 {
      RothAtLeastTaxable(initial, annual, rate, taxRate, k - 1);
      GrowthKeepsOrder(
        TaxableAfter(initial, annual, rate, taxRate, k - 1), RothAfter(initial, annual, rate, k - 1),
        annual, rate, taxRate);
    }
  }

  /** In the yearly schedule, each row ends with the values the next row starts with. */
  lemma ScheduleRowsChain(initial: real, annual: real, rate: real, taxRate: real, currentAge: real, i: nat)
    ensures var row := YearRow(initial, annual, rate, taxRate, currentAge, i);
      var next := YearRow(initial, annual, rate, taxRate, currentAge, i + 1);
      && row.endRoth == next.startRoth && row.endTaxable == next.startTaxable
      && row.endPrincipal == next.startPrincipal && next.age == row.age + 1.0
  {
  }
}
