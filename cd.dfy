/**
 * The CD calculator: a deposit compounded `compounding` times a year for a number of years, where
 * each period's interest is taxed and only the share after tax is credited to the balance.
 */
module Cd {
  import opened Numbers

  datatype ScheduleRow = ScheduleRow(year: int, balance: real, interest: real, taxPaid: real)

  datatype CdResult = CdResult(finalBalance: real, totalInterest: real, totalTax: real, schedule: seq<ScheduleRow>)

  /** A period's interest on a balance at the periodic rate. */
  function Interest(balance: real, periodicRate: real): real
  {
    balance * periodicRate
  }

  /** The share of the interest credited after tax. */
  function Credited(interest: real, taxRate: real): real
  {
    interest * (1.0 - taxRate)
  }

  /** The tax on a period's interest. */
  function TaxOn(interest: real, taxRate: real): real
  {
    interest * taxRate
  }

  /** The balance after k compounding periods. */
  function BalanceAfter(principal: real, periodicRate: real, taxRate: real, k: nat): real
  {
    if k == 0 then principal
    else
      var b := BalanceAfter(principal, periodicRate, taxRate, k - 1);
      b + Credited(Interest(b, periodicRate), taxRate)
  }

  /** The interest credited over the first k periods. */
  function CreditedAfter(principal: real, periodicRate: real, taxRate: real, k: nat): real
  {
    if k == 0 then 0.0
    else
      CreditedAfter(principal, periodicRate, taxRate, k - 1)
      + Credited(Interest(BalanceAfter(principal, periodicRate, taxRate, k - 1), periodicRate), taxRate)
  }

  /** The tax paid over the first k periods. */
  function TaxAfter(principal: real, periodicRate: real, taxRate: real, k: nat): real
  {
    if k == 0 then 0.0
    else
      TaxAfter(principal, periodicRate, taxRate, k - 1)
      + TaxOn(Interest(BalanceAfter(principal, periodicRate, taxRate, k - 1), periodicRate), taxRate)
  }

  /** The number of periods in y years of c periods each. */
  function PeriodsIn(y: nat, c: nat): nat
  {
    y * c
  }

  /** The schedule row of year y: the balance then, and the interest and tax so far. */
  function YearRow(principal: real, periodicRate: real, taxRate: real, c: nat, y: nat): (row: ScheduleRow)
    ensures row.year == y
    ensures row.balance == BalanceAfter(principal, periodicRate, taxRate, PeriodsIn(y, c))
    ensures row.interest == CreditedAfter(principal, periodicRate, taxRate, PeriodsIn(y, c))
    ensures row.taxPaid == TaxAfter(principal, periodicRate, taxRate, PeriodsIn(y, c))
  {
    var k := PeriodsIn(y, c);
    ScheduleRow(y, BalanceAfter(principal, periodicRate, taxRate, k),
      CreditedAfter(principal, periodicRate, taxRate, k), TaxAfter(principal, periodicRate, taxRate, k))
  }

  /** The periodic rate: the yearly rate split over the compounding periods. */
  function PeriodicRate(rate: real, compounding: int): real
  {
    if compounding > 0 then rate / compounding as real else 0.0
  }

  /**
   * calculateCD: the year rows, the final balance, and the interest credited and tax paid over
   * all the periods; the final balance is the deposit plus the interest, and the last row shows it.
   */
  method CalculateCd(principal: real, rate: real, years: int, compounding: int, taxRate: real)
    returns (result: CdResult)
    ensures var pr, c := PeriodicRate(rate, compounding), Turns(compounding);
      var n := PeriodsIn(Turns(years), c);
      && |result.schedule| == Turns(years)
      && (forall i :: 0 <= i < |result.schedule| ==> result.schedule[i] == YearRow(principal, pr, taxRate, c, i + 1))
      && result.finalBalance == BalanceAfter(principal, pr, taxRate, n)
      && result.totalInterest == CreditedAfter(principal, pr, taxRate, n)
      && result.totalTax == TaxAfter(principal, pr, taxRate, n)
    ensures result.finalBalance == principal + result.totalInterest
    ensures |result.schedule| > 0 ==> result.schedule[|result.schedule| - 1].balance == result.finalBalance
  {
    var c := Turns(compounding);
    var pr := PeriodicRate(rate, compounding);
    var schedule: seq<ScheduleRow> := [];
    var balance := principal;
    var totalInterest := 0.0;
    var totalTax := 0.0;
    var y := 1;
    while y <= years
      invariant 1 <= y <= Turns(years) + 1 && |schedule| == y - 1
      invariant balance == BalanceAfter(principal, pr, taxRate, PeriodsIn(y - 1, c))
      invariant totalInterest == CreditedAfter(principal, pr, taxRate, PeriodsIn(y - 1, c))
      invariant totalTax == TaxAfter(principal, pr, taxRate, PeriodsIn(y - 1, c))
      invariant forall i :: 0 <= i < |schedule| ==> schedule[i] == YearRow(principal, pr, taxRate, c, i + 1)
    {
      var start := PeriodsIn(y - 1, c);
      var yearInterest;
      balance, yearInterest, totalTax := CompoundYear(rate, compounding, taxRate, balance, totalTax, principal, totalInterest, start);
      assert start + c == PeriodsIn(y, c);
      totalInterest := totalInterest + yearInterest;
      schedule := schedule + [ScheduleRow(y, balance, totalInterest, totalTax)];
      y := y + 1;
    }
    BalanceIsDepositPlusInterest(principal, pr, taxRate, PeriodsIn(Turns(years), c));
    return CdResult(balance, totalInterest, totalTax, schedule);
  }

  /**
   * The inner loop of calculateCD: the periods of one year, each crediting its interest after tax
   * to the balance and adding the tax to the total; yearInterest is the interest credited.
   */
  method CompoundYear(
    rate: real, compounding: int, taxRate: real, balance0: real, totalTax0: real,
    ghost principal: real, ghost totalInterest: real, ghost start: nat)
    returns (balance: real, yearInterest: real, totalTax: real)
    requires var pr := PeriodicRate(rate, compounding);
      && balance0 == BalanceAfter(principal, pr, taxRate, start)
      && totalInterest == CreditedAfter(principal, pr, taxRate, start)
      && totalTax0 == TaxAfter(principal, pr, taxRate, start)
    ensures var pr, end := PeriodicRate(rate, compounding), start + Turns(compounding);
      && balance == BalanceAfter(principal, pr, taxRate, end)
      && totalInterest + yearInterest == CreditedAfter(principal, pr, taxRate, end)
      && totalTax == TaxAfter(principal, pr, taxRate, end)
  {
    var pr := PeriodicRate(rate, compounding);
    balance, totalTax := balance0, totalTax0;
    yearInterest := 0.0;
    var p := 0;
    while p < compounding
      invariant 0 <= p <= Turns(compounding)
      invariant balance == BalanceAfter(principal, pr, taxRate, start + p)
      invariant totalInterest + yearInterest == CreditedAfter(principal, pr, taxRate, start + p)
      invariant totalTax == TaxAfter(principal, pr, taxRate, start + p)
    {
      var interest := Interest(balance, rate / compounding as real);
      var taxedInterest := Credited(interest, taxRate);
      yearInterest := yearInterest + taxedInterest;
      totalTax := totalTax + TaxOn(interest, taxRate);
      balance := balance + taxedInterest;
      p := p + 1;
    }
  }

  /** After any number of periods the balance is the deposit plus the interest credited so far. */
  lemma {:induction false} BalanceIsDepositPlusInterest(principal: real, periodicRate: real, taxRate: real, k: nat)
    ensures BalanceAfter(principal, periodicRate, taxRate, k) == principal + CreditedAfter(principal, periodicRate, taxRate, k)
  {
    if k > 0 {
      BalanceIsDepositPlusInterest(principal, periodicRate, taxRate, k - 1);
    }
  }

  /** Without tax, no tax is paid and the deposit compounds at the periodic rate. */
  lemma {:induction false} UntaxedCompounding(principal: real, periodicRate: real, k: nat)
    ensures TaxAfter(principal, periodicRate, 0.0, k) == 0.0
    ensures BalanceAfter(principal, periodicRate, 0.0, k) == principal * Pow(1.0 + periodicRate, k)
  {
    if k > 0 {
      UntaxedCompounding(principal, periodicRate, k - 1);
      var b := BalanceAfter(principal, periodicRate, 0.0, k - 1);
      UntaxedStep(b, periodicRate);
      Regrouped(principal, Pow(1.0 + periodicRate, k - 1), 1.0 + periodicRate);
    }
  }

  /** An untaxed period multiplies the balance by 1 + the periodic rate. */
  lemma UntaxedStep(b: real, periodicRate: real)
    ensures b + Credited(Interest(b, periodicRate), 0.0) == b * (1.0 + periodicRate)
  {
  }

  lemma Regrouped(p: real, q: real, g: real)
    ensures (p * q) * g == p * (g * q)
  {
  }

  /**
   * The credited interest and the tax split the gross interest in the proportion
   * (1 − taxRate) : taxRate.
   */
  lemma {:induction false} TaxProportion(principal: real, periodicRate: real, taxRate: real, k: nat)
    ensures InProportion(CreditedAfter(principal, periodicRate, taxRate, k), TaxAfter(principal, periodicRate, taxRate, k), taxRate)
  {
    if k > 0 {
      TaxProportion(principal, periodicRate, taxRate, k - 1);
      var i := Interest(BalanceAfter(principal, periodicRate, taxRate, k - 1), periodicRate);
      ProportionStep(CreditedAfter(principal, periodicRate, taxRate, k - 1), TaxAfter(principal, periodicRate, taxRate, k - 1), i, taxRate);
    }
  }

  /** Credited interest c and tax t in the proportion (1 − taxRate) : taxRate. */
  predicate InProportion(c: real, t: real, taxRate: real)
  {
    c * taxRate == t * (1.0 - taxRate)
  }

  /** Adding one period's credited interest and tax keeps the two totals in proportion. */
  lemma ProportionStep(c: real, t: real, i: real, taxRate: real)
    requires InProportion(c, t, taxRate)
    ensures InProportion(c + Credited(i, taxRate), t + TaxOn(i, taxRate), taxRate)
  {
    assert Credited(i, taxRate) * taxRate == TaxOn(i, taxRate) * (1.0 - taxRate);
    assert (c + Credited(i, taxRate)) * taxRate == c * taxRate + Credited(i, taxRate) * taxRate;
    assert (t + TaxOn(i, taxRate)) * (1.0 - taxRate) == t * (1.0 - taxRate) + TaxOn(i, taxRate) * (1.0 - taxRate);
  }

  /**
   * For a deposit and a rate that are not negative and a tax rate of at most 1, the balance,
   * the credited interest and the tax never fall from one period to the next.
   */
  lemma NextPeriodNoLower(principal: real, periodicRate: real, taxRate: real, k: nat)
    requires principal >= 0.0 && periodicRate >= 0.0 && 0.0 <= taxRate <= 1.0
    ensures 0.0 <= BalanceAfter(principal, periodicRate, taxRate, k) <= BalanceAfter(principal, periodicRate, taxRate, k + 1)
    ensures CreditedAfter(principal, periodicRate, taxRate, k) <= CreditedAfter(principal, periodicRate, taxRate, k + 1)
    ensures TaxAfter(principal, periodicRate, taxRate, k) <= TaxAfter(principal, periodicRate, taxRate, k + 1)
  {
    BalanceNonNegative(principal, periodicRate, taxRate, k);
    var b := BalanceAfter(principal, periodicRate, taxRate, k);
    var i := Interest(b, periodicRate);
    assert i >= 0.0;
    assert Credited(i, taxRate) >= 0.0;
    assert TaxOn(i, taxRate) >= 0.0;
  }

  /** The balance stays non-negative under the conditions of NextPeriodNoLower. */
  lemma {:induction false} BalanceNonNegative(principal: real, periodicRate: real, taxRate: real, k: nat)
    requires principal >= 0.0 && periodicRate >= 0.0 && taxRate <= 1.0
    ensures BalanceAfter(principal, periodicRate, taxRate, k) >= 0.0
  {
    if k > 0 {
      BalanceNonNegative(principal, periodicRate, taxRate, k - 1);
      var b := BalanceAfter(principal, periodicRate, taxRate, k - 1);
      assert Interest(b, periodicRate) >= 0.0;
      assert Credited(Interest(b, periodicRate), taxRate) >= 0.0;
    }
  }
}
