/**
 * The land loan calculator: a loan repaid over whole years at 1, 2, 4, 12, 26 or 52 payments a
 * year, either in equal payments (principal and interest) or with a fixed share of principal in
 * every payment plus the interest on what is still owed.
 *
 * The equal-payment schedule is the payment calculator's, at the periodic rate.
 */
module LandLoan {
  import opened Wrappers
  import opened Numbers
  import opened Payment

  /** The number of payments in a term: years × payments per year. */
  function PaymentCount(years: nat, paymentsPerYear: nat): nat
  {
    years * paymentsPerYear
  }

  /** calculateAmortization: the loan formula at the periodic rate, over years × payments per year. */
  method CalculateAmortization(principal: real, interestRate: real, years: nat, paymentsPerYear: nat)
    returns (result: LoanResult)
    requires interestRate > 0.0 && paymentsPerYear > 0
    ensures var n := PaymentCount(years, paymentsPerYear);
      var r := interestRate / paymentsPerYear as real;
      && result.monthlyPayment == EqualPayment(principal, r, n)
      && |result.amortizationSchedule| == n
      && (n > 0 ==> result.totalPayments == Finite(Repeated(result.monthlyPayment.value, n)))
      && (n > 0 ==> result.totalInterest == InterestBefore(principal, r, result.monthlyPayment.value, n))
      && (n > 0 ==> forall i :: 0 <= i < n ==>
            result.amortizationSchedule[i] == FixedRow(principal, r, result.monthlyPayment.value, i))
      && (n == 0 ==> result.totalPayments.NaN? && result.totalInterest == 0.0)
  {
    var periodicRate := interestRate / paymentsPerYear as real;
    var totalPayments := PaymentCount(years, paymentsPerYear);
    var payment := EqualPayment(principal, periodicRate, totalPayments);
    var paid := Times(payment, totalPayments as real);
    if !payment.Finite? {
      return LoanResult(payment, paid, 0.0, []);
    }
    var schedule, totalInterest := FixedTermSchedule(principal, periodicRate, payment.value, totalPayments);
    return LoanResult(payment, paid, totalInterest, schedule);
  }

  // ---------------------------------------------------------------------------------------------
  // Fixed principal

  /** What is still owed after k payments of `part` principal each. */
  function PrincipalLeft(principal: real, part: real, k: nat): real
  {
    if k == 0 then principal else PrincipalLeft(principal, part, k - 1) - part
  }

  /** Row i (from 0) of the fixed-principal schedule. */
  function FixedPrincipalRow(principal: real, r: real, part: real, i: nat): (row: AmortizationRow)
    ensures row.month == i + 1 && row.principal == part
    ensures row.interest == PrincipalLeft(principal, part, i) * r
    ensures row.payment == part + row.interest
    ensures row.balance == Shown(PrincipalLeft(principal, part, i + 1))
  {
    var interest := PrincipalLeft(principal, part, i) * r;
    AmortizationRow(i + 1, interest, part, Shown(PrincipalLeft(principal, part, i + 1)), part + interest)
  }

  /** The sums of a schedule with one more row. */
  lemma SumsOfAppend(rows: seq<AmortizationRow>, row: AmortizationRow)
    ensures SumInterest(rows + [row]) == SumInterest(rows) + row.interest
    ensures SumPrincipal(rows + [row]) == SumPrincipal(rows) + row.principal
    ensures SumPayments(rows + [row]) == SumPayments(rows) + row.payment
  {
    assert (rows + [row])[..|rows|] == rows;
  }

  /** The loop of calculateFixedPrincipal, from payment 1 to n. */
  method FixedPrincipalSchedule(principal: real, r: real, part: real, n: nat)
    returns (schedule: seq<AmortizationRow>, totalInterest: real, totalPaymentAmount: real)
    ensures |schedule| == n
    ensures forall i :: 0 <= i < n ==> schedule[i] == FixedPrincipalRow(principal, r, part, i)
    ensures totalInterest == SumInterest(schedule) && totalPaymentAmount == SumPayments(schedule)
  {
    schedule := [];
    var balance := principal;
    totalInterest, totalPaymentAmount := 0.0, 0.0;
    var paymentNumber := 1;
    while paymentNumber <= n
      invariant 1 <= paymentNumber <= n + 1 && |schedule| == paymentNumber - 1
      invariant balance == PrincipalLeft(principal, part, paymentNumber - 1)
      invariant forall i :: 0 <= i < |schedule| ==> schedule[i] == FixedPrincipalRow(principal, r, part, i)
      invariant totalInterest == SumInterest(schedule) && totalPaymentAmount == SumPayments(schedule)
    {
      var interestPayment := balance * r;
      var payment := part + interestPayment;
      balance := balance - part;
      totalInterest := totalInterest + interestPayment;
      totalPaymentAmount := totalPaymentAmount + payment;
      var row := AmortizationRow(paymentNumber, interestPayment, part, Shown(balance), payment);
      SumsOfAppend(schedule, row);
      schedule := schedule + [row];
      paymentNumber := paymentNumber + 1;
    }
  }

  /**
   * calculateFixedPrincipal: principal / n repaid in every payment; the result reports the
   * average payment, which is 0 / 0, NaN, for a term of no payments.
   */
  method CalculateFixedPrincipal(principal: real, interestRate: real, years: nat, paymentsPerYear: nat)
    returns (result: LoanResult)
    requires paymentsPerYear > 0
    ensures var n := PaymentCount(years, paymentsPerYear);
      var r := interestRate / paymentsPerYear as real;
      var rows := result.amortizationSchedule;
      && |rows| == n
      && result.totalInterest == SumInterest(rows)
      && result.totalPayments == Finite(SumPayments(rows))
      && (n == 0 ==> result.monthlyPayment.NaN?)
      && (n > 0 ==> result.monthlyPayment == Finite(SumPayments(rows) / n as real))
      && (n > 0 ==> forall i :: 0 <= i < n ==> rows[i] == FixedPrincipalRow(principal, r, principal / n as real, i))
  {
    var periodicRate := interestRate / paymentsPerYear as real;
    var totalPayments := PaymentCount(years, paymentsPerYear);
    if totalPayments == 0 {
      return LoanResult(Divide(0.0, 0.0), Finite(0.0), 0.0, []);
    }
    var fixedPrincipal := principal / totalPayments as real;
    var schedule, totalInterest, totalPaymentAmount := FixedPrincipalSchedule(principal, periodicRate, fixedPrincipal, totalPayments);
    var averagePayment := totalPaymentAmount / totalPayments as real;
    return LoanResult(Finite(averagePayment), Finite(totalPaymentAmount), totalInterest, schedule);
  }

  /** Rows of the fixed-principal schedule are numbered from 1 and pay interest plus the same principal. */
  lemma FixedPrincipalShape(principal: real, r: real, part: real, rows: seq<AmortizationRow>)
    requires forall i :: 0 <= i < |rows| ==> rows[i] == FixedPrincipalRow(principal, r, part, i)
    ensures Numbered(rows) && Balanced(rows)
    ensures forall i :: 0 <= i < |rows| ==> rows[i].principal == part
  {
    forall i | 0 <= i < |rows|
      ensures rows[i].month == i + 1 && rows[i].payment == rows[i].interest + rows[i].principal
    {
      var row := FixedPrincipalRow(principal, r, part, i);
    }
  }

  /** What is owed after k payments: the principal less k parts. */
  lemma {:induction false} PrincipalLeftClosedForm(principal: real, part: real, k: nat)
    ensures PrincipalLeft(principal, part, k) == principal - part * k as real
  {
    if k > 0 {
      PrincipalLeftClosedForm(principal, part, k - 1);
      assert part * k as real == part * (k - 1) as real + part;
    }
  }

  /** The principal column of a fixed-principal schedule sums to what the balance fell by. */
  lemma {:induction false} FixedPrincipalSum(principal: real, r: real, part: real, rows: seq<AmortizationRow>)
    requires forall i :: 0 <= i < |rows| ==> rows[i] == FixedPrincipalRow(principal, r, part, i)
    ensures SumPrincipal(rows) == principal - PrincipalLeft(principal, part, |rows|)
  {
    if |rows| > 0 {
      FixedPrincipalSum(principal, r, part, rows[..|rows| - 1]);
    }
  }

  /**
   * The n payments of principal / n repay the loan exactly, and the payments total the principal
   * plus the interest.
   */
  lemma FixedPrincipalRepays(principal: real, r: real, n: nat, rows: seq<AmortizationRow>)
    requires n > 0 && |rows| == n
    requires forall i :: 0 <= i < n ==> rows[i] == FixedPrincipalRow(principal, r, principal / n as real, i)
    ensures PrincipalLeft(principal, principal / n as real, n) == 0.0
    ensures SumPrincipal(rows) == principal
    ensures SumPayments(rows) == principal + SumInterest(rows)
  {
    var part := principal / n as real;
    PrincipalLeftClosedForm(principal, part, n);
    assert part * n as real == principal;
    FixedPrincipalSum(principal, r, part, rows);
    FixedPrincipalShape(principal, r, part, rows);
    PaymentsAddUp(rows);
  }

  /** At a rate that is not negative, each fixed-principal payment is at most the one before. */
  lemma NextPaymentNoLarger(principal: real, r: real, part: real, i: nat)
    requires r >= 0.0 && part >= 0.0
    ensures FixedPrincipalRow(principal, r, part, i + 1).payment <= FixedPrincipalRow(principal, r, part, i).payment
  {
    var b := PrincipalLeft(principal, part, i);
    assert PrincipalLeft(principal, part, i + 1) == b - part;
    assert (b - part) * r == b * r - part * r;
    assert part * r >= 0.0;
  }

  /** For a rate and a principal that are not negative, the payments never increase. */
  lemma {:induction false} PaymentsNeverIncrease(principal: real, r: real, part: real, i: nat, j: nat)
    requires r >= 0.0 && part >= 0.0 && i <= j
    ensures FixedPrincipalRow(principal, r, part, j).payment <= FixedPrincipalRow(principal, r, part, i).payment
    decreases j - i
  {
    if i < j {
      PaymentsNeverIncrease(principal, r, part, i, j - 1);
      NextPaymentNoLarger(principal, r, part, j - 1);
    }
  }

  // ---------------------------------------------------------------------------------------------
  // Frequency labels

  /** getPaymentFrequencyLabel: the lower-case adverb of a payment frequency. */
  function FrequencyLabel(paymentFrequency: int): string
  {
    match paymentFrequency
    case 1 => "annually"
    case 2 => "semi-annually"
    case 4 => "quarterly"
    case 12 => "monthly"
    case 26 => "bi-weekly"
    case 52 => "weekly"
    case _ => "monthly"
  }

  /** getPaymentFrequencyName: the capitalised name of a payment frequency. */
  function FrequencyName(paymentFrequency: int): string
  {
    match paymentFrequency
    case 1 => "Annual"
    case 2 => "Semi-Annual"
    case 4 => "Quarterly"
    case 12 => "Monthly"
    case 26 => "Bi-Weekly"
    case 52 => "Weekly"
    case _ => "Monthly"
  }

  /** The frequencies the page offers. */
  predicate Offered(paymentFrequency: int)
  {
    paymentFrequency in {1, 2, 4, 12, 26, 52}
  }

  /**
   * The six offered frequencies have six different labels and names, and any other frequency
   * reads as monthly, like 12.
   */
  lemma FrequencyTexts(f: int, g: int)
    ensures Offered(f) && Offered(g) && f != g ==> FrequencyLabel(f) != FrequencyLabel(g) && FrequencyName(f) != FrequencyName(g)
    ensures !Offered(f) ==> FrequencyLabel(f) == FrequencyLabel(12) && FrequencyName(f) == FrequencyName(12)
  {
  }
}
