/**
 * The payment calculator: the schedule of a loan repaid in equal monthly payments over a fixed
 * term, and the time it takes to repay a loan with a chosen monthly payment.
 */
module Payment {
  import opened Wrappers
  import opened Numbers

  datatype AmortizationRow = AmortizationRow(
    month: int,
    interest: real,
    principal: real,
    balance: real,
    payment: real)

  /** The fixed-term result; a term of zero months takes the payment fields out of the reals. */
  datatype LoanResult = LoanResult(
    monthlyPayment: JsNumber,
    totalPayments: JsNumber,
    totalInterest: real,
    amortizationSchedule: seq<AmortizationRow>)

  datatype TimeToPayoffResult = TimeToPayoffResult(
    months: int,
    totalInterest: real,
    totalPayment: real,
    amortizationSchedule: seq<AmortizationRow>)

  /** The balance a row reports: the running balance, or 0 once it is not positive. */
  function Shown(balance: real): (r: real)
    ensures r >= 0.0
    ensures balance > 0.0 ==> r == balance
    ensures balance <= 0.0 ==> r == 0.0
  {
    if balance > 0.0 then balance else 0.0
  }

  /** The sum of the interest column. */
  function SumInterest(rows: seq<AmortizationRow>): real
  {
    if |rows| == 0 then 0.0 else SumInterest(rows[..|rows| - 1]) + rows[|rows| - 1].interest
  }

  /** The sum of the principal column. */
  function SumPrincipal(rows: seq<AmortizationRow>): real
  {
    if |rows| == 0 then 0.0 else SumPrincipal(rows[..|rows| - 1]) + rows[|rows| - 1].principal
  }

  /** The sum of the payment column. */
  function SumPayments(rows: seq<AmortizationRow>): real
  {
    if |rows| == 0 then 0.0 else SumPayments(rows[..|rows| - 1]) + rows[|rows| - 1].payment
  }

  /** Rows numbered 1, 2, ... in order. */
  predicate Numbered(rows: seq<AmortizationRow>)
  {
    forall i :: 0 <= i < |rows| ==> rows[i].month == i + 1
  }

  /** Rows in which payment = interest + principal. */
  predicate Balanced(rows: seq<AmortizationRow>)
  {
    forall i :: 0 <= i < |rows| ==> rows[i].payment == rows[i].interest + rows[i].principal
  }

  /** When every row pays its interest and principal, the payments add up to the two sums. */
  lemma {:induction false} PaymentsAddUp(rows: seq<AmortizationRow>)
    requires Balanced(rows)
    ensures SumPayments(rows) == SumInterest(rows) + SumPrincipal(rows)
  {
    if |rows| > 0 {
      PaymentsAddUp(rows[..|rows| - 1]);
    }
  }

  // ---------------------------------------------------------------------------------------------
  // Fixed term

  /**
   * The loan formula: P·r·q^n / (q^n − 1) with q = 1 + r. A term of zero months divides P·r by 0:
   * +Infinity for a positive principal, −Infinity for a negative one, and NaN for none.
   */
  function EqualPayment(principal: real, r: real, n: nat): (p: JsNumber)
    requires r > 0.0
    ensures p.Finite? <==> n > 0
    ensures n == 0 ==>
      && (p == Infinity(true) <==> principal > 0.0)
      && (p == Infinity(false) <==> principal < 0.0)
      && (p.NaN? <==> principal == 0.0)
  {
    if n == 0 then
      SignOfProduct(principal, r);
      Divide(principal * r, 0.0)
    else
      PowAwayFromOne(1.0 + r, n);
      Finite(Annuity(principal, r, Pow(1.0 + r, n)))
  }

  /** A product with a positive factor has the sign of the other factor. */
  lemma SignOfProduct(x: real, r: real)
    requires r > 0.0
    ensures x * r > 0.0 <==> x > 0.0
    ensures x * r < 0.0 <==> x < 0.0
  {
    if x > 0.0 {
      assert x * r > 0.0 * r;
    } else if x < 0.0 {
      assert (-x) * r > 0.0;
    }
  }

  /** P·r·q / (q − 1), for q = (1 + r)^n above one. */
  function Annuity(principal: real, r: real, q: real): real
    requires q > 1.0
  {
    principal * (r * q) / (q - 1.0)
  }

  /** The running balance after k months of paying `payment` at monthly rate r. */
  function BalanceAfter(principal: real, r: real, payment: real, k: nat): real
  {
    if k == 0 then principal
    else
      var b := BalanceAfter(principal, r, payment, k - 1);
      b - (payment - b * r)
  }

  /** Row i (from 0) of the fixed-term schedule. */
  function FixedRow(principal: real, r: real, payment: real, i: nat): (row: AmortizationRow)
    ensures row.month == i + 1 && row.payment == payment
    ensures row.interest == BalanceAfter(principal, r, payment, i) * r
    ensures row.principal == payment - row.interest
    ensures BalanceAfter(principal, r, payment, i + 1) == BalanceAfter(principal, r, payment, i) - row.principal
    ensures row.balance == Shown(BalanceAfter(principal, r, payment, i + 1))
  {
    var interest := BalanceAfter(principal, r, payment, i) * r;
    AmortizationRow(i + 1, interest, payment - interest, Shown(BalanceAfter(principal, r, payment, i + 1)), payment)
  }

  /** The interest of the first k months. */
  function InterestBefore(principal: real, r: real, payment: real, k: nat): real
  {
    if k == 0 then 0.0 else InterestBefore(principal, r, payment, k - 1) + BalanceAfter(principal, r, payment, k - 1) * r
  }

  /** One month of the closed form: the algebra of BalanceClosedForm's step. */
  lemma ClosedFormStep(b: real, r: real, payment: real, principal: real, q: real, next: real, nextQ: real)
    requires b * r == principal * r * q - payment * (q - 1.0)
    requires next == b - (payment - b * r) && nextQ == (1.0 + r) * q
    ensures next * r == principal * r * nextQ - payment * (nextQ - 1.0)
  {
    var x := b * r;
    assert next * r == x * (1.0 + r) - payment * r;
    assert x * (1.0 + r) == principal * r * q * (1.0 + r) - payment * (q - 1.0) * (1.0 + r);
  }

  /** The closed form of the balance after k months, scaled by r, with q = 1 + r. */
  predicate ClosedForm(principal: real, r: real, payment: real, k: nat)
  {
    BalanceAfter(principal, r, payment, k) * r
      == principal * r * Pow(1.0 + r, k) - payment * (Pow(1.0 + r, k) - 1.0)
  }

  /** The closed form carries over from one month to the next. */
  lemma ClosedFormNext(principal: real, r: real, payment: real, k: nat)
    requires ClosedForm(principal, r, payment, k)
    ensures ClosedForm(principal, r, payment, k + 1)
  {
    var b, q := BalanceAfter(principal, r, payment, k), Pow(1.0 + r, k);
    var next, nextQ := BalanceAfter(principal, r, payment, k + 1), Pow(1.0 + r, k + 1);
    assert next == b - (payment - b * r);
    assert nextQ == (1.0 + r) * q;
    ClosedFormStep(b, r, payment, principal, q, next, nextQ);
  }

  /** The balance in closed form, scaled by r: B(k)·r = P·r·q^k − payment·(q^k − 1) with q = 1 + r. */
  lemma {:induction false} BalanceClosedForm(principal: real, r: real, payment: real, k: nat)
    ensures ClosedForm(principal, r, payment, k)
  {
    if k > 0 {
      BalanceClosedForm(principal, r, payment, k - 1);
      ClosedFormNext(principal, r, payment, k - 1);
    }
  }

  /** The algebra of EqualPaymentPaysOff: the formula's payment zeroes the closed form. */
  lemma FormulaZeroesBalance(principal: real, r: real, q: real, payment: real, b: real)
    requires r > 0.0 && q > 1.0
    requires payment == Annuity(principal, r, q)
    requires b * r == principal * r * q - payment * (q - 1.0)
    ensures b == 0.0
  {
    assert payment * (q - 1.0) == principal * (r * q);
    assert b * r == 0.0;
  }

  /** The equal payment of the loan formula leaves nothing owed after the n-th month. */
  lemma EqualPaymentPaysOff(principal: real, r: real, n: nat)
    requires r > 0.0 && n > 0
    ensures BalanceAfter(principal, r, EqualPayment(principal, r, n).value, n) == 0.0
  {
    var payment := EqualPayment(principal, r, n).value;
    PowAwayFromOne(1.0 + r, n);
    BalanceClosedForm(principal, r, payment, n);
    FormulaZeroesBalance(principal, r, Pow(1.0 + r, n), payment, BalanceAfter(principal, r, payment, n));
  }

  /** Rows of the fixed-term schedule are numbered from 1 and each pays interest plus principal. */
  lemma FixedScheduleShape(principal: real, r: real, payment: real, rows: seq<AmortizationRow>)
    requires forall i :: 0 <= i < |rows| ==> rows[i] == FixedRow(principal, r, payment, i)
    ensures Numbered(rows) && Balanced(rows)
  {
    forall i | 0 <= i < |rows|
      ensures rows[i].month == i + 1 && rows[i].payment == rows[i].interest + rows[i].principal
    {
      var row := FixedRow(principal, r, payment, i);
    }
  }

  /** The interest column of the fixed-term schedule sums to the interest of its months. */
  lemma {:induction false} FixedScheduleInterest(principal: real, r: real, payment: real, rows: seq<AmortizationRow>)
    requires forall i :: 0 <= i < |rows| ==> rows[i] == FixedRow(principal, r, payment, i)
    ensures SumInterest(rows) == InterestBefore(principal, r, payment, |rows|)
  {
    if |rows| > 0 {
      FixedScheduleInterest(principal, r, payment, rows[..|rows| - 1]);
    }
  }

  /** The principal column of the fixed-term schedule sums to what the balance fell by. */
  lemma {:induction false} FixedSchedulePrincipal(principal: real, r: real, payment: real, rows: seq<AmortizationRow>)
    requires forall i :: 0 <= i < |rows| ==> rows[i] == FixedRow(principal, r, payment, i)
    ensures SumPrincipal(rows) == principal - BalanceAfter(principal, r, payment, |rows|)
  {
    if |rows| > 0 {
      var k := |rows| - 1;
      FixedSchedulePrincipal(principal, r, payment, rows[..k]);
      var row := FixedRow(principal, r, payment, k);
    }
  }

  /** The payment column of the fixed-term schedule sums to its equal payments. */
  lemma {:induction false} FixedSchedulePayments(principal: real, r: real, payment: real, rows: seq<AmortizationRow>)
    requires forall i :: 0 <= i < |rows| ==> rows[i].payment == payment
    ensures SumPayments(rows) == Repeated(payment, |rows|)
  {
    if |rows| > 0 {
      FixedSchedulePayments(principal, r, payment, rows[..|rows| - 1]);
    }
  }

  /**
   * With the loan formula's payment, the schedule repays exactly the principal, and the total of
   * the payments is the principal plus the interest.
   */
  lemma FixedTermRepaysPrincipal(principal: real, r: real, n: nat, rows: seq<AmortizationRow>)
    requires r > 0.0 && n > 0 && |rows| == n
    requires forall i :: 0 <= i < n ==> rows[i] == FixedRow(principal, r, EqualPayment(principal, r, n).value, i)
    ensures SumPrincipal(rows) == principal
    ensures Repeated(EqualPayment(principal, r, n).value, n)
            == principal + InterestBefore(principal, r, EqualPayment(principal, r, n).value, n)
  {
    var payment := EqualPayment(principal, r, n).value;
    FixedScheduleShape(principal, r, payment, rows);
    FixedScheduleInterest(principal, r, payment, rows);
    FixedSchedulePrincipal(principal, r, payment, rows);
    FixedSchedulePayments(principal, r, payment, rows);
    EqualPaymentPaysOff(principal, r, n);
    PaymentsAddUp(rows);
  }

  /** The loop of calculateFixedTerm, from month 1 to n. */
  method FixedTermSchedule(principal: real, r: real, payment: real, n: nat)
    returns (schedule: seq<AmortizationRow>, totalInterest: real)
    ensures |schedule| == n
    ensures forall i :: 0 <= i < n ==> schedule[i] == FixedRow(principal, r, payment, i)
    ensures totalInterest == InterestBefore(principal, r, payment, n)
  {
    schedule := [];
    var balance := principal;
    totalInterest := 0.0;
    var month := 1;
    while month <= n
      invariant 1 <= month <= n + 1 && |schedule| == month - 1
      invariant balance == BalanceAfter(principal, r, payment, month - 1)
      invariant totalInterest == InterestBefore(principal, r, payment, month - 1)
      invariant forall i :: 0 <= i < |schedule| ==> schedule[i] == FixedRow(principal, r, payment, i)
    {
      var interestPayment := balance * r;
      var principalPayment := payment - interestPayment;
      balance := balance - principalPayment;
      totalInterest := totalInterest + interestPayment;
      schedule := schedule + [AmortizationRow(month, interestPayment, principalPayment, Shown(balance), payment)];
      month := month + 1;
    }
  }

  /** The amount paid by n equal payments. */
  function Repeated(payment: real, n: nat): real
  {
    payment * n as real
  }

  /** The number of monthly payments in a term of whole years. */
  function MonthsOf(years: nat): nat
  {
    years * 12
  }

  /** calculateFixedTerm: the equal payment and its schedule of years × 12 months. */
  method CalculateFixedTerm(principal: real, interestRate: real, years: nat) returns (result: LoanResult)
    requires interestRate > 0.0
    ensures var n := MonthsOf(years);
      && result.monthlyPayment == EqualPayment(principal, interestRate / 12.0, n)
      && |result.amortizationSchedule| == n
      && (n > 0 ==> result.totalInterest == InterestBefore(principal, interestRate / 12.0, result.monthlyPayment.value, n))
      && (n > 0 ==> result.totalPayments == Finite(Repeated(result.monthlyPayment.value, n)))
      && (n > 0 ==> forall i :: 0 <= i < n ==>
            result.amortizationSchedule[i] == FixedRow(principal, interestRate / 12.0, result.monthlyPayment.value, i))
      && (n == 0 ==> result.totalPayments.NaN? && result.totalInterest == 0.0)
  {
    var monthlyRate := interestRate / 12.0;
    var numPayments := MonthsOf(years);
    var monthlyPayment := EqualPayment(principal, monthlyRate, numPayments);
    var totalPayments := Times(monthlyPayment, numPayments as real);
    if !monthlyPayment.Finite? {
      return LoanResult(monthlyPayment, totalPayments, 0.0, []);
    }
    var schedule, totalInterest := FixedTermSchedule(principal, monthlyRate, monthlyPayment.value, numPayments);
    return LoanResult(monthlyPayment, totalPayments, totalInterest, schedule);
  }

  // ---------------------------------------------------------------------------------------------
  // Fixed payment

  /** The payoff loop gives up after 100 years. */
  const MaxMonths := 1200

  /** The payment of a month: the chosen payment, or less when that clears the balance with interest. */
  function PaymentDue(balance: real, r: real, payment: real): (pay: real)
    ensures pay <= payment
    ensures pay == payment || pay == balance + balance * r
  {
    var interest := balance * r;
    if balance + interest < payment then balance + interest else payment
  }

  /** The balance after a month's payment. */
  function NextBalance(balance: real, r: real, payment: real): real
  {
    balance - (PaymentDue(balance, r, payment) - balance * r)
  }

  /** The row of month `month + 1`, paid from `balance`. */
  function PayoffRow(balance: real, r: real, payment: real, month: nat): (row: AmortizationRow)
    ensures row.month == month + 1
    ensures row.interest == balance * r
    ensures row.payment == PaymentDue(balance, r, payment)
    ensures row.principal == row.payment - row.interest
    ensures row.balance == Shown(NextBalance(balance, r, payment))
  {
    var interest := balance * r;
    var pay := PaymentDue(balance, r, payment);
    AmortizationRow(month + 1, interest, pay - interest, Shown(NextBalance(balance, r, payment)), pay)
  }

  /** The rows the payoff loop adds from `balance` once `month` months are paid. */
  function PayoffRows(balance: real, r: real, payment: real, month: nat): seq<AmortizationRow>
    decreases MaxMonths - month
  {
    if balance <= 0.0 || month >= MaxMonths then []
    else [PayoffRow(balance, r, payment, month)] + PayoffRows(NextBalance(balance, r, payment), r, payment, month + 1)
  }

  /** The interest of the first month, which the payment must exceed. */
  function FirstInterest(principal: real, r: real): real
  {
    principal * r
  }

  /** One turn of the payoff loop: its row extends the schedule and the interest total. */
  lemma PayoffStep(
    schedule: seq<AmortizationRow>, balance: real, r: real, payment: real, month: nat,
    all: seq<AmortizationRow>)
    requires balance > 0.0 && month < MaxMonths
    requires schedule + PayoffRows(balance, r, payment, month) == all
    ensures var row := PayoffRow(balance, r, payment, month);
      && (schedule + [row]) + PayoffRows(NextBalance(balance, r, payment), r, payment, month + 1) == all
      && SumInterest(schedule + [row]) == SumInterest(schedule) + row.interest
  {
    var row := PayoffRow(balance, r, payment, month);
    var rest := PayoffRows(NextBalance(balance, r, payment), r, payment, month + 1);
    assert PayoffRows(balance, r, payment, month) == [row] + rest;
    assert (schedule + [row]) + rest == schedule + ([row] + rest);
    assert (schedule + [row])[..|schedule|] == schedule;
  }

  /**
   * The while loop of calculateFixedPayment: month by month until paid off or 1200 months. The
   * loop's break on a cleared balance leaves it exactly where its own test would, so the test
   * alone ends it here.
   */
  method PayoffSchedule(principal: real, monthlyRate: real, monthlyPayment: real)
    returns (schedule: seq<AmortizationRow>, month: nat, totalInterest: real)
    ensures schedule == PayoffRows(principal, monthlyRate, monthlyPayment, 0)
    ensures month == |schedule| && totalInterest == SumInterest(schedule)
  {
    schedule := [];
    var balance := principal;
    month := 0;
    totalInterest := 0.0;
    while balance > 0.0 && month < MaxMonths
      invariant 0 <= month <= MaxMonths && |schedule| == month
      invariant schedule + PayoffRows(balance, monthlyRate, monthlyPayment, month)
                == PayoffRows(principal, monthlyRate, monthlyPayment, 0)
      invariant totalInterest == SumInterest(schedule)
      decreases MaxMonths - month
    {
      PayoffStep(schedule, balance, monthlyRate, monthlyPayment, month, PayoffRows(principal, monthlyRate, monthlyPayment, 0));
      var row, next := PayoffMonth(balance, monthlyRate, monthlyPayment, month);
      month := month + 1;
      balance := next;
      totalInterest := totalInterest + row.interest;
      schedule := schedule + [row];
    }
    assert PayoffRows(balance, monthlyRate, monthlyPayment, month) == [];
  }

  /**
   * One turn of the payoff loop's body: the interest on the balance, the payment (cut to what
   * clears the balance), the principal paid, the new balance and the month's row.
   */
  method PayoffMonth(balance: real, monthlyRate: real, monthlyPayment: real, month: nat)
    returns (row: AmortizationRow, next: real)
    ensures row == PayoffRow(balance, monthlyRate, monthlyPayment, month)
    ensures next == NextBalance(balance, monthlyRate, monthlyPayment)
  {
    var interestPayment := balance * monthlyRate;
    var payment := monthlyPayment;
    if balance + interestPayment < monthlyPayment {
      payment := balance + interestPayment;
    }
    var principalPayment := payment - interestPayment;
    next := balance - principalPayment;
    row := AmortizationRow(month + 1, interestPayment, principalPayment, Shown(next), payment);
  }

  /** calculateFixedPayment: None when the payment does not exceed the first month's interest. */
  method CalculateFixedPayment(principal: real, interestRate: real, monthlyPayment: real)
    returns (result: Option<TimeToPayoffResult>)
    ensures result.None? <==> monthlyPayment <= FirstInterest(principal, interestRate / 12.0)
    ensures result.Some? ==>
      var rows := PayoffRows(principal, interestRate / 12.0, monthlyPayment, 0);
      && result.value.amortizationSchedule == rows
      && result.value.months == |rows|
      && result.value.totalInterest == SumInterest(rows)
      && result.value.totalPayment == result.value.totalInterest + principal
  {
    var monthlyRate := interestRate / 12.0;
    var minPayment := FirstInterest(principal, monthlyRate);
    if monthlyPayment <= minPayment {
      return None;
    }
    var schedule, month, totalInterest := PayoffSchedule(principal, monthlyRate, monthlyPayment);
    return Some(TimeToPayoffResult(month, totalInterest, totalInterest + principal, schedule));
  }

  /** The sums of a row followed by more rows. */
  lemma {:induction false} SumsOfPrepend(row: AmortizationRow, rest: seq<AmortizationRow>)
    ensures SumInterest([row] + rest) == row.interest + SumInterest(rest)
    ensures SumPrincipal([row] + rest) == row.principal + SumPrincipal(rest)
    ensures SumPayments([row] + rest) == row.payment + SumPayments(rest)
  {
    if |rest| > 0 {
      var k := |rest| - 1;
      assert ([row] + rest)[..|[row] + rest| - 1] == [row] + rest[..k];
      SumsOfPrepend(row, rest[..k]);
    }
  }

  /** A month never leaves a negative balance, and leaves none exactly when the last payment is cut. */
  lemma NextBalanceNonNegative(balance: real, r: real, payment: real)
    ensures NextBalance(balance, r, payment) >= 0.0
    ensures NextBalance(balance, r, payment) == 0.0 <==> balance + balance * r <= payment
  {
  }

  /** The payoff loop stops within 1200 months, its rows numbered on from `month`. */
  lemma {:induction false} PayoffBounded(balance: real, r: real, payment: real, month: nat)
    requires month <= MaxMonths
    ensures |PayoffRows(balance, r, payment, month)| <= MaxMonths - month
    ensures forall i :: 0 <= i < |PayoffRows(balance, r, payment, month)| ==>
              PayoffRows(balance, r, payment, month)[i].month == month + i + 1
    decreases MaxMonths - month
  {
    if balance > 0.0 && month < MaxMonths {
      PayoffBounded(NextBalance(balance, r, payment), r, payment, month + 1);
    }
  }

  /**
   * No row pays more than the chosen payment, every row pays its interest plus its principal, and
   * the reported balance is the balance actually left.
   */
  lemma {:induction false} PayoffNeverOverpays(balance: real, r: real, payment: real, month: nat)
    ensures Balanced(PayoffRows(balance, r, payment, month))
    ensures forall i :: 0 <= i < |PayoffRows(balance, r, payment, month)| ==>
              PayoffRows(balance, r, payment, month)[i].payment <= payment
    decreases MaxMonths - month
  {
    if balance > 0.0 && month < MaxMonths {
      PayoffNeverOverpays(NextBalance(balance, r, payment), r, payment, month + 1);
    }
  }

  /**
   * When the payment exceeds the first month's interest and the rate is not negative, every
   * month repays some principal.
   */
  lemma {:induction false} PayoffReducesPrincipal(balance: real, r: real, payment: real, month: nat)
    requires r >= 0.0 && payment > balance * r
    ensures forall i :: 0 <= i < |PayoffRows(balance, r, payment, month)| ==>
              PayoffRows(balance, r, payment, month)[i].principal > 0.0
    decreases MaxMonths - month
  {
    if balance > 0.0 && month < MaxMonths {
      var next := NextBalance(balance, r, payment);
      assert next < balance;
      assert next * r <= balance * r;
      PayoffReducesPrincipal(next, r, payment, month + 1);
    }
  }

  /**
   * A loan paid off before the 1200-month cap is repaid exactly: the principal column sums to the
   * loan and the last row shows a zero balance.
   */
  lemma {:induction false} PayoffRepaysPrincipal(balance: real, r: real, payment: real, month: nat)
    requires balance > 0.0
    requires |PayoffRows(balance, r, payment, month)| < MaxMonths - month
    ensures var rows := PayoffRows(balance, r, payment, month);
      && |rows| > 0
      && SumPrincipal(rows) == balance
      && rows[|rows| - 1].balance == 0.0
    decreases MaxMonths - month
  {
    var row := PayoffRow(balance, r, payment, month);
    var next := NextBalance(balance, r, payment);
    var rest := PayoffRows(next, r, payment, month + 1);
    assert PayoffRows(balance, r, payment, month) == [row] + rest;
    NextBalanceNonNegative(balance, r, payment);
    SumsOfPrepend(row, rest);
    if next > 0.0 {
      PayoffRepaysPrincipal(next, r, payment, month + 1);
    }
  }

  /**
   * For a positive loan paid off before the cap, the reported total payment is what the rows
   * pay: the interest plus the principal.
   */
  lemma PayoffTotalIsPaid(principal: real, r: real, payment: real)
    requires principal > 0.0
    requires |PayoffRows(principal, r, payment, 0)| < MaxMonths
    ensures SumPayments(PayoffRows(principal, r, payment, 0))
            == SumInterest(PayoffRows(principal, r, payment, 0)) + principal
  {
    PayoffNeverOverpays(principal, r, payment, 0);
    PaymentsAddUp(PayoffRows(principal, r, payment, 0));
    PayoffRepaysPrincipal(principal, r, payment, 0);
  }
}
