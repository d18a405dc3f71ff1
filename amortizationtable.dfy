/**
 * The land loan's amortization table: the label of each payment for the chosen frequency, and
 * which rows the collapsed table shows.
 */
module LoanAmortizationTable {
  import opened Strings

  /** Math.ceil(n / d) for a positive divisor. */
  function CeilDiv(n: int, d: nat): (q: int)
    requires d > 0
    ensures (q - 1) * d < n <= q * d
  {
    (n + d - 1) / d
  }

  /** The quarter of a payment: ((n − 1) mod 4) + 1, with JavaScript's remainder for n ≥ 1. */
  function Quarter(n: nat): (q: int)
    requires n >= 1
    ensures 1 <= q <= 4
  {
    (n - 1) % 4 + 1
  }

  /** formatPaymentLabel: the label of payment number n at a payment frequency. */
  function PaymentLabel(n: nat, frequency: int): string
    requires n >= 1
  {
    match frequency
    case 1 => "Year " + NatToString(n)
    case 2 => "Payment " + NatToString(n) + " (Year " + IntToString(CeilDiv(n, 2)) + ")"
    case 4 => "Q" + IntToString(Quarter(n)) + ", Year " + IntToString(CeilDiv(n, 4))
    case 12 => "Month " + NatToString(n)
    case 26 => "Payment " + NatToString(n)
    case 52 => "Week " + NatToString(n)
    case _ => "Payment " + NatToString(n)
  }

  /** The quarter and the year of a quarterly payment give back its number. */
  lemma QuarterAndYear(n: nat)
    requires n >= 1
    ensures (CeilDiv(n, 4) - 1) * 4 + Quarter(n) == n
    ensures 1 <= CeilDiv(n, 4)
  {
    var y := CeilDiv(n, 4);
    var q := (n - 1) % 4;
    assert n - 1 == (n - 1) / 4 * 4 + q;
    assert y == (n - 1) / 4 + 1 by {
      assert n + 3 == ((n - 1) / 4 + 1) * 4 + q;
    }
  }

  /** Two different numerals followed by texts that do not start with a digit differ. */
  lemma NumeralsApart(a: nat, b: nat, s: string, t: string)
    requires |s| > 0 && !IsDigit(s[0]) && |t| > 0 && !IsDigit(t[0])
    requires NatToString(a) + s == NatToString(b) + t
    ensures a == b && s == t
  {
    var x, y := NatToString(a), NatToString(b);
    DigitPrefixOfDigits(x, s);
    DigitPrefixOfDigits(y, t);
    assert x == y;
    NatToStringValue(a);
    NatToStringValue(b);
    assert s == (x + s)[|x|..] && t == (y + t)[|y|..];
  }

  /** A fixed prefix followed by two numerals: equal texts have equal numerals. */
  lemma PrefixedNumerals(p: string, a: nat, b: nat)
    requires p + NatToString(a) == p + NatToString(b)
    ensures a == b
  {
    assert NatToString(a) == (p + NatToString(a))[|p|..];
    assert NatToString(b) == (p + NatToString(b))[|p|..];
    NatToStringValue(a);
    NatToStringValue(b);
  }

  /** Concatenation regrouped to put the first piece apart. */
  lemma Regroup(a: string, b: string, c: string, d: string, e: string)
    ensures a + b + c + d + e == a + (b + (c + d + e))
  {
  }

  /** Semi-annual labels name the payment number before the year. */
  lemma SemiAnnualLabels(n: nat, m: nat)
    requires n >= 1 && m >= 1 && PaymentLabel(n, 2) == PaymentLabel(m, 2)
    ensures n == m
  {
    var yn, ym := IntToString(CeilDiv(n, 2)), IntToString(CeilDiv(m, 2));
    var p, c, e := "Payment ", " (Year ", ")";
    Regroup(p, NatToString(n), c, yn, e);
    Regroup(p, NatToString(m), c, ym, e);
    var ln, lm := NatToString(n) + (c + yn + e), NatToString(m) + (c + ym + e);
    assert ln == (p + ln)[|p|..];
    assert lm == (p + lm)[|p|..];
    NumeralsApart(n, m, c + yn + e, c + ym + e);
  }

  /** Quarterly labels name the quarter and the year, which give back the payment number. */
  lemma QuarterlyLabels(n: nat, m: nat)
    requires n >= 1 && m >= 1 && PaymentLabel(n, 4) == PaymentLabel(m, 4)
    ensures n == m
  {
    var qn, qm := Quarter(n), Quarter(m);
    var yn, ym := CeilDiv(n, 4), CeilDiv(m, 4);
    QuarterAndYear(n);
    QuarterAndYear(m);
    var ln, lm := NatToString(qn) + (", Year " + NatToString(yn)), NatToString(qm) + (", Year " + NatToString(ym));
    assert PaymentLabel(n, 4) == "Q" + ln;
    assert PaymentLabel(m, 4) == "Q" + lm;
    assert ln == ("Q" + ln)[1..];
    assert lm == ("Q" + lm)[1..];
    NumeralsApart(qn, qm, ", Year " + NatToString(yn), ", Year " + NatToString(ym));
    PrefixedNumerals(", Year ", yn, ym);
  }

  /** At every frequency, different payment numbers get different labels. */
  lemma LabelsIdentifyPayments(n: nat, m: nat, frequency: int)
    requires n >= 1 && m >= 1
    requires PaymentLabel(n, frequency) == PaymentLabel(m, frequency)
    ensures n == m
  {
    if frequency == 2 {
      SemiAnnualLabels(n, m);
    } else if frequency == 4 {
      QuarterlyLabels(n, m);
    } else {
      var prefix := if frequency == 1 then "Year " else if frequency == 12 then "Month "
        else if frequency == 52 then "Week " else "Payment ";
      assert PaymentLabel(n, frequency) == prefix + NatToString(n);
      assert PaymentLabel(m, frequency) == prefix + NatToString(m);
      PrefixedNumerals(prefix, n, m);
    }
  }

  /** schedule.slice(0, end) with JavaScript's treatment of a negative or too large end. */
  function Slice<T>(s: seq<T>, end: int): (r: seq<T>)
    ensures r <= s
    ensures end >= 0 ==> |r| == Min(end, |s|)
    ensures end < 0 ==> |r| == Max(|s| + end, 0)
  {
    if end >= |s| then s
    else if end >= 0 then s[..end]
    else if |s| + end >= 0 then s[..|s| + end]
    else []
  }

  function Min(a: int, b: int): int { if a <= b then a else b }
  function Max(a: int, b: int): int { if a >= b then a else b }

  /** displayRows: every row when expanded, otherwise the first `frequency` rows. */
  function DisplayRows<T>(schedule: seq<T>, frequency: int, expanded: bool): seq<T>
  {
    if expanded then schedule else Slice(schedule, frequency)
  }

  /** The expand/collapse toggle is shown when the schedule is longer than `frequency`. */
  predicate ShowsToggle<T>(schedule: seq<T>, frequency: int)
  {
    |schedule| > frequency
  }

  /**
   * The collapsed table shows the rows before index `frequency`, in order; the toggle appears
   * exactly when that hides some row.
   */
  lemma CollapsedRows<T>(schedule: seq<T>, frequency: int)
    requires frequency >= 0
    ensures var shown := DisplayRows(schedule, frequency, false);
      && shown == schedule[..Min(frequency, |schedule|)]
      && (ShowsToggle(schedule, frequency) <==> |shown| < |schedule|)
  {
  }
}
