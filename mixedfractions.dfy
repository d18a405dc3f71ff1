/**
 * Display of a value rounded to a fraction 1/d: the result is shown as a whole number,
 * a proper fraction or a mixed number, with the fraction reduced by the greatest
 * common divisor.
 */
module MixedFractions {
  import opened Numbers

  /** Euclid's algorithm, as written: gcd(a, b) = b == 0 ? a : gcd(b, a % b). */
  function Gcd(a: nat, b: nat): nat
    decreases b
  {
    if b == 0 then a else Gcd(b, a % b)
  }

  /** A common divisor of b and a % b divides a as well. */
  lemma DividesThroughRemainder(a: nat, b: nat, g: nat)
    requires b > 0 && g > 0 && b % g == 0 && (a % b) % g == 0
    ensures a % g == 0
  {
    var q, r := a / b, a % b;
    var b', r' := b / g, r / g;
    DivisibleIsMultiple(b, g);
    DivisibleIsMultiple(r, g);
    assert a == q * b + r;
    assert a == (q * b' + r') * g by {
      assert q * b == q * (b' * g) == (q * b') * g;
    }
    MultipleDivisible(q * b' + r', g);
  }

  /** The gcd of two numbers not both zero is positive and divides both. */
  lemma {:induction false} GcdDivides(a: nat, b: nat)
    requires a > 0 || b > 0
    ensures Gcd(a, b) > 0 && a % Gcd(a, b) == 0 && b % Gcd(a, b) == 0
    decreases b
  {
    if b == 0 {
      MultipleDivisible(1, a);
    } else {
      GcdDivides(b, a % b);
      DividesThroughRemainder(a, b, Gcd(b, a % b));
    }
  }

  /** Scaling the dividend and the divisor scales the remainder. */
  lemma ScaledRemainder(k: nat, a: nat, b: nat)
    requires k > 0 && b > 0
    ensures k * b > 0 && (k * a) % (k * b) == k * (a % b)
  {
    var q, r := a / b, a % b;
    assert a == q * b + r;
    MulAwayFromZero(b, k);
    assert k * b == b * k;
    assert k * a == q * (k * b) + k * r by {
      assert k * a == k * (q * b + r) == k * (q * b) + k * r;
    }
    assert 0 <= k * r < k * b by {
      MulNonNegative(k, r);
      MulAwayFromZero(b - r, k);
      assert (b - r) * k == k * b - k * r;
    }
    DivModUnique(k * a, k * b, q, k * r);
  }

  /** Scaling both arguments scales the gcd. */
  lemma {:induction false} GcdScales(k: nat, a: nat, b: nat)
    requires k > 0
    ensures Gcd(k * a, k * b) == k * Gcd(a, b)
    decreases b
  {
    if b != 0 {
      ScaledRemainder(k, a, b);
      GcdScales(k, b, a % b);
    }
  }

  /** Dividing two numbers by their gcd leaves two coprime numbers. */
  lemma ReducedIsCoprime(n: nat, d: nat)
    requires n > 0 || d > 0
    ensures var g := Gcd(n, d); g > 0 && Gcd(n / g, d / g) == 1
  {
    var g := Gcd(n, d);
    GcdDivides(n, d);
    var n', d' := n / g, d / g;
    DivisibleIsMultiple(n, g);
    DivisibleIsMultiple(d, g);
    assert g * n' == n && g * d' == d;
    GcdScales(g, n', d');
    assert g * Gcd(n', d') == g * 1;
    MulCancel(Gcd(n', d'), 1, g);
  }

  /** The three shapes of a formatted result; the sign is "-" or "". */
  datatype Formatted =
    | Whole(sign: string, value: nat)
    | Fraction(sign: string, numerator: nat, denominator: nat)
    | Mixed(sign: string, integer: nat, numerator: nat, denominator: nat)

  /** The non-negative amount a formatted result shows. */
  function Magnitude(r: Formatted): real
  {
    match r
    case Whole(_, v) => v as real
    case Fraction(_, n, d) => if d == 0 then 0.0 else n as real / d as real
    case Mixed(_, i, n, d) => i as real + (if d == 0 then 0.0 else n as real / d as real)
  }

  /** The signed amount a formatted result shows. */
  function Shown(r: Formatted): real
  {
    if r.sign == "-" then -Magnitude(r) else Magnitude(r)
  }

  /**
   * formatAsMixedFraction for a positive denominator d. An integral magnitude is shown whole;
   * otherwise the fractional part is rounded to the nearest n/d, and n = 0 or n = d collapse to a
   * whole number (the source's second whole-number test, on a zero fractional part, cannot fire
   * once the first has failed, and is folded into it). A "-0" is shown without its sign.
   */
  function FormatAsMixedFraction(value: real, d: nat): (r: Formatted)
    requires d > 0
    ensures (r.Fraction? || r.Mixed?) ==>
      0 < r.numerator < r.denominator && Gcd(r.numerator, r.denominator) == 1 && d % r.denominator == 0
    ensures r.Mixed? ==> r.integer >= 1
    ensures r.Fraction? ==> Abs(value) < 1.0
    ensures r.sign == "-" <==> value < 0.0 && Magnitude(r) != 0.0
  {
    var sign := if value < 0.0 then "-" else "";
    var a := Abs(value);
    if IsInteger(a) then
      Whole(sign, a.Floor)
    else
      var ip := Floor(a);
      var n := FractionNumerator(a, d);
      if n == 0 then
        if sign == "-" && ip == 0 then Whole("", 0) else Whole(sign, ip)
      else if n == d then
        Whole(sign, ip + 1)
      else
        ReducedFraction(sign, ip, n, d)
  }

  /** Math.round(fractional part * d): the numerator over d nearest the fractional part of a. */
  function FractionNumerator(a: real, d: nat): (n: nat)
    requires a >= 0.0 && d > 0
    ensures n <= d
  {
    var frac := a - Floor(a) as real;
    assert 0.0 <= frac * d as real <= 1.0 * d as real;
    Round(frac * d as real)
  }

  /** The fraction or mixed number ip n/d, reduced by gcd(n, d). */
  function ReducedFraction(sign: string, ip: nat, n: nat, d: nat): (r: Formatted)
    requires 0 < n < d
    ensures r.Fraction? || r.Mixed?
    ensures r.sign == sign && (r.Mixed? ==> r.integer == ip >= 1) && (r.Fraction? ==> ip == 0)
    ensures 0 < r.numerator < r.denominator && Gcd(r.numerator, r.denominator) == 1
    ensures d % r.denominator == 0
  {
    ReducedIsCoprime(n, d);
    ReducedProper(n, d);
    var g := Gcd(n, d);
    if ip == 0 then Fraction(sign, n / g, d / g) else Mixed(sign, ip, n / g, d / g)
  }

  /** A positive multiple of a positive number has a positive multiplier. */
  lemma MulPositive(x: int, g: int)
    requires g > 0 && x * g > 0
    ensures x >= 1
  {
    MulAwayFromZero(x, g);
  }

  /** Dividing a proper fraction's terms by a common divisor keeps it proper. */
  lemma ProperQuotients(n: nat, d: nat, g: nat)
    requires 0 < n < d && g > 0 && n % g == 0 && d % g == 0
    ensures 0 < n / g < d / g && d % (d / g) == 0
  {
    var n', d' := n / g, d / g;
    DivisibleIsMultiple(n, g);
    DivisibleIsMultiple(d, g);
    MulPositive(n', g);
    assert (d' - n') * g == d - n;
    MulPositive(d' - n', g);
    MultipleDivisible(g, d');
    assert g * d' == d;
  }

  /** Dividing a fraction's terms by a common divisor keeps its value. */
  lemma QuotientsValue(n: nat, d: nat, g: nat)
    requires d > 0 && g > 0 && n % g == 0 && d % g == 0
    ensures d / g > 0 && (n / g) as real / (d / g) as real == n as real / d as real
  {
    var n', d' := n / g, d / g;
    DivisibleIsMultiple(n, g);
    DivisibleIsMultiple(d, g);
    MulPositive(d', g);
    assert n as real == n' as real * g as real;
    assert d as real == d' as real * g as real;
    ScaleFraction(n' as real, d' as real, g as real);
  }

  /** Reducing a proper fraction n/d keeps it proper, and d stays a multiple of the new denominator. */
  lemma ReducedProper(n: nat, d: nat)
    requires 0 < n < d
    ensures var g := Gcd(n, d);
      g > 0 && 0 < n / g < d / g && d % (d / g) == 0
  {
    GcdDivides(n, d);
    ProperQuotients(n, d, Gcd(n, d));
  }

  /** Reducing a fraction keeps its value. */
  lemma ReducedValue(n: nat, d: nat)
    requires d > 0
    ensures var g := Gcd(n, d);
      g > 0 && d / g > 0 && (n / g) as real / (d / g) as real == n as real / d as real
  {
    GcdDivides(n, d);
    QuotientsValue(n, d, Gcd(n, d));
  }

  lemma ScaleFraction(x: real, y: real, g: real)
    requires y != 0.0 && g != 0.0
    ensures x / y == (x * g) / (y * g)
  {
  }

  /** The amount a magnitude a shows to the nearest 1/d, a tie going up: Math.round(a * d) / d. */
  function NearestMultiple(a: real, d: nat): real
    requires d > 0
  {
    Round(a * d as real) as real / d as real
  }

  /** Shifting by a whole number shifts the rounded value by the same amount. */
  lemma RoundShift(x: real, k: int)
    ensures Round(x + k as real) == Round(x) + k
  {
  }

  /** ip + n/d as one fraction over d. */
  lemma WholePlusFraction(ip: real, n: real, d: real)
    requires d != 0.0
    ensures ip + n / d == (ip * d + n) / d
  {
  }

  /** Rounding a * d splits into the whole part's ip * d and the fractional part's numerator. */
  lemma NumeratorOfScaled(a: real, d: nat)
    requires a >= 0.0 && d > 0
    ensures Round(a * d as real) == Floor(a) * d + FractionNumerator(a, d)
  {
    var ip := Floor(a);
    var frac := a - ip as real;
    assert FractionNumerator(a, d) == Round(frac * d as real);
    ScaledParts(a, ip, d);
    RoundSplit(a * d as real, frac * d as real, ip * d);
  }

  /** a * d is the fractional part times d plus the whole part times d. */
  lemma ScaledParts(a: real, ip: int, d: nat)
    ensures a * d as real == (a - ip as real) * d as real + (ip * d) as real
  {
    CastMul(ip, d);
    Distribute(a, ip as real, d as real);
  }

  /** Rounding x = y + k for a whole k is rounding y, plus k. */
  lemma RoundSplit(x: real, y: real, k: int)
    requires x == y + k as real
    ensures Round(x) == Round(y) + k
  {
    RoundShift(y, k);
  }

  lemma Distribute(a: real, w: real, d: real)
    ensures a * d == (a - w) * d + w * d
  {
  }

  /** The nearest multiple of 1/d is the whole part plus the fraction numerator over d. */
  lemma NearestSplit(a: real, d: nat)
    requires a >= 0.0 && d > 0
    ensures NearestMultiple(a, d) == Floor(a) as real + FractionNumerator(a, d) as real / d as real
  {
    var ip, n := Floor(a), FractionNumerator(a, d);
    NumeratorOfScaled(a, d);
    assert (ip * d + n) as real == ip as real * d as real + n as real;
    WholePlusFraction(ip as real, n as real, d as real);
  }

  /** The magnitude shown is the magnitude of the value, rounded to the nearest 1/d. */
  lemma FormatMagnitude(value: real, d: nat)
    requires d > 0
    ensures Magnitude(FormatAsMixedFraction(value, d)) == NearestMultiple(Abs(value), d)
  {
    var a := Abs(value);
    NearestSplit(a, d);
    if IsInteger(a) {
      IntegralMagnitude(value, d);
    } else {
      FractionalMagnitude(value, d);
    }
  }

  /** A whole magnitude is shown as it is, and its fraction numerator is 0. */
  lemma IntegralMagnitude(value: real, d: nat)
    requires d > 0 && IsInteger(Abs(value))
    ensures Magnitude(FormatAsMixedFraction(value, d))
         == Floor(Abs(value)) as real + FractionNumerator(Abs(value), d) as real / d as real
  {
    var a := Abs(value);
    assert a - Floor(a) as real == 0.0;
    assert FractionNumerator(a, d) == 0;
    assert FormatAsMixedFraction(value, d) == Whole(if value < 0.0 then "-" else "", a.Floor);
  }

  /** A magnitude with a fractional part is shown as its whole part plus n/d, reduced. */
  lemma FractionalMagnitude(value: real, d: nat)
    requires d > 0 && !IsInteger(Abs(value))
    ensures Magnitude(FormatAsMixedFraction(value, d))
         == Floor(Abs(value)) as real + FractionNumerator(Abs(value), d) as real / d as real
  {
    var a := Abs(value);
    var ip, n := Floor(a), FractionNumerator(a, d);
    var sign := if value < 0.0 then "-" else "";
    if n == 0 {
      assert Magnitude(FormatAsMixedFraction(value, d)) == ip as real;
    } else if n == d {
      assert Magnitude(FormatAsMixedFraction(value, d)) == (ip + 1) as real;
    } else {
      assert FormatAsMixedFraction(value, d) == ReducedFraction(sign, ip, n, d);
      ReducedFractionMagnitude(sign, ip, n, d);
    }
  }

  /** A reduced fraction shows the same amount as the unreduced one. */
  lemma ReducedFractionMagnitude(sign: string, ip: nat, n: nat, d: nat)
    requires 0 < n < d
    ensures Magnitude(ReducedFraction(sign, ip, n, d)) == ip as real + n as real / d as real
  {
    ReducedValue(n, d);
  }

  /**
   * The formatted result shows the value's magnitude rounded to the nearest 1/d (ties up),
   * with the value's sign: whole, fraction and mixed number are three spellings of one amount.
   */
  lemma FormatShowsNearestMultiple(value: real, d: nat)
    requires d > 0
    ensures var m := NearestMultiple(Abs(value), d);
      Shown(FormatAsMixedFraction(value, d)) == if value < 0.0 then -m else m
  {
    FormatMagnitude(value, d);
  }

  /** A magnitude that is a whole number of steps 1/d is its own nearest multiple. */
  lemma NearestOfExact(value: real, d: nat)
    requires d > 0 && IsMultiple(value, d as real)
    ensures NearestMultiple(Abs(value), d) == Abs(value)
  {
    assert IsInteger(value * d as real);
    var k := (value * d as real).Floor;
    if value < 0.0 {
      assert Abs(value) * d as real == (-k) as real;
    } else {
      assert Abs(value) * d as real == k as real;
    }
    assert Round(Abs(value) * d as real) == (Abs(value) * d as real).Floor;
    MulDivCancel(Abs(value), d as real);
  }

  /** A value that is already a whole number of steps 1/d is shown exactly. */
  lemma FormatExact(value: real, d: nat)
    requires d > 0 && IsMultiple(value, d as real)
    ensures Shown(FormatAsMixedFraction(value, d)) == value
  {
    NearestOfExact(value, d);
    FormatShowsNearestMultiple(value, d);
  }
}
