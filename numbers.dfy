/**
 * The JavaScript number primitives the calculators rely on, over exact reals:
 * Math.round, Math.trunc, Math.ceil, Math.floor and Math.pow with an integer exponent.
 */
module Numbers {

  /** A JavaScript number where it can leave the reals: a finite value, ±Infinity or NaN. */
  datatype JsNumber = Finite(value: real) | Infinity(positive: bool) | NaN

  /**
   * JavaScript's a / b for a divisor that may be +0: the quotient, or Infinity with the sign of a,
   * or NaN for 0 / 0.
   */
  function Divide(a: real, b: real): (q: JsNumber)
    ensures q.Finite? <==> b != 0.0
    ensures q.Finite? ==> q.value * b == a
    ensures b == 0.0 ==> (q == Infinity(true) <==> a > 0.0) && (q == Infinity(false) <==> a < 0.0) && (q.NaN? <==> a == 0.0)
  {
    if b != 0.0 then Finite(a / b)
    else if a > 0.0 then Infinity(true)
    else if a < 0.0 then Infinity(false)
    else NaN
  }

  /** JavaScript's x * k for a finite k: Infinity times 0 and NaN times anything are NaN. */
  function Times(x: JsNumber, k: real): (y: JsNumber)
    ensures x.Finite? ==> y == Finite(x.value * k)
    ensures !x.Finite? && k == 0.0 ==> y.NaN?
    ensures x.NaN? ==> y.NaN?
  {
    if x.Finite? then Finite(x.value * k)
    else if x.NaN? || k == 0.0 then NaN
    else Infinity(x.positive == (k > 0.0))
  }

  /**
   * JavaScript's x + y: NaN absorbs everything, opposite infinities give NaN, and an infinity
   * absorbs any finite number.
   */
  function Plus(x: JsNumber, y: JsNumber): (z: JsNumber)
    ensures x.Finite? && y.Finite? ==> z == Finite(x.value + y.value)
    ensures z.NaN? <==> x.NaN? || y.NaN? || (x.Infinity? && y.Infinity? && x.positive != y.positive)
    ensures x.Infinity? && !z.NaN? ==> z == x
    ensures y.Infinity? && !z.NaN? ==> z == y
  {
    if x.NaN? || y.NaN? then NaN
    else if x.Infinity? && y.Infinity? then (if x.positive == y.positive then x else NaN)
    else if x.Infinity? then x
    else if y.Infinity? then y
    else Finite(x.value + y.value)
  }

  /** JavaScript's x <= k for a finite k: false for NaN and +Infinity, true for -Infinity. */
  predicate AtMost(x: JsNumber, k: real)
  {
    match x
    case Finite(v) => v <= k
    case Infinity(positive) => !positive
    case NaN => false
  }

  /** Math.floor. */
  function Floor(x: real): (r: int)
    ensures r as real <= x < r as real + 1.0
  {
    x.Floor
  }

  /** Math.ceil. */
  function Ceil(x: real): (r: int)
    ensures r as real - 1.0 < x <= r as real
  {
    -((-x).Floor)
  }

  /** Math.trunc: drops the fractional part, towards zero. */
  function Trunc(x: real): (r: int)
    ensures 0.0 <= x ==> r == Floor(x)
    ensures x < 0.0 ==> r == Ceil(x)
  {
    if x >= 0.0 then x.Floor else -((-x).Floor)
  }

  /** Math.round: the nearest integer, a tie going towards +infinity. */
  function Round(x: real): (r: int)
    ensures r as real - 0.5 <= x < r as real + 0.5
  {
    (x + 0.5).Floor
  }

  /** Math.abs. */
  function Abs(x: real): (r: real)
    ensures r >= 0.0 && (r == x || r == -x)
  {
    if x < 0.0 then -x else x
  }

  function Max(a: real, b: real): (r: real)
    ensures r >= a && r >= b && (r == a || r == b)
  {
    if a >= b then a else b
  }

  function Min(a: real, b: real): (r: real)
    ensures r <= a && r <= b && (r == a || r == b)
  {
    if a <= b then a else b
  }

  predicate IsInteger(x: real) {
    x == x.Floor as real
  }

  /** x is a whole number of steps 1/f. */
  predicate IsMultiple(x: real, f: real) {
    IsInteger(x * f)
  }

  /** The number of times a loop `for (i = 0; i < n; i++)` runs. */
  function Turns(n: int): nat
  {
    if n > 0 then n else 0
  }

  /**
   * The number of times a loop `for (i = 0; i < x; i++)` runs when x may be fractional: the
   * least natural number not below x.
   */
  function TurnsBelow(x: real): (n: nat)
    ensures x <= n as real
    ensures n > 0 ==> (n - 1) as real < x
  {
    if x > 0.0 then Ceil(x) else 0
  }

  /** Math.pow(b, n) for a natural exponent. */
  function Pow(b: real, n: nat): real
  {
    if n == 0 then 1.0 else b * Pow(b, n - 1)
  }

  /**
   * What the model relies on of Math.pow(b, e) for a positive base b and any real exponent e,
   * which it takes as a parameter: the power is positive, it is Pow on natural exponents, a
   * base of 1 gives 1, and a positive exponent keeps a base above one above one and a base
   * below one below one.
   */
  ghost predicate IsPositivePow(pow: (real, real) -> real)
  {
    && (forall b: real, e: real :: b > 0.0 ==> pow(b, e) > 0.0)
    && (forall b: real, e: real :: b > 0.0 && e >= 0.0 && IsInteger(e) ==> pow(b, e) == Pow(b, e.Floor))
    && (forall e: real :: pow(1.0, e) == 1.0)
    && (forall b: real, e: real :: b > 0.0 && e > 0.0 ==> (b > 1.0 ==> pow(b, e) > 1.0) && (b < 1.0 ==> pow(b, e) < 1.0))
  }

  lemma {:induction false} PowPositive(b: real, n: nat)
    requires b > 0.0
    ensures Pow(b, n) > 0.0
  {
    if n > 0 {
      PowPositive(b, n - 1);
    }
  }

  lemma {:induction false} PowNonZero(b: real, n: nat)
    requires b != 0.0
    ensures Pow(b, n) != 0.0
  {
    if n > 0 {
      PowNonZero(b, n - 1);
    }
  }

  lemma {:induction false} PowAdd(b: real, m: nat, n: nat)
    ensures Pow(b, m + n) == Pow(b, m) * Pow(b, n)
  {
    if m > 0 {
      PowAdd(b, m - 1, n);
      assert Pow(b, m + n) == b * Pow(b, m - 1 + n);
    }
  }

  /** A base above one gives a power above one; a base in (0, 1) a power below one. */
  lemma {:induction false} PowAwayFromOne(b: real, n: nat)
    requires b > 0.0 && n >= 1
    ensures b > 1.0 ==> Pow(b, n) > 1.0
    ensures b < 1.0 ==> Pow(b, n) < 1.0
  {
    if n > 1 {
      PowAwayFromOne(b, n - 1);
      PowPositive(b, n - 1);
      if b > 1.0 {
        assert b * Pow(b, n - 1) > 1.0 * Pow(b, n - 1);
      } else if b < 1.0 {
        assert b * Pow(b, n - 1) < 1.0 * 1.0;
      }
    }
  }

  /** Dividing by a non-zero factor and multiplying back gives the value. */
  lemma DivMulCancel(s: real, f: real)
    requires f != 0.0
    ensures (s / f) * f == s
  {
  }

  /** Multiplying by a non-zero factor and dividing back gives the value. */
  lemma MulDivCancel(s: real, f: real)
    requires f != 0.0
    ensures (s * f) / f == s
  {
  }

  lemma MulInjective(a: real, b: real, f: real)
    requires f != 0.0 && a * f == b * f
    ensures a == b
  {
    assert (a - b) * f == 0.0;
  }

  lemma MulCancelLe(a: real, b: real, f: real)
    requires f > 0.0 && a * f <= b * f
    ensures a <= b
  {
    assert (b - a) * f >= 0.0;
  }

  lemma MulCancelLt(a: real, b: real, f: real)
    requires f > 0.0 && a * f < b * f
    ensures a < b
  {
    assert (b - a) * f > 0.0;
  }

  lemma MulNonNegative(a: int, b: int)
    requires a >= 0 && b >= 0
    ensures a * b >= 0
  {
  }

  /** A non-zero multiple of d is at least d away from zero. */
  lemma MulAwayFromZero(x: int, d: int)
    requires d > 0
    ensures x >= 1 ==> x * d >= d
    ensures x <= -1 ==> x * d <= -d
  {
    if x >= 1 {
      MulNonNegative(x - 1, d);
      assert x * d == (x - 1) * d + d;
    } else if x <= -1 {
      MulNonNegative(-x - 1, d);
      assert x * d == -((-x - 1) * d) - d;
    }
  }

  /** Division with remainder has a single answer. */
  lemma DivModUnique(n: int, d: int, q: int, r: int)
    requires d > 0 && n == q * d + r && 0 <= r < d
    ensures n / d == q && n % d == r
  {
    var q0, r0 := n / d, n % d;
    assert (q - q0) * d == r0 - r;
    MulAwayFromZero(q - q0, d);
  }

  /** A multiple of g is divisible by g, with quotient the multiplier. */
  lemma MultipleDivisible(m: int, g: int)
    requires g > 0
    ensures (m * g) % g == 0 && (m * g) / g == m
  {
    DivModUnique(m * g, g, m, 0);
  }

  /** A number divisible by g is g times its quotient. */
  lemma DivisibleIsMultiple(n: int, g: int)
    requires g > 0 && n % g == 0
    ensures n == (n / g) * g
  {
  }

  lemma MulCancel(a: int, b: int, g: int)
    requires g > 0 && g * a == g * b
    ensures a == b
  {
    assert (a - b) * g == 0;
    MulAwayFromZero(a - b, g);
  }

  lemma CastMul(a: int, b: int)
    ensures (a * b) as real == a as real * b as real
  {
  }

  /** A real whose product with a positive d lies in [0, d) lies in [0, 1). */
  lemma UnitFraction(z: real, d: real, r: real)
    requires d > 0.0 && z * d == r && 0.0 <= r < d
    ensures 0.0 <= z < 1.0
  {
    MulCancelLe(0.0, z, d);
    MulCancelLt(z, 1.0, d);
  }

  lemma HalfStep(t: real, k: real)
    requires k > 0.0
    ensures t / k + 0.5 == (2.0 * t + k) / (2.0 * k)
  {
    DivMulCancel(t, k);
    DivMulCancel(2.0 * t + k, 2.0 * k);
    assert (t / k + 0.5) * (2.0 * k) == 2.0 * ((t / k) * k) + k;
    MulInjective(t / k + 0.5, (2.0 * t + k) / (2.0 * k), 2.0 * k);
  }

  /** Math.round of a quotient of integers, in integer arithmetic: floor((2t + k) / 2k). */
  lemma RoundOfQuotient(t: int, k: int)
    requires k > 0
    ensures Round(t as real / k as real) == (2 * t + k) / (2 * k)
  {
    var n := 2 * t + k;
    var d := 2 * k;
    var q := n / d;
    var r := n % d;
    assert n == q * d + r;
    CastMul(q, d);
    assert n as real == q as real * d as real + r as real;
    HalfStep(t as real, k as real);
    DivMulCancel(n as real, d as real);
    assert (n as real / d as real - q as real) * d as real == r as real;
    UnitFraction(n as real / d as real - q as real, d as real, r as real);
  }
}
