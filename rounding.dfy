/**
 * The rounding calculator: a value is scaled by 10^places or by a fraction's denominator,
 * rounded with one of nine tie-breaking modes, scaled back, and, for fractional precision,
 * decomposed into a whole number, a proper fraction or a mixed number.
 *
 * Values are exact reals: a tie is a scaled value whose fractional part is exactly one half.
 */
module Rounding {
  import opened Wrappers
  import opened Numbers
  import opened Strings

  /** The rounding modes offered by the mode selector. */
  datatype Mode =
    | NearestDefault
    | HalfUp
    | HalfDown
    | Up
    | Down
    | HalfEven
    | HalfOdd
    | HalfAwayFromZero
    | HalfTowardsZero
    | Unrecognised

  /** The selector's option values; any other text falls through to the switch's default case. */
  function ModeOf(value: string): Mode
  {
    if value == "nearest-default" then NearestDefault
    else if value == "half-up-img" then HalfUp
    else if value == "half-down-img" then HalfDown
    else if value == "up-ceil" then Up
    else if value == "down-floor" then Down
    else if value == "half-even" then HalfEven
    else if value == "half-odd" then HalfOdd
    else if value == "half-away-zero" then HalfAwayFromZero
    else if value == "half-towards-zero" then HalfTowardsZero
    else Unrecognised
  }

  /** The scaled value lies exactly halfway between two integers: |x - trunc(x)| is one half. */
  predicate IsHalf(x: real) {
    Abs(x - Trunc(x) as real) == 0.5
  }

  predicate IsEven(k: int) {
    k % 2 == 0
  }

  /**
   * What each rounding mode means, stated without reference to how it is computed: which
   * integer k the scaled value x may be rounded to, and how a tie is broken.
   */
  predicate RoundsToInteger(mode: Mode, x: real, k: int) {
    var r := k as real;
    match mode
    case NearestDefault => r - 0.5 <= x < r + 0.5
    case HalfUp => r - 0.5 <= x < r + 0.5
    case HalfDown => r - 0.5 < x <= r + 0.5
    case Up => r - 1.0 < x <= r
    case Down => r <= x < r + 1.0
    case HalfEven => r - 0.5 <= x <= r + 0.5 && (x == r - 0.5 || x == r + 0.5 ==> IsEven(k))
    case HalfOdd => r - 0.5 <= x <= r + 0.5 && (x == r - 0.5 || x == r + 0.5 ==> !IsEven(k))
    case HalfAwayFromZero =>
      (0.0 <= x ==> r - 0.5 <= x < r + 0.5) && (x < 0.0 ==> r - 0.5 < x <= r + 0.5)
    case HalfTowardsZero =>
      (0.0 <= x ==> r - 0.5 < x <= r + 0.5) && (x < 0.0 ==> r - 0.5 <= x < r + 0.5)
    case Unrecognised => false
  }

  /** The meaning of the whole switch: an integer in each rounding mode, the value itself otherwise. */
  predicate Rounds(mode: Mode, x: real, r: real) {
    if mode == Unrecognised then r == x else IsInteger(r) && RoundsToInteger(mode, x, r.Floor)
  }

  /** A tie is exactly a value whose distance to its floor is one half. */
  lemma IsHalfIffFloorHalf(x: real)
    ensures IsHalf(x) <==> x - Floor(x) as real == 0.5
  {
    if x < 0.0 && !IsInteger(x) {
      assert Ceil(x) == Floor(x) + 1;
    }
  }

  /**
   * The switch of roundNumber applied to the scaled value. The parity test of the source,
   * |round(floor) % 2| < epsilon, holds exactly when the floor is even.
   */
  function RoundScaled(mode: Mode, x: real): real
  {
    match mode
    case NearestDefault => Round(x) as real
    case HalfUp => Round(x) as real
    case HalfDown => if IsHalf(x) then Floor(x) as real else Round(x) as real
    case Up => Ceil(x) as real
    case Down => Floor(x) as real
    case HalfEven =>
      if IsHalf(x) then (if IsEven(Floor(x)) then Floor(x) else Ceil(x)) as real else Round(x) as real
    case HalfOdd =>
      if IsHalf(x) then (if !IsEven(Floor(x)) then Floor(x) else Ceil(x)) as real else Round(x) as real
    case HalfAwayFromZero =>
      if IsHalf(x) then (if x >= 0.0 then Ceil(x) else Floor(x)) as real else Round(x) as real
    case HalfTowardsZero =>
      if IsHalf(x) then (if x >= 0.0 then Floor(x) else Ceil(x)) as real else Round(x) as real
    case Unrecognised => x
  }

  /** Each branch of the switch does what its mode means. */
  lemma RoundScaledMeaning(mode: Mode, x: real)
    ensures Rounds(mode, x, RoundScaled(mode, x))
  {
    IsHalfIffFloorHalf(x);
    var k := Floor(x);
    var half := IsHalf(x);
    if mode != Unrecognised {
      var r := RoundScaled(mode, x);
      if half {
        assert x == k as real + 0.5;
        assert Ceil(x) == k + 1 && Round(x) == k + 1;
      } else if IsInteger(x) {
        assert Ceil(x) == k && Round(x) == k;
      } else {
        assert Ceil(x) == k + 1;
      }
      assert IsInteger(r);
      RoundsToIntegerOfScaled(mode, x, r.Floor);
    }
  }

  /** The case analysis behind RoundScaledMeaning, one mode at a time. */
  lemma RoundsToIntegerOfScaled(mode: Mode, x: real, k: int)
    requires mode != Unrecognised && RoundScaled(mode, x) == k as real
    ensures RoundsToInteger(mode, x, k)
  {
    IsHalfIffFloorHalf(x);
    var fl := Floor(x);
    var half := IsHalf(x);
    var rd := Round(x);
    assert half ==> x == fl as real + 0.5 && Ceil(x) == fl + 1 && rd == fl + 1;
    assert !half ==> x != rd as real - 0.5 && x != rd as real + 0.5;
    match mode {
      case NearestDefault =>
      case HalfUp =>
      case HalfDown =>
      case Up =>
      case Down =>
      case HalfEven =>
        if half {
          if !IsEven(fl) {
            assert k == fl + 1 && IsEven(fl + 1);
          }
        } else {
          assert k == rd;
        }
      case HalfOdd =>
        if half {
          if IsEven(fl) {
            assert k == fl + 1 && !IsEven(fl + 1);
          }
        } else {
          assert k == rd;
        }
      case HalfAwayFromZero =>
      case HalfTowardsZero =>
    }
  }

  /** Each mode's meaning admits a single integer: the reference definition is deterministic. */
  lemma RoundsToIntegerUnique(mode: Mode, x: real, k1: int, k2: int)
    requires RoundsToInteger(mode, x, k1) && RoundsToInteger(mode, x, k2)
    ensures k1 == k2
  {
  }

  lemma RoundsUnique(mode: Mode, x: real, r1: real, r2: real)
    requires Rounds(mode, x, r1) && Rounds(mode, x, r2)
    ensures r1 == r2
  {
    if mode != Unrecognised {
      RoundsToIntegerUnique(mode, x, r1.Floor, r2.Floor);
    }
  }

  /** Math.pow(10, places); a negative places count gives the reciprocal power. */
  function DecimalFactor(places: int): (f: real)
    ensures f > 0.0
  {
    if places >= 0 then
      PowPositive(10.0, places);
      Pow(10.0, places)
    else
      PowPositive(10.0, -places);
      1.0 / Pow(10.0, -places)
  }

  /** The scale factor: the denominator itself for fractional precision, 10^places otherwise. */
  function Factor(precisionValue: int, isFractional: bool): real
  {
    if isFractional then precisionValue as real else DecimalFactor(precisionValue)
  }

  /**
   * roundNumber: scale, round in the given mode, scale back. A zero factor returns the value;
   * for decimal precision the factor is never zero, so the second guard of the source is dead.
   */
  function RoundNumber(value: real, precisionValue: int, mode: Mode, isFractional: bool): (r: real)
    ensures Factor(precisionValue, isFractional) == 0.0 ==> r == value
  {
    var factor := Factor(precisionValue, isFractional);
    if factor == 0.0 && isFractional then value
    else if factor == 0.0 && !isFractional && precisionValue != 0 then value
    else ScaleRound(value, factor, mode)
  }

  /** Multiply by the factor, round in the mode, divide by the factor. */
  function ScaleRound(value: real, factor: real, mode: Mode): (r: real)
    requires factor != 0.0
    ensures r * factor == RoundScaled(mode, value * factor)
  {
    RoundScaled(mode, value * factor) / factor
  }

  /** roundNumber with a non-zero factor is the scale-round-unscale step on that factor. */
  lemma RoundNumberScales(value: real, precisionValue: int, mode: Mode, isFractional: bool)
    requires Factor(precisionValue, isFractional) != 0.0
    ensures RoundNumber(value, precisionValue, mode, isFractional)
         == ScaleRound(value, Factor(precisionValue, isFractional), mode)
  {
  }

  /**
   * The meaning of the scale-round-unscale step: the result scaled by the factor is what the
   * mode's reference definition allows for the scaled input (and by RoundsUnique, nothing else is).
   */
  lemma ScaleRoundMeaning(value: real, f: real, mode: Mode)
    requires f != 0.0
    ensures Rounds(mode, value * f, ScaleRound(value, f, mode) * f)
  {
    RoundScaledMeaning(mode, value * f);
  }

  /** An integer is a fixed point of every rounding mode. */
  lemma IntegerRoundsToItself(mode: Mode, x: real)
    requires IsInteger(x)
    ensures RoundScaled(mode, x) == x
  {
    RoundScaledMeaning(mode, x);
    if mode != Unrecognised {
      assert Rounds(mode, x, x);
      RoundsUnique(mode, x, x, RoundScaled(mode, x));
    }
  }

  /** An unknown mode leaves the value as it was (the default case of the switch). */
  lemma UnrecognisedModeIsIdentity(value: real, f: real)
    requires f != 0.0
    ensures ScaleRound(value, f, Unrecognised) == value
  {
    MulInjective(ScaleRound(value, f, Unrecognised), value, f);
  }

  /** A value that is already a multiple of the step 1/f is returned unchanged in every mode. */
  lemma ExactMultipleUnchanged(value: real, f: real, mode: Mode)
    requires f != 0.0 && IsMultiple(value, f)
    ensures ScaleRound(value, f, mode) == value
  {
    IntegerRoundsToItself(mode, value * f);
    MulInjective(ScaleRound(value, f, mode), value, f);
  }
}
