/**
 * Properties of the rounding engine that relate several modes or several calls: idempotence,
 * the one-step and half-step bounds, and the order of the modes' results.
 */
module RoundingProperties {
  import opened Numbers
  import opened Rounding

  /** In every rounding mode the result is a whole number of steps 1/f. */
  lemma ScaleRoundIsMultiple(value: real, f: real, mode: Mode)
    requires f != 0.0 && mode != Unrecognised
    ensures IsMultiple(ScaleRound(value, f, mode), f)
  {
    ScaleRoundMeaning(value, f, mode);
  }

  /** Rounding an already rounded scaled value changes nothing: the result is its own rounding. */
  lemma RoundedIsFixed(mode: Mode, x: real, y: real)
    requires Rounds(mode, x, y)
    ensures Rounds(mode, y, y)
  {
    if mode != Unrecognised {
      assert y == y.Floor as real;
    }
  }

  /** What each mode's meaning says about the scaled result y of the scaled input x. */
  lemma RoundsBounds(mode: Mode, x: real, y: real)
    requires mode != Unrecognised && Rounds(mode, x, y)
    ensures mode == Up ==> y - 1.0 < x <= y && y == Ceil(x) as real
    ensures mode == Down ==> y <= x < y + 1.0 && y == Floor(x) as real
    ensures mode != Up && mode != Down ==> y - 0.5 <= x <= y + 0.5
    ensures Floor(x) as real <= y <= Ceil(x) as real
  {
    var k := y.Floor;
    assert y == k as real && RoundsToInteger(mode, x, k);
    var lo, hi := Floor(x), Ceil(x);
    if mode == Up {
      assert k - 1 < hi && hi - 1 < k;
    } else if mode == Down {
      assert lo - 1 < k && k - 1 < lo;
    } else {
      assert (lo - 1) as real < x - 0.5 && x + 0.5 < (hi + 1) as real;
    }
  }

  /** Scaling back a bound on a scaled result: (r - v) * f between lo and hi, with f > 0. */
  lemma ScaleBack(v: real, r: real, f: real, lo: real, hi: real)
    requires f > 0.0 && v * f + lo <= r * f <= v * f + hi
    ensures v + lo / f <= r <= v + hi / f
  {
    DivMulCancel(lo, f);
    DivMulCancel(hi, f);
    assert (v + lo / f) * f == v * f + lo;
    assert (v + hi / f) * f == v * f + hi;
    MulCancelLe(v + lo / f, r, f);
    MulCancelLe(r, v + hi / f, f);
  }

  /** The same with a strict lower bound. */
  lemma ScaleBackStrict(v: real, r: real, f: real, lo: real, hi: real)
    requires f > 0.0 && v * f + lo < r * f <= v * f + hi
    ensures v + lo / f < r <= v + hi / f
  {
    DivMulCancel(lo, f);
    DivMulCancel(hi, f);
    assert (v + lo / f) * f == v * f + lo;
    assert (v + hi / f) * f == v * f + hi;
    MulCancelLt(v + lo / f, r, f);
    MulCancelLe(r, v + hi / f, f);
  }

  /** The rounded-up result scaled by the factor is the ceiling of the scaled input. */
  lemma ScaleRoundUpScaled(value: real, f: real)
    requires f != 0.0
    ensures ScaleRound(value, f, Up) * f == Ceil(value * f) as real
  {
  }

  /** The rounded-down result scaled by the factor is the floor of the scaled input. */
  lemma ScaleRoundDownScaled(value: real, f: real)
    requires f != 0.0
    ensures ScaleRound(value, f, Down) * f == Floor(value * f) as real
  {
  }

  /** Rounding up gives a value at or above the input and less than one step above it. */
  lemma ScaleRoundUpWithinOneStep(value: real, f: real)
    requires f > 0.0
    ensures var up := ScaleRound(value, f, Up);
      value <= up < value + 1.0 / f
  {
    ScaleRoundUpScaled(value, f);
    ScaleBackStrict(ScaleRound(value, f, Up), value, f, -1.0, 0.0);
  }

  /** Rounding down gives a value at or below the input and less than one step below it. */
  lemma ScaleRoundDownWithinOneStep(value: real, f: real)
    requires f > 0.0
    ensures var down := ScaleRound(value, f, Down);
      value - 1.0 / f < down <= value
  {
    ScaleRoundDownScaled(value, f);
    ScaleBackStrict(value, ScaleRound(value, f, Down), f, -1.0, 0.0);
  }

  /** Results of the tie-breaking modes are never more than half a step from the input. */
  lemma NearestWithinHalfStep(mode: Mode, value: real, f: real, r: real)
    requires f > 0.0 && mode != Up && mode != Down && mode != Unrecognised
    requires Rounds(mode, value * f, r * f)
    ensures value - 0.5 / f <= r <= value + 0.5 / f
  {
    RoundsBounds(mode, value * f, r * f);
    ScaleBack(value, r, f, -0.5, 0.5);
  }

  /** Whatever the mode, its scaled result lies between the floor and the ceiling of the scaled input. */
  lemma BetweenFloorAndCeiling(mode: Mode, x: real, y: real, down: real, up: real)
    requires mode != Unrecognised
    requires Rounds(mode, x, y) && Rounds(Down, x, down) && Rounds(Up, x, up)
    ensures down <= y <= up
  {
    RoundsBounds(mode, x, y);
    RoundsBounds(Down, x, down);
    RoundsBounds(Up, x, up);
  }

  /** With zero decimal places the factor is one and roundNumber is the switch itself. */
  lemma ZeroPlaces(value: real, mode: Mode)
    ensures RoundNumber(value, 0, mode, false) == RoundScaled(mode, value)
  {
    assert Factor(0, false) == 1.0;
  }

  /** The worked examples shown beside each mode, all to zero decimal places. */
  lemma WorkedExamples()
    ensures RoundNumber(2.3, 0, NearestDefault, false) == 2.0
    ensures RoundNumber(2.7, 0, NearestDefault, false) == 3.0
    ensures RoundNumber(2.5, 0, NearestDefault, false) == 3.0
    ensures RoundNumber(-2.5, 0, NearestDefault, false) == -2.0
    ensures RoundNumber(7.5, 0, HalfUp, false) == 8.0
    ensures RoundNumber(7.2, 0, HalfUp, false) == 7.0
    ensures RoundNumber(-7.5, 0, HalfUp, false) == -7.0
    ensures RoundNumber(3.5, 0, HalfDown, false) == 3.0
    ensures RoundNumber(3.7, 0, HalfDown, false) == 4.0
    ensures RoundNumber(-3.5, 0, HalfDown, false) == -4.0
    ensures RoundNumber(4.1, 0, Up, false) == 5.0
    ensures RoundNumber(-4.9, 0, Up, false) == -4.0
    ensures RoundNumber(4.0, 0, Up, false) == 4.0
    ensures RoundNumber(5.9, 0, Down, false) == 5.0
    ensures RoundNumber(-5.1, 0, Down, false) == -6.0
    ensures RoundNumber(5.0, 0, Down, false) == 5.0
    ensures RoundNumber(2.5, 0, HalfEven, false) == 2.0
    ensures RoundNumber(3.5, 0, HalfEven, false) == 4.0
    ensures RoundNumber(-2.5, 0, HalfEven, false) == -2.0
    ensures RoundNumber(2.5, 0, HalfOdd, false) == 3.0
    ensures RoundNumber(4.5, 0, HalfOdd, false) == 5.0
    ensures RoundNumber(-2.5, 0, HalfOdd, false) == -3.0
    ensures RoundNumber(2.5, 0, HalfAwayFromZero, false) == 3.0
    ensures RoundNumber(-2.5, 0, HalfAwayFromZero, false) == -3.0
    ensures RoundNumber(2.3, 0, HalfAwayFromZero, false) == 2.0
    ensures RoundNumber(2.5, 0, HalfTowardsZero, false) == 2.0
    ensures RoundNumber(-2.5, 0, HalfTowardsZero, false) == -2.0
    ensures RoundNumber(2.8, 0, HalfTowardsZero, false) == 3.0
  {
    forall value: real, mode: Mode
      ensures RoundNumber(value, 0, mode, false) == RoundScaled(mode, value)
    {
      ZeroPlaces(value, mode);
    }
  }
}
