/**
 * The period calculator: from the first day of the last period, the period length and the cycle
 * length, the dates of the coming cycles, each with its period, its ovulation day (14 days before
 * the next cycle starts) and its fertile window (the five days before ovulation and the day itself).
 *
 * Each date is held as its day number (days since 1970-01-01, as in Calendar): setDate with
 * getDate() + k moves a date by k days, which adds k to its day number (Calendar.AddDays), and
 * DateOf turns a day number back into a calendar date.
 */
module Period {
  import opened Wrappers
  import opened Numbers
  import opened Calendar

  /**
   * The dates of one cycle, each a day number or None for an Invalid Date: a number field cleared
   * on the page reads as NaN, and setDate with NaN leaves the date invalid.
   */
  datatype CyclePrediction = CyclePrediction(
    cycleNumber: int,
    periodStartDate: Option<int>,
    periodEndDate: Option<int>,
    ovulationDate: Option<int>,
    fertileWindowStartDate: Option<int>,
    fertileWindowEndDate: Option<int>)

  /** The number of cycles predicted when the caller does not say. */
  const DefaultCycles := 6

  /** Days from ovulation to the start of the next cycle. */
  const LutealDays := 14

  /** Days of the fertile window before the ovulation day. */
  const FertileDaysBefore := 5

  /** 1970-01-01, day number 0. */
  const Epoch := Date(1970, 1, 1)

  /** The calendar date of a day number. */
  function DateOf(n: int): (d: Date)
    ensures Valid(d) && DayNumber(d) == n
  {
    assert DayNumber(Epoch) == 0;
    AddDays(Epoch, n)
  }

  /**
   * date.setDate(date.getDate() + k) on a copy: k days on, or an Invalid Date when the date is
   * already invalid or k is NaN.
   */
  function Shift(date: Option<int>, k: Option<int>): (r: Option<int>)
    ensures r.Some? <==> date.Some? && k.Some?
    ensures r.Some? ==> r.value - date.value == k.value
  {
    if date.Some? && k.Some? then Some(date.value + k.value) else None
  }

  /** i * cycleLength: NaN when the cycle length is. */
  function CycleOffset(i: int, cycleLength: Option<int>): (r: Option<int>)
    ensures r.Some? <==> cycleLength.Some?
  {
    if cycleLength.Some? then Some(i * cycleLength.value) else None
  }

  lemma NextOffset(i: int, cycleLength: int)
    ensures CycleOffset(i + 1, Some(cycleLength)).value == CycleOffset(i, Some(cycleLength)).value + cycleLength
  {
  }

  /**
   * The prediction for cycle i, counted from 0, when the last period started on day `last`. A
   * NaN cycle length makes every date invalid, since i * NaN is NaN even for the first cycle; a
   * NaN period duration spoils the period's end only.
   */
  function Prediction(last: int, periodDuration: Option<int>, cycleLength: Option<int>, i: int): (p: CyclePrediction)
    ensures p.cycleNumber == i + 1
    ensures p.periodStartDate.Some? <==> cycleLength.Some?
    ensures p.periodEndDate.Some? <==> cycleLength.Some? && periodDuration.Some?
    ensures p.ovulationDate.Some? <==> cycleLength.Some?
    ensures p.fertileWindowStartDate.Some? <==> cycleLength.Some?
    ensures p.fertileWindowEndDate == p.ovulationDate
    ensures cycleLength.Some? ==> p.periodStartDate.value == last + i * cycleLength.value
    ensures p.periodEndDate.Some? ==> p.periodEndDate.value == p.periodStartDate.value + periodDuration.value - 1
    ensures cycleLength.Some? ==> p.ovulationDate.value + LutealDays == p.periodStartDate.value + cycleLength.value
    ensures cycleLength.Some? ==> p.fertileWindowStartDate.value + FertileDaysBefore == p.ovulationDate.value
  {
    var start := Shift(Some(last), CycleOffset(i, cycleLength));
    var end := Shift(start, if periodDuration.Some? then Some(periodDuration.value - 1) else None);
    var ovulation := Shift(Shift(start, cycleLength), Some(-LutealDays));
    CyclePrediction(i + 1, start, end, ovulation, Shift(ovulation, Some(-FertileDaysBefore)), ovulation)
  }

  /**
   * calculateFutureCycles: no predictions for an empty last-period date (None); otherwise one per
   * cycle, numbered from 1 and built as the loop builds them.
   */
  method CalculateFutureCycles(lastPeriodDate: Option<Date>, periodDuration: Option<int>, cycleLength: Option<int>, numberOfCycles: int)
    returns (predictions: seq<CyclePrediction>)
    requires lastPeriodDate.Some? ==> Valid(lastPeriodDate.value)
    ensures lastPeriodDate.None? ==> predictions == []
    ensures lastPeriodDate.Some? ==> |predictions| == Turns(numberOfCycles)
    ensures lastPeriodDate.Some? ==> forall i :: 0 <= i < |predictions| ==>
      predictions[i] == Prediction(DayNumber(lastPeriodDate.value), periodDuration, cycleLength, i)
  {
    predictions := [];
    if lastPeriodDate.None? {
      return;
    }
    var last := DayNumber(lastPeriodDate.value);
    var i := 0;
    while i < numberOfCycles
      invariant 0 <= i <= Turns(numberOfCycles) && |predictions| == i
      invariant forall k :: 0 <= k < i ==> predictions[k] == Prediction(last, periodDuration, cycleLength, k)
    {
      var currentCycleStartDate := Shift(Some(last), CycleOffset(i, cycleLength));
      var currentPeriodEndDate := Shift(currentCycleStartDate, if periodDuration.Some? then Some(periodDuration.value - 1) else None);
      var nextCycleStartDate := Shift(currentCycleStartDate, cycleLength);
      var ovulationDate := Shift(nextCycleStartDate, Some(-LutealDays));
      var fertileWindowStartDate := Shift(ovulationDate, Some(-FertileDaysBefore));
      predictions := predictions + [CyclePrediction(i + 1, currentCycleStartDate, currentPeriodEndDate,
        ovulationDate, fertileWindowStartDate, ovulationDate)];
      i := i + 1;
    }
  }

  /** The call with the default number of cycles: six predictions for any date given. */
  method CalculateFutureCyclesDefault(lastPeriodDate: Option<Date>, periodDuration: Option<int>, cycleLength: Option<int>)
    returns (predictions: seq<CyclePrediction>)
    requires lastPeriodDate.Some? ==> Valid(lastPeriodDate.value)
    ensures lastPeriodDate.None? ==> predictions == []
    ensures lastPeriodDate.Some? ==> |predictions| == DefaultCycles
    ensures lastPeriodDate.Some? ==> forall i :: 0 <= i < |predictions| ==>
      predictions[i] == Prediction(DayNumber(lastPeriodDate.value), periodDuration, cycleLength, i)
  {
    predictions := CalculateFutureCycles(lastPeriodDate, periodDuration, cycleLength, DefaultCycles);
  }

  /**
   * handleCalculate: no predictions without a date or with a period duration or cycle length of
   * at most 0; otherwise the six default predictions. A cleared field (NaN) is not at most 0, so
   * it passes the check: a cleared cycle length gives six cycles of Invalid Dates, a cleared
   * period duration six cycles whose period end alone is invalid.
   */
  method HandleCalculate(lastPeriodDate: Option<Date>, periodDuration: Option<int>, cycleLength: Option<int>)
    returns (predictions: seq<CyclePrediction>)
    requires lastPeriodDate.Some? ==> Valid(lastPeriodDate.value)
    ensures predictions == [] <==>
      lastPeriodDate.None? || (periodDuration.Some? && periodDuration.value <= 0) || (cycleLength.Some? && cycleLength.value <= 0)
    ensures predictions != [] ==> |predictions| == DefaultCycles && forall i :: 0 <= i < |predictions| ==>
      predictions[i] == Prediction(DayNumber(lastPeriodDate.value), periodDuration, cycleLength, i)
    ensures forall i :: 0 <= i < |predictions| ==>
      && (cycleLength.None? ==> predictions[i].periodStartDate.None? && predictions[i].ovulationDate.None?
                                && predictions[i].fertileWindowStartDate.None?)
      && (cycleLength.Some? ==> (predictions[i].periodEndDate.None? <==> periodDuration.None?))
  {
    if lastPeriodDate.None? || (periodDuration.Some? && periodDuration.value <= 0) || (cycleLength.Some? && cycleLength.value <= 0) {
      return [];
    }
    predictions := CalculateFutureCyclesDefault(lastPeriodDate, periodDuration, cycleLength);
  }

  /** Moving a date by k days with setDate lands on the calendar date of its day number plus k. */
  lemma ShiftIsSetDate(d: Date, k: int)
    requires Valid(d)
    ensures DateOf(DayNumber(d) + k) == AddDays(d, k)
  {
    DayNumberInjective(DateOf(DayNumber(d) + k), AddDays(d, k));
  }

  /**
   * Consecutive predictions are one cycle apart, and each ovulation day is 14 days before the
   * next predicted period starts.
   */
  lemma CyclesFollowEachOther(last: int, periodDuration: Option<int>, cycleLength: int, i: int)
    ensures var p, q := Prediction(last, periodDuration, Some(cycleLength), i), Prediction(last, periodDuration, Some(cycleLength), i + 1);
      && q.cycleNumber == p.cycleNumber + 1
      && q.periodStartDate.value == p.periodStartDate.value + cycleLength
      && p.ovulationDate.value + LutealDays == q.periodStartDate.value
  {
    NextOffset(i, cycleLength);
  }

  /**
   * For a cycle length that is not negative, a later cycle never starts earlier.
   */
  lemma {:induction false} CyclesInOrder(last: int, periodDuration: Option<int>, cycleLength: int, i: int, j: int)
    requires 0 <= i <= j && cycleLength >= 0
    ensures Prediction(last, periodDuration, Some(cycleLength), i).periodStartDate.value
         <= Prediction(last, periodDuration, Some(cycleLength), j).periodStartDate.value
    decreases j - i
  {
    if i < j {
      CyclesInOrder(last, periodDuration, cycleLength, i, j - 1);
      CyclesFollowEachOther(last, periodDuration, cycleLength, j - 1);
    }
  }

  /**
   * The fertile window spans six days ending on the ovulation day; it opens after the period has
   * ended exactly when the period lasts at most cycleLength − 19 days.
   */
  lemma FertileWindowAfterPeriod(last: int, periodDuration: int, cycleLength: int, i: int)
    ensures var p := Prediction(last, Some(periodDuration), Some(cycleLength), i);
      && p.fertileWindowEndDate.value - p.fertileWindowStartDate.value + 1 == FertileDaysBefore + 1
      && (periodDuration + 19 <= cycleLength <==> p.periodEndDate.value < p.fertileWindowStartDate.value)
  {
  }
}
