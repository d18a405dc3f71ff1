/**
 * The chronological age calculator: the time from a date of birth to an "age at" date, in years,
 * months, weeks and days counted on anniversaries, and as total days, hours, minutes and seconds.
 *
 * Dates are whole days read in one time zone, so the elapsed time is a whole number of days.
 */
module ChronologicalAge {
  import opened Wrappers
  import opened Numbers
  import opened Calendar
  import opened TimeUtils

  datatype AgeResult = AgeResult(
    years: int, months: int, weeks: int, days: int,
    totalDays: int, hours: int, minutes: int, seconds: int)

  datatype Outcome = Age(result: AgeResult) | Failure(message: string)

  /** Whole years, the months after them, and the days after those. */
  datatype Span = Span(years: int, months: int, days: int)

  const InvalidDate := "Invalid date input. Please check your dates."
  const BirthAfterTarget := "Date of Birth cannot be after Age at Date."

  /** The length of the month before the date's month. */
  function PreviousMonthLength(e: Date): (n: int)
    requires Valid(e)
    ensures 28 <= n <= 31
  {
    if e.month == 1 then DaysInMonth(e.year - 1, 12) else DaysInMonth(e.year, e.month - 1)
  }

  /**
   * new Date(year, monthIndex, 0).getDate(): day 0 of the date's month, counted as Date.UTC
   * counts it, so a year from 0 to 99 is read as 1900 + year. That is the length of the month
   * before, except in March of year 0: year 0 is a leap year and 1900 is not.
   */
  function DaysInPreviousMonth(e: Date): (n: int)
    requires Valid(e)
    ensures 28 <= n <= 31
    ensures n == PreviousMonthLength(e) <==> !(e.year == 0 && e.month == 3)
  {
    DayZeroLength(e.year, e.month);
    if e.month == 1 then 31 else DaysInMonth(UtcYear(e.year), e.month - 1)
  }

  /** That length is the day of the month of Date.UTC(year, monthIndex, 0). */
  lemma PreviousMonthIsDayZero(e: Date)
    requires Valid(e)
    ensures DaysInPreviousMonth(e) == DateUtc(e.year, e.month - 1, 0).day
  {
    DayZero(e.year, e.month);
  }

  /** Reading the year as Date.UTC does changes a month's length only for February of year 0. */
  lemma DayZeroLength(year: int, month: int)
    requires 1 <= month <= 12
    ensures (month == 1 || DaysInMonth(UtcYear(year), month - 1) == DaysInMonth(year, month - 1))
        <==> !(year == 0 && month == 3)
  {
    UtcYearLeap(year);
  }

  function MinInt(a: int, b: int): int { if a <= b then a else b }

  /**
   * The years, months and days between two dates. When the day of the month has not been reached
   * a month is borrowed; the days are then counted from the birth day in the month before the
   * target's month. As written, that birth day is used even when that month is too short to hold
   * it, and the month's length is day 0 of the target's month; the corrected count starts from the
   * month's last day instead, and takes the month's own length.
   */
  function YearsMonthsDays(s: Date, e: Date, asWritten: bool): (r: Span)
    requires Valid(s) && Valid(e)
    ensures 0 <= r.months <= 11
    ensures !Before(e, s) ==> r.years >= 0
    ensures !asWritten ==> r.days >= 0
  {
    var years, months, days := e.year - s.year, e.month - s.month, e.day - s.day;
    var prev := if asWritten then DaysInPreviousMonth(e) else PreviousMonthLength(e);
    var borrowedMonths := if days < 0 then months - 1 else months;
    var borrowedDays :=
      if days >= 0 then days
      else if asWritten then days + prev
      else e.day + prev - MinInt(s.day, prev);
    if borrowedMonths < 0 then Span(years - 1, borrowedMonths + 12, borrowedDays)
    else Span(years, borrowedMonths, borrowedDays)
  }

  /** The hours, minutes and seconds of a number of whole days, by chained floor divisions. */
  function Totals(elapsedDays: int): (r: (int, int, int, int))
    ensures r.0 == elapsedDays && r.1 == 24 * r.0 && r.2 == 60 * r.1 && r.3 == 60 * r.2
  {
    var diffTime := elapsedDays * 86400000;
    assert diffTime == (elapsedDays * 86400) * 1000;
    MultipleDivisible(elapsedDays * 86400, 1000);
    var totalSeconds := diffTime / 1000;
    assert totalSeconds == (elapsedDays * 1440) * 60;
    MultipleDivisible(elapsedDays * 1440, 60);
    var totalMinutes := totalSeconds / 60;
    assert totalMinutes == (elapsedDays * 24) * 60;
    MultipleDivisible(elapsedDays * 24, 60);
    var totalHours := totalMinutes / 60;
    MultipleDivisible(elapsedDays, 24);
    var totalDays := totalHours / 24;
    (totalDays, totalHours, totalMinutes, totalSeconds)
  }

  /** The result record of two ordered valid dates, with the days split into weeks and days. */
  function AgeBetween(s: Date, e: Date, asWritten: bool): (r: AgeResult)
    requires Valid(s) && Valid(e)
  {
    var span := YearsMonthsDays(s, e, asWritten);
    var (totalDays, hours, minutes, seconds) := Totals(DayNumber(e) - DayNumber(s));
    AgeResult(span.years, span.months, span.days / 7, JsRem(span.days, 7), totalDays, hours, minutes, seconds)
  }

  /**
   * calculateAge: an error message for a date that could not be read or a birth date after the
   * target date, and otherwise the age. An unread date is None; a read date is a valid one.
   */
  function CalculateAge(start: Option<Date>, end: Option<Date>): (o: Outcome)
    requires start.Some? ==> Valid(start.value)
    requires end.Some? ==> Valid(end.value)
    ensures start.None? || end.None? ==> o == Failure(InvalidDate)
    ensures start.Some? && end.Some? && Before(end.value, start.value) ==> o == Failure(BirthAfterTarget)
    ensures o.Age? <==> start.Some? && end.Some? && !Before(end.value, start.value)
    ensures o.Age? ==> var r := o.result;
      && r.years >= 0 && 0 <= r.months <= 11 && r.weeks >= 0 && 0 <= r.days < 7
      && r.totalDays == DayNumber(end.value) - DayNumber(start.value) >= 0
      && r.hours == 24 * r.totalDays && r.minutes == 60 * r.hours && r.seconds == 60 * r.minutes
      && r.weeks * 7 + r.days == YearsMonthsDays(start.value, end.value, false).days
  {
    if start.None? || end.None? then Failure(InvalidDate)
    else if DayNumber(start.value) > DayNumber(end.value) then
      DayNumberOrder(end.value, start.value);
      Failure(BirthAfterTarget)
    else
      DayNumberOrder(end.value, start.value);
      Age(AgeBetween(start.value, end.value, false))
  }

  /** handleCalculate: a missing date first, then the calculation on the dates read. */
  function HandleCalculate(dob: string, targetDate: string): (o: Outcome)
    ensures dob == "" ==> o == Failure("Please enter a Date of Birth.")
    ensures dob != "" && targetDate == "" ==> o == Failure("Please enter an Age at Date.")
    ensures dob != "" && targetDate != "" ==> o == CalculateAge(ParseIsoDate(dob), ParseIsoDate(targetDate))
  {
    if dob == "" then Failure("Please enter a Date of Birth.")
    else if targetDate == "" then Failure("Please enter an Age at Date.")
    else CalculateAge(ParseIsoDate(dob), ParseIsoDate(targetDate))
  }

  /**
   * On the values of two date inputs the page computes the age between the very days entered,
   * years 0 to 99 included.
   */
  lemma AgeOfDateInputs(birth: Date, target: Date)
    requires Valid(birth) && Valid(target) && 0 <= birth.year <= 9999 && 0 <= target.year <= 9999
    ensures HandleCalculate(DateInputValue(birth), DateInputValue(target)) == CalculateAge(Some(birth), Some(target))
  {
    ParseDateInputValue(birth);
    ParseDateInputValue(target);
  }

  // ---------------------------------------------------------------------------------------------
  // What the years, months and days mean

  /** The month index of a year and month: months counted from January of year 0. */
  function MonthIndex(y: int, m: int): int
  {
    y * 12 + m - 1
  }

  /** A month index names one year and month. */
  lemma MonthIndexInjective(y1: int, m1: int, y2: int, m2: int)
    requires 1 <= m1 <= 12 && 1 <= m2 <= 12 && MonthIndex(y1, m1) == MonthIndex(y2, m2)
    ensures y1 == y2 && m1 == m2
  {
    DivModUnique(MonthIndex(y1, m1), 12, y1, m1 - 1);
    DivModUnique(MonthIndex(y2, m2), 12, y2, m2 - 1);
  }

  /** The day number of a day of a month counts on from the first of that month. */
  lemma DayOfMonth(y: int, m: int, day: int)
    requires 1 <= m <= 12
    ensures DayNumber(Date(y, m, day)) == DayNumber(Date(y, m, 1)) + day - 1
  {
  }

  /** The day after the last day of the month before e's month is the first of e's month. */
  lemma PreviousMonthEnds(e: Date, p: Date)
    requires Valid(e) && Valid(p) && MonthIndex(p.year, p.month) + 1 == MonthIndex(e.year, e.month)
    ensures PreviousMonthLength(e) == DaysInMonth(p.year, p.month)
    ensures DayNumber(Date(p.year, p.month, DaysInMonth(p.year, p.month))) + 1 == DayNumber(Date(e.year, e.month, 1))
  {
    if e.month == 1 {
      MonthIndexInjective(p.year, p.month, e.year - 1, 12);
    } else {
      MonthIndexInjective(p.year, p.month, e.year, e.month - 1);
    }
    NextDayNumber(Date(p.year, p.month, DaysInMonth(p.year, p.month)));
  }

  /** The years and months together count the months between the two dates' months, less a borrowed one. */
  lemma MonthsBetween(s: Date, e: Date, asWritten: bool)
    requires Valid(s) && Valid(e)
    ensures var r := YearsMonthsDays(s, e, asWritten);
      12 * r.years + r.months == MonthIndex(e.year, e.month) - MonthIndex(s.year, s.month) - (if e.day < s.day then 1 else 0)
    ensures var r, prev := YearsMonthsDays(s, e, false), PreviousMonthLength(e);
      r.days == if e.day >= s.day then e.day - s.day else e.day + prev - MinInt(s.day, prev)
  {
  }

  /**
   * The date `k` months on from `s`: in the month `k` months later, on the same day, or on the
   * last day of a month too short to hold it.
   */
  predicate MonthsOn(s: Date, k: int, mid: Date)
    requires Valid(s) && Valid(mid)
  {
    MonthIndex(mid.year, mid.month) == MonthIndex(s.year, s.month) + k
    && mid.day == MinInt(s.day, DaysInMonth(mid.year, mid.month))
  }

  /** The date k months on from d exists and is valid; the lemmas below hold for it. */
  function AddMonths(d: Date, k: int): (r: Date)
    requires Valid(d)
    ensures Valid(r) && MonthsOn(d, k, r)
  {
    var index := MonthIndex(d.year, d.month) + k;
    var y, m := index / 12, index % 12 + 1;
    Date(y, m, MinInt(d.day, DaysInMonth(y, m)))
  }

  /** Without a borrowed month, the target is the birth day in the target's month plus the days. */
  lemma SpanWithinMonth(s: Date, e: Date, mid: Date)
    requires Valid(s) && Valid(e) && Valid(mid) && e.day >= s.day
    requires MonthsOn(s, MonthIndex(e.year, e.month) - MonthIndex(s.year, s.month), mid)
    ensures DayNumber(mid) + (e.day - s.day) == DayNumber(e)
  {
    MonthIndexInjective(mid.year, mid.month, e.year, e.month);
    DayOfMonth(e.year, e.month, mid.day);
    DayOfMonth(e.year, e.month, e.day);
  }

  /** From a day of a month to a day of the next month: the rest of the first month, then the day. */
  lemma DaysAcrossMonthEnd(mid: Date, e: Date)
    requires Valid(mid) && Valid(e) && MonthIndex(mid.year, mid.month) + 1 == MonthIndex(e.year, e.month)
    ensures DayNumber(mid) + (DaysInMonth(mid.year, mid.month) - mid.day) + e.day == DayNumber(e)
  {
    PreviousMonthEnds(e, mid);
    DayOfMonth(mid.year, mid.month, mid.day);
    DayOfMonth(mid.year, mid.month, DaysInMonth(mid.year, mid.month));
    DayOfMonth(e.year, e.month, e.day);
  }

  /** With a borrowed month, the rest of the month before and the target's day make the days. */
  lemma SpanAcrossMonthEnd(s: Date, e: Date, mid: Date)
    requires Valid(s) && Valid(e) && Valid(mid) && e.day < s.day
    requires MonthsOn(s, MonthIndex(e.year, e.month) - MonthIndex(s.year, s.month) - 1, mid)
    ensures var prev := PreviousMonthLength(e);
      DayNumber(mid) + (e.day + prev - MinInt(s.day, prev)) == DayNumber(e)
  {
    PreviousMonthEnds(e, mid);
    DaysAcrossMonthEnd(mid, e);
  }

  /**
   * The corrected years, months and days lead from the birth date to the target date: the target
   * comes that many days after the date that many years and months on from the birth date.
   */
  lemma AgeSpansDates(s: Date, e: Date, mid: Date)
    requires Valid(s) && Valid(e) && Valid(mid)
    requires var r := YearsMonthsDays(s, e, false); MonthsOn(s, 12 * r.years + r.months, mid)
    ensures DayNumber(mid) + YearsMonthsDays(s, e, false).days == DayNumber(e)
  {
    MonthsBetween(s, e, false);
    if e.day >= s.day {
      SpanWithinMonth(s, e, mid);
    } else {
      SpanAcrossMonthEnd(s, e, mid);
    }
  }

  /**
   * As written and corrected agree whenever the birth day fits in the month before the target's,
   * unless the target is in March of year 0, where day 0 is taken from 1900.
   */
  lemma AgreeWhenDayFits(s: Date, e: Date)
    requires Valid(s) && Valid(e) && s.day <= PreviousMonthLength(e) && !(e.year == 0 && e.month == 3)
    ensures YearsMonthsDays(s, e, true) == YearsMonthsDays(s, e, false)
  {
  }

  /**
   * As written, from the 31st of January to the 1st of March 2023 is one month and −2 days (shown
   * as −1 weeks and −2 days); the corrected count is one month and one day.
   */
  lemma NegativeDaysAsWritten()
    ensures YearsMonthsDays(Date(2023, 1, 31), Date(2023, 3, 1), true) == Span(0, 1, -2)
    ensures AgeBetween(Date(2023, 1, 31), Date(2023, 3, 1), true).weeks == -1
    ensures AgeBetween(Date(2023, 1, 31), Date(2023, 3, 1), true).days == -2
    ensures YearsMonthsDays(Date(2023, 1, 31), Date(2023, 3, 1), false) == Span(0, 1, 1)
  {
    assert !IsLeapYear(2023);
    assert DaysInPreviousMonth(Date(2023, 3, 1)) == 28;
  }

  /**
   * As written, 0000-01-28 to 0000-03-01 is one month and one day, since the length of February
   * is taken from 1900; in year 0, a leap year, it is one month and two days.
   */
  lemma YearZeroFebruaryAsWritten()
    ensures YearsMonthsDays(Date(0, 1, 28), Date(0, 3, 1), true) == Span(0, 1, 1)
    ensures YearsMonthsDays(Date(0, 1, 28), Date(0, 3, 1), false) == Span(0, 1, 2)
  {
    assert DaysInPreviousMonth(Date(0, 3, 1)) == 28;
    assert PreviousMonthLength(Date(0, 3, 1)) == 29;
  }

  /** The page's examples: 2000-01-01 to 2001-01-01 is one year; 20 February to 20 March is one month. */
  lemma DocumentedExamples(y: int)
    ensures YearsMonthsDays(Date(2000, 1, 1), Date(2001, 1, 1), false) == Span(1, 0, 0)
    ensures YearsMonthsDays(Date(y, 2, 20), Date(y, 3, 20), false) == Span(0, 1, 0)
  {
  }
}
