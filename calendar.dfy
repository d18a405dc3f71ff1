/**
 * Proleptic Gregorian calendar dates as the JavaScript Date object sees a date-only value in UTC:
 * year, month 1..12 and day of month; day numbers counted from 1970-01-01 (a Thursday); adding
 * days with setDate/setUTCDate; and the YYYY-MM-DD text the time card writes and reads.
 */
module Calendar {
  import opened Wrappers
  import opened Strings
  import opened Numbers

  datatype Date = Date(year: int, month: int, day: int)

  predicate IsLeapYear(y: int) {
    y % 4 == 0 && (y % 100 != 0 || y % 400 == 0)
  }

  function DaysInMonth(y: int, m: int): (n: int)
    requires 1 <= m <= 12
    ensures 28 <= n <= 31
  {
    if m == 2 then (if IsLeapYear(y) then 29 else 28)
    else if m == 4 || m == 6 || m == 9 || m == 11 then 30
    else 31
  }

  predicate Valid(d: Date) {
    1 <= d.month <= 12 && 1 <= d.day <= DaysInMonth(d.year, d.month)
  }

  /** The day after a valid date. */
  function NextDay(d: Date): (r: Date)
    requires Valid(d)
    ensures Valid(r)
  {
    if d.day < DaysInMonth(d.year, d.month) then Date(d.year, d.month, d.day + 1)
    else if d.month < 12 then Date(d.year, d.month + 1, 1)
    else Date(d.year + 1, 1, 1)
  }

  /** The day before a valid date. */
  function PrevDay(d: Date): (r: Date)
    requires Valid(d)
    ensures Valid(r)
  {
    if d.day > 1 then Date(d.year, d.month, d.day - 1)
    else if d.month > 1 then Date(d.year, d.month - 1, DaysInMonth(d.year, d.month - 1))
    else Date(d.year - 1, 12, 31)
  }

  /** Leap years among the years before y, counted from a fixed origin (floor division). */
  function LeapsBefore(y: int): int {
    (y - 1) / 4 - (y - 1) / 100 + (y - 1) / 400
  }

  /** Days from 1970-01-01 to the first of January of year y. */
  function DaysBeforeYear(y: int): int {
    365 * (y - 1970) + LeapsBefore(y) - LeapsBefore(1970)
  }

  /** Days before the first of each month in a common year; the last entry is the year's length. */
  const CommonYearDaysBefore: seq<int> := [0, 31, 59, 90, 120, 151, 181, 212, 243, 273, 304, 334, 365]

  /** Days in year y before the first of month m (m = 13 gives the length of the year). */
  function DaysBeforeMonth(y: int, m: int): int
    requires 1 <= m <= 13
  {
    CommonYearDaysBefore[m - 1] + (if m > 2 && IsLeapYear(y) then 1 else 0)
  }

  /** The number of days since 1970-01-01 (negative before it): Date.getTime() / 86400000. */
  function DayNumber(d: Date): int
    requires 1 <= d.month <= 12
  {
    DaysBeforeYear(d.year) + DaysBeforeMonth(d.year, d.month) + d.day - 1
  }

  lemma DivStep4(y: int)
    ensures y / 4 - (y - 1) / 4 == (if y % 4 == 0 then 1 else 0)
  {
  }

  lemma DivStep100(y: int)
    ensures y / 100 - (y - 1) / 100 == (if y % 100 == 0 then 1 else 0)
  {
  }

  lemma DivStep400(y: int)
    ensures y / 400 - (y - 1) / 400 == (if y % 400 == 0 then 1 else 0)
  {
  }

  lemma LeapsStep(y: int)
    ensures LeapsBefore(y + 1) == LeapsBefore(y) + (if IsLeapYear(y) then 1 else 0)
  {
    DivStep4(y);
    DivStep100(y);
    DivStep400(y);
    if y % 400 == 0 {
      DivModUnique(y, 100, (y / 400) * 4, 0);
      DivModUnique(y, 4, (y / 400) * 100, 0);
    } else if y % 100 == 0 {
      DivModUnique(y, 4, (y / 100) * 25, 0);
    }
  }

  /** A year has 365 days, 366 in a leap year. */
  lemma YearLength(y: int)
    ensures DaysBeforeMonth(y, 13) == (if IsLeapYear(y) then 366 else 365)
    ensures DaysBeforeYear(y + 1) == DaysBeforeYear(y) + DaysBeforeMonth(y, 13)
  {
    LeapsStep(y);
  }

  /** The table agrees with the month lengths. */
  lemma MonthStep(y: int, m: int)
    requires 1 <= m <= 12
    ensures DaysBeforeMonth(y, m + 1) == DaysBeforeMonth(y, m) + DaysInMonth(y, m)
  {
  }

  /** The day after has the next day number. */
  lemma NextDayNumber(d: Date)
    requires Valid(d)
    ensures DayNumber(NextDay(d)) == DayNumber(d) + 1
  {
    MonthStep(d.year, d.month);
    if d.day == DaysInMonth(d.year, d.month) && d.month == 12 {
      YearLength(d.year);
    }
  }

  /** The day before has the previous day number. */
  lemma PrevDayNumber(d: Date)
    requires Valid(d)
    ensures DayNumber(PrevDay(d)) == DayNumber(d) - 1
  {
    if d.day == 1 && d.month == 1 {
      YearLength(d.year - 1);
    } else if d.day == 1 {
      MonthStep(d.year, d.month - 1);
    }
  }

  lemma {:induction false} DaysBeforeMonthGrows(y: int, m1: int, m2: int)
    requires 1 <= m1 <= m2 <= 13
    ensures DaysBeforeMonth(y, m1) + 28 * (m2 - m1) <= DaysBeforeMonth(y, m2)
    decreases m2 - m1
  {
    if m1 < m2 {
      DaysBeforeMonthGrows(y, m1, m2 - 1);
      MonthStep(y, m2 - 1);
    }
  }

  lemma {:induction false} DaysBeforeYearGrows(y1: int, y2: int)
    requires y1 <= y2
    ensures DaysBeforeYear(y1) + 365 * (y2 - y1) <= DaysBeforeYear(y2)
    decreases y2 - y1
  {
    if y1 < y2 {
      DaysBeforeYearGrows(y1, y2 - 1);
      YearLength(y2 - 1);
    }
  }

  /** Calendar order: year, then month, then day. */
  predicate Before(a: Date, b: Date) {
    a.year < b.year
    || (a.year == b.year && a.month < b.month)
    || (a.year == b.year && a.month == b.month && a.day < b.day)
  }

  /** Day numbers follow calendar order. */
  lemma BeforeIsSmallerNumber(a: Date, b: Date)
    requires Valid(a) && Valid(b) && Before(a, b)
    ensures DayNumber(a) < DayNumber(b)
  {
    if a.year < b.year {
      EarlierYearSmallerNumber(a, b);
    } else if a.month < b.month {
      EarlierMonthSmallerNumber(a, b);
    }
  }

  lemma EarlierYearSmallerNumber(a: Date, b: Date)
    requires Valid(a) && Valid(b) && a.year < b.year
    ensures DayNumber(a) < DayNumber(b)
  {
    DayNumberBelowNextYear(a);
    DaysBeforeYearGrows(a.year + 1, b.year);
    DayNumberFromYearStart(b);
  }

  lemma EarlierMonthSmallerNumber(a: Date, b: Date)
    requires Valid(a) && Valid(b) && a.year == b.year && a.month < b.month
    ensures DayNumber(a) < DayNumber(b)
  {
    MonthStep(a.year, a.month);
    DaysBeforeMonthGrows(a.year, a.month + 1, b.month);
  }

  /** A valid date's day number lies before the first day of the next year. */
  lemma DayNumberBelowNextYear(a: Date)
    requires Valid(a)
    ensures DayNumber(a) < DaysBeforeYear(a.year + 1)
  {
    MonthStep(a.year, a.month);
    DaysBeforeMonthGrows(a.year, a.month + 1, 13);
    YearLength(a.year);
  }

  /** A valid date's day number lies on or after the first day of its year. */
  lemma DayNumberFromYearStart(b: Date)
    requires Valid(b)
    ensures DaysBeforeYear(b.year) <= DayNumber(b)
  {
    DaysBeforeMonthGrows(b.year, 1, b.month);
  }

  /** Two valid dates with the same day number are the same date. */
  lemma DayNumberInjective(a: Date, b: Date)
    requires Valid(a) && Valid(b) && DayNumber(a) == DayNumber(b)
    ensures a == b
  {
    if Before(a, b) {
      BeforeIsSmallerNumber(a, b);
    } else if Before(b, a) {
      BeforeIsSmallerNumber(b, a);
    }
  }

  /** Comparing day numbers (Date comparison) is comparing in calendar order. */
  lemma DayNumberOrder(a: Date, b: Date)
    requires Valid(a) && Valid(b)
    ensures DayNumber(a) < DayNumber(b) <==> Before(a, b)
    ensures DayNumber(a) == DayNumber(b) <==> a == b
  {
    if Before(a, b) {
      BeforeIsSmallerNumber(a, b);
    } else if Before(b, a) {
      BeforeIsSmallerNumber(b, a);
    }
  }

  /** date.setUTCDate(date.getUTCDate() + k): the date k days later (earlier for a negative k). */
  function AddDays(d: Date, k: int): (r: Date)
    requires Valid(d)
    ensures Valid(r) && DayNumber(r) == DayNumber(d) + k
    decreases if k < 0 then -k else k
  {
    if k == 0 then d
    else if k > 0 then
      NextDayNumber(d);
      AddDays(NextDay(d), k - 1)
    else
      PrevDayNumber(d);
      AddDays(PrevDay(d), k + 1)
  }

  /** Adding days composes: adding j then k is adding j + k. */
  lemma AddDaysAdd(d: Date, j: int, k: int)
    requires Valid(d)
    ensures AddDays(AddDays(d, j), k) == AddDays(d, j + k)
  {
    DayNumberInjective(AddDays(AddDays(d, j), k), AddDays(d, j + k));
  }

  /** The next day is the day one day later. */
  lemma NextIsOneDayLater(d: Date)
    requires Valid(d)
    ensures NextDay(d) == AddDays(d, 1)
  {
    NextDayNumber(d);
    DayNumberInjective(AddDays(d, 1), NextDay(d));
  }

  /** getUTCDay: 0 for Sunday through 6 for Saturday; 1970-01-01 was a Thursday. */
  function Weekday(d: Date): (w: int)
    requires 1 <= d.month <= 12
    ensures 0 <= w < 7
  {
    (DayNumber(d) + 4) % 7
  }

  lemma WeekdayAddDays(d: Date, k: int)
    requires Valid(d)
    ensures Weekday(AddDays(d, k)) == (Weekday(d) + k) % 7
  {
    ModShift7(DayNumber(d) + 4, k);
  }

  lemma ModShift7(n: int, k: int)
    ensures (n + k) % 7 == (n % 7 + k) % 7
  {
    var q := n / 7;
    assert n + k == 7 * q + (n % 7 + k);
  }

  /** `${year}-${MM}-${DD}`: month and day padded to two digits, the year as it renders. */
  function FormatDate(d: Date): string
  {
    IntToString(d.year) + "-" + PadStart2(IntToString(d.month)) + "-" + PadStart2(IntToString(d.day))
  }

  /**
   * Date.UTC(year, monthIndex, day) for integer arguments: a year 0..99 means 1900 + year, an
   * out-of-range month carries into the year, and the day counts on from the first of the month.
   */
  function DateUtc(year: int, monthIndex: int, day: int): (r: Date)
    ensures Valid(r)
  {
    AddDays(FirstOfMonth(UtcYear(year), monthIndex), day - 1)
  }

  /** The year Date.UTC and the Date constructor use: 1900 + year for a year from 0 to 99. */
  function UtcYear(year: int): int
  {
    if 0 <= year <= 99 then 1900 + year else year
  }

  /** Outside year 0, reading a year as Date.UTC does keeps whether it is a leap year. */
  lemma UtcYearLeap(year: int)
    ensures IsLeapYear(UtcYear(year)) <==> IsLeapYear(year) && year != 0
  {
    if 0 < year <= 99 {
      assert (1900 + year) % 4 == year % 4;
      assert (1900 + year) % 100 != 0 && year % 100 != 0;
    }
  }

  /** Day 0 of a month, as Date.UTC counts it, is the day before the first of that month. */
  lemma DayZero(year: int, month: int)
    requires 1 <= month <= 12
    ensures DateUtc(year, month - 1, 0) == PrevDay(Date(UtcYear(year), month, 1))
  {
    var first := Date(UtcYear(year), month, 1);
    assert FirstOfMonth(UtcYear(year), month - 1) == first;
    assert AddDays(first, -1) == AddDays(PrevDay(first), 0);
  }

  /** The first of the month with that index counted from January of the year, 12 to a year. */
  function FirstOfMonth(year: int, monthIndex: int): (r: Date)
    ensures Valid(r)
    ensures 0 <= monthIndex <= 11 ==> r == Date(year, monthIndex + 1, 1)
  {
    var q, m := monthIndex / 12, monthIndex % 12;
    assert 0 <= monthIndex <= 11 ==> q == 0 && m == monthIndex by {
      if 0 <= monthIndex <= 11 {
        DivModUnique(monthIndex, 12, 0, monthIndex);
      }
    }
    Date(year + q, m + 1, 1)
  }

  /**
   * parseYyyyMmDdToDate: split on '-', read each part with Number, and build the date with
   * Date.UTC; a missing or unreadable part gives an invalid date (None).
   */
  function ParseDate(s: string): (r: Option<Date>)
    ensures r.Some? ==> Valid(r.value)
  {
    DateOfParts(Split(s, '-'))
  }

  /**
   * The value of a date input: "YYYY-MM-DD", four digits of year and two each of month and day,
   * zero-padded.
   */
  function DateInputValue(d: Date): (s: string)
    requires 0 <= d.year && 0 <= d.month && 0 <= d.day
    ensures |s| == 10
  {
    FixedDigits(d.year, 4) + "-" + FixedDigits(d.month, 2) + "-" + FixedDigits(d.day, 2)
  }

  /** The shape of the ISO date-only form: digits at every place but the two hyphens. */
  predicate IsIsoShaped(s: string) {
    |s| == 10 && s[4] == '-' && s[7] == '-' && AllDigits(s[..4]) && AllDigits(s[5..7]) && AllDigits(s[8..])
  }

  /**
   * new Date(s) for the ISO date-only form "YYYY-MM-DD": that UTC day, its year read literally
   * (0 to 99 included, unlike Date.UTC); any other text, or a day its month does not have, is an
   * invalid date (None).
   */
  function ParseIsoDate(s: string): (r: Option<Date>)
    ensures r.Some? ==> Valid(r.value) && 0 <= r.value.year <= 9999 && IsIsoShaped(s)
  {
    if IsIsoShaped(s) then
      var d := Date(DigitsValue(s[..4]), DigitsValue(s[5..7]), DigitsValue(s[8..]));
      DigitsValueBelow(s[..4]);
      if Valid(d) then Some(d) else None
    else None
  }

  /** Every date of a year from 0 to 9999 reads back from its date-input value. */
  lemma ParseDateInputValue(d: Date)
    requires Valid(d) && 0 <= d.year <= 9999
    ensures ParseIsoDate(DateInputValue(d)) == Some(d)
  {
    var y, m, dd := FixedDigits(d.year, 4), FixedDigits(d.month, 2), FixedDigits(d.day, 2);
    var s := DateInputValue(d);
    assert s[..4] == y && s[5..7] == m && s[8..] == dd;
    FixedDigitsValue(d.year, 4);
    FixedDigitsValue(d.month, 2);
    FixedDigitsValue(d.day, 2);
  }

  /** Conversely, every text that reads as a date is that date's date-input value. */
  lemma IsoDatesAreDateInputValues(s: string)
    requires ParseIsoDate(s).Some?
    ensures s == DateInputValue(ParseIsoDate(s).value)
  {
    DigitsAreFixed(s[..4]);
    DigitsAreFixed(s[5..7]);
    DigitsAreFixed(s[8..]);
    assert s == s[..4] + "-" + s[5..7] + "-" + s[8..];
  }

  /** The date of the parts of a split text: the first three read as year, month and day. */
  function DateOfParts(parts: seq<string>): (r: Option<Date>)
    ensures r.Some? ==> Valid(r.value)
  {
    if |parts| < 3 then None
    else
      var y, m, d := ToNumber(parts[0]), ToNumber(parts[1]), ToNumber(parts[2]);
      if y.Some? && m.Some? && d.Some? then Some(DateUtc(y.value, m.value - 1, d.value)) else None
  }

  /** A valid date is the day it names counted on from the first of its month. */
  lemma DateUtcOfValid(d: Date)
    requires Valid(d) && !(0 <= d.year <= 99)
    ensures DateUtc(d.year, d.month - 1, d.day) == d
  {
    var first := Date(d.year, d.month, 1);
    DateUtcInYear(d.year, d.month, d.day);
    DayNumberOfDay(d.year, d.month, d.day);
    DayNumberInjective(AddDays(first, d.day - 1), d);
  }

  /** Date.UTC with a month index from 0 to 11 and a year outside 0..99 counts from the first of that month. */
  lemma DateUtcInYear(year: int, month: int, day: int)
    requires 1 <= month <= 12 && !(0 <= year <= 99)
    ensures DateUtc(year, month - 1, day) == AddDays(Date(year, month, 1), day - 1)
  {
  }

  /** The day number of a day of a month is that of the first of the month plus the days after it. */
  lemma DayNumberOfDay(year: int, month: int, day: int)
    requires 1 <= month <= 12
    ensures DayNumber(Date(year, month, day)) == DayNumber(Date(year, month, 1)) + day - 1
  {
  }

  lemma YearReadsBack(y: nat)
    ensures ToNumber(NatToString(y)) == Some(y)
  {
    ToNumberOfDigits(NatToString(y));
    NatToStringValue(y);
  }

  /** Reading the formatted text of a date gives the date back, for years from 100 on. */
  lemma ParseFormatDate(d: Date)
    requires Valid(d) && d.year >= 100
    ensures ParseDate(FormatDate(d)) == Some(d)
  {
    SplitFormatDate(d);
    ParseOfParts(FormatDate(d), d);
  }

  lemma ParseOfParts(s: string, d: Date)
    requires Valid(d) && d.year >= 100
    requires Split(s, '-') == [NatToString(d.year), PadStart2(IntToString(d.month)), PadStart2(IntToString(d.day))]
    ensures ParseDate(s) == Some(d)
  {
    YearReadsBack(d.year);
    PaddedReadsBack(d.month);
    PaddedReadsBack(d.day);
    DateUtcOfValid(d);
    assert DateOfParts(Split(s, '-')) == Some(d);
  }

  /** A date of a non-negative year splits on '-' into its three rendered parts. */
  lemma SplitFormatDate(d: Date)
    requires d.year >= 0 && d.month >= 0 && d.day >= 0
    ensures Split(FormatDate(d), '-')
         == [NatToString(d.year), PadStart2(IntToString(d.month)), PadStart2(IntToString(d.day))]
  {
    var ys := IntToString(d.year);
    var ms := PadStart2(IntToString(d.month));
    var ds := PadStart2(IntToString(d.day));
    NoSeparatorInNumber(d.year, '-');
    PaddedHasNoSeparator(d.month, '-');
    PaddedHasNoSeparator(d.day, '-');
    assert FormatDate(d) == ys + ['-'] + (ms + ['-'] + ds);
    SplitFirst(ys, ms + ['-'] + ds, '-');
    SplitTwo(ms, ds, '-');
  }

  lemma NoSeparatorInNumber(n: nat, sep: char)
    requires !IsDigit(sep)
    ensures sep !in NatToString(n)
  {
    var s := NatToString(n);
    forall i | 0 <= i < |s| ensures s[i] != sep {
      assert IsDigit(s[i]);
    }
  }

  lemma PaddedHasNoSeparator(n: nat, sep: char)
    requires !IsDigit(sep)
    ensures sep !in PadStart2(IntToString(n))
  {
    NoSeparatorInNumber(n, sep);
  }
}
