/**
 * calculatePayroll: each entry's hours come from calculateDurationInHours; the hours are split into
 * regular and overtime hours per day ('daily'), over the whole period ('weekly') or not at all
 * ('none' and anything else); then pay is regular hours at the base rate plus overtime hours at
 * the rate times the multiplier.
 *
 * JavaScript numbers that can be NaN are `Option<real>` (None is NaN). NaN is falsy, so
 * `x || 0` turns it into 0; it propagates through `+`, `-` and `*`; `NaN > t` is false.
 */
module Payroll {
  import opened Wrappers
  import opened Numbers
  import opened TimeUtils
  import opened TimeEntries

  datatype OvertimeType = NoOvertime | DailyOvertime | WeeklyOvertime

  datatype PayrollSummary = PayrollSummary(
    totalHours: Option<real>,
    regularHours: Option<real>,
    overtimeHours: Option<real>,
    basePay: Option<real>,
    overtimePay: Option<real>,
    totalPay: Option<real>)

  /** `a + b` on numbers that may be NaN. */
  function Plus(a: Option<real>, b: Option<real>): (r: Option<real>)
    ensures r.Some? <==> a.Some? && b.Some?
  {
    if a.Some? && b.Some? then Some(a.value + b.value) else None
  }

  /** `a * b` on numbers that may be NaN. */
  function Times(a: Option<real>, b: real): (r: Option<real>)
    ensures r.Some? <==> a.Some?
  {
    if a.Some? then Some(a.value * b) else None
  }

  /** `parseFloat(s) || fallback`: NaN and 0 are falsy and give the fallback. */
  function OrElse(parsed: Option<real>, fallback: real): (r: real)
    ensures parsed.Some? && parsed.value != 0.0 ==> r == parsed.value
    ensures parsed.None? || parsed.value == 0.0 ==> r == fallback
  {
    if parsed.Some? && parsed.value != 0.0 then parsed.value else fallback
  }

  /** The hours of one entry, with the chosen minute rounding. */
  function EntryHours(e: TimeEntry, rounding: nat): Option<real>
  {
    CalculateDurationInHours(e.startTime, e.endTime, e.breakDeduction, rounding)
  }

  /** The hours of every entry, in order. */
  function HoursOf(entries: seq<TimeEntry>, rounding: nat): (hs: seq<Option<real>>)
    ensures |hs| == |entries|
    ensures forall i :: 0 <= i < |entries| ==> hs[i] == EntryHours(entries[i], rounding)
  {
    seq(|entries|, i requires 0 <= i < |entries| => EntryHours(entries[i], rounding))
  }

  /** The dates of every entry, in order. */
  function DatesOf(entries: seq<TimeEntry>): (ds: seq<string>)
    ensures |ds| == |entries|
    ensures forall i :: 0 <= i < |entries| ==> ds[i] == entries[i].date
  {
    seq(|entries|, i requires 0 <= i < |entries| => entries[i].date)
  }

  /** The reduce `(sum, h) => sum + h` from 0. */
  function Sum(hs: seq<Option<real>>): Option<real>
  {
    if |hs| == 0 then Some(0.0) else Plus(Sum(hs[..|hs| - 1]), hs[|hs| - 1])
  }

  /** `dailyHoursMap.get(date) || 0`: a missing day and a NaN day both read as 0. */
  function StoredOrZero(totals: map<string, Option<real>>, date: string): real
  {
    if date in totals && totals[date].Some? then totals[date].value else 0.0
  }

  /** The day map after the forEach over the entries' dates and hours. */
  function DayTotals(ds: seq<string>, hs: seq<Option<real>>): (totals: map<string, Option<real>>)
    requires |ds| == |hs|
    ensures totals.Keys == set i | 0 <= i < |ds| :: ds[i]
  {
    if |ds| == 0 then map[]
    else
      var totals := DayTotals(ds[..|ds| - 1], hs[..|hs| - 1]);
      var d := ds[|ds| - 1];
      totals[d := Plus(Some(StoredOrZero(totals, d)), hs[|hs| - 1])]
  }

  /** The map's keys in insertion order: each date at its first appearance. */
  function FirstOccurrences(ds: seq<string>): (keys: seq<string>)
    ensures forall d :: d in keys <==> d in ds
    ensures Distinct(keys)
  {
    if |ds| == 0 then []
    else
      var keys := FirstOccurrences(ds[..|ds| - 1]);
      var d := ds[|ds| - 1];
      assert forall x :: x in ds <==> x in ds[..|ds| - 1] || x == d;
      if d in keys then keys else keys + [d]
  }

  predicate Distinct(keys: seq<string>)
  {
    forall i, j :: 0 <= i < j < |keys| ==> keys[i] != keys[j]
  }

  /** The regular and overtime contributions of the days, in key order. */
  function SplitDays(keys: seq<string>, totals: map<string, Option<real>>, threshold: real): (Option<real>, Option<real>)
    requires forall k :: k in keys ==> k in totals
  {
    if |keys| == 0 then (Some(0.0), Some(0.0))
    else
      var (regular, overtime) := SplitDays(keys[..|keys| - 1], totals, threshold);
      var day := totals[keys[|keys| - 1]];
      if day.Some? && day.value > threshold then
        (Plus(regular, Some(threshold)), Plus(overtime, Some(day.value - threshold)))
      else
        (Plus(regular, day), overtime)
  }

  /** The specification of calculatePayroll's hours: (regular, overtime). */
  function SplitHours(ds: seq<string>, hs: seq<Option<real>>, overtimeType: OvertimeType, daily: real, weekly: real): (Option<real>, Option<real>)
    requires |ds| == |hs|
  {
    match overtimeType
    case DailyOvertime => SplitDays(FirstOccurrences(ds), DayTotals(ds, hs), daily)
    case WeeklyOvertime =>
      var total := Sum(hs);
      if total.Some? && total.value > weekly then (Some(weekly), Some(total.value - weekly))
      else (total, Some(0.0))
    case NoOvertime => (Sum(hs), Some(0.0))
  }

  /** The summary built from the two hour totals and the three settings read with their fallbacks. */
  function Summary(regular: Option<real>, overtime: Option<real>, rate: real, multiplier: real): (s: PayrollSummary)
    ensures s.totalHours == Plus(regular, overtime)
    ensures s.regularHours == regular && s.overtimeHours == overtime
    ensures s.basePay == Times(regular, rate)
    ensures s.overtimePay == Times(Times(overtime, rate), multiplier)
    ensures s.totalPay == Plus(s.basePay, s.overtimePay)
  {
    var basePay := Times(regular, rate);
    var overtimePay := Times(Times(overtime, rate), multiplier);
    PayrollSummary(Plus(regular, overtime), regular, overtime, basePay, overtimePay, Plus(basePay, overtimePay))
  }

  /**
   * calculatePayroll. The four settings are the parseFloat readings of their text fields (None
   * for NaN); a NaN or zero setting falls back to 0 (rate), 8 (daily), 40 (weekly) or 1.5.
   */
  method CalculatePayroll(
    timeEntries: seq<TimeEntry>, rounding: nat, basePayRate: Option<real>, overtimeType: OvertimeType,
    dailyOtThreshold: Option<real>, weeklyOtThreshold: Option<real>, otRateMultiplier: Option<real>)
    returns (summary: PayrollSummary)
    ensures var split := SplitHours(DatesOf(timeEntries), HoursOf(timeEntries, rounding), overtimeType,
                                    OrElse(dailyOtThreshold, 8.0), OrElse(weeklyOtThreshold, 40.0));
            summary == Summary(split.0, split.1, OrElse(basePayRate, 0.0), OrElse(otRateMultiplier, 1.5))
  {
    var rate := OrElse(basePayRate, 0.0);
    var daily := OrElse(dailyOtThreshold, 8.0);
    var weekly := OrElse(weeklyOtThreshold, 40.0);
    var multiplier := OrElse(otRateMultiplier, 1.5);
    var hours := HoursOf(timeEntries, rounding);
    var dates := DatesOf(timeEntries);
    var regular, overtime := SplitPayrollHours(dates, hours, overtimeType, daily, weekly);
    summary := Summary(regular, overtime, rate, multiplier);
  }

  /** The branch on the overtime type that splits the hours into regular and overtime. */
  method SplitPayrollHours(dates: seq<string>, hours: seq<Option<real>>, overtimeType: OvertimeType, daily: real, weekly: real)
    returns (regular: Option<real>, overtime: Option<real>)
    requires |dates| == |hours|
    ensures (regular, overtime) == SplitHours(dates, hours, overtimeType, daily, weekly)
  {
    regular, overtime := Some(0.0), Some(0.0);
    if overtimeType == DailyOvertime {
      var totals, keys := DailyHoursMap(dates, hours);
      regular, overtime := SplitDailyHours(keys, totals, daily);
    } else if overtimeType == WeeklyOvertime {
      var total := SumHours(hours);
      if total.Some? && total.value > weekly {
        overtime := Some(total.value - weekly);
        regular := Some(weekly);
      } else {
        regular := total;
      }
    } else {
      regular := SumHours(hours);
    }
  }

  /** The reduce over the hours. */
  method SumHours(hs: seq<Option<real>>) returns (total: Option<real>)
    ensures total == Sum(hs)
  {
    total := Some(0.0);
    for i := 0 to |hs|
      invariant total == Sum(hs[..i])
    {
      assert hs[..i + 1][..i] == hs[..i];
      total := Plus(total, hs[i]);
    }
    assert hs[..|hs|] == hs;
  }

  /** The forEach that fills dailyHoursMap; `keys` is the map's insertion order. */
  method DailyHoursMap(ds: seq<string>, hs: seq<Option<real>>) returns (totals: map<string, Option<real>>, keys: seq<string>)
    requires |ds| == |hs|
    ensures totals == DayTotals(ds, hs) && keys == FirstOccurrences(ds)
  {
    totals := map[];
    keys := [];
    for i := 0 to |ds|
      invariant totals == DayTotals(ds[..i], hs[..i]) && keys == FirstOccurrences(ds[..i])
    {
      assert ds[..i + 1][..i] == ds[..i] && hs[..i + 1][..i] == hs[..i];
      var d := ds[i];
      if d !in keys {
        keys := keys + [d];
      }
      totals := totals[d := Plus(Some(StoredOrZero(totals, d)), hs[i])];
    }
    assert ds[..|ds|] == ds && hs[..|hs|] == hs;
  }

  /** The forEach over dailyHoursMap that accumulates regular and overtime hours. */
  method SplitDailyHours(keys: seq<string>, totals: map<string, Option<real>>, threshold: real)
    returns (regular: Option<real>, overtime: Option<real>)
    requires forall k :: k in keys ==> k in totals
    ensures (regular, overtime) == SplitDays(keys, totals, threshold)
  {
    regular, overtime := Some(0.0), Some(0.0);
    for i := 0 to |keys|
      invariant (regular, overtime) == SplitDays(keys[..i], totals, threshold)
    {
      assert keys[..i + 1][..i] == keys[..i];
      var dailyTotalHours := totals[keys[i]];
      if dailyTotalHours.Some? && dailyTotalHours.value > threshold {
        overtime := Plus(overtime, Some(dailyTotalHours.value - threshold));
        regular := Plus(regular, Some(threshold));
      } else {
        regular := Plus(regular, dailyTotalHours);
      }
    }
    assert keys[..|keys|] == keys;
  }

  // ---------------------------------------------------------------------------------------------
  // Properties, for entries whose hours are all numbers.

  predicate AllDefined(hs: seq<Option<real>>)
  {
    forall i :: 0 <= i < |hs| ==> hs[i].Some?
  }

  /** The real sum of the hours. */
  function Total(hs: seq<Option<real>>): real
  {
    if |hs| == 0 then 0.0 else Total(hs[..|hs| - 1]) + hs[|hs| - 1].GetOr(0.0)
  }

  /** The real sum of the hours of the entries on one day. */
  function DaySum(ds: seq<string>, hs: seq<Option<real>>, d: string): real
    requires |ds| == |hs|
  {
    if |ds| == 0 then 0.0
    else DaySum(ds[..|ds| - 1], hs[..|hs| - 1], d) + (if ds[|ds| - 1] == d then hs[|hs| - 1].GetOr(0.0) else 0.0)
  }

  /** With no NaN hours, the reduce is a number: the sum of the hours. */
  lemma {:induction false} SumOfDefined(hs: seq<Option<real>>)
    requires AllDefined(hs)
    ensures Sum(hs) == Some(Total(hs))
  {
    if |hs| > 0 {
      SumOfDefined(hs[..|hs| - 1]);
    }
  }

  /** With no NaN hours, the map holds, for every day, the sum of that day's hours. */
  lemma {:induction false} DayTotalsOfDefined(ds: seq<string>, hs: seq<Option<real>>)
    requires |ds| == |hs| && AllDefined(hs)
    ensures forall d :: d in DayTotals(ds, hs) ==> DayTotals(ds, hs)[d] == Some(DaySum(ds, hs, d))
  {
    if |ds| > 0 {
      var ds', hs' := ds[..|ds| - 1], hs[..|hs| - 1];
      DayTotalsOfDefined(ds', hs');
      forall d | d !in DayTotals(ds', hs') ensures DaySum(ds', hs', d) == 0.0 {
        DaySumOfAbsent(ds', hs', d);
      }
    }
  }

  /** A day with no entry has no hours. */
  lemma {:induction false} DaySumOfAbsent(ds: seq<string>, hs: seq<Option<real>>, d: string)
    requires |ds| == |hs| && d !in ds
    ensures DaySum(ds, hs, d) == 0.0
  {
    if |ds| > 0 {
      DaySumOfAbsent(ds[..|ds| - 1], hs[..|hs| - 1], d);
    }
  }

  /** The sum over a list of days of each day's hours. */
  function KeysTotal(keys: seq<string>, ds: seq<string>, hs: seq<Option<real>>): real
    requires |ds| == |hs|
  {
    if |keys| == 0 then 0.0 else KeysTotal(keys[..|keys| - 1], ds, hs) + DaySum(ds, hs, keys[|keys| - 1])
  }

  /** One more entry on day d adds its hours to the total of any list of distinct days holding d. */
  lemma {:induction false} KeysTotalStep(keys: seq<string>, ds: seq<string>, hs: seq<Option<real>>, d: string, h: Option<real>)
    requires |ds| == |hs| && Distinct(keys)
    ensures KeysTotal(keys, ds + [d], hs + [h]) == KeysTotal(keys, ds, hs) + (if d in keys then h.GetOr(0.0) else 0.0)
  {
    if |keys| > 0 {
      var keys' := keys[..|keys| - 1];
      assert Distinct(keys');
      KeysTotalStep(keys', ds, hs, d, h);
      assert (ds + [d])[..|ds + [d]| - 1] == ds && (hs + [h])[..|hs + [h]| - 1] == hs;
      assert d in keys <==> d in keys' || d == keys[|keys| - 1];
      assert d == keys[|keys| - 1] ==> d !in keys';
    }
  }

  /** Summed day by day in the map's key order, the days' hours are all the hours. */
  lemma {:induction false} DaysCoverAllHours(ds: seq<string>, hs: seq<Option<real>>)
    requires |ds| == |hs|
    ensures KeysTotal(FirstOccurrences(ds), ds, hs) == Total(hs)
  {
    if |ds| > 0 {
      var ds', hs' := ds[..|ds| - 1], hs[..|hs| - 1];
      var d, h := ds[|ds| - 1], hs[|hs| - 1];
      assert ds == ds' + [d] && hs == hs' + [h];
      DaysCoverAllHours(ds', hs');
      var keys' := FirstOccurrences(ds');
      KeysTotalStep(keys', ds', hs', d, h);
      if d !in keys' {
        DaySumOfAbsent(ds', hs', d);
      }
    }
  }

  /** The regular hours contributed day by day: each day up to the threshold. */
  function DailyRegular(keys: seq<string>, ds: seq<string>, hs: seq<Option<real>>, threshold: real): real
    requires |ds| == |hs|
  {
    if |keys| == 0 then 0.0
    else DailyRegular(keys[..|keys| - 1], ds, hs, threshold) + Min(DaySum(ds, hs, keys[|keys| - 1]), threshold)
  }

  /** The overtime hours contributed day by day: each day's excess over the threshold. */
  function DailyExcess(keys: seq<string>, ds: seq<string>, hs: seq<Option<real>>, threshold: real): real
    requires |ds| == |hs|
  {
    if |keys| == 0 then 0.0
    else DailyExcess(keys[..|keys| - 1], ds, hs, threshold) + Max(DaySum(ds, hs, keys[|keys| - 1]) - threshold, 0.0)
  }

  /** Day by day, regular plus overtime is the day's hours. */
  lemma {:induction false} DailyPartsAddUp(keys: seq<string>, ds: seq<string>, hs: seq<Option<real>>, threshold: real)
    requires |ds| == |hs|
    ensures DailyRegular(keys, ds, hs, threshold) + DailyExcess(keys, ds, hs, threshold) == KeysTotal(keys, ds, hs)
  {
    if |keys| > 0 {
      DailyPartsAddUp(keys[..|keys| - 1], ds, hs, threshold);
    }
  }

  /** With no NaN hours, the daily split gives each day min(day, threshold) and the excess. */
  lemma {:induction false} SplitDaysOfDefined(
    keys: seq<string>, ds: seq<string>, hs: seq<Option<real>>, totals: map<string, Option<real>>, threshold: real)
    requires |ds| == |hs|
    requires forall k :: k in keys ==> k in totals && totals[k] == Some(DaySum(ds, hs, k))
    ensures SplitDays(keys, totals, threshold)
         == (Some(DailyRegular(keys, ds, hs, threshold)), Some(DailyExcess(keys, ds, hs, threshold)))
  {
    if |keys| > 0 {
      SplitDaysOfDefined(keys[..|keys| - 1], ds, hs, totals, threshold);
    }
  }

  /** With no NaN hours, the map holds each listed day's sum of hours. */
  lemma KeysOfDefined(ds: seq<string>, hs: seq<Option<real>>)
    requires |ds| == |hs| && AllDefined(hs)
    ensures forall k :: k in FirstOccurrences(ds) ==>
      k in DayTotals(ds, hs) && DayTotals(ds, hs)[k] == Some(DaySum(ds, hs, k))
  {
    DayTotalsOfDefined(ds, hs);
    forall k | k in FirstOccurrences(ds) ensures k in DayTotals(ds, hs) {
      var i :| 0 <= i < |ds| && ds[i] == k;
    }
  }

  /**
   * With no NaN hours, every overtime mode keeps all the hours: regular plus overtime is the sum
   * of the entries' hours, and neither is NaN.
   */
  lemma HoursAreKept(ds: seq<string>, hs: seq<Option<real>>, overtimeType: OvertimeType, daily: real, weekly: real)
    requires |ds| == |hs| && AllDefined(hs)
    ensures var (regular, overtime) := SplitHours(ds, hs, overtimeType, daily, weekly);
            regular.Some? && overtime.Some? && regular.value + overtime.value == Total(hs)
  {
    SumOfDefined(hs);
    if overtimeType == DailyOvertime {
      var keys := FirstOccurrences(ds);
      KeysOfDefined(ds, hs);
      SplitDaysOfDefined(keys, ds, hs, DayTotals(ds, hs), daily);
      DailyPartsAddUp(keys, ds, hs, daily);
      DaysCoverAllHours(ds, hs);
    }
  }

  /** 'weekly': regular = min(total, threshold) and overtime = max(0, total - threshold). */
  lemma WeeklySplit(ds: seq<string>, hs: seq<Option<real>>, weekly: real, daily: real)
    requires |ds| == |hs| && AllDefined(hs)
    ensures SplitHours(ds, hs, WeeklyOvertime, daily, weekly)
         == (Some(Min(Total(hs), weekly)), Some(Max(Total(hs) - weekly, 0.0)))
  {
    SumOfDefined(hs);
  }

  /** 'none': every hour is regular and there is no overtime. */
  lemma NoOvertimeSplit(ds: seq<string>, hs: seq<Option<real>>, weekly: real, daily: real)
    requires |ds| == |hs| && AllDefined(hs)
    ensures SplitHours(ds, hs, NoOvertime, daily, weekly) == (Some(Total(hs)), Some(0.0))
  {
    SumOfDefined(hs);
  }

  /** 'daily': each day in the map contributes min(day, threshold) regular and the excess as overtime. */
  lemma DailySplit(ds: seq<string>, hs: seq<Option<real>>, weekly: real, daily: real)
    requires |ds| == |hs| && AllDefined(hs)
    ensures SplitHours(ds, hs, DailyOvertime, daily, weekly)
         == (Some(DailyRegular(FirstOccurrences(ds), ds, hs, daily)), Some(DailyExcess(FirstOccurrences(ds), ds, hs, daily)))
  {
    KeysOfDefined(ds, hs);
    SplitDaysOfDefined(FirstOccurrences(ds), ds, hs, DayTotals(ds, hs), daily);
  }

  /** An empty or zero threshold text reads as the default: 8 hours a day, 40 a week, 1.5 times. */
  lemma SettingsFallBack()
    ensures OrElse(None, 8.0) == 8.0 && OrElse(Some(0.0), 40.0) == 40.0 && OrElse(None, 1.5) == 1.5
    ensures OrElse(None, 0.0) == 0.0 && OrElse(Some(12.5), 0.0) == 12.5
  {
  }

  /**
   * A NaN day total is forgotten by the next entry of the same day, because `NaN || 0` is 0:
   * the day then counts only the entries after the NaN one.
   */
  lemma NaNDayIsReset(d: string, later: real)
    ensures DayTotals([d, d], [None, Some(later)])[d] == Some(later)
  {
    assert [d, d][..1] == [d] && [None, Some(later)][..1] == [None];
    var none: seq<Option<real>> := [];
    assert [d][..0] == [] && [None][..0] == none;
  }
}
