/**
 * The IVF due date calculator: the due date is a fixed number of days after the embryo transfer
 * (or, for donor eggs, after the egg retrieval), the number depending on the embryo's age at
 * transfer, so that every path lands 266 days after fertilisation.
 *
 * Dates are day numbers (days since 1970-01-01). The picked date reaches the calculation as
 * YYYY-MM-DD text via toISOString, which is read back as a UTC instant and shown in local time;
 * IsoDay, LocalDay and DueDayAsWritten model that round trip for a fixed offset of local time
 * from UTC, in minutes.
 */
module Ivf {
  import opened Wrappers
  import opened Numbers
  import opened Strings

  datatype TransferType = ThreeDay | FiveDay | Donor | Other

  datatype DueDate = DueDate(day: int, calculationMethod: string)

  /** Days from fertilisation to the due date (38 weeks). */
  const GestationDays := 266

  const MinutesPerDay := 1440

  /** The embryo's age in days on the date entered (the retrieval date itself for donor eggs). */
  function EmbryoAge(transferType: TransferType, otherDays: int): (age: int)
    ensures age + DaysToAdd(transferType, otherDays) == GestationDays
    ensures transferType != Other ==> 0 <= age <= 5
  {
    match transferType
    case ThreeDay => 3
    case FiveDay => 5
    case Donor => 0
    case Other => otherDays
  }

  /** The days calculateDueDate adds to the date entered. */
  function DaysToAdd(transferType: TransferType, otherDays: int): (n: int)
    ensures transferType == ThreeDay ==> n == 263
    ensures transferType == FiveDay ==> n == 261
    ensures transferType == Donor ==> n == 266
    ensures transferType == Other ==> n == 266 - otherDays
  {
    match transferType
    case ThreeDay => 263
    case FiveDay => 261
    case Donor => 266
    case Other => 266 - otherDays
  }

  /** The explanation shown under the due date. */
  function MethodText(transferType: TransferType, otherDays: int): string
  {
    match transferType
    case ThreeDay => "Added 263 days to your 3-day embryo transfer date"
    case FiveDay => "Added 261 days to your 5-day embryo transfer date"
    case Donor => "Added 266 days to your egg retrieval date"
    case Other =>
      "Added " + IntToString(266 - otherDays) + " days (266 - " + IntToString(otherDays)
      + ") to your embryo transfer date"
  }

  /**
   * What calculateDueDate leaves on the page: nothing without a date, the due date and its
   * explanation, or the RangeError that format throws for an invalid date.
   */
  datatype Calculation = NoDate | Due(dueDate: DueDate) | InvalidTime

  /**
   * calculateDueDate on the day picked. `otherDays` is parseInt of the days field, None for the
   * NaN of a cleared field; with 'other', addDays of NaN days gives an invalid date, which format
   * rejects. The other transfer types do not read the field.
   */
  function CalculateDueDate(transferDate: Option<int>, transferType: TransferType, otherDays: Option<int>): (r: Calculation)
    ensures r.NoDate? <==> transferDate.None?
    ensures r.InvalidTime? <==> transferDate.Some? && transferType == Other && otherDays.None?
    ensures r.Due? ==> r.dueDate.day == transferDate.value + DaysToAdd(transferType, otherDays.GetOr(0))
    ensures r.Due? ==> r.dueDate.calculationMethod == MethodText(transferType, otherDays.GetOr(0))
  {
    match transferDate
    case None => NoDate
    case Some(d) =>
      if transferType == Other && otherDays.None? then InvalidTime
      else
        var days := otherDays.GetOr(0);
        Due(DueDate(d + DaysToAdd(transferType, days), MethodText(transferType, days)))
  }

  /**
   * Every offset is 266 days less the embryo's age: the due date is 266 days after fertilisation,
   * and the fixed transfer types agree with 'other' given the same number of days.
   */
  lemma DueDateIsGestationAfterFertilisation(transferDate: int, transferType: TransferType, otherDays: int)
    ensures var r := CalculateDueDate(Some(transferDate), transferType, Some(otherDays));
      && r.Due?
      && r.dueDate.day == (transferDate - EmbryoAge(transferType, otherDays)) + GestationDays
      && r.dueDate.day == CalculateDueDate(Some(transferDate), Other, Some(EmbryoAge(transferType, otherDays))).dueDate.day
  {
  }

  /** A cleared days field fails only the 'other' transfer type; the others ignore it. */
  lemma ClearedDaysFieldOnlyFailsOther(transferDate: int, transferType: TransferType)
    ensures CalculateDueDate(Some(transferDate), transferType, None).InvalidTime? <==> transferType == Other
    ensures transferType != Other ==>
      CalculateDueDate(Some(transferDate), transferType, None) == CalculateDueDate(Some(transferDate), transferType, Some(0))
  {
  }

  /** Minutes since the epoch at the start of a day, UTC. */
  function Minutes(day: int): int
  {
    day * MinutesPerDay
  }

  /** The YYYY-MM-DD day that toISOString gives for local midnight of a day. */
  function IsoDay(localDay: int, utcOffset: int): int
  {
    (Minutes(localDay) - utcOffset) / MinutesPerDay
  }

  /** The local day of an instant, as format shows it. */
  function LocalDay(instant: int, utcOffset: int): int
  {
    (instant + utcOffset) / MinutesPerDay
  }

  /**
   * The due day as the page computes it: the picked day goes through toISOString, new Date reads
   * the text as UTC midnight, addDays adds whole days and format shows the local day.
   */
  function DueDayAsWritten(localDay: int, utcOffset: int, transferType: TransferType, otherDays: int): int
  {
    LocalDay(Minutes(IsoDay(localDay, utcOffset) + DaysToAdd(transferType, otherDays)), utcOffset)
  }

  lemma MinutesAdd(a: int, b: int)
    ensures Minutes(a + b) == Minutes(a) + Minutes(b)
    ensures Minutes(a - 1) == Minutes(a) - MinutesPerDay
  {
  }

  /** The local day of UTC midnight of a day, under an offset of less than a day. */
  lemma LocalDayOfUtcMidnight(day: int, utcOffset: int)
    requires -MinutesPerDay < utcOffset < MinutesPerDay
    ensures LocalDay(Minutes(day), utcOffset) == if utcOffset < 0 then day - 1 else day
  {
    if utcOffset < 0 {
      MinutesAdd(day, 0);
      MinutesAdd(day, -1);
      DivModUnique(Minutes(day) + utcOffset, MinutesPerDay, day - 1, MinutesPerDay + utcOffset);
    } else {
      DivModUnique(Minutes(day) + utcOffset, MinutesPerDay, day, utcOffset);
    }
  }

  /** The ISO day of local midnight, under an offset of less than a day. */
  lemma IsoDayOfLocalMidnight(localDay: int, utcOffset: int)
    requires -MinutesPerDay < utcOffset < MinutesPerDay
    ensures IsoDay(localDay, utcOffset) == if utcOffset > 0 then localDay - 1 else localDay
  {
    if utcOffset > 0 {
      MinutesAdd(localDay, -1);
      DivModUnique(Minutes(localDay) - utcOffset, MinutesPerDay, localDay - 1, MinutesPerDay - utcOffset);
    } else {
      DivModUnique(Minutes(localDay) - utcOffset, MinutesPerDay, localDay, -utcOffset);
    }
  }

  /**
   * As written, the due date is one day early everywhere but at UTC: east of UTC toISOString
   * moves local midnight to the previous day, and west of UTC the UTC midnight that new Date
   * reads is shown as the previous local day.
   */
  lemma DueDayAsWrittenIsEarly(localDay: int, utcOffset: int, transferType: TransferType, otherDays: int)
    requires -MinutesPerDay < utcOffset < MinutesPerDay
    ensures DueDayAsWritten(localDay, utcOffset, transferType, otherDays)
         == localDay + DaysToAdd(transferType, otherDays) - (if utcOffset == 0 then 0 else 1)
  {
    IsoDayOfLocalMidnight(localDay, utcOffset);
    LocalDayOfUtcMidnight(IsoDay(localDay, utcOffset) + DaysToAdd(transferType, otherDays), utcOffset);
  }

  /**
   * A 3-day transfer picked on 2024-01-10 (day 19732) two hours east of UTC: the page shows
   * 2024-09-28 (day 19994), where 263 days after the transfer is 2024-09-29 (day 19995).
   */
  lemma EastOfUtcExample()
    ensures DueDayAsWritten(19732, 120, ThreeDay, 0) == 19994
    ensures CalculateDueDate(Some(19732), ThreeDay, Some(0)).dueDate.day == 19995
  {
    DueDayAsWrittenIsEarly(19732, 120, ThreeDay, 0);
  }
}
