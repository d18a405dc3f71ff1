/**
 * The time card's time arithmetic: clock text to minutes, break text ("30m", "1.5h", "1h 15m")
 * to minutes, rounding to an interval, the overnight-aware shift length in hours, "HH:MM"
 * rendering, the week around a date and the list of days in a range.
 */
module TimeUtils {
  import opened Wrappers
  import opened Numbers
  import opened Strings
  import opened Calendar

  const MinutesPerDay := 1440

  /**
   * parseTimeToMinutes: 0 for empty text or text without ':'; otherwise the fields before the
   * first and the second ':' read with Number, as hours * 60 + minutes. None stands for NaN.
   */
  function ParseTimeToMinutes(timeStr: string): (r: Option<int>)
    ensures ':' !in timeStr ==> r == Some(0)
    ensures r.None? <==>
      (':' in timeStr && (ToNumber(Split(timeStr, ':')[0]).None? || ToNumber(Split(timeStr, ':')[1]).None?))
  {
    if timeStr == "" || ':' !in timeStr then Some(0)
    else
      var parts := Split(timeStr, ':');
      ClockMinutes(ToNumber(parts[0]), ToNumber(parts[1]))
  }

  /** The minutes after midnight of h hours and m minutes. */
  function MinutesOf(h: int, m: int): (r: int)
    ensures 0 <= h && 0 <= m ==> 0 <= r
  {
    h * 60 + m
  }

  /** hours * 60 + minutes, NaN when either is NaN. */
  function ClockMinutes(hours: Option<int>, minutes: Option<int>): Option<int>
  {
    if hours.Some? && minutes.Some? then Some(MinutesOf(hours.value, minutes.value)) else None
  }

  /** Text whose first two ':'-separated fields read as h and m is h * 60 + m minutes. */
  lemma ParseOfFields(s: string, h: int, m: int)
    requires var parts := Split(s, ':');
      |parts| >= 2 && ToNumber(parts[0]) == Some(h) && ToNumber(parts[1]) == Some(m)
    ensures ParseTimeToMinutes(s) == Some(MinutesOf(h, m))
  {
    assert s != "" && ':' in s;
  }

  /** Text without ':' (a blank field among it) counts as midnight, 0 minutes. */
  lemma ParseWithoutColon(s: string)
    requires ':' !in s
    ensures ParseTimeToMinutes(s) == Some(0)
  {
  }

  /** The text a time input holds: hours and minutes, each padded to two digits. */
  function ClockText(h: nat, m: nat): string {
    PadStart2(IntToString(h)) + ":" + PadStart2(IntToString(m))
  }

  /** A clock text "HH:MM" is read as HH * 60 + MM. */
  lemma ParseClockText(h: nat, m: nat)
    ensures ParseTimeToMinutes(ClockText(h, m)) == Some(MinutesOf(h, m))
  {
    SplitClockText(h, m);
    ParseOfClockParts(ClockText(h, m), h, m);
  }

  lemma ParseOfClockParts(s: string, h: nat, m: nat)
    requires Split(s, ':') == [PadStart2(IntToString(h)), PadStart2(IntToString(m))]
    ensures ParseTimeToMinutes(s) == Some(MinutesOf(h, m))
  {
    PaddedReadsBack(h);
    PaddedReadsBack(m);
    ParseOfFields(s, h, m);
  }

  lemma SplitClockText(h: nat, m: nat)
    ensures Split(ClockText(h, m), ':') == [PadStart2(IntToString(h)), PadStart2(IntToString(m))]
  {
    PaddedHasNoSeparator(h, ':');
    PaddedHasNoSeparator(m, ':');
    assert ClockText(h, m) == PadStart2(IntToString(h)) + [':'] + PadStart2(IntToString(m));
    SplitTwo(PadStart2(IntToString(h)), PadStart2(IntToString(m)), ':');
  }

  /** JavaScript's % for a positive divisor: the remainder takes the sign of the dividend. */
  function JsRem(a: int, b: int): (r: int)
    requires b > 0
    ensures a >= 0 ==> r == a % b
    ensures a < 0 ==> -b < r <= 0
  {
    if a >= 0 then a % b else -((-a) % b)
  }

  /** formatMinutes without the decimal-hours option: floor(total / 60) and total % 60, padded. */
  function FormatMinutes(total: int): string
  {
    PadStart2(IntToString(total / 60)) + ":" + PadStart2(IntToString(JsRem(total, 60)))
  }

  /** For a non-negative total, the rendering is the clock text of total div 60 and total mod 60. */
  lemma FormatMinutesIsClock(total: nat)
    ensures FormatMinutes(total) == ClockText(total / 60, total % 60)
  {
  }

  /** Reading the rendering of a non-negative number of minutes gives it back. */
  lemma ParseFormatMinutes(total: nat)
    ensures ParseTimeToMinutes(FormatMinutes(total)) == Some(total)
  {
    FormatMinutesIsClock(total);
    ParseClockText(total / 60, total % 60);
    MinutesOfDivMod(total);
  }

  lemma MinutesOfDivMod(total: int)
    ensures MinutesOf(total / 60, total % 60) == total
  {
  }

  /** The longest prefix of white space. */
  function SpacePrefixLength(s: string): (n: nat)
    ensures n <= |s| && forall i :: 0 <= i < n ==> IsSpace(s[i])
    ensures n < |s| ==> !IsSpace(s[n])
  {
    if |s| > 0 && IsSpace(s[0]) then 1 + SpacePrefixLength(s[1..]) else 0
  }

  /** The text starts with `\s*` followed by the unit letter u in either case (the regex's `\s*u` with /i). */
  predicate UnitFollows(s: string, u: char) {
    var n := SpacePrefixLength(s);
    n < |s| && ToLowerChar(s[n]) == u
  }

  /**
   * The capture of /(\d*\.?\d+)\s*h/i tried at position i: a run of digits, optionally a point
   * and a second non-empty run, then optional white space and 'h' or 'H'.
   */
  function HoursTokenAt(s: string, i: nat): (r: Option<(string, string)>)
    requires i <= |s|
  {
    var t := s[i..];
    var whole := DigitPrefix(t);
    var rest := t[|whole|..];
    if |rest| >= 2 && rest[0] == '.' && IsDigit(rest[1]) then
      var fraction := DigitPrefix(rest[1..]);
      if UnitFollows(rest[1 + |fraction|..], 'h') then Some((whole, fraction)) else None
    else if |whole| > 0 && UnitFollows(rest, 'h') then Some((whole, ""))
    else None
  }

  /** The capture of /(\d+)\s*m/i tried at position i. */
  function MinutesTokenAt(s: string, i: nat): (r: Option<string>)
    requires i <= |s|
  {
    var digits := DigitPrefix(s[i..]);
    if |digits| > 0 && UnitFollows(s[i + |digits|..], 'm') then Some(digits) else None
  }

  /** String.prototype.match without /g: the capture at the leftmost position where the regex matches. */
  function FirstHoursToken(s: string, i: nat): Option<(string, string)>
    requires i <= |s| + 1
    decreases |s| + 1 - i
  {
    if i > |s| then None
    else if HoursTokenAt(s, i).Some? then HoursTokenAt(s, i)
    else FirstHoursToken(s, i + 1)
  }

  function FirstMinutesToken(s: string, i: nat): Option<string>
    requires i <= |s| + 1
    decreases |s| + 1 - i
  {
    if i > |s| then None
    else if MinutesTokenAt(s, i).Some? then MinutesTokenAt(s, i)
    else FirstMinutesToken(s, i + 1)
  }

  /** parseFloat of "whole.fraction" (the fraction may be empty). */
  function DecimalValue(whole: string, fraction: string): (v: real)
    requires AllDigits(whole) && AllDigits(fraction)
    ensures v >= 0.0
  {
    PowPositive(10.0, |fraction|);
    DigitsValue(whole) as real + DigitsValue(fraction) as real / Pow(10.0, |fraction|)
  }

  /**
   * parseBreakDeductionToMinutes: 0 for empty text; otherwise the hours figure times 60 plus
   * the minutes figure, each taken from its first match, rounded with Math.round.
   */
  function ParseBreakDeductionToMinutes(breakStr: string): (r: int)
    ensures r >= 0
  {
    if breakStr == "" then 0
    else
      var hours := FirstHoursToken(breakStr, 0);
      var minutes := FirstMinutesToken(breakStr, 0);
      var fromHours := if hours.Some? then HoursTokenFacts(breakStr, 0); DecimalValue(hours.value.0, hours.value.1) * 60.0 else 0.0;
      var fromMinutes := if minutes.Some? then MinutesTokenFacts(breakStr, 0); DigitsValue(minutes.value) else 0;
      Round(fromHours + fromMinutes as real)
  }

  lemma {:induction false} HoursTokenFacts(s: string, i: nat)
    requires i <= |s| + 1
    ensures var t := FirstHoursToken(s, i); t.Some? ==> AllDigits(t.value.0) && AllDigits(t.value.1)
    decreases |s| + 1 - i
  {
    if i <= |s| && HoursTokenAt(s, i).None? {
      HoursTokenFacts(s, i + 1);
    }
  }

  lemma {:induction false} MinutesTokenFacts(s: string, i: nat)
    requires i <= |s| + 1
    ensures var t := FirstMinutesToken(s, i); t.Some? ==> AllDigits(t.value)
    decreases |s| + 1 - i
  {
    if i <= |s| && MinutesTokenAt(s, i).None? {
      MinutesTokenFacts(s, i + 1);
    }
  }

  /** Math.round(totalMinutes / roundTo) * roundTo, or the minutes themselves for interval 0. */
  function RoundMinutes(totalMinutes: int, roundTo: nat): int
  {
    if roundTo == 0 then totalMinutes
    else Round(totalMinutes as real / roundTo as real) * roundTo
  }

  /**
   * Rounding to an interval gives the multiple of the interval nearest to the minutes, a tie
   * (exactly half an interval away) going to the later multiple.
   */
  lemma RoundMinutesNearest(totalMinutes: int, roundTo: nat)
    requires roundTo > 0
    ensures var r := RoundMinutes(totalMinutes, roundTo);
      r % roundTo == 0 && -(roundTo as int) <= 2 * (totalMinutes - r) < roundTo
  {
    var k := roundTo as int;
    RoundOfQuotient(totalMinutes, k);
    var q := (2 * totalMinutes + k) / (2 * k);
    assert 2 * totalMinutes + k == q * (2 * k) + (2 * totalMinutes + k) % (2 * k);
    assert q * (2 * k) == 2 * (q * k);
    MultipleDivisible(q, k);
  }

  /** The nearest multiple with ties going up is the only multiple with that property. */
  lemma NearestMultipleUnique(totalMinutes: int, roundTo: nat, m: int)
    requires roundTo > 0 && m % roundTo == 0 && -(roundTo as int) <= 2 * (totalMinutes - m) < roundTo
    ensures RoundMinutes(totalMinutes, roundTo) == m
  {
    RoundMinutesNearest(totalMinutes, roundTo);
    var r := RoundMinutes(totalMinutes, roundTo);
    var a := r / roundTo;
    var b := m / roundTo;
    DivisibleIsMultiple(r, roundTo);
    DivisibleIsMultiple(m, roundTo);
    assert (a - b) * roundTo == r - m;
    MulAwayFromZero(a - b, roundTo);
  }

  /**
   * The end of the shift in minutes after the start's midnight: a day later when the end is
   * 00:00 and the start is not, or the end is before a start that is not 00:00.
   */
  function EffectiveEndMinutes(startMinutes: int, endMinutes: int): int
  {
    if (endMinutes == 0 && startMinutes > 0) || (endMinutes < startMinutes && startMinutes != 0) then
      endMinutes + MinutesPerDay
    else endMinutes
  }

  /** For two times within a day, the shift lasts (end - start) mod 24 h: an overnight shift wraps. */
  lemma ShiftWrapsAtMidnight(startMinutes: int, endMinutes: int)
    requires 0 <= startMinutes < MinutesPerDay && 0 <= endMinutes < MinutesPerDay
    ensures EffectiveEndMinutes(startMinutes, endMinutes) - startMinutes
         == (endMinutes - startMinutes) % MinutesPerDay
  {
  }

  /** The minutes worked: the wrapped span less the break, never below 0. */
  function WorkedMinutes(startMinutes: int, endMinutes: int, breakMinutes: int): nat
  {
    ClampAtZero(EffectiveEndMinutes(startMinutes, endMinutes) - startMinutes - breakMinutes)
  }

  /** Math.max(0, x). */
  function ClampAtZero(x: int): nat {
    if x < 0 then 0 else x
  }

  /** For times within a day, the minutes worked are the wrapped span less the break. */
  lemma WorkedWithinDay(startMinutes: int, endMinutes: int, breakMinutes: int)
    requires 0 <= startMinutes < MinutesPerDay && 0 <= endMinutes < MinutesPerDay
    ensures WorkedMinutes(startMinutes, endMinutes, breakMinutes)
         == ClampAtZero((endMinutes - startMinutes) % MinutesPerDay - breakMinutes)
  {
    ShiftWrapsAtMidnight(startMinutes, endMinutes);
  }

  /**
   * calculateDurationInHours: the wrapped shift less the break, clamped at 0, rounded to the
   * interval, in hours. None (NaN) when a time field does not read as a number.
   */
  function CalculateDurationInHours(startTime: string, endTime: string, breakDeduction: string, rounding: nat): (r: Option<real>)
    ensures r.Some? <==> ParseTimeToMinutes(startTime).Some? && ParseTimeToMinutes(endTime).Some?
  {
    var startMinutes := ParseTimeToMinutes(startTime);
    var endMinutes := ParseTimeToMinutes(endTime);
    var breakMinutes := ParseBreakDeductionToMinutes(breakDeduction);
    if startMinutes.None? || endMinutes.None? then None
    else Some(RoundMinutes(WorkedMinutes(startMinutes.value, endMinutes.value, breakMinutes), rounding) as real / 60.0)
  }

  lemma DurationOfMinutes(startTime: string, endTime: string, breakDeduction: string, rounding: nat, s: int, e: int)
    requires ParseTimeToMinutes(startTime) == Some(s) && ParseTimeToMinutes(endTime) == Some(e)
    ensures CalculateDurationInHours(startTime, endTime, breakDeduction, rounding)
         == Some(RoundMinutes(WorkedMinutes(s, e, ParseBreakDeductionToMinutes(breakDeduction)), rounding) as real / 60.0)
  {
  }

  /** Rounding a non-negative number of minutes to an interval keeps it non-negative. */
  lemma RoundMinutesNonNegative(totalMinutes: nat, roundTo: nat)
    ensures RoundMinutes(totalMinutes, roundTo) >= 0
  {
    if roundTo > 0 {
      RoundMinutesNearest(totalMinutes, roundTo);
    }
  }

  /** A shift is never negative: the clamp happens before rounding, and rounding keeps 0 at 0. */
  lemma DurationNonNegative(startTime: string, endTime: string, breakDeduction: string, rounding: nat)
    requires CalculateDurationInHours(startTime, endTime, breakDeduction, rounding).Some?
    ensures CalculateDurationInHours(startTime, endTime, breakDeduction, rounding).value >= 0.0
  {
    var s := ParseTimeToMinutes(startTime).value;
    var e := ParseTimeToMinutes(endTime).value;
    DurationOfMinutes(startTime, endTime, breakDeduction, rounding, s, e);
    RoundMinutesNonNegative(WorkedMinutes(s, e, ParseBreakDeductionToMinutes(breakDeduction)), rounding);
  }

  /**
   * For clock texts "HH:MM", the hours are the minutes worked (the wrapped span less the break,
   * see WorkedWithinDay), rounded to the interval, over 60.
   */
  lemma DurationOfClockTimes(sh: nat, sm: nat, eh: nat, em: nat, breakDeduction: string, rounding: nat)
    ensures CalculateDurationInHours(ClockText(sh, sm), ClockText(eh, em), breakDeduction, rounding)
         == Some(RoundMinutes(WorkedMinutes(MinutesOf(sh, sm), MinutesOf(eh, em), ParseBreakDeductionToMinutes(breakDeduction)), rounding) as real / 60.0)
  {
    ParseClockText(sh, sm);
    ParseClockText(eh, em);
    DurationOfMinutes(ClockText(sh, sm), ClockText(eh, em), breakDeduction, rounding, MinutesOf(sh, sm), MinutesOf(eh, em));
  }

  /** A break written as whole minutes, "<n>m", is n minutes. */
  lemma BreakInMinutes(n: nat)
    ensures ParseBreakDeductionToMinutes(NatToString(n) + "m") == n
  {
    var s := NatToString(n) + "m";
    DigitPrefixOfDigits(NatToString(n), "m");
    assert s[0..] == s;
    assert s[|NatToString(n)|..] == "m";
    assert MinutesTokenAt(s, 0) == Some(NatToString(n));
    NatToStringValue(n);
    NoHoursWithoutH(s, 0);
  }

  /** A break written as whole hours, "<n>h", is 60·n minutes. */
  lemma BreakInHours(n: nat)
    ensures ParseBreakDeductionToMinutes(NatToString(n) + "h") == 60 * n
  {
    var ns := NatToString(n);
    var s := ns + "h";
    DigitPrefixOfDigits(ns, "h");
    assert s[0..] == s;
    assert s[|ns|..] == "h";
    assert UnitFollows("h", 'h');
    assert HoursTokenAt(s, 0) == Some((ns, ""));
    forall j | 0 <= j < |s| ensures ToLowerChar(s[j]) != 'm' {
      if j < |ns| {
        assert s[j] == ns[j];
      }
    }
    NoMinutesWithoutM(s, 0);
    NatToStringValue(n);
    assert DecimalValue(ns, "") == n as real;
    assert (n as real) * 60.0 == (60 * n) as real;
  }

  /** A break written as decimal hours, "<whole>.<fraction>h" (the whole part may be empty), is Math.round(hours × 60) minutes. */
  lemma BreakInDecimalHours(whole: string, fraction: string)
    requires AllDigits(whole) && AllDigits(fraction) && |fraction| > 0
    ensures ParseBreakDeductionToMinutes(whole + "." + fraction + "h") == Round(DecimalValue(whole, fraction) * 60.0)
  {
    var s := whole + "." + fraction + "h";
    var rest := "." + fraction + "h";
    assert s == whole + rest && s[0..] == s;
    DigitPrefixOfDigits(whole, rest);
    assert s[|whole|..] == rest;
    DigitPrefixOfDigits(fraction, "h");
    assert rest[1..] == fraction + "h";
    assert rest[1 + |fraction|..] == "h";
    assert UnitFollows("h", 'h');
    assert HoursTokenAt(s, 0) == Some((whole, fraction));
    forall j | 0 <= j < |s| ensures ToLowerChar(s[j]) != 'm' {
      if j < |whole| {
        assert s[j] == whole[j];
      } else if |whole| < j < |whole| + 1 + |fraction| {
        assert s[j] == fraction[j - |whole| - 1];
      }
    }
    NoMinutesWithoutM(s, 0);
  }

  /** A break written as "<h>h <m>m" is h hours and m minutes. */
  lemma BreakInHoursAndMinutes(h: nat, m: nat)
    ensures ParseBreakDeductionToMinutes(NatToString(h) + "h " + NatToString(m) + "m") == 60 * h + m
  {
    var hs, ms := NatToString(h), NatToString(m);
    var s := hs + "h " + ms + "m";
    HoursBeforeMinutes(hs, ms);
    MinutesAfterHours(hs, ms);
    NatToStringValue(h);
    NatToStringValue(m);
    assert DecimalValue(hs, "") == h as real;
    assert (h as real) * 60.0 + m as real == (60 * h + m) as real;
  }

  /** In "<digits>h <digits>m" the hours regex captures the first digits, with no fraction. */
  lemma HoursBeforeMinutes(hs: string, ms: string)
    requires AllDigits(hs) && |hs| > 0
    ensures FirstHoursToken(hs + "h " + ms + "m", 0) == Some((hs, ""))
  {
    var tail := "h " + ms + "m";
    var s := hs + tail;
    assert hs + "h " + ms + "m" == s;
    assert s[0..] == s;
    DigitPrefixOfDigits(hs, tail);
    assert s[|hs|..] == tail;
    assert UnitFollows(tail, 'h');
  }

  /** In "<digits>h <digits>m" the minutes regex captures the second digits. */
  lemma MinutesAfterHours(hs: string, ms: string)
    requires AllDigits(hs) && AllDigits(ms) && |ms| > 0
    ensures FirstMinutesToken(hs + "h " + ms + "m", 0) == Some(ms)
  {
    var tail := "h " + ms + "m";
    var s := hs + tail;
    assert hs + "h " + ms + "m" == s;
    forall i | 0 <= i < |hs| + 2 ensures MinutesTokenAt(s, i).None? {
      NoMinutesBeforeH(hs, tail, i);
    }
    FirstMinutesSkips(s, 0, |hs| + 2);
    assert s == (hs + "h ") + ms + "m";
    MinutesTokenAfter(hs + "h ", ms);
  }

  /** Digits followed by 'm' right after a prefix are a minutes match at the end of the prefix. */
  lemma MinutesTokenAfter(prefix: string, ms: string)
    requires AllDigits(ms) && |ms| > 0
    ensures MinutesTokenAt(prefix + ms + "m", |prefix|) == Some(ms)
  {
    var s := prefix + ms + "m";
    DigitPrefixOfDigits(ms, "m");
    assert s[|prefix|..] == ms + "m";
    assert s[|prefix| + |ms|..] == "m";
    assert UnitFollows("m", 'm');
  }

  /** No position up to the space after the 'h' starts a minutes match. */
  lemma NoMinutesBeforeH(hs: string, tail: string, i: nat)
    requires AllDigits(hs) && |tail| >= 2 && tail[0] == 'h' && tail[1] == ' ' && i < |hs| + 2
    ensures MinutesTokenAt(hs + tail, i).None?
  {
    var s := hs + tail;
    if i < |hs| {
      DigitPrefixOfDigits(hs[i..], tail);
      assert s[i..] == hs[i..] + tail;
      assert s[i + |hs[i..]|..] == tail;
      assert !UnitFollows(tail, 'm');
    } else {
      assert s[i] == tail[i - |hs|];
      assert s[i..][0] == s[i];
    }
  }

  /** The minutes regex skips positions where it does not match. */
  lemma {:induction false} FirstMinutesSkips(s: string, i: nat, j: nat)
    requires i <= j <= |s|
    requires forall k :: i <= k < j ==> MinutesTokenAt(s, k).None?
    ensures FirstMinutesToken(s, i) == FirstMinutesToken(s, j)
    decreases j - i
  {
    if i < j {
      FirstMinutesSkips(s, i + 1, j);
    }
  }

  /** Without an 'm' or 'M' the minutes regex finds nothing. */
  lemma {:induction false} NoMinutesWithoutM(s: string, i: nat)
    requires i <= |s| + 1
    requires forall j :: 0 <= j < |s| ==> ToLowerChar(s[j]) != 'm'
    ensures FirstMinutesToken(s, i).None?
    decreases |s| + 1 - i
  {
    if i <= |s| {
      NoUnitInSuffix(s[i..], |DigitPrefix(s[i..])|, 'm');
      assert s[i..][|DigitPrefix(s[i..])|..] == s[i + |DigitPrefix(s[i..])|..];
      NoMinutesWithoutM(s, i + 1);
    }
  }

  /** Without an 'h' or 'H' the hours regex finds nothing. */
  lemma {:induction false} NoHoursWithoutH(s: string, i: nat)
    requires i <= |s| + 1
    requires forall j :: 0 <= j < |s| ==> ToLowerChar(s[j]) != 'h'
    ensures FirstHoursToken(s, i).None?
    decreases |s| + 1 - i
  {
    if i <= |s| {
      HoursTokenNeedsH(s, i);
      NoHoursWithoutH(s, i + 1);
    }
  }

  lemma HoursTokenNeedsH(s: string, i: nat)
    requires i <= |s|
    requires forall j :: 0 <= j < |s| ==> ToLowerChar(s[j]) != 'h'
    ensures HoursTokenAt(s, i).None?
  {
    var t := s[i..];
    forall j | 0 <= j < |t| ensures ToLowerChar(t[j]) != 'h' {
      assert t[j] == s[i + j];
    }
    var whole := DigitPrefix(t);
    var rest := t[|whole|..];
    NoUnitInSuffix(t, |whole|, 'h');
    if |rest| >= 2 && rest[0] == '.' && IsDigit(rest[1]) {
      var fraction := DigitPrefix(rest[1..]);
      NoUnitInSuffix(t, |whole| + 1 + |fraction|, 'h');
      assert rest[1 + |fraction|..] == t[|whole| + 1 + |fraction|..];
    }
  }

  /** A suffix of text without the unit letter does not start with `\s*` and that letter. */
  lemma NoUnitInSuffix(t: string, k: nat, u: char)
    requires k <= |t| && forall j :: 0 <= j < |t| ==> ToLowerChar(t[j]) != u
    ensures !UnitFollows(t[k..], u)
  {
    var r := t[k..];
    var n := SpacePrefixLength(r);
    if n < |r| {
      assert r[n] == t[k + n];
    }
  }

  /** How many days back the week containing a day of weekday w starts, for first weekday f. */
  function DaysBackToWeekStart(w: int, f: int): (back: int)
    ensures 0 <= w < 7 && 0 <= f < 7 ==> 0 <= back < 7 && (w - back) % 7 == f
  {
    var diff := w - f;
    if diff < 0 then diff + 7 else diff
  }

  /** getWeekStartDate on a date: back to the nearest earlier (or same) day with the first weekday. */
  function WeekStart(d: Date, firstDayOfWeek: int): Date
    requires Valid(d)
  {
    AddDays(d, -DaysBackToWeekStart(Weekday(d), firstDayOfWeek))
  }

  /** getWeekEndDate: six days after the week's start. */
  function WeekEnd(d: Date, firstDayOfWeek: int): Date
    requires Valid(d)
  {
    AddDays(WeekStart(d, firstDayOfWeek), 6)
  }

  /**
   * For a first weekday 0..6, the week start falls on that weekday, on or before the date and
   * less than a week before it.
   */
  lemma WeekStartIsLatestFirstDay(d: Date, firstDayOfWeek: int)
    requires Valid(d) && 0 <= firstDayOfWeek < 7
    ensures var s := WeekStart(d, firstDayOfWeek);
      Weekday(s) == firstDayOfWeek && DayNumber(s) <= DayNumber(d) < DayNumber(s) + 7
  {
    StepBackToWeekday(DayNumber(d), firstDayOfWeek);
  }

  /** Stepping back DaysBackToWeekStart days from day number n lands on weekday f. */
  lemma StepBackToWeekday(n: int, f: int)
    requires 0 <= f < 7
    ensures var back := DaysBackToWeekStart((n + 4) % 7, f);
      0 <= back < 7 && (n - back + 4) % 7 == f
  {
    var w := (n + 4) % 7;
    var back := DaysBackToWeekStart(w, f);
    ModShift7(n + 4, -back);
  }

  /** The week end is six days after the week start, so the date lies between the two. */
  lemma WeekEndAfterDate(d: Date, firstDayOfWeek: int)
    requires Valid(d) && 0 <= firstDayOfWeek < 7
    ensures DayNumber(WeekEnd(d, firstDayOfWeek)) == DayNumber(WeekStart(d, firstDayOfWeek)) + 6
    ensures DayNumber(WeekStart(d, firstDayOfWeek)) <= DayNumber(d) <= DayNumber(WeekEnd(d, firstDayOfWeek))
  {
    WeekStartIsLatestFirstDay(d, firstDayOfWeek);
  }

  /** No later day up to the date has the first weekday, so the start is the latest such day. */
  lemma WeekStartLatest(d: Date, firstDayOfWeek: int, c: Date)
    requires Valid(d) && Valid(c) && 0 <= firstDayOfWeek < 7
    requires DayNumber(WeekStart(d, firstDayOfWeek)) < DayNumber(c) <= DayNumber(d)
    ensures Weekday(c) != firstDayOfWeek
  {
    WeekStartIsLatestFirstDay(d, firstDayOfWeek);
    WeekdaysWithinWeek(DayNumber(WeekStart(d, firstDayOfWeek)), DayNumber(c));
  }

  /** Two day numbers less than a week apart fall on different weekdays. */
  lemma WeekdaysWithinWeek(m: int, n: int)
    requires m < n < m + 7
    ensures (m + 4) % 7 != (n + 4) % 7
  {
    ModShift7(m + 4, n - m);
  }

  /** Array.from({ length: n }, (_, i) => f(i)). */
  function Tabulate<T>(f: nat -> T, n: nat): (r: seq<T>)
    ensures |r| == n
  {
    if n == 0 then [] else Tabulate(f, n - 1) + [f(n - 1)]
  }

  lemma {:induction false} TabulateAt<T>(f: nat -> T, n: nat, i: nat)
    requires i < n
    ensures Tabulate(f, n)[i] == f(i)
  {
    if i < n - 1 {
      TabulateAt(f, n - 1, i);
    }
  }

  /** The start moved on by i days (the start itself when it is not a valid date). */
  function DayAfter(start: Date, i: nat): Date {
    if Valid(start) then AddDays(start, i) else start
  }

  /** The text of the i-th day counted from the start. */
  function DayTexts(start: Date): nat -> string {
    (i: nat) => FormatDate(DayAfter(start, i))
  }

  /**
   * The formatted days from the start to the end inclusive, one per day; nothing when the start
   * is after the end.
   */
  function IntervalDays(startDate: Date, endDate: Date): (days: seq<string>)
    requires Valid(startDate) && Valid(endDate)
    ensures |days| == if DayNumber(startDate) <= DayNumber(endDate) then DayNumber(endDate) - DayNumber(startDate) + 1 else 0
  {
    Tabulate(DayTexts(startDate),
      if DayNumber(startDate) <= DayNumber(endDate) then DayNumber(endDate) - DayNumber(startDate) + 1 else 0)
  }

  /** eachDayOfInterval. */
  method EachDayOfInterval(startDate: Date, endDate: Date) returns (dates: seq<string>)
    requires Valid(startDate) && Valid(endDate)
    ensures dates == IntervalDays(startDate, endDate)
  {
    dates := [];
    var currentDate := startDate;
    while DayNumber(currentDate) <= DayNumber(endDate)
      invariant Valid(currentDate) && currentDate == AddDays(startDate, |dates|)
      invariant DayNumber(currentDate) == DayNumber(startDate) + |dates|
      invariant |dates| == 0 || DayNumber(currentDate) <= DayNumber(endDate) + 1
      invariant dates == Tabulate(DayTexts(startDate), |dates|)
      decreases DayNumber(endDate) - DayNumber(currentDate)
    {
      NextFormattedDay(startDate, |dates|, currentDate, dates);
      dates := dates + [FormatDate(currentDate)];
      currentDate := NextDay(currentDate);
    }
  }

  /** One step of eachDayOfInterval: the current day's text is the next entry, then a day passes. */
  lemma NextFormattedDay(startDate: Date, n: nat, currentDate: Date, dates: seq<string>)
    requires Valid(startDate) && currentDate == AddDays(startDate, n)
    requires dates == Tabulate(DayTexts(startDate), n)
    ensures Valid(NextDay(currentDate)) && NextDay(currentDate) == AddDays(startDate, n + 1)
    ensures DayNumber(NextDay(currentDate)) == DayNumber(currentDate) + 1
    ensures dates + [FormatDate(currentDate)] == Tabulate(DayTexts(startDate), n + 1)
  {
    NextIsOneDayLater(currentDate);
    AddDaysAdd(startDate, n, 1);
  }

  /** Every day of the interval appears, in order: the i-th text is the start plus i days. */
  lemma EachDayAt(startDate: Date, endDate: Date, i: nat)
    requires Valid(startDate) && Valid(endDate) && i < |IntervalDays(startDate, endDate)|
    ensures IntervalDays(startDate, endDate)[i] == FormatDate(AddDays(startDate, i))
  {
    TabulateAt(DayTexts(startDate), |IntervalDays(startDate, endDate)|, i);
  }
}
