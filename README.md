# calcx calculators in Dafny

calcx is a website of small calculators. This project models the computations behind them:
- the rounding calculator;
- the time card (clock arithmetic, the week and day lists, the entry list and payroll);
- conduit fill;
- the payment and land loan schedules;
- the Roth IRA, CD and Coast FIRE projections;
- the chronological age, period and IVF due date calculators;
- the era converter;
- the AP English Language score, ACFT body fat, asphalt mass and dew point calculators;
- the scientific calculator's keypad;
- the home page's calculator search.

Each source file is a Dafny module:

| module | file | calculator |
|---|---|---|
| `Rounding`, `RoundingProperties`, `RoundingDisplay`, `MixedFractions` | rounding.dfy, roundingproperties.dfy, roundingdisplay.dfy, mixedfractions.dfy | rounding calculator: roundNumber's nine modes, the precision selector, the whole/fraction/mixed display |
| `TimeUtils` | timeutils.dfy | time card arithmetic: clock and break texts, rounding to an interval, shift length, week start and end, days of an interval |
| `Payroll` | payroll.dfy | calculatePayroll: daily, weekly or no overtime; regular and overtime pay |
| `TimeEntries`, `TimeCard` | timeentries.dfy, timecard.dfy | the time card's rows and handlers (a class), the sorted list shown, the placeholder days, the summary |
| `ConduitFill` | conduitfill.dfy | the conduit and conductor tables and calculateConduitFill |
| `Payment` | payment.dfy | equal-payment amortization and the payoff schedule for a chosen payment |
| `LandLoan`, `LoanAmortizationTable` | landloan.dfy, amortizationtable.dfy | land loan schedules (equal payments or fixed principal), the table's labels and collapsed rows |
| `RothIra` | rothira.dfy | Roth and taxable balances year by year |
| `Cd` | cd.dfy | certificate of deposit with taxed interest |
| `CoastFire` | coastfire.dfy | the Coast FIRE number and the projection chart's data |
| `ChronologicalAge` | chronologicalage.dfy | age in years, months, weeks and days, and the totals |
| `Period` | period.dfy | the next cycles with ovulation and fertile window |
| `Ivf` | ivf.dfy | the IVF due date for each transfer type |
| `Era` | era.dfy | years between CE, BCE, Hijri, Hebrew and Buddhist eras, and the Japanese eras |
| `ApLang` | aplang.dfy | the AP English Language composite score and AP score |
| `Acft` | acft.dfy | the Army body-fat limits and the pass/fail verdict |
| `Asphalt` | asphalt.dfy | the asphalt mass in short tons |
| `DewPoint` | dewpoint.dfy | the dew point page: two of three fields give the third |
| `ScientificCalculator` | scientificcalculator.dfy | the keypad, history, memory and angle mode (a class) |
| `CalculatorGroups` | calculatorgroups.dfy | the home page's search over the calculator groups |
| `Calendar`, `Numbers`, `Strings`, `Wrappers` | calendar.dfy, numbers.dfy, strings.dfy, wrappers.dfy | the JavaScript Date, Math, number and string primitives these rely on |

JavaScript numbers are exact reals or integers here. A value that can be NaN is an `Option`, with None for NaN. Dates are proleptic Gregorian dates or day numbers since 1970-01-01. Input and output of the pages are parameters and results. State that a page keeps in React hooks is a class whose methods are the handlers.

## Model

| member | source | states |
|---|---|---|
| Rounding.IsHalfIffFloorHalf | app/rounding-calculator/components/RoundingCalculator.tsx:97-98 | the tie test (the distance of the scaled value from its truncation is one half) holds exactly when the value lies one half above its floor |
| Rounding.RoundScaledMeaning | app/rounding-calculator/components/RoundingCalculator.tsx:100-152 | every branch of the switch gives a result allowed by its mode's reference definition: nearest and half-up send ties up, half-down sends them down, up is the ceiling, down the floor, half-even and half-odd send ties to the even or odd neighbour, away-from-zero and towards-zero send them by sign; the default gives the value itself |
| Rounding.RoundsToIntegerOfScaled | app/rounding-calculator/components/RoundingCalculator.tsx:100-149 | for each rounding mode, the integer the branch computes satisfies that mode's definition |
| Rounding.RoundsToIntegerUnique | app/rounding-calculator/components/RoundingCalculator.tsx:100-149 | each mode's definition admits exactly one integer, so the definition fixes the result |
| Rounding.RoundsUnique | app/rounding-calculator/components/RoundingCalculator.tsx:100-152 | at most one result satisfies the definition of the whole switch |
| Rounding.DecimalFactor | app/rounding-calculator/components/RoundingCalculator.tsx:91 | the decimal factor 10^places is positive, also for negative places |
| Rounding.RoundNumber | app/rounding-calculator/components/RoundingCalculator.tsx:90-93 | a zero factor returns the input unchanged |
| Rounding.ScaleRound | app/rounding-calculator/components/RoundingCalculator.tsx:95-153 | the result times the factor is the switch applied to the scaled value |
| Rounding.RoundNumberScales | app/rounding-calculator/components/RoundingCalculator.tsx:90-153 | with a non-zero factor, roundNumber is scale, round, unscale on that factor |
| Rounding.ScaleRoundMeaning | app/rounding-calculator/components/RoundingCalculator.tsx:95-153 | the result times the factor is what the mode's reference definition allows for the scaled input |
| Rounding.IntegerRoundsToItself | app/rounding-calculator/components/RoundingCalculator.tsx:100-152 | every mode leaves an integer unchanged |
| Rounding.UnrecognisedModeIsIdentity | app/rounding-calculator/components/RoundingCalculator.tsx:150-153 | an unknown mode returns the value as it was |
| Rounding.ExactMultipleUnchanged | app/rounding-calculator/components/RoundingCalculator.tsx:95-153 | a value already a whole number of steps 1/f is returned unchanged in every mode |
| RoundingProperties.ScaleRoundIsMultiple | app/rounding-calculator/components/RoundingCalculator.tsx:95-153 | in every rounding mode the result is a whole number of steps 1/f |
| RoundingProperties.RoundedIsFixed | app/rounding-calculator/components/RoundingCalculator.tsx:100-152 | rounding is idempotent: a rounded value rounds to itself in the same mode |
| RoundingProperties.RoundsBounds | app/rounding-calculator/components/RoundingCalculator.tsx:100-149 | up gives the ceiling and down the floor of the scaled value; the seven tie-breaking modes stay within one half of it; every mode lies between floor and ceiling |
| RoundingProperties.ScaleRoundUpScaled | app/rounding-calculator/components/RoundingCalculator.tsx:112-114 | rounding up gives the ceiling of the scaled value, scaled back |
| RoundingProperties.ScaleRoundDownScaled | app/rounding-calculator/components/RoundingCalculator.tsx:115-117 | rounding down gives the floor of the scaled value, scaled back |
| RoundingProperties.ScaleRoundUpWithinOneStep | app/rounding-calculator/components/RoundingCalculator.tsx:112-114 | rounding up gives a value at or above the input and less than one step above it |
| RoundingProperties.ScaleRoundDownWithinOneStep | app/rounding-calculator/components/RoundingCalculator.tsx:115-117 | rounding down gives a value at or below the input and less than one step below it |
| RoundingProperties.NearestWithinHalfStep | app/rounding-calculator/components/RoundingCalculator.tsx:101-149 | the seven tie-breaking modes never move a value by more than half a step |
| RoundingProperties.BetweenFloorAndCeiling | app/rounding-calculator/components/RoundingCalculator.tsx:100-149 | every mode's result lies between the round-down and the round-up result |
| RoundingProperties.ZeroPlaces | app/rounding-calculator/components/RoundingCalculator.tsx:90-95 | with zero decimal places the factor is one and roundNumber is the switch itself |
| RoundingProperties.WorkedExamples | app/rounding-calculator/components/RoundingCalculator.tsx:156-257 | the 28 worked examples shown beside the nine modes give the results shown |
| RoundingDisplay.ParsePrecision | app/rounding-calculator/components/RoundingCalculator.tsx:271-302 | the selector is fractional exactly when it has a positive denominator, which is then the factor; a fractional selector contains '/'; custom places are decimal and within 0..20 |
| RoundingDisplay.CustomPlaces | app/rounding-calculator/components/RoundingCalculator.tsx:275-282 | custom places written as an integer are kept within 0..20 and become 0 outside it |
| RoundingDisplay.CustomUnparsable | app/rounding-calculator/components/RoundingCalculator.tsx:275-282 | custom text with no leading integer means 0 decimal places |
| RoundingDisplay.FractionOption | app/rounding-calculator/components/RoundingCalculator.tsx:283-289 | the option "1/d" with d > 0 selects the denominator d |
| RoundingDisplay.MalformedFractionOption | app/rounding-calculator/components/RoundingCalculator.tsx:283-293 | a '/' option not of the form "1/d" with d > 0, including "1/0", means 0 decimal places |
| RoundingDisplay.DecimalOption | app/rounding-calculator/components/RoundingCalculator.tsx:294-302 | a decimal option selects that many places |
| RoundingDisplay.ToFixedOfRounded | app/rounding-calculator/components/RoundingCalculator.tsx:313 | toFixed shows a value that has at most that many decimals unchanged |
| RoundingDisplay.DisplayResult | app/rounding-calculator/components/RoundingCalculator.tsx:304-322 | a message is shown exactly when the input is not a number, and it is the empty-field message exactly when the input is blank; a fraction display is shown exactly for a "1/d" precision; a decimal display carries the sign "-" exactly when the rounded value is negative and non-zero |
| RoundingDisplay.FractionDisplayIsRounded | app/rounding-calculator/components/RoundingCalculator.tsx:304-309 | with a "1/d" precision, the amount the fraction display shows is exactly the rounded value |
| RoundingDisplay.RoundedToDenominator | app/rounding-calculator/components/RoundingCalculator.tsx:90-153 | with denominator d, every rounding mode gives a whole number of d-ths |
| RoundingDisplay.DecimalDisplayIsRounded | app/rounding-calculator/components/RoundingCalculator.tsx:304-316 | with decimal places, the decimal shown is exactly the rounded value |
| RoundingDisplay.RoundedToPlaces | app/rounding-calculator/components/RoundingCalculator.tsx:90-153 | with decimal places, every rounding mode gives a whole number of 10^-places |
| MixedFractions.GcdDivides | app/rounding-calculator/components/RoundingCalculator.tsx:38-40 | the gcd of two numbers, not both zero, is positive and divides both |
| MixedFractions.GcdScales | app/rounding-calculator/components/RoundingCalculator.tsx:38-40 | scaling both arguments scales the gcd |
| MixedFractions.ReducedIsCoprime | app/rounding-calculator/components/RoundingCalculator.tsx:80-82 | dividing numerator and denominator by their gcd leaves coprime terms |
| MixedFractions.FormatAsMixedFraction | app/rounding-calculator/components/RoundingCalculator.tsx:51-88 | a fraction or mixed number is proper and reduced, with a denominator dividing d; a mixed number has a whole part of at least 1; a bare fraction only comes from a value below 1 in magnitude; the sign is "-" exactly for a negative value whose shown magnitude is not zero |
| MixedFractions.FractionNumerator | app/rounding-calculator/components/RoundingCalculator.tsx:68 | the rounded numerator of the fractional part is at most d |
| MixedFractions.ReducedFraction | app/rounding-calculator/components/RoundingCalculator.tsx:80-87 | the reduced result keeps the sign and whole part, is proper and coprime, and its denominator divides d; a whole part of 0 gives a bare fraction |
| MixedFractions.ReducedProper | app/rounding-calculator/components/RoundingCalculator.tsx:80-82 | reducing a proper fraction keeps it proper |
| MixedFractions.ReducedValue | app/rounding-calculator/components/RoundingCalculator.tsx:80-82 | reducing a fraction keeps its value |
| MixedFractions.NumeratorOfScaled | app/rounding-calculator/components/RoundingCalculator.tsx:60-68 | rounding the magnitude times d splits into the whole part times d plus the fraction's numerator |
| MixedFractions.NearestSplit | app/rounding-calculator/components/RoundingCalculator.tsx:60-68 | the nearest multiple of 1/d is the whole part plus the rounded numerator over d |
| MixedFractions.FormatMagnitude | app/rounding-calculator/components/RoundingCalculator.tsx:51-88 | the magnitude shown is the input's magnitude rounded to the nearest 1/d |
| MixedFractions.IntegralMagnitude | app/rounding-calculator/components/RoundingCalculator.tsx:55-58 | a whole magnitude is shown as it is |
| MixedFractions.FractionalMagnitude | app/rounding-calculator/components/RoundingCalculator.tsx:60-87 | a magnitude with a fractional part is shown as its whole part plus the rounded n/d, reduced |
| MixedFractions.ReducedFractionMagnitude | app/rounding-calculator/components/RoundingCalculator.tsx:80-87 | the reduced fraction or mixed number shows the same amount as ip + n/d |
| MixedFractions.FormatShowsNearestMultiple | app/rounding-calculator/components/RoundingCalculator.tsx:51-88 | whole number, fraction and mixed number all show the value's magnitude rounded to the nearest 1/d (ties up), with the value's sign |
| MixedFractions.NearestOfExact | app/rounding-calculator/components/RoundingCalculator.tsx:60-78 | a magnitude that is a whole number of steps 1/d is its own nearest multiple |
| MixedFractions.FormatExact | app/rounding-calculator/components/RoundingCalculator.tsx:51-88 | a value that is already a whole number of steps 1/d is shown exactly |
| TimeUtils.ParseOfFields | app/time-card-calculator/utils/timeUtils.ts:2-6 | text whose first two ':'-separated fields read as numbers h and m is h·60 + m minutes |
| TimeUtils.ParseWithoutColon | app/time-card-calculator/utils/timeUtils.ts:3 | empty text and text without ':' count as 0 minutes |
| TimeUtils.ParseClockText | app/time-card-calculator/utils/timeUtils.ts:2-6 | the "HH:MM" text of a time field reads back as its minutes |
| TimeUtils.JsRem | app/time-card-calculator/utils/timeUtils.ts:68 | JavaScript's % with a positive divisor: the Euclidean remainder for a non-negative dividend, a value in (-b, 0] for a negative one |
| TimeUtils.FormatMinutesIsClock | app/time-card-calculator/utils/timeUtils.ts:63-70 | a non-negative total is rendered as the two-digit clock text of its hours and leftover minutes |
| TimeUtils.ParseFormatMinutes | app/time-card-calculator/utils/timeUtils.ts:63-70 | round trip: reading back the rendering of a non-negative number of minutes gives that number |
| TimeUtils.SpacePrefixLength | app/time-card-calculator/utils/timeUtils.ts:12-13 | the regexes' \s*: the longest prefix of white space |
| TimeUtils.ParseBreakDeductionToMinutes | app/time-card-calculator/utils/timeUtils.ts:9-22 | a break deduction is never negative (its values on the accepted forms are the lemmas below) |
| TimeUtils.HoursTokenFacts | app/time-card-calculator/utils/timeUtils.ts:12 | the hours match captures a whole part and a fractional part made of digits only |
| TimeUtils.MinutesTokenFacts | app/time-card-calculator/utils/timeUtils.ts:13 | the minutes match captures digits only |
| TimeUtils.BreakInMinutes | app/time-card-calculator/utils/timeUtils.ts:9-22 | a break written "<n>m" is n minutes |
| TimeUtils.BreakInHours | app/time-card-calculator/utils/timeUtils.ts:9-22 | a break written "<n>h" is 60·n minutes: "2h" is 120 |
| TimeUtils.BreakInDecimalHours | app/time-card-calculator/utils/timeUtils.ts:9-22 | a break written "<digits>.<digits>h" is that decimal number of hours in minutes, rounded: "1.5h" is 90 |
| TimeUtils.BreakInHoursAndMinutes | app/time-card-calculator/utils/timeUtils.ts:9-22 | a break written "<h>h <m>m" is 60·h + m minutes: "1h 15m" is 75 |
| TimeUtils.NoHoursWithoutH | app/time-card-calculator/utils/timeUtils.ts:12 | without an 'h' or 'H' the hours pattern matches nothing |
| TimeUtils.RoundMinutesNearest | app/time-card-calculator/utils/timeUtils.ts:25-30 | with a positive interval, the result is a multiple of the interval less than half an interval from the minutes, a tie going to the later multiple |
| TimeUtils.NearestMultipleUnique | app/time-card-calculator/utils/timeUtils.ts:29 | only one multiple has that property, so the property determines the result |
| TimeUtils.RoundMinutesNonNegative | app/time-card-calculator/utils/timeUtils.ts:25-30 | rounding keeps a non-negative number of minutes non-negative |
| TimeUtils.ShiftWrapsAtMidnight | app/time-card-calculator/utils/timeUtils.ts:43-48 | for two times within a day, the shift spans (end - start) mod 24 hours: an overnight shift or an end at midnight wraps to the next day |
| TimeUtils.WorkedWithinDay | app/time-card-calculator/utils/timeUtils.ts:43-55 | the minutes worked are the wrapped span less the break, and 0 when that is negative |
| TimeUtils.CalculateDurationInHours | app/time-card-calculator/utils/timeUtils.ts:33-60 | the hours are a number exactly when both time fields read as numbers |
| TimeUtils.DurationOfMinutes | app/time-card-calculator/utils/timeUtils.ts:39-59 | the hours are the clamped minutes worked, rounded to the interval, over 60 |
| TimeUtils.DurationNonNegative | app/time-card-calculator/utils/timeUtils.ts:52-59 | a shift never lasts a negative number of hours |
| TimeUtils.DurationOfClockTimes | app/time-card-calculator/utils/timeUtils.ts:33-60 | for "HH:MM" start and end texts, the hours are the wrapped span less the break, clamped at 0, rounded to the interval, over 60 |
| TimeUtils.DaysBackToWeekStart | app/time-card-calculator/utils/timeUtils.ts:95-98 | the week starts 0 to 6 days back, on the chosen first weekday |
| TimeUtils.WeekStartIsLatestFirstDay | app/time-card-calculator/utils/timeUtils.ts:92-102 | the week start falls on the first weekday, on or before the date and less than a week before it |
| TimeUtils.WeekStartLatest | app/time-card-calculator/utils/timeUtils.ts:92-102 | no later day up to the date falls on the first weekday, so the week start is the latest such day |
| TimeUtils.WeekEndAfterDate | app/time-card-calculator/utils/timeUtils.ts:110-115 | the week end is six days after the week start, and the date lies between the two |
| TimeUtils.IntervalDays | app/time-card-calculator/utils/timeUtils.ts:123-135 | there is one day per day of the interval, both ends included, and none when the start is after the end |
| TimeUtils.EachDayOfInterval | app/time-card-calculator/utils/timeUtils.ts:123-135 | the loop yields exactly the days of the interval |
| TimeUtils.NextFormattedDay | app/time-card-calculator/utils/timeUtils.ts:130-133 | one loop step appends the current day's text and moves to the next day |
| TimeUtils.EachDayAt | app/time-card-calculator/utils/timeUtils.ts:123-135 | every day of the interval appears in order: entry i is the start plus i days |
| Calendar.DaysInMonth | app/time-card-calculator/utils/timeUtils.ts:100 | a month has 28 to 31 days |
| Calendar.NextDay | app/time-card-calculator/utils/timeUtils.ts:132 | the day after a valid date is valid |
| Calendar.PrevDay | app/time-card-calculator/utils/timeUtils.ts:100 | the day before a valid date is valid |
| Calendar.YearLength | app/time-card-calculator/utils/timeUtils.ts:100 | a year has 365 days, 366 in a Gregorian leap year |
| Calendar.NextDayNumber | app/time-card-calculator/utils/timeUtils.ts:132 | the next day has the next day number |
| Calendar.PrevDayNumber | app/time-card-calculator/utils/timeUtils.ts:100 | the previous day has the previous day number |
| Calendar.BeforeIsSmallerNumber | app/time-card-calculator/utils/timeUtils.ts:130 | day numbers follow calendar order |
| Calendar.DayNumberInjective | app/time-card-calculator/utils/timeUtils.ts:130 | two valid dates with one day number are the same date |
| Calendar.DayNumberOrder | app/time-card-calculator/utils/timeUtils.ts:130 | comparing Date values compares dates in calendar order, in both directions |
| Calendar.AddDays | app/time-card-calculator/utils/timeUtils.ts:100 | setUTCDate(getUTCDate() + k) gives the valid date whose day number is k more |
| Calendar.AddDaysAdd | app/time-card-calculator/utils/timeUtils.ts:110-114 | adding j days and then k days is adding j + k days |
| Calendar.NextIsOneDayLater | app/time-card-calculator/utils/timeUtils.ts:132 | the next day is the date one day later |
| Calendar.Weekday | app/time-card-calculator/utils/timeUtils.ts:94 | getUTCDay is 0 (Sunday) to 6 |
| Calendar.WeekdayAddDays | app/time-card-calculator/utils/timeUtils.ts:94-100 | k days later the weekday moves on by k modulo 7 |
| Calendar.DateUtc | app/time-card-calculator/utils/timeUtils.ts:75 | Date.UTC gives a valid date |
| Calendar.FirstOfMonth | app/time-card-calculator/utils/timeUtils.ts:75 | the first of the month with a month index; an index from 0 to 11 is that month of the year |
| Calendar.DateUtcOfValid | app/time-card-calculator/utils/timeUtils.ts:75 | Date.UTC of a valid date's own year, month index and day is that date, for years outside 0..99 |
| Calendar.DateUtcInYear | app/time-card-calculator/utils/timeUtils.ts:75 | Date.UTC counts the day on from the first of the month |
| Calendar.ParseDate | app/time-card-calculator/utils/timeUtils.ts:73-76 | a parsed date is always valid |
| Calendar.DateOfParts | app/time-card-calculator/utils/timeUtils.ts:74-75 | the date built from the split parts is valid |
| Calendar.ParseFormatDate | app/time-card-calculator/utils/timeUtils.ts:73-84 | round trip: reading back the YYYY-MM-DD text of a date from year 100 on gives the date |
| Calendar.SplitFormatDate | app/time-card-calculator/utils/timeUtils.ts:79-84 | the YYYY-MM-DD text splits on '-' into its three rendered parts |
| TimeUtils.ParseTimeToMinutes | app/time-card-calculator/utils/timeUtils.ts:2-6 | text without ':' (the empty text included) is 0 minutes; otherwise the result is NaN exactly when the hours or the minutes field does not read as a number |
| Payroll.Plus | app/time-card-calculator/utils/payrollUtils.ts:69 | a sum is a number exactly when both terms are (NaN propagates) |
| Payroll.Times | app/time-card-calculator/utils/payrollUtils.ts:71-72 | a product with a NaN factor is NaN, otherwise a number |
| Payroll.OrElse | app/time-card-calculator/utils/payrollUtils.ts:28-31 | parseFloat(s) \|\| fallback keeps a non-zero number and gives the fallback for NaN and 0 |
| Payroll.HoursOf | app/time-card-calculator/utils/payrollUtils.ts:37-40 | entry i's hours are calculateDurationInHours of entry i, for every entry in order |
| Payroll.DatesOf | app/time-card-calculator/utils/payrollUtils.ts:37-40 | entry i's date, for every entry in order |
| Payroll.DayTotals | app/time-card-calculator/utils/payrollUtils.ts:43-46 | the day map has exactly the entries' dates as keys |
| Payroll.FirstOccurrences | app/time-card-calculator/utils/payrollUtils.ts:43-48 | the map's keys in insertion order: each date once, and every date of an entry among them |
| Payroll.Summary | app/time-card-calculator/utils/payrollUtils.ts:69-82 | total hours are regular plus overtime; base pay is regular hours times the rate; overtime pay is overtime hours times the rate times the multiplier; total pay is the sum of the two |
| Payroll.CalculatePayroll | app/time-card-calculator/utils/payrollUtils.ts:19-83 | the summary is built from the split of the entries' hours for the overtime type, with the settings read with their fallbacks 0, 8, 40 and 1.5 |
| Payroll.SplitPayrollHours | app/time-card-calculator/utils/payrollUtils.ts:42-67 | daily overtime counts the hours above the daily threshold on each date as overtime; weekly overtime counts the total above the weekly threshold; with no overtime every hour is regular — the loops compute exactly this split |
| Payroll.SumHours | app/time-card-calculator/utils/payrollUtils.ts:58 | the reduce computes the sum of the hours, NaN when any hour is NaN |
| Payroll.DailyHoursMap | app/time-card-calculator/utils/payrollUtils.ts:43-46 | the forEach builds the day map and its key order |
| Payroll.SplitDailyHours | app/time-card-calculator/utils/payrollUtils.ts:48-55 | the forEach over the days accumulates each day's regular and overtime hours |
| Payroll.SumOfDefined | app/time-card-calculator/utils/payrollUtils.ts:58 | with no NaN hours the reduce is the sum of the hours |
| Payroll.DayTotalsOfDefined | app/time-card-calculator/utils/payrollUtils.ts:43-46 | with no NaN hours every day in the map holds the sum of that day's hours |
| Payroll.DaySumOfAbsent | app/time-card-calculator/utils/payrollUtils.ts:45 | a day with no entry has no hours |
| Payroll.KeysTotalStep | app/time-card-calculator/utils/payrollUtils.ts:44-46 | one more entry adds its hours to the total over any list of distinct days that holds its day |
| Payroll.DaysCoverAllHours | app/time-card-calculator/utils/payrollUtils.ts:43-48 | added up day by day in the map's key order, the days' hours are all the hours |
| Payroll.DailyPartsAddUp | app/time-card-calculator/utils/payrollUtils.ts:49-54 | day by day, regular plus overtime is the day's hours |
| Payroll.SplitDaysOfDefined | app/time-card-calculator/utils/payrollUtils.ts:48-55 | with no NaN hours each day gives min(day, threshold) as regular hours and the excess as overtime |
| Payroll.KeysOfDefined | app/time-card-calculator/utils/payrollUtils.ts:43-48 | with no NaN hours the map holds each listed day's sum of hours |
| Payroll.HoursAreKept | app/time-card-calculator/utils/payrollUtils.ts:76 | with no NaN hours, for every overtime type, regular plus overtime is the sum of all entries' hours, as the source's comment on totalHours expects |
| Payroll.WeeklySplit | app/time-card-calculator/utils/payrollUtils.ts:57-64 | weekly: regular hours are min(total, threshold) and overtime is the excess over the threshold |
| Payroll.NoOvertimeSplit | app/time-card-calculator/utils/payrollUtils.ts:65-67 | none: every hour is regular and there is no overtime |
| Payroll.DailySplit | app/time-card-calculator/utils/payrollUtils.ts:42-55 | daily: each day in the map gives min(day, threshold) regular hours and the excess as overtime |
| Payroll.SettingsFallBack | app/time-card-calculator/utils/payrollUtils.ts:28-31 | empty or zero settings read as 0 (rate), 8 (daily), 40 (weekly) and 1.5 (multiplier); a number is kept |
| Payroll.NaNDayIsReset | app/time-card-calculator/utils/payrollUtils.ts:45 | a NaN day total is reset by the day's next entry, since NaN \|\| 0 is 0 |
| TimeEntries.InitialEntry | app/time-card-calculator/components/TimeCardCalculator.tsx:47-54 | a default row is a real row for the day, 09:00 to 17:00 with a 30m break |
| TimeEntries.BlankEntry | app/time-card-calculator/components/TimeCardCalculator.tsx:56-63 | a placeholder row for the day has every text field empty and is marked blank |
| TimeCard.TextLeTotal | app/time-card-calculator/components/TimeCardCalculator.tsx:202 | the text order used for localeCompare is total |
| TimeCard.TextLeTransitive | app/time-card-calculator/components/TimeCardCalculator.tsx:202 | the text order is transitive |
| TimeCard.LeTotal | app/time-card-calculator/components/TimeCardCalculator.tsx:363 | both comparators (by date, by date then start time) are total |
| TimeCard.LeTransitive | app/time-card-calculator/components/TimeCardCalculator.tsx:363 | both comparators are transitive |
| TimeCard.Insert | app/time-card-calculator/components/TimeCardCalculator.tsx:363 | inserting into a sorted list keeps it sorted and adds exactly that row |
| TimeCard.SortEntries | app/time-card-calculator/components/TimeCardCalculator.tsx:363 | sort with a comparator gives a sorted permutation of the rows |
| TimeCard.InsertIsStable | app/time-card-calculator/components/TimeCardCalculator.tsx:202-204 | inserting a row places it after every row that sorts alike with it, leaving their order alone |
| TimeCard.SortIsStable | app/time-card-calculator/components/TimeCardCalculator.tsx:202-204 | sort is stable: for every row, the rows that sort alike with it (the same date, for the date-only comparators) come out in the order they went in |
| TimeCard.WithoutId | app/time-card-calculator/components/TimeCardCalculator.tsx:209 | the rows kept are exactly those without the id |
| TimeCard.WithoutAbsentId | app/time-card-calculator/components/TimeCardCalculator.tsx:209 | removing an id no row has changes nothing |
| TimeCard.WithoutBlankOn | app/time-card-calculator/components/TimeCardCalculator.tsx:202 | the rows kept are exactly those that are not placeholders of the day |
| TimeCard.NonBlank | app/time-card-calculator/components/TimeCardCalculator.tsx:395 | the rows kept are exactly the real rows |
| TimeCard.ChangeEntry | app/time-card-calculator/components/TimeCardCalculator.tsx:214-220 | only the row with the id changes: the named field gets the value, the others stay, and it becomes blank exactly when its start is cleared while its end and break are empty |
| TimeCard.FirstActual | app/time-card-calculator/components/TimeCardCalculator.tsx:227-229 | the first real row, absent exactly when every row is a placeholder |
| TimeCard.FirstActualIsEarliest | app/time-card-calculator/components/TimeCardCalculator.tsx:227-229 | the first real row is the earliest real row |
| TimeCard.CopiedRow | app/time-card-calculator/components/TimeCardCalculator.tsx:232-240 | placeholders and the first row itself are kept; every other row takes the first row's start, end and break and is real |
| TimeCard.RealOn | app/time-card-calculator/components/TimeCardCalculator.tsx:383 | the rows kept are exactly the day's real rows |
| TimeCard.DisplayWithoutBlankDays | app/time-card-calculator/components/TimeCardCalculator.tsx:362-395 | without blank days, the display is exactly the real rows, sorted by date and then start time |
| TimeCard.NonBlankKeepsOrder | app/time-card-calculator/components/TimeCardCalculator.tsx:395 | dropping placeholders keeps the sorted order |
| TimeCard.DisplayOfNoEntries | app/time-card-calculator/components/TimeCardCalculator.tsx:365-369 | with blank days and no rows, the display is one placeholder for today |
| TimeCard.PlaceholdersOfFill | app/time-card-calculator/components/TimeCardCalculator.tsx:382-392 | a day with no real row gets one placeholder each time it is listed; a day with one gets none |
| TimeCard.RealRowsKept | app/time-card-calculator/components/TimeCardCalculator.tsx:382-392 | every real row of a listed day is in the filled list |
| TimeCard.FillRowsAreListed | app/time-card-calculator/components/TimeCardCalculator.tsx:382-392 | every row of the filled list is a real row or a placeholder of a listed day |
| TimeCard.DisplayOfParsedRange | app/time-card-calculator/components/TimeCardCalculator.tsx:371-393 | with blank days, the display is the days from the start of the first row's week to the end of the last row's week, filled and sorted by date |
| TimeCard.DisplayOfUnparsedDate | app/time-card-calculator/components/TimeCardCalculator.tsx:371-377 | a first or last date that does not parse leaves no day to show |
| TimeCard.FilledDays | app/time-card-calculator/components/TimeCardCalculator.tsx:377-393 | the filled, sorted days show every real row of a listed day and no other real row, and a day with no real row gets one placeholder per listing |
| TimeCard.SortKeepsBlanks | app/time-card-calculator/components/TimeCardCalculator.tsx:393 | sorting keeps every day's number of placeholders |
| TimeCard.RealOnPermutation | app/time-card-calculator/components/TimeCardCalculator.tsx:363 | reordering rows does not change whether a day has real rows |
| TimeCard.TimeCardCalculator.constructor | app/time-card-calculator/components/TimeCardCalculator.tsx:224 | the list starts with one default row for today |
| TimeCard.TimeCardCalculator.ProcessedEntriesForDisplay | app/time-card-calculator/components/TimeCardCalculator.tsx:362-396 | the rows shown are the entries sorted by date and start time; without blank days the placeholders are dropped; with blank days and no entries there is one placeholder for today; otherwise every day of the weeks from the first row to the last, with a placeholder for each day without a row |
| TimeCard.TimeCardCalculator.AddRow | app/time-card-calculator/components/TimeCardCalculator.tsx:196-206 | a default row for the day (today when none is given) is added and the list sorted by date; when blank days are shown and the day shows a placeholder, the day's placeholders go first |
| TimeCard.TimeCardCalculator.RemoveRow | app/time-card-calculator/components/TimeCardCalculator.tsx:208-210 | the rows with the id are removed and the rest keep their order |
| TimeCard.TimeCardCalculator.InputChange | app/time-card-calculator/components/TimeCardCalculator.tsx:212-222 | each row is replaced by its edit, in place |
| TimeCard.TimeCardCalculator.ClearAll | app/time-card-calculator/components/TimeCardCalculator.tsx:224 | the list becomes one default row for today |
| TimeCard.TimeCardCalculator.CopyFirstRow | app/time-card-calculator/components/TimeCardCalculator.tsx:226-243 | nothing changes without a real row; otherwise every row becomes its copy of the first real row, in place |
| TimeCard.TimeCardCalculator.PayrollSummaryOf | app/time-card-calculator/components/TimeCardCalculator.tsx:399-413 | no summary when payment info is off or the base rate is NaN or negative; otherwise the payroll of the display's real rows |
| TimeCard.FillDays | app/time-card-calculator/components/TimeCardCalculator.tsx:379-392 | for each day in turn, that day's real rows in order, or a single placeholder when the day has none |
| TimeCard.FindBlank | app/time-card-calculator/components/TimeCardCalculator.tsx:198 | findIndex returns the first placeholder of the day, or -1 exactly when there is none |
| ConduitFill.ConduitOf | app/conduit-fill-calculator/utils/conduitCalculations.ts:1-160 | a listed conduit type has sizes whose internal diameters and areas are all positive |
| ConduitFill.EmtSizes | app/conduit-fill-calculator/utils/conduitCalculations.ts:2-16 | the EMT sizes have positive diameters and areas |
| ConduitFill.PvcSch40HdpeSizes | app/conduit-fill-calculator/utils/conduitCalculations.ts:17-33 | the PVC Sch 40 and HDPE sizes have positive diameters and areas |
| ConduitFill.PvcSch80Sizes | app/conduit-fill-calculator/utils/conduitCalculations.ts:34-50 | the PVC Sch 80 sizes have positive diameters and areas |
| ConduitFill.RmcgrcSizes | app/conduit-fill-calculator/utils/conduitCalculations.ts:51-67 | the RMC (GRC) sizes have positive diameters and areas |
| ConduitFill.ImcSizes | app/conduit-fill-calculator/utils/conduitCalculations.ts:68-82 | the IMC sizes have positive diameters and areas |
| ConduitFill.FlexFmcSizes | app/conduit-fill-calculator/utils/conduitCalculations.ts:83-94 | the Flex FMC sizes have positive diameters and areas |
| ConduitFill.FlexLfmcSizes | app/conduit-fill-calculator/utils/conduitCalculations.ts:95-106 | the Flex LFMC sizes have positive diameters and areas |
| ConduitFill.FlexLfncbSizes | app/conduit-fill-calculator/utils/conduitCalculations.ts:107-118 | the Flex LFNC-B sizes have positive diameters and areas |
| ConduitFill.Sdr9Sizes | app/conduit-fill-calculator/utils/conduitCalculations.ts:119-128 | the SDR 9 sizes have positive diameters and areas |
| ConduitFill.Sdr11Sizes | app/conduit-fill-calculator/utils/conduitCalculations.ts:129-138 | the SDR 11 sizes have positive diameters and areas |
| ConduitFill.Sdr135Sizes | app/conduit-fill-calculator/utils/conduitCalculations.ts:139-148 | the SDR 13.5 sizes have positive diameters and areas |
| ConduitFill.Tc7Sizes | app/conduit-fill-calculator/utils/conduitCalculations.ts:149-159 | the TC-7 sizes have positive diameters and areas |
| ConduitFill.ConduitTableIsPositive | app/conduit-fill-calculator/utils/conduitCalculations.ts:1-160 | every conduit of the table has positive sizes, as the fill calculation needs |
| ConduitFill.FindSize | app/conduit-fill-calculator/utils/conduitCalculations.ts:347 | find returns a row with the trade size, and nothing exactly when no row has it |
| ConduitFill.MaxAllowed | app/conduit-fill-calculator/utils/conduitCalculations.ts:370-390 | NEC allows 53% for one conductor, 31% for two and 40% otherwise; Utility allows 50%, 30% and 35% |
| ConduitFill.UtilityIsStricter | app/conduit-fill-calculator/utils/conduitCalculations.ts:381-389 | for every count, the Utility limit is below the NEC limit |
| ConduitFill.JamProbability | app/conduit-fill-calculator/utils/conduitCalculations.ts:395-406 | the jam chance is between 0 and 100, and 0 for fewer than three conductors |
| ConduitFill.SumConductors | app/conduit-fill-calculator/utils/conduitCalculations.ts:356-365 | the loop adds area times quantity and the quantity of every recognised conductor, skipping the others |
| ConduitFill.CalculateConduitFill | app/conduit-fill-calculator/utils/conduitCalculations.ts:336-418 | an unknown type or size throws its message; otherwise the count and area are those of the recognised conductors, the limit is the standard's for that count, the result is compliant exactly when the fill of 95% of the conduit area is within the limit, the figures are rounded as shown, and the jam chance is the jam formula for the conductor count, the conduit's internal diameter and the conductors' average diameter, rounded to one decimal |
| ConduitFill.RoundedPercentInRange | app/conduit-fill-calculator/utils/conduitCalculations.ts:410 | rounding a percentage in 0..100 to one decimal keeps it in 0..100, and 0 at 0 |
| ConduitFill.TotalsOfAppend | app/conduit-fill-calculator/utils/conduitCalculations.ts:356-365 | the totals of two lists of conductors put together are the sums of their totals |
| ConduitFill.UnlistedRowIsSkipped | app/conduit-fill-calculator/utils/conduitCalculations.ts:357-361 | a conductor whose type or size is not listed changes neither total |
| ConduitFill.FourSixAwgInHalfInchEmt | tests/conduit-fill-calculator.spec.ts:131-149 | four 6 AWG THHN copper conductors in 1/2" EMT exceed the NEC limit of 40% |
| Payment.Shown | app/payment-calculator/page.tsx:76 | a row reports the running balance when it is positive and 0 otherwise, so never a negative balance |
| Payment.PaymentsAddUp | app/payment-calculator/page.tsx:66-79 | when every row pays its interest plus its principal, the payment column sums to the interest column plus the principal column |
| Payment.EqualPayment | app/payment-calculator/page.tsx:59 | at a positive rate the loan formula gives a number exactly when the term has at least one month; with no months it divides by 0 and gives +Infinity for a positive principal, −Infinity for a negative one and NaN for none |
| Payment.SignOfProduct | app/payment-calculator/page.tsx:59 | the product of a principal and a positive rate has the principal's sign |
| Payment.FixedRow | app/payment-calculator/page.tsx:67-78 | row i is month i + 1 at the equal payment; its interest is the balance times the rate, its principal the payment less the interest, the balance falls by the principal, and the row reports the new balance, never negative |
| Payment.ClosedFormNext | app/payment-calculator/page.tsx:67-69 | the closed form of the balance carries over from one month to the next |
| Payment.BalanceClosedForm | app/payment-calculator/page.tsx:66-79 | after k months the balance times r is P·r·q^k − payment·(q^k − 1), with q = 1 + r |
| Payment.EqualPaymentPaysOff | app/payment-calculator/page.tsx:59 | the formula's payment leaves nothing owed after the last month |
| Payment.FixedScheduleShape | app/payment-calculator/page.tsx:66-79 | the rows are numbered from 1 and each pays its interest plus its principal |
| Payment.FixedScheduleInterest | app/payment-calculator/page.tsx:70 | the interest column sums to the interest of the months |
| Payment.FixedSchedulePrincipal | app/payment-calculator/page.tsx:68-69 | the principal column sums to what the balance fell by |
| Payment.FixedSchedulePayments | app/payment-calculator/page.tsx:77-83 | the payment column sums to the equal payment times the number of months |
| Payment.FixedTermRepaysPrincipal | app/payment-calculator/page.tsx:54-87 | at the formula's payment the principal column sums to the loan, and the total of the payments is the loan plus the interest |
| Payment.FixedTermSchedule | app/payment-calculator/page.tsx:62-79 | one row per month: month i + 1 pays the fixed payment, its interest is the running balance times the monthly rate, the rest is principal, and the balance shown is the new balance, 0 below zero; the total interest is the sum over those months |
| Payment.CalculateFixedTerm | app/payment-calculator/page.tsx:54-87 | the monthly payment is the loan formula at a twelfth of the yearly rate over years × 12 months; the schedule has that many rows, each paying interest on the running balance and the rest of the payment as principal; total payments are payment × months and total interest is the interest of those months; a zero term gives a payment of ±Infinity or NaN by the sign of the principal, NaN total payments (Infinity × 0), no interest and no rows |
| Payment.PaymentDue | app/payment-calculator/page.tsx:108-113 | a month pays the chosen payment, or less when the balance with interest is below it, then exactly that |
| Payment.PayoffRow | app/payment-calculator/page.tsx:106-125 | the row of the next month: interest on the balance, the payment due, principal as payment less interest, and the new balance, never negative |
| Payment.PayoffStep | app/payment-calculator/page.tsx:105-128 | one turn of the loop extends the schedule by its row and the interest total by its interest |
| Payment.PayoffSchedule | app/payment-calculator/page.tsx:100-128 | the loop builds the payoff rows, counting their months and totalling their interest |
| Payment.PayoffMonth | app/payment-calculator/page.tsx:106-125 | one turn of the loop's body computes the month's row and the new balance |
| Payment.CalculateFixedPayment | app/payment-calculator/page.tsx:90-136 | no result exactly when the payment does not exceed the first month's interest; otherwise the payoff schedule with its months, its interest and a total payment of interest plus principal |
| Payment.SumsOfPrepend | app/payment-calculator/page.tsx:66-79 | the column sums of a row followed by more rows |
| Payment.NextBalanceNonNegative | app/payment-calculator/page.tsx:111-116 | a month never leaves a negative balance, and leaves none exactly when the last payment is cut |
| Payment.PayoffBounded | app/payment-calculator/page.tsx:105 | the loop stops within 1200 months, and its rows are numbered on from the months already paid |
| Payment.PayoffNeverOverpays | app/payment-calculator/page.tsx:108-125 | no row pays more than the chosen payment, and every row pays its interest plus its principal |
| Payment.PayoffReducesPrincipal | app/payment-calculator/page.tsx:94-97 | when the payment exceeds the first month's interest and the rate is not negative, every month repays some principal |
| Payment.PayoffRepaysPrincipal | app/payment-calculator/page.tsx:105-128 | a loan paid off before the 1200-month cap is repaid exactly: the principal column sums to the loan and the last row shows a zero balance |
| Payment.PayoffTotalIsPaid | app/payment-calculator/page.tsx:130-135 | for a loan paid off before the cap, the reported total payment is what the rows pay |
| LandLoan.CalculateAmortization | app/land-loan-calculator/page.tsx:45-78 | the payment is the loan formula at the periodic rate (yearly rate over payments per year) over years × payments per year; the schedule has one row per payment, each as in the equal-payment schedule; total payments are payment × count and total interest the interest of those payments; with no payments the payment is ±Infinity or NaN by the sign of the principal and the total payments NaN |
| LandLoan.FixedPrincipalRow | app/land-loan-calculator/page.tsx:93-105 | payment i + 1 repays the fixed principal share plus the interest on what is still owed, and reports what is left, never negative |
| LandLoan.SumsOfAppend | app/land-loan-calculator/page.tsx:96-97 | one more row adds its interest, principal and payment to the sums |
| LandLoan.FixedPrincipalSchedule | app/land-loan-calculator/page.tsx:86-106 | one row per payment: a fixed share of the principal, interest on what is still owed before it, and the balance left after it, 0 below zero; the totals are the sums of the rows' interest and payments |
| LandLoan.CalculateFixedPrincipal | app/land-loan-calculator/page.tsx:81-117 | principal / n is repaid in each of the n payments; the totals are the sums of the interest and payment columns; the reported payment is their average, NaN for a term with no payments |
| LandLoan.FixedPrincipalShape | app/land-loan-calculator/page.tsx:92-106 | the rows are numbered from 1, each pays its interest plus the same principal share |
| LandLoan.PrincipalLeftClosedForm | app/land-loan-calculator/page.tsx:95 | after k payments the principal less k shares is owed |
| LandLoan.FixedPrincipalSum | app/land-loan-calculator/page.tsx:102 | the principal column sums to what the balance fell by |
| LandLoan.FixedPrincipalRepays | app/land-loan-calculator/page.tsx:81-117 | the n shares of principal / n repay the loan exactly, and the payments total the principal plus the interest |
| LandLoan.NextPaymentNoLarger | app/land-loan-calculator/page.tsx:93-94 | at a rate that is not negative, each payment is at most the one before |
| LandLoan.PaymentsNeverIncrease | app/land-loan-calculator/page.tsx:92-106 | at a rate that is not negative, the payments never increase over the schedule |
| LandLoan.FrequencyTexts | app/land-loan-calculator/page.tsx:143-166 | the six offered frequencies have six different labels and names; any other frequency reads as monthly |
| LoanAmortizationTable.CeilDiv | app/land-loan-calculator/components/LoanAmortizationTable.tsx:30 | Math.ceil(n / d) is the least q with n ≤ q·d |
| LoanAmortizationTable.Quarter | app/land-loan-calculator/components/LoanAmortizationTable.tsx:32 | the quarter of a payment is 1 to 4 |
| LoanAmortizationTable.QuarterAndYear | app/land-loan-calculator/components/LoanAmortizationTable.tsx:32 | a quarterly payment's quarter and year give back its number |
| LoanAmortizationTable.SemiAnnualLabels | app/land-loan-calculator/components/LoanAmortizationTable.tsx:30 | semi-annual labels of different payments differ |
| LoanAmortizationTable.QuarterlyLabels | app/land-loan-calculator/components/LoanAmortizationTable.tsx:32 | quarterly labels of different payments differ |
| LoanAmortizationTable.LabelsIdentifyPayments | app/land-loan-calculator/components/LoanAmortizationTable.tsx:25-42 | at every frequency, different payment numbers get different labels |
| LoanAmortizationTable.Slice | app/land-loan-calculator/components/LoanAmortizationTable.tsx:22 | slice(0, end) is a prefix of the schedule, of length min(end, length), or length + end for a negative end |
| LoanAmortizationTable.CollapsedRows | app/land-loan-calculator/components/LoanAmortizationTable.tsx:22-96 | the collapsed table shows the first rows, up to the number of payments a year, in order, and the toggle appears exactly when rows are hidden |
| RothIra.YearlyBalancesRoth | app/roth-ira-calculator/page.tsx:26-34 | the loop runs once per year up to the least whole number of years not below the (possibly fractional) horizon; entry k is the Roth balance after k years of contribution then growth |
| RothIra.YearlyBalancesTaxable | app/roth-ira-calculator/page.tsx:36-46 | as many entries as the Roth list, for any real horizon; entry k is the taxable balance after k years, each year's gain taxed before it is added |
| RothIra.CalculateRothIra | app/roth-ira-calculator/page.tsx:48-66 | for a real horizon, the Roth balance and the money put in after the years the loop runs (the horizon rounded up), the growth as balance less money put in, and no tax |
| RothIra.CalculateTaxable | app/roth-ira-calculator/page.tsx:68-91 | for a real horizon, the taxable balance, the money put in, the growth and the tax on the gains of the years the loop runs |
| RothIra.YearRow | app/roth-ira-calculator/page.tsx:115-135 | the row of year i: the age currentAge + i, and the money put in, the Roth balance and the taxable balance at the start and end of that year |
| RothIra.YearlySchedule | app/roth-ira-calculator/page.tsx:103-138 | one row per loop year (the horizon rounded up, none for a horizon of 0 or less); row i is at age currentAge + i, which may be fractional, with the contributions so far and the Roth and taxable balances at the start and end of the year |
| RothIra.ContributedClosedForm | app/roth-ira-calculator/page.tsx:55-58 | the money put in after k years is the initial balance plus k contributions |
| RothIra.UntaxedMatchesRoth | app/roth-ira-calculator/page.tsx:36-91 | at a tax rate of 0 the taxable account grows exactly like the Roth account and pays no tax |
| RothIra.GrowthKeepsOrder | app/roth-ira-calculator/page.tsx:79-82 | one year's growth keeps the taxable balance at or below the Roth balance |
| RothIra.RothAtLeastTaxable | app/roth-ira-calculator/page.tsx:48-91 | for money and a return that are not negative and a tax rate in 0..1, the taxable balance never exceeds the Roth balance and stays non-negative |
| RothIra.ScheduleRowsChain | app/roth-ira-calculator/page.tsx:115-135 | each row ends with the values the next row starts with, one year of age later |
| Cd.YearRow | app/cd-calculator/page.tsx:49-54 | the row of year y holds the balance, the interest credited and the tax paid after y years of periods |
| Cd.CalculateCd | app/cd-calculator/page.tsx:34-62 | one row per year, holding the balance, the interest credited and the tax paid after that year's periods; the final balance, interest and tax are those after all periods; the final balance is the deposit plus the interest, and the last row shows it |
| Cd.CompoundYear | app/cd-calculator/page.tsx:40-47 | the inner loop runs one year of periods, crediting the interest after tax and totalling the tax, and its yearInterest is the interest credited that year |
| Cd.BalanceIsDepositPlusInterest | app/cd-calculator/page.tsx:44-48 | after any number of periods the balance is the deposit plus the interest credited |
| Cd.UntaxedCompounding | app/cd-calculator/page.tsx:41-47 | without tax, no tax is paid and the deposit compounds at the periodic rate |
| Cd.UntaxedStep | app/cd-calculator/page.tsx:42-46 | an untaxed period multiplies the balance by 1 plus the periodic rate |
| Cd.TaxProportion | app/cd-calculator/page.tsx:43-45 | the interest credited and the tax split the gross interest in the proportion (1 − taxRate) : taxRate |
| Cd.ProportionStep | app/cd-calculator/page.tsx:43-45 | one period keeps the credited interest and the tax in that proportion |
| Cd.NextPeriodNoLower | app/cd-calculator/page.tsx:41-47 | for a deposit and a rate that are not negative and a tax rate of at most 1, balance, interest and tax never fall from one period to the next |
| Cd.BalanceNonNegative | app/cd-calculator/page.tsx:41-47 | under those conditions the balance stays non-negative |
| CoastFire.Growth | app/coast-fire-calc/utils/calculations.ts:43 | Math.pow(1 + r, years) for a real number of years: positive for r above −1, 1 for no years, at least 1 when the rate and the years are not negative |
| CoastFire.CoastFireNumber | app/coast-fire-calc/utils/calculations.ts:42-43 | with no years left the Coast FIRE number is the whole retirement target; it is positive exactly when the target is; with a non-negative real return and time left it never exceeds the target |
| CoastFire.ProjectedNetWorth | app/coast-fire-calc/utils/calculations.ts:46 | with no years left the projection is today's savings; with savings, return and years not negative it never falls below them |
| CoastFire.CoastNumberGrowsToTarget | app/coast-fire-calc/utils/calculations.ts:42-43 | the Coast FIRE number grows to exactly the retirement target by retirement, for any real number of years |
| CoastFire.CoastFireIffOnTrack | app/coast-fire-calc/utils/calculations.ts:42-49 | savings reach the Coast FIRE number exactly when, left to grow, they reach the target |
| CoastFire.FactorIsAccumulated | app/coast-fire-calc/utils/calculations.ts:94 | on a whole number of months the annuity factor (q^m − 1) / rate is the value at retirement of m monthly contributions of 1 |
| CoastFire.FactorIsAccumulatedOnWhole | app/coast-fire-calc/utils/calculations.ts:94 | the same for a real month count that happens to be whole, with Math.pow on it |
| CoastFire.AccumulatedStep | app/coast-fire-calc/utils/calculations.ts:94 | one more month of the annuity factor, in closed form |
| CoastFire.FutureValueFactor | app/coast-fire-calc/utils/calculations.ts:89-94 | the annuity factor (the month count at a zero rate) is positive for any positive real month count, and on a whole month count it is the value of that many contributions of 1 |
| CoastFire.MonthlyContribution | app/coast-fire-calc/utils/calculations.ts:79-96 | nothing when no years are left; otherwise the amount whose product with the annuity factor over years × 12 months, fractional or not, is the target; on whole months, paid at the end of each month and grown at the monthly rate, it is worth exactly the target, also at a zero rate; never negative for a non-negative target |
| CoastFire.Rows | app/coast-fire-calc/utils/calculations.ts:114 | the loop from the current age by steps of 1 while the age does not pass retirement runs at least once exactly when the current age is not past retirement, and its last age is less than a year before retirement |
| CoastFire.ProjectionAt | app/coast-fire-calc/utils/calculations.ts:115-132 | row i: age currentAge + i and year currentYear + i, the savings grown for i years, and the Coast FIRE number for the years still left, or the full target once none are left |
| CoastFire.ProjectionData | app/coast-fire-calc/utils/calculations.ts:98-136 | one row per loop turn, row i as above; the first holds today's savings at today's age, the last is less than a year before retirement, and when the gap is a whole number of years the last is at retirement with the full target |
| CoastFire.CalculateCoastFire | app/coast-fire-calc/utils/calculations.ts:27-77 | for real ages: the Coast FIRE number, the projection and the shortfall; the savings count as Coast FIRE exactly when they reach the number, exactly when the grown savings reach the target, and exactly when the shortfall is 0; the monthly contribution is 0 then and otherwise the annuity payment for the shortfall; the projection is the loop's rows |
| ChronologicalAge.DaysInPreviousMonth | app/chronological-age-calculator/page.tsx:39-40 | day 0 of the target's month, with the constructor reading years 0 to 99 as 1900 + year, is 28 to 31 and is the previous month's length exactly except in March of year 0 |
| ChronologicalAge.PreviousMonthLength | app/chronological-age-calculator/page.tsx:39-40 | the length of the month before the target's month is 28 to 31 days |
| ChronologicalAge.PreviousMonthIsDayZero | app/chronological-age-calculator/page.tsx:39-40 | the borrowed month length is the day of the month of Date.UTC(year, monthIndex, 0), the day before the first of the target's month, with the year read as the Date constructor reads it |
| ChronologicalAge.YearsMonthsDays | app/chronological-age-calculator/page.tsx:31-47 | the months are 0 to 11; a target not before the birth date gives non-negative years; the corrected count never gives negative days |
| ChronologicalAge.Totals | app/chronological-age-calculator/page.tsx:50-54 | hours, minutes and seconds are 24, 60 and 60 times the one before, from the whole days elapsed |
| ChronologicalAge.CalculateAge | app/chronological-age-calculator/page.tsx:19-71 | an unreadable date and a birth date after the target each give their message, and an age is given exactly otherwise; the age has non-negative years, months 0 to 11, weeks ≥ 0 and days 0 to 6 making up the corrected day count, total days equal to the days elapsed, and hours, minutes and seconds to match |
| ChronologicalAge.HandleCalculate | app/chronological-age-calculator/page.tsx:88-105 | an empty birth date and then an empty target date each give their message; otherwise the calculation on the dates as new Date reads the ISO "YYYY-MM-DD" text, years kept literally |
| ChronologicalAge.AgeOfDateInputs | app/chronological-age-calculator/page.tsx:20-21 | on the values of two date inputs, years 0 to 9999, the calculation runs on exactly the days entered, so a birth year 0050 stays year 50 (the age is then the corrected count) |
| Calendar.ParseIsoDate | app/chronological-age-calculator/page.tsx:20-21 | new Date on the ISO date-only form: a date is read only from a "YYYY-MM-DD" text, and it is a valid date of a year from 0 to 9999 |
| Calendar.ParseDateInputValue | app/chronological-age-calculator/page.tsx:20-21 | round trip: the "YYYY-MM-DD" value of any date of a year from 0 to 9999 reads back as that date, years 0 to 99 included |
| Calendar.IsoDatesAreDateInputValues | app/chronological-age-calculator/page.tsx:20-21 | conversely, every text read as a date is that date's "YYYY-MM-DD" value, so the reading accepts exactly those texts |
| ChronologicalAge.MonthIndexInjective | app/chronological-age-calculator/page.tsx:31-32 | a month index names one year and month |
| ChronologicalAge.PreviousMonthEnds | app/chronological-age-calculator/page.tsx:39 | day 0 of the target's month is the last day of the month before it |
| ChronologicalAge.MonthsBetween | app/chronological-age-calculator/page.tsx:31-47 | years and months together count the months between the two dates' months, less one borrowed month when the day is not yet reached; the corrected days count from the birth day, capped at the previous month's length |
| ChronologicalAge.AddMonths | app/chronological-age-calculator/page.tsx:31-47 | the date some months on from a valid date is valid |
| ChronologicalAge.SpanWithinMonth | app/chronological-age-calculator/page.tsx:33 | without a borrowed month the target is the birth day of the target's month plus the days |
| ChronologicalAge.DaysAcrossMonthEnd | app/chronological-age-calculator/page.tsx:36-41 | from a day of one month to a day of the next: the rest of the first month, then the day |
| ChronologicalAge.SpanAcrossMonthEnd | app/chronological-age-calculator/page.tsx:36-41 | with a borrowed month, the rest of the previous month and the target's day make the corrected days |
| ChronologicalAge.AgeSpansDates | app/chronological-age-calculator/page.tsx:31-47 | the corrected years, months and days lead from the birth date to the target date |
| ChronologicalAge.AgreeWhenDayFits | app/chronological-age-calculator/page.tsx:36-41 | as written and corrected agree whenever the birth day fits in the month before the target's, outside March of year 0 |
| ChronologicalAge.YearZeroFebruaryAsWritten | app/chronological-age-calculator/page.tsx:39-40 | as written, 0000-01-28 to 0000-03-01 is one month and one day because February's length comes from 1900; corrected, it is one month and two days |
| ChronologicalAge.NegativeDaysAsWritten | app/chronological-age-calculator/page.tsx:36-41 | as written, 2023-01-31 to 2023-03-01 is one month and −2 days, shown as −1 weeks and −2 days; corrected, it is one month and one day |
| ChronologicalAge.DocumentedExamples | app/chronological-age-calculator/page.tsx:199-206 | 2000-01-01 to 2001-01-01 is one year, and 20 February to 20 March is one month |
| Period.DateOf | app/period-calculator/utils/calculations.ts:34 | the calendar date of a day number is valid and has that day number |
| Period.Shift | app/period-calculator/utils/calculations.ts:34-47 | setDate(getDate() + k) gives a date exactly when the date is valid and k is a number, and then it is k days on |
| Period.CycleOffset | app/period-calculator/utils/calculations.ts:34 | i * cycleLength is a number exactly when the cycle length is |
| Period.NextOffset | app/period-calculator/utils/calculations.ts:34 | cycle i + 1 starts one cycle length after cycle i |
| Period.Prediction | app/period-calculator/utils/calculations.ts:32-61 | cycle i is numbered i + 1; a NaN cycle length leaves every date invalid and a NaN period duration the period end only; otherwise its period starts i cycle lengths after the last one and lasts periodDuration days, ovulation is 14 days before the next cycle starts, and the fertile window runs from 5 days before ovulation to ovulation |
| Period.CalculateFutureCycles | app/period-calculator/utils/calculations.ts:18-65 | no predictions without a date; otherwise one per requested cycle, cycle i being the prediction for i, invalid dates included |
| Period.CalculateFutureCyclesDefault | app/period-calculator/utils/calculations.ts:18-23 | with no count given, six predictions, cycle i being the prediction for i, invalid dates included; none without a date |
| Period.HandleCalculate | app/period-calculator/page.tsx:26-34 | no predictions exactly when the date is missing or a period duration or cycle length is at most 0; a cleared field passes that check, giving six cycles whose dates are all invalid (cleared cycle length) or whose period end alone is (cleared period duration) |
| Period.ShiftIsSetDate | app/period-calculator/utils/calculations.ts:34 | moving a date by k days with setDate lands on the date whose day number is k more |
| Period.CyclesFollowEachOther | app/period-calculator/utils/calculations.ts:32-61 | for a numeric cycle length, consecutive cycles are one cycle length apart, and each ovulation is 14 days before the next period starts |
| Period.CyclesInOrder | app/period-calculator/utils/calculations.ts:32-34 | for a cycle length that is not negative, a later cycle never starts earlier |
| Period.FertileWindowAfterPeriod | app/period-calculator/utils/calculations.ts:36-52 | the fertile window spans six days ending on ovulation, and it opens after the period ends exactly when the period lasts at most cycleLength − 19 days |
| Ivf.DaysToAdd | app/ivf-due-date-calculator/page.tsx:48-65 | a 3-day transfer adds 263 days, a 5-day transfer 261, donor eggs 266, and 'other' 266 less the embryo's days |
| Ivf.EmbryoAge | app/ivf-due-date-calculator/page.tsx:48-65 | the embryo's age and the type's offset add up to the 266 days of gestation from fertilisation; the fixed types are 0 to 5 days old |
| Ivf.CalculateDueDate | app/ivf-due-date-calculator/page.tsx:41-73 | no due date exactly when no date is picked; an invalid time (format throws) exactly when the type is 'other' and the days field is cleared (NaN); otherwise the day the transfer type's offset lands on, with its explanation, a cleared field counting as 0 for the other types |
| Ivf.ClearedDaysFieldOnlyFailsOther | app/ivf-due-date-calculator/page.tsx:61-71 | a cleared days field makes the calculation fail exactly for the 'other' type; every other type gives the same due date as with the field at 0 |
| Ivf.DueDateIsGestationAfterFertilisation | app/ivf-due-date-calculator/page.tsx:48-65 | every offset is 266 days less the embryo's age, so the due date is 266 days after fertilisation and each fixed type agrees with 'other' given the same age |
| Ivf.LocalDayOfUtcMidnight | app/ivf-due-date-calculator/page.tsx:44 | the local day of a UTC midnight is the previous day west of UTC and the same day otherwise |
| Ivf.IsoDayOfLocalMidnight | app/ivf-due-date-calculator/page.tsx:35 | toISOString of a local midnight names the previous day east of UTC and the same day otherwise |
| Ivf.DueDayAsWrittenIsEarly | app/ivf-due-date-calculator/page.tsx:32-73 | as written, the due date shown is one day early at every offset but UTC |
| Ivf.EastOfUtcExample | app/ivf-due-date-calculator/page.tsx:32-73 | a 3-day transfer picked on 2024-01-10 two hours east of UTC shows 2024-09-28, where 263 days after it is 2024-09-29 |
| Era.AbsInt | app/era-calculator/page.tsx:54 | Math.abs: the magnitude, either the number or its negation |
| Era.ShowInEras | app/era-calculator/page.tsx:53-60 | CE and BCE both show the CE text; the Hebrew year is the CE year plus 3760 AM; the Japanese era is the table's; Hijri shows "N/A" exactly before 622 CE, and Buddhist shows "N/A" exactly before −542, showing year + 543 BE otherwise |
| Era.ConvertToEras | app/era-calculator/page.tsx:20-60 | a positive year entered in CE, BCE or the Buddhist era, and any Hebrew year, is shown unchanged in its own era's field |
| Era.HandleCalculate | app/era-calculator/page.tsx:87-117 | a blank year, a year that does not read as a positive number, and a year above 10000 each give their message, in that order and exactly in those cases, and every failure carries one of those three messages; otherwise the year read, the era upper-cased and its conversions |
| Era.EraIgnoresCase | app/era-calculator/page.tsx:24 | the era is matched ignoring case: any spelling converts as its lower-case name |
| Era.LowerCaseEraNames | app/era-calculator/page.tsx:24-50 | an era name with no upper-case letter is matched as it is |
| Era.OwnEraRoundTrip | app/era-calculator/page.tsx:20-60 | a positive year entered as CE or BCE reads back as that year in that era, and Hebrew and Buddhist years convert back to themselves |
| Era.JapaneseEraByTable | app/era-calculator/page.tsx:63-78 | getJapaneseEra is year n of the latest era begun (Reiwa 2019, Heisei 1989, Showa 1926, Taisho 1912, Meiji 1868), year 1 being its first year; before 1868 there is no era |
| Era.EraTableEntry | app/era-calculator/page.tsx:65-74 | a year in the table's first era shows as the era's name, a space and the number of years since it began, counting from 1 |
| Era.EraFirstYears | app/era-calculator/page.tsx:65-74 | 2019, 1989, 1926, 1912 and 1868 are year 1 of Reiwa, Heisei, Showa, Taisho and Meiji |
| ApLang.StackedDescend | app/ap-lang-calculator/page.tsx:11-33 | in a table listed top down with no gaps, every lower band lies wholly below, and scores less than, every higher band |
| ApLang.StackedPartition | app/ap-lang-calculator/page.tsx:11-33 | such a table's bands are disjoint and cover everything from the lowest minimum to the top maximum |
| ApLang.RangesStacked | app/ap-lang-calculator/page.tsx:11-33 | each year's five bands run from 150 at the top down to 0, each starting just above the next |
| ApLang.BandsPartition | app/ap-lang-calculator/page.tsx:11-33 | each year's bands are disjoint and cover the composite range 0 to 150 |
| ApLang.BandScoreOfContainingBand | app/ap-lang-calculator/page.tsx:50-58 | with disjoint bands, the score found is the score of the band containing the composite, whatever the search order |
| ApLang.BandScoreInRange | app/ap-lang-calculator/page.tsx:50-58 | with band scores from 1 to 5, the score found is from 1 to 5, the default of 1 included |
| ApLang.Composite | app/ap-lang-calculator/page.tsx:44-48 | from in-range section scores (multiple choice 0–45, essays 0–6), the rounded composite is 0 to 150 |
| ApLang.ClampedInput | app/ap-lang-calculator/page.tsx:128 | a field's onChange value lies from 0 to the field's maximum; a typed number in range is kept, and unreadable text counts as 0 |
| ApLang.ApLangCalculator.constructor | app/ap-lang-calculator/page.tsx:36-41 | all four section scores 0, the 2025 table, and no result |
| ApLang.ApLangCalculator.SetMcqScore | app/ap-lang-calculator/page.tsx:128 | the multiple-choice score becomes the typed number clamped to 0–45; nothing else changes |
| ApLang.ApLangCalculator.SetSynthesisScore | app/ap-lang-calculator/page.tsx:147 | the synthesis essay score becomes the typed number clamped to 0–6; nothing else changes |
| ApLang.ApLangCalculator.SetRhetoricalScore | app/ap-lang-calculator/page.tsx:163 | the rhetorical analysis score becomes the typed number clamped to 0–6; nothing else changes |
| ApLang.ApLangCalculator.SetArgumentScore | app/ap-lang-calculator/page.tsx:179 | the argument essay score becomes the typed number clamped to 0–6; nothing else changes |
| ApLang.ApLangCalculator.SetSelectedYear | app/ap-lang-calculator/page.tsx:109 | the conversion year becomes the chosen one; nothing else changes |
| ApLang.ApLangCalculator.CalculateScore | app/ap-lang-calculator/page.tsx:43-72 | the result holds the composite, the score of the first band of the chosen year that contains it (1 if none), and that score's percentile; the inputs stay as they are |
| ApLang.Percentile | app/ap-lang-calculator/page.tsx:60-65 | "~18.0%" exactly for a score outside 2..5, i.e. the score 1; every percentile text is "~…%" |
| ApLang.ScoreColor | app/ap-lang-calculator/page.tsx:82-86 | green exactly for 4 and up, yellow exactly for 3, red exactly for 2 and below |
| ApLang.ApLangCalculator.ResetCalculator | app/ap-lang-calculator/page.tsx:74-80 | the four section scores return to 0 and the result is cleared; the year is kept |
| ApLang.ScoreOfBands | app/ap-lang-calculator/page.tsx:51-58 | the loop with its break finds the score of the first band containing the total, 1 when none does |
| ApLang.ApScoreIsBandOfComposite | app/ap-lang-calculator/page.tsx:43-58 | for a composite of 0 to 150, in every year, the AP score is the score of the band containing it, and is 1 to 5 |
| ApLang.ApScoreMonotone | app/ap-lang-calculator/page.tsx:43-58 | in every year a higher composite never earns a lower AP score |
| Acft.LimitIn | app/acft-calculator/page.tsx:37-40 | a limit is found exactly when some band of the group holds the age |
| Acft.FirstBandHolding | app/acft-calculator/page.tsx:37-39 | the search returns the limit of the first band that holds the age |
| Acft.GetLimit | app/acft-calculator/page.tsx:34-41 | a limit is found only for "male" or "female" and an age within the table, 17 to 150 |
| Acft.BandOf | app/acft-calculator/page.tsx:19-32 | the band index of an age in a four-band table is 0 to 3 |
| Acft.LimitTable | app/acft-calculator/page.tsx:19-41 | for ages 17 to 150 the limits are 20, 22, 24 and 26 percent for men and 30, 32, 34 and 36 for women, rising by 2 at 21, 28 and 40; other ages and other genders have no limit |
| Acft.LimitsByAgeAndGender | app/acft-calculator/page.tsx:19-41 | across valid ages an older soldier never gets a stricter limit, and a woman's limit is a man's plus ten points |
| Acft.Log10 | app/acft-calculator/page.tsx:13-15 | Math.log10 is NaN exactly below 0 and −Infinity exactly at 0 |
| Acft.BodyFat | app/acft-calculator/page.tsx:7-17 | the Army circumference formula (86.010·log10(waist − neck) − 70.041·log10(height) + 36.76 for men, 163.205·log10(waist + hip − neck) − 97.684·log10(height) − 78.387 otherwise) is a number exactly when the height and the logarithm's argument are positive; a zero argument gives −Infinity, a negative one or a negative height NaN, a zero height +Infinity |
| Acft.HandleCalculate | app/acft-calculator/page.tsx:52-70 | a missing height, neck, waist or age, or a missing hip for a woman, gives the missing-values message exactly then; otherwise no limit gives the age message exactly then; otherwise the estimate, the limit, and a pass exactly when JavaScript's estimate <= limit holds |
| Acft.DegenerateMeasurements | app/acft-calculator/page.tsx:7-17 | with a positive height and a limit, a waist below the neck fails with a NaN estimate, a waist equal to it passes with −Infinity, and a larger one gives a number |
| Asphalt.Find | app/asphalt_calculator/page.tsx:22 | the unit found is one on the list with that value; none is found exactly when none has it |
| Asphalt.ConvertLength | app/asphalt_calculator/page.tsx:21-24 | metres stay, feet are multiplied by 0.3048, inches by 0.0254, and an unknown unit leaves the value unchanged |
| Asphalt.ConvertThickness | app/asphalt_calculator/page.tsx:25-28 | inches are multiplied by 0.0254, metres stay, and an unknown unit leaves the value unchanged |
| Asphalt.Calculate | app/asphalt_calculator/page.tsx:41-71 | the message exactly when a value is not a number; otherwise the LB/(SY·in) unit weight gives short tons from feet, feet and inches, and every other unit gives volume in m³ times the unit weight in t/m³, with kg/m³ scaled by 0.001 |
| Asphalt.PathsConvertAlike | app/asphalt_calculator/page.tsx:51-66 | for every unit offered, the pounds path's feet and inches are the metric path's metres converted, so the two paths see the same slab |
| Asphalt.MetricPathGivesTonnes | app/asphalt_calculator/page.tsx:61-70 | for the same slab and unit weight, the metric path shows 0.90718474 times the pounds path's figure: tonnes under a short-tons label |
| Asphalt.OneCubicMetreExample | app/asphalt_calculator/page.tsx:61-70 | as written, one cubic metre at 1 t/m³ shows 1 short ton, where it weighs more than 1.1 short tons |
| Asphalt.CorrectedPathsAgree | app/asphalt_calculator/page.tsx:51-70 | with the metric figure restated in short tons, both paths give the same mass for the same slab |
| DewPoint.ToCelsius | app/dew-point-calculator/page.tsx:37-42 | °F is converted by (v − 32)·5/9, K by v − 273.15, and °C or any other unit is left as it is |
| DewPoint.FromCelsius | app/dew-point-calculator/page.tsx:44-49 | °C to °F by v·9/5 + 32 and to K by v + 273.15; °C or any other unit is left as it is |
| DewPoint.ConversionsInverse | app/dew-point-calculator/page.tsx:37-49 | for every unit, converting to °C and back gives the value again, in both orders |
| DewPoint.FixedPoints | app/dew-point-calculator/page.tsx:37-49 | 32 °F and 273.15 K are 0 °C, 212 °F and 373.15 K are 100 °C, and −40 °C is −40 °F |
| DewPoint.Show | app/dew-point-calculator/page.tsx:59-66 | the three figures shown for a temperature each read back, in their unit, as that temperature in °C, under the given title |
| DewPoint.TwoDecimals | app/dew-point-calculator/page.tsx:94 | the humidity written back to its field with two decimals is within 0.005 of the computed one |
| DewPoint.Filled | app/dew-point-calculator/page.tsx:72-75 | the count of filled fields is at most 3, and it is exactly 2 when exactly one field is blank |
| DewPoint.DewPointCalculator.constructor | app/dew-point-calculator/page.tsx:52-57 | blank fields, both units °F, and no result |
| DewPoint.DewPointCalculator.SetTemperature | app/dew-point-calculator/page.tsx:107-110 | the temperature field takes the new value and the result is cleared; nothing else changes |
| DewPoint.DewPointCalculator.SetHumidity | app/dew-point-calculator/page.tsx:107-110 | the humidity field takes the new value and the result is cleared; nothing else changes |
| DewPoint.DewPointCalculator.SetDewPoint | app/dew-point-calculator/page.tsx:107-110 | the dew point field takes the new value and the result is cleared; nothing else changes |
| DewPoint.DewPointCalculator.SetTempUnit | app/dew-point-calculator/page.tsx:55 | the temperature unit changes; the fields and the result stay |
| DewPoint.DewPointCalculator.SetDewUnit | app/dew-point-calculator/page.tsx:56 | the dew point unit changes; the fields and the result stay |
| DewPoint.DewPointCalculator.HandleCalculate | app/dew-point-calculator/page.tsx:68-105 | unless exactly two fields are filled, the message and no change; temperature and humidity give the dew point in three units and clear the dew point field; temperature and dew point give the humidity, written back with two decimals; dew point and humidity give the air temperature and clear the temperature field; a humidity entered, or computed, outside (0, 100] gives its message instead; the units never change |
| ScientificCalculator.KeyToken | app/components/ScientificCalculator.tsx:77-113 | the function keys append their function name and an opening parenthesis or their operator (sin⁻¹ as asin(, ln as log(, log as log10(, x² as ^2, 1/x as 1/(), and every other key appends its own label |
| ScientificCalculator.Appended | app/components/ScientificCalculator.tsx:61-113 | a control key appends nothing and every other key appends something; Ans appends the last answer, MR the memory's text, and the remaining keys their token |
| ScientificCalculator.ToggleSign | app/components/ScientificCalculator.tsx:73-74 | a leading '-' is dropped, otherwise one is added in front; an empty expression stays empty |
| ScientificCalculator.ToggleSignTwice | app/components/ScientificCalculator.tsx:73-74 | pressing ± twice restores the expression exactly when it is not the lone "-" and does not start with "--" |
| ScientificCalculator.DropLast | app/components/ScientificCalculator.tsx:48-49 | Back removes just the last character: what is left, followed by that character, is the old expression; empty stays empty |
| ScientificCalculator.MemoryAfter | app/components/ScientificCalculator.tsx:65-68 | M+ adds and M− subtracts the result from the memory; the memory is a number exactly when both operands are |
| ScientificCalculator.MemoryAddThenSubtract | app/components/ScientificCalculator.tsx:65-68 | M+ then M− on the same numeric result leaves the memory as it was; a result that is not a number leaves NaN |
| ScientificCalculator.Record | app/components/ScientificCalculator.tsx:54-60 | a successful evaluation of a non-blank expression that differs from the latest entry goes first, with the older entries after it, cut to 20; otherwise the history is unchanged |
| ScientificCalculator.RecordKeepsGood | app/components/ScientificCalculator.tsx:54-60 | the history keeps at most 20 entries, none an error or a blank expression, and no entry equal to the one after it |
| ScientificCalculator.Calculator.constructor | app/components/ScientificCalculator.tsx:16-21 | empty expression and result, no history, degrees, memory 0, no last answer |
| ScientificCalculator.Calculator.Click | app/components/ScientificCalculator.tsx:43-114 | Deg and Rad set the angle mode; AC clears expression and result; Back drops a character; = shows and remembers the evaluation and records it; M+ and M− update the memory; ± toggles the sign; any other key appends its text; nothing else changes, and the history stays good |
| ScientificCalculator.Calculator.ClearHistory | app/components/ScientificCalculator.tsx:145-148 | the history is emptied and nothing else changes |
| CalculatorGroups.FilterCalculators | app/components/CalculatorGroups.tsx:126-129 | the calculators kept are exactly those whose name or description contains the search, ignoring case, in their order, each as many times as in the list |
| CalculatorGroups.NarrowGroups | app/components/CalculatorGroups.tsx:124-129 | every group is kept with its name and its calculators filtered |
| CalculatorGroups.KeepGroups | app/components/CalculatorGroups.tsx:130 | the groups kept are exactly those with a calculator left, or all of them with no search, in their order, each as many times as in the list |
| CalculatorGroups.FilteredGroups | app/components/CalculatorGroups.tsx:124-130 | every group shown has a calculator left or there is no search, and every calculator shown matches the search |
| CalculatorGroups.ContainsEmpty | app/components/CalculatorGroups.tsx:127 | every text contains the empty text |
| CalculatorGroups.EverythingMatchesEmpty | app/components/CalculatorGroups.tsx:126-129 | every calculator matches the empty search |
| CalculatorGroups.FilterEmptySearch | app/components/CalculatorGroups.tsx:126-129 | the empty search keeps every calculator of a group |
| CalculatorGroups.KeepEmptySearch | app/components/CalculatorGroups.tsx:130 | the empty search keeps every group |
| CalculatorGroups.EmptySearchKeepsAll | app/components/CalculatorGroups.tsx:124-130 | with no search the page shows every group and every calculator, in their order |
| CalculatorGroups.FilterPreservesOrder | app/components/CalculatorGroups.tsx:124-130 | the groups shown are a subsequence of the groups, each with a subsequence of its calculators, and every calculator shown matches |
| CalculatorGroups.SearchDropsEmptyGroups | app/components/CalculatorGroups.tsx:130 | with a search, no group shown is empty |
| CalculatorGroups.MatchesAreShown | app/components/CalculatorGroups.tsx:124-130 | every matching calculator is shown, in a group of the same name |
| CalculatorGroups.NothingFoundIffNoMatch | app/components/CalculatorGroups.tsx:206 | "No calculators found" appears exactly when there is a search and no calculator of any group matches it |
| Strings.Split | app/time-card-calculator/utils/timeUtils.ts:4 | split on a one-character separator gives at least one part, two or more exactly when the separator occurs, and no part contains it |
| Strings.JoinSplit | app/time-card-calculator/utils/timeUtils.ts:74 | joining the parts of a split with the same separator gives the text back |
| Strings.NatToStringValue | app/time-card-calculator/utils/timeUtils.ts:69 | the decimal text of a natural number reads back as that number |
| Strings.ParseIntOfIntToString | app/era-calculator/page.tsx:96 | parseInt reads back the decimal text of any integer, whatever non-digit text follows it (short of an 'x' that would make a rendered 0 hexadecimal) |
| Strings.TrimEmptyIffBlank | app/era-calculator/page.tsx:91 | the trimmed text is empty exactly when the text is all white space |
| Strings.ToLowerIdempotent | app/components/CalculatorGroups.tsx:127 | lowering a text twice is the same as lowering it once |
| Strings.PadStart2 | app/time-card-calculator/utils/timeUtils.ts:69 | a text of two or more characters is kept; a shorter one is padded to two characters with leading zeros |
| Strings.ToLower | app/components/CalculatorGroups.tsx:127 | toLowerCase keeps the length and lowers each upper-case ASCII letter, leaving every other character as it is |
| Strings.ToUpper | app/era-calculator/page.tsx:111 | toUpperCase keeps the length and raises each lower-case ASCII letter, leaving every other character as it is |
| Numbers.Round | app/rounding-calculator/components/RoundingCalculator.tsx:103 | Math.round gives the integer nearest to x, a tie going up: x lies in [r − 0.5, r + 0.5) |
| Numbers.Floor | app/rounding-calculator/components/RoundingCalculator.tsx:107 | Math.floor gives the greatest integer not above x |
| Numbers.Ceil | app/rounding-calculator/components/RoundingCalculator.tsx:113 | Math.ceil gives the least integer not below x |
| Numbers.Trunc | app/rounding-calculator/components/RoundingCalculator.tsx:97 | Math.trunc drops the fractional part towards zero: floor for x ≥ 0, ceil below |
| Strings.ParseInt | app/era-calculator/page.tsx:96 | parseInt reads nothing from blank text, and a negative number only from text whose first non-blank character is '-' |
| Strings.ToNumber | app/time-card-calculator/utils/timeUtils.ts:4 | Number of blank text is 0; a number read from other text ends in a digit, and a negative one starts with '-' after trimming |
| Numbers.TurnsBelow | app/roth-ira-calculator/page.tsx:29 | the number of turns of for (i = 0; i < x; i++): the least whole number not below x, 0 for x ≤ 0 |
| Numbers.Divide | app/payment-calculator/page.tsx:59 | JavaScript division of reals: a number exactly when the divisor is not 0, then the quotient; by 0, +Infinity, −Infinity or NaN by the sign of the dividend |
| Numbers.Plus | app/acft-calculator/page.tsx:13 | JavaScript addition: two numbers add, NaN exactly when either side is NaN or the infinities are opposite, and otherwise an infinity wins |
| Numbers.Times | app/payment-calculator/page.tsx:83 | multiplying a JavaScript number by a real: a number times k is the product, Infinity times 0 is NaN, NaN stays NaN |

## Left out

- Payment.CalculateFixedTerm, Payment.EqualPayment and LandLoan.CalculateAmortization require a positive interest rate: at a rate of 0 the formula is 0/0, NaN, for every term, and a negative rate is not a loan. A term of no months is modelled (±Infinity or NaN by the sign of the principal). Loan terms are whole years.
- CoastFire.CalculateCoastFire, CoastFire.ProjectionData, CoastFire.ProjectionAt, CoastFire.CoastFireNumber, CoastFire.ProjectedNetWorth, CoastFire.CoastNumberGrowsToTarget, CoastFire.CoastFireIffOnTrack, CoastFire.Growth, CoastFire.FutureValueFactor and CoastFire.MonthlyContribution exclude a zero withdrawal rate and a real return of −100% or below. There JavaScript gives Infinity or NaN, and Math.pow of a negative base with a fractional exponent is NaN. Ages and years are real numbers; Math.pow is a parameter constrained by the properties the proofs use (positive for a positive base, repeated multiplication on whole exponents, 1 for base 1, above or below 1 as the base is).
- Ivf.LocalDayOfUtcMidnight, Ivf.IsoDayOfLocalMidnight and Ivf.DueDayAsWrittenIsEarly hold for time-zone offsets of less than a day, which covers every real time zone.
- Floating point: numbers are exact reals. Comparisons against an epsilon become exact comparisons. toFixed, Number formatting and the 12-digit formatting of mathjs are not modelled, except where a figure is rounded before it is compared or stored.
- Transcendental formulas are function parameters: the Magnus dew-point formulas, Math.log10 of a positive number in the body-fat estimate (Acft.Log10 gives NaN and −Infinity below and at 0), the square root of the jam ratio, the conduit's average diameter, and Math.pow with a real exponent in the Coast FIRE calculator.
- Parsing of number fields with parseFloat and Number happens before the model: a field is an `Option<real>`, with None for blank or NaN. In the dew point page a non-empty field that does not read as a number counts as filled, which the model cannot express.
- Strings.ToNumber reads only optionally signed decimal integers, with surrounding white space. JavaScript's Number also accepts "1.5", "1e2", "0x10" and "Infinity"; the fields it reads in the model (the hours and minutes of a time input, the parts of a date input) only ever hold digits.
- Cd.CalculateCd takes a whole number of years and of compounding periods: the years field has step 1 and the compounding count comes from a select of whole numbers.
- Time zones: dates are calendar dates, except in the IVF page, whose time-zone shift is the subject of a finding. The period page (app/period-calculator/page.tsx:20) stores the toISOString day of the picked local midnight, which east of UTC is the day before; app/period-calculator/utils/calculations.ts:29 then turns that day into its local midnight, so east of UTC every prediction is one day early. The model starts from the stored day. The chronological age page (app/chronological-age-calculator/page.tsx:20-33) parses "YYYY-MM-DD" as UTC midnight and reads it with local getters, which west of UTC gives the day before for both dates; the model uses the calendar days entered.
- String order: localeCompare is code-unit order. For rows with a date, the time card's display sort by getTime orders by day number, which is the order of the YYYY-MM-DD texts.
- TimeCard.TimeCardCalculator.ProcessedEntriesForDisplay sorts a row whose date was cleared ("") before every dated row. In the source, new Date("").getTime() is NaN, so the comparator falls back to the start times alone whenever such a row is compared; that comparator is not a consistent order, and where the undated row lands depends on the engine's sort algorithm.
- Period.Shift keeps every day number a date; JavaScript makes a date more than 100,000,000 days from 1970 invalid, which cycle lengths in the millions would reach.
- Calendar.ParseIsoDate and ChronologicalAge.HandleCalculate read a "YYYY-MM-DD" text whose day its month does not have (2023-02-30) as an invalid date; some engines roll such a day over into the next month instead. A date input never holds such a text, nor one of another shape, which engines parse by their own fallback rules and the model reads as invalid.
- Case mapping covers ASCII letters only; toLowerCase and toUpperCase of other characters are not modelled.
- Identifiers, the current day, random numbers and evaluation are parameters: uuid, today's date, Math.random and the mathjs evaluate.
- The IVF switch's default branch cannot be reached with the transfer types offered, so there is no such value.
- The scientific calculator's history persistence in localStorage is left out; the memory register's float sums are exact sums.
- The contents of the home page's calculator list are a parameter, not a literal copy; the search is proved for every list.
- Rendering is left out: charts, JSX markup, PDF export, printing, the Header and Footer components, and the calculator builder.

## Findings

| source | as written | input that shows it | evidently intended | confidence | as-written member | corrected member |
|---|---|---|---|---|---|---|
| app/chronological-age-calculator/page.tsx:36-41 | when the day of the month is not yet reached, one month is borrowed and the length of the previous month is added once; a birth day later than that month's length leaves the days negative | birth 2023-01-31, target 2023-03-01: 1 month and −2 days, shown as −1 weeks and −2 days | 1 month and 1 day, counting from the birth day capped at the previous month's length | high, not executed | ChronologicalAge.NegativeDaysAsWritten | ChronologicalAge.AgeSpansDates |
| app/ivf-due-date-calculator/page.tsx:32-44 | the picked local day goes through toISOString, is read back as UTC midnight and is shown in local time | a 3-day transfer picked on 2024-01-10 at UTC+2: the page shows 2024-09-28 | 263 days after the transfer, 2024-09-29, at every offset | high, not executed | Ivf.DueDayAsWrittenIsEarly | Ivf.CalculateDueDate |
| app/asphalt_calculator/page.tsx:61-70 | the metric path reports tonnes under the "short tons" label the pounds path uses | 1 m × 1 m × 1 m at 1 t/m³ shows 1.000 short tons | about 1.102 short tons, as the pounds path gives for the same slab | medium, not executed | Asphalt.MetricPathGivesTonnes | Asphalt.CorrectedPathsAgree |
| app/chronological-age-calculator/page.tsx:39-40 | the previous month's length is new Date(year, month, 0).getDate(), and the constructor reads a year from 0 to 99 as 1900 + year | birth 0000-01-28, target 0000-03-01: 1 month and 1 day, February of year 0 counted with 1900's 28 days | 1 month and 2 days, year 0 being a leap year | low, not executed; a date input never holds year 0 | ChronologicalAge.YearZeroFebruaryAsWritten | ChronologicalAge.AgeSpansDates |
