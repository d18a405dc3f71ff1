/**
 * The ACFT body-fat calculator: the Army's body-fat limit for a gender and an age band, and the
 * pass/fail verdict of a body-fat estimate against it, after the inputs are checked.
 */
module Acft {
  import opened Wrappers
  import opened Numbers

  /** One age band and its body-fat limit, in percent. */
  datatype AgeBand = AgeBand(min: int, max: int, limit: int)

  datatype Outcome =
    | Message(text: string)
    | Assessed(bodyFat: JsNumber, limit: int, pass: bool)

  const MissingValues := "Please enter all required values."
  const AgeOutOfRange := "Age out of range."

  const MinAge := 17
  const MaxAge := 150

  /** The limits for men, by age band. */
  const MaleLimits: seq<AgeBand> :=
    [AgeBand(17, 20, 20), AgeBand(21, 27, 22), AgeBand(28, 39, 24), AgeBand(40, 150, 26)]

  /** The limits for women, by age band. */
  const FemaleLimits: seq<AgeBand> :=
    [AgeBand(17, 20, 30), AgeBand(21, 27, 32), AgeBand(28, 39, 34), AgeBand(40, 150, 36)]

  /** The first band of a group that holds the age, if any. */
  function LimitIn(group: seq<AgeBand>, age: int): (r: Option<int>)
    ensures r.Some? <==> exists k :: 0 <= k < |group| && group[k].min <= age <= group[k].max
  {
    if |group| == 0 then None
    else if group[0].min <= age <= group[0].max then Some(group[0].limit)
    else
      var r := LimitIn(group[1..], age);
      assert forall k :: 1 <= k < |group| ==> group[k] == group[1..][k - 1];
      r
  }

  /** getLimit: the group of the gender ("male" or "female"), then the band of the age; null otherwise. */
  function GetLimit(gender: string, age: int): (r: Option<int>)
    ensures r.Some? ==> (gender == "male" || gender == "female") && MinAge <= age <= MaxAge
  {
    if gender == "male" then LimitIn(MaleLimits, age)
    else if gender == "female" then LimitIn(FemaleLimits, age)
    else None
  }

  /** The limit by thresholds: the base limit rises by 2 at ages 21, 28 and 40. */
  function LimitByAge(base: int, age: int): int
  {
    if age <= 20 then base else if age <= 27 then base + 2 else if age <= 39 then base + 4 else base + 6
  }

  /** The search returns the limit of the first band that holds the age. */
  lemma {:induction false} FirstBandHolding(group: seq<AgeBand>, age: int, k: int)
    requires 0 <= k < |group| && group[k].min <= age <= group[k].max
    requires forall j :: 0 <= j < k ==> !(group[j].min <= age <= group[j].max)
    ensures LimitIn(group, age) == Some(group[k].limit)
  {
    if k > 0 {
      FirstBandHolding(group[1..], age, k - 1);
    }
  }

  /** The band of an age from 17 to 150 in a group laid out like the limit tables. */
  function BandOf(age: int): (k: int)
    ensures 0 <= k < 4
  {
    if age <= 20 then 0 else if age <= 27 then 1 else if age <= 39 then 2 else 3
  }

  /**
   * The limits as the standard states them: 20, 22, 24 and 26 percent for men and 30, 32, 34 and 36
   * for women, for ages 17–20, 21–27, 28–39 and 40–150; no limit outside those ages or for any
   * other gender.
   */
  lemma LimitTable(gender: string, age: int)
    ensures MinAge <= age <= MaxAge ==>
      GetLimit("male", age) == Some(LimitByAge(20, age)) && GetLimit("female", age) == Some(LimitByAge(30, age))
    ensures !(MinAge <= age <= MaxAge) ==> GetLimit("male", age).None? && GetLimit("female", age).None?
    ensures gender != "male" && gender != "female" ==> GetLimit(gender, age).None?
  {
    if MinAge <= age <= MaxAge {
      FirstBandHolding(MaleLimits, age, BandOf(age));
      FirstBandHolding(FemaleLimits, age, BandOf(age));
    }
  }

  /** Older soldiers never get a stricter limit, and women's limit is men's plus ten points. */
  lemma LimitsByAgeAndGender(a: int, b: int)
    requires MinAge <= a <= b <= MaxAge
    ensures var ma, mb, fa, fb := GetLimit("male", a), GetLimit("male", b), GetLimit("female", a), GetLimit("female", b);
      && ma.Some? && mb.Some? && fa.Some? && fb.Some?
      && ma.value <= mb.value && fa.value <= fb.value && fa.value == ma.value + 10
  {
    LimitTable("", a);
    LimitTable("", b);
  }

  /** Math.log10: NaN below 0, -Infinity at 0, and the parameter log10 on positive numbers. */
  function Log10(log10: real -> real, x: real): (y: JsNumber)
    ensures y.NaN? <==> x < 0.0
    ensures y == Infinity(false) <==> x == 0.0
    ensures x > 0.0 ==> y == Finite(log10(x))
  {
    if x < 0.0 then NaN else if x == 0.0 then Infinity(false) else Finite(log10(x))
  }

  /**
   * What the estimate takes the logarithm of besides the height: waist minus neck for a man; for
   * anyone else waist plus hip minus neck, a missing hip counting as 0 (hip || 0).
   */
  function LogArgument(gender: string, neck: real, waist: real, hip: Option<real>): real
  {
    if gender == "male" then waist - neck
    else waist + (if hip.Some? then hip.value else 0.0) - neck
  }

  /**
   * calculateBodyFat, in JavaScript numbers: the Army's circumference formula, which is a number
   * exactly when the height and the logarithm's argument are positive. An argument of 0 gives
   * -Infinity, a negative one NaN; a height of 0 gives +Infinity, a negative one NaN.
   */
  function BodyFat(log10: real -> real, gender: string, height: real, neck: real, waist: real, hip: Option<real>): (bf: JsNumber)
    ensures var arg := LogArgument(gender, neck, waist, hip);
      && (bf.Finite? <==> height > 0.0 && arg > 0.0)
      && (height < 0.0 || arg < 0.0 ==> bf.NaN?)
      && (height > 0.0 && arg == 0.0 ==> bf == Infinity(false))
      && (height == 0.0 && arg > 0.0 ==> bf == Infinity(true))
      && (height == 0.0 && arg == 0.0 ==> bf.NaN?)
    ensures height > 0.0 && LogArgument(gender, neck, waist, hip) > 0.0 ==>
      bf.value == if gender == "male"
        then 86.010 * log10(waist - neck) - 70.041 * log10(height) + 36.76
        else 163.205 * log10(LogArgument(gender, neck, waist, hip)) - 97.684 * log10(height) - 78.387
  {
    var arg := LogArgument(gender, neck, waist, hip);
    if gender == "male" then
      Plus(Plus(Times(Log10(log10, arg), 86.010), Times(Log10(log10, height), -70.041)), Finite(36.76))
    else
      Plus(Plus(Times(Log10(log10, arg), 163.205), Times(Log10(log10, height), -97.684)), Finite(-78.387))
  }

  /**
   * handleCalculate: a missing height, neck, waist or age, or a missing hip for a woman, gives the
   * missing-values message; no limit for the gender and age gives the age message; otherwise the
   * estimate is assessed against the limit and passes when JavaScript's bf <= limit holds, which
   * NaN never does and -Infinity always does. The hip enters the estimate only for a woman.
   */
  function HandleCalculate(
    gender: string, height: Option<real>, neck: Option<real>, waist: Option<real>, hip: Option<real>,
    age: Option<int>, log10: real -> real): (r: Outcome)
    ensures r == Message(MissingValues) <==>
      height.None? || neck.None? || waist.None? || age.None? || (gender == "female" && hip.None?)
    ensures r == Message(AgeOutOfRange) <==>
      !(height.None? || neck.None? || waist.None? || age.None? || (gender == "female" && hip.None?))
      && GetLimit(gender, age.value).None?
    ensures r.Message? ==> r.text == MissingValues || r.text == AgeOutOfRange
    ensures r.Assessed? ==> (
      && GetLimit(gender, age.value) == Some(r.limit)
      && r.bodyFat == BodyFat(log10, gender, height.value, neck.value, waist.value, if gender == "female" then hip else None)
      && (r.pass <==> AtMost(r.bodyFat, r.limit as real)))
  {
    if height.None? || neck.None? || waist.None? || age.None? || (gender == "female" && hip.None?) then
      Message(MissingValues)
    else
      var bf := BodyFat(log10, gender, height.value, neck.value, waist.value, if gender == "female" then hip else None);
      var limit := GetLimit(gender, age.value);
      if limit.None? then Message(AgeOutOfRange)
      else Assessed(bf, limit.value, AtMost(bf, limit.value as real))
  }

  /**
   * Measurements the formula cannot take still get a verdict: with a positive height, a waist
   * below the neck (for a woman, waist plus hip below the neck) fails with a NaN estimate, and a
   * waist equal to it passes with an estimate of -Infinity.
   */
  lemma DegenerateMeasurements(gender: string, height: real, neck: real, waist: real, hip: Option<real>, age: int, log10: real -> real)
    requires height > 0.0 && GetLimit(gender, age).Some? && (gender == "female" ==> hip.Some?)
    ensures var r := HandleCalculate(gender, Some(height), Some(neck), Some(waist), hip, Some(age), log10);
      var arg := LogArgument(gender, neck, waist, hip);
      && r.Assessed?
      && (arg < 0.0 ==> r.bodyFat.NaN? && !r.pass)
      && (arg == 0.0 ==> r.bodyFat == Infinity(false) && r.pass)
      && (arg > 0.0 ==> r.bodyFat.Finite?)
  {
  }
}
