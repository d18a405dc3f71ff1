/**
 * The era calculator: a positive year in one era (CE/AD, BCE/BC, Hijri/AH, Hebrew/AM or
 * Buddhist/BE) is turned into a CE year (where 0 is 1 BCE and −1 is 2 BCE), and that year is shown
 * in every era, with the Japanese era name from 1868 on.
 */
module Era {
  import opened Wrappers
  import opened Numbers
  import opened Strings

  datatype Conversions = Conversions(
    ce: string,
    bce: string,
    hijri: string,
    hebrew: string,
    buddhist: string,
    japanese: string)

  datatype Outcome =
    | Converted(inputYear: int, inputEra: string, conversions: Conversions)
    | Failure(message: string)

  const EnterYear := "Please enter a year."
  const PositiveYear := "Please enter a valid positive year."
  const YearTooLarge := "Year must be 10000 or less for accurate calculations."

  const MaxYear := 10000

  /** The Hebrew calendar counts from 3761 BCE: AM year y is CE year y − 3760. */
  const HebrewOffset := 3760

  /** The Buddhist era starts 543 years before CE. */
  const BuddhistOffset := 543

  /** CE year 622, in which the Hijri era starts. */
  const HijriEpoch := 622

  /** Hijri years per CE year, in the approximation the page uses. */
  const HijriYearRatio := 0.970224

  function AbsInt(x: int): (r: int)
    ensures r >= 0 && (r == x || r == -x)
  {
    if x < 0 then -x else x
  }

  /** The eras the input can be given in. */
  datatype EraKind = Ce | Bce | Hijri | Hebrew | Buddhist

  /** The switch on era.toLowerCase(). */
  function EraOf(era: string): EraKind
  {
    EraNamed(ToLower(era))
  }

  /** The cases of the switch: each era has two names, and any other text counts as CE. */
  function EraNamed(e: string): EraKind
  {
    if e == "ce" || e == "ad" then Ce
    else if e == "bce" || e == "bc" then Bce
    else if e == "hijri" || e == "ah" then Hijri
    else if e == "hebrew" || e == "am" then Hebrew
    else if e == "buddhist" || e == "be" then Buddhist
    else Ce
  }

  /** The CE year of a year in an era. */
  function CeYear(year: int, era: EraKind): int
  {
    match era
    case Ce => year
    case Bce => 1 - year
    case Hijri => Round(HijriEpoch as real + (year - 1) as real * HijriYearRatio)
    case Hebrew => year - HebrewOffset
    case Buddhist => year - BuddhistOffset
  }

  /** A CE year as shown: "y CE" from 1 on, and "y BCE" counting back from 0 = 1 BCE. */
  function CeText(ceYear: int): string
  {
    if ceYear > 0 then IntToString(ceYear) + " CE" else IntToString(AbsInt(ceYear - 1)) + " BCE"
  }

  /** getJapaneseEra: the era from the latest of the five modern era starts up to the year. */
  function JapaneseEra(ceYear: int): string
  {
    if ceYear >= 2019 then "Reiwa " + IntToString(ceYear - 2018)
    else if ceYear >= 1989 then "Heisei " + IntToString(ceYear - 1988)
    else if ceYear >= 1926 then "Showa " + IntToString(ceYear - 1925)
    else if ceYear >= 1912 then "Taisho " + IntToString(ceYear - 1911)
    else if ceYear >= 1868 then "Meiji " + IntToString(ceYear - 1867)
    else "Before modern Japanese era system"
  }

  /** A CE year shown in every era. */
  function ShowInEras(ceYear: int): (c: Conversions)
    ensures c.ce == c.bce == CeText(ceYear)
    ensures c.hebrew == IntToString(ceYear + HebrewOffset) + " AM"
    ensures c.japanese == JapaneseEra(ceYear)
    ensures c.hijri == "N/A (Before Hijri era)" <==> ceYear < HijriEpoch
    ensures c.buddhist == "N/A (Before Buddhist era)" <==> ceYear < 1 - BuddhistOffset
    ensures ceYear >= 1 - BuddhistOffset ==> c.buddhist == IntToString(ceYear + BuddhistOffset) + " BE"
  {
    var ceText := CeText(ceYear);
    Conversions(
      ceText,
      ceText,
      if ceYear >= HijriEpoch then IntToString(Round((ceYear - HijriEpoch) as real / HijriYearRatio) + 1) + " AH"
      else "N/A (Before Hijri era)",
      IntToString(ceYear + HebrewOffset) + " AM",
      if ceYear >= 1 - BuddhistOffset then IntToString(ceYear + BuddhistOffset) + " BE"
      else "N/A (Before Buddhist era)",
      JapaneseEra(ceYear))
  }

  /**
   * convertToEras: the year turned into a CE year, then shown in every era. A positive CE, BCE or
   * Buddhist year, and any Hebrew year, comes back unchanged in its own era's field.
   */
  function ConvertToEras(year: int, era: string): (c: Conversions)
    ensures year >= 1 && EraOf(era) == Ce ==> c.ce == IntToString(year) + " CE"
    ensures year >= 1 && EraOf(era) == Bce ==> c.bce == IntToString(year) + " BCE"
    ensures EraOf(era) == Hebrew ==> c.hebrew == IntToString(year) + " AM"
    ensures year >= 1 && EraOf(era) == Buddhist ==> c.buddhist == IntToString(year) + " BE"
  {
    ShowInEras(CeYear(year, EraOf(era)))
  }

  /**
   * handleCalculate: blank input, a year that is not a positive number and a year above 10000 are
   * refused, each with its message; otherwise the year is converted.
   */
  function HandleCalculate(inputYear: string, inputEra: string): (r: Outcome)
    ensures r == Failure(EnterYear) <==> Trim(inputYear) == ""
    ensures r == Failure(PositiveYear) <==>
      Trim(inputYear) != "" && (ParseInt(inputYear).None? || ParseInt(inputYear).value <= 0)
    ensures r == Failure(YearTooLarge) <==>
      Trim(inputYear) != "" && ParseInt(inputYear).Some? && ParseInt(inputYear).value > MaxYear
    ensures r.Failure? ==> r.message in {EnterYear, PositiveYear, YearTooLarge}
    ensures r.Converted? ==>
      && ParseInt(inputYear) == Some(r.inputYear) && 1 <= r.inputYear <= MaxYear
      && r.inputEra == ToUpper(inputEra)
      && r.conversions == ConvertToEras(r.inputYear, inputEra)
  {
    if Trim(inputYear) == "" then Failure(EnterYear)
    else
      var year := ParseInt(inputYear);
      if year.None? || year.value <= 0 then Failure(PositiveYear)
      else if year.value > MaxYear then Failure(YearTooLarge)
      else Converted(year.value, ToUpper(inputEra), ConvertToEras(year.value, inputEra))
  }

  /** The era is matched regardless of case: an era converts as its lower-case name. */
  lemma EraIgnoresCase(year: int, era: string)
    ensures EraOf(era) == EraOf(ToLower(era))
    ensures ConvertToEras(year, era) == ConvertToEras(year, ToLower(era))
  {
    ToLowerIdempotent(era);
  }

  /**
   * The option values of the era select ("ce", "bce", "hijri", "hebrew", "buddhist") are lower
   * case already, so the switch sees them as they are.
   */
  lemma LowerCaseEraNames(era: string)
    requires forall i :: 0 <= i < |era| ==> !('A' <= era[i] <= 'Z')
    ensures EraOf(era) == EraNamed(era)
  {
    ToLowerOfLowerCase(era);
  }

  /**
   * A positive year shown in its own era reads as it was entered: y CE as "y CE", y BCE as
   * "y BCE", y AM as "y AM" and y BE as "y BE".
   */
  lemma OwnEraRoundTrip(year: int)
    requires year >= 1
    ensures CeText(CeYear(year, Ce)) == IntToString(year) + " CE"
    ensures CeText(CeYear(year, Bce)) == IntToString(year) + " BCE"
    ensures CeYear(year, Hebrew) + HebrewOffset == year
    ensures CeYear(year, Buddhist) >= 1 - BuddhistOffset && CeYear(year, Buddhist) + BuddhistOffset == year
  {
  }

  /** The modern Japanese eras and their first CE years, latest first. */
  const JapaneseEras: seq<(string, int)> :=
    [("Reiwa", 2019), ("Heisei", 1989), ("Showa", 1926), ("Taisho", 1912), ("Meiji", 1868)]

  /** The era of a year by table: the first era (latest first) that started by then. */
  function EraFromTable(ceYear: int, eras: seq<(string, int)>): string
  {
    if |eras| == 0 then "Before modern Japanese era system"
    else if ceYear >= eras[0].1 then eras[0].0 + " " + IntToString(ceYear - eras[0].1 + 1)
    else EraFromTable(ceYear, eras[1..])
  }

  /**
   * getJapaneseEra agrees with the table: every year from 1868 on is year n of the latest era
   * that had started, with year 1 the era's first CE year.
   */
  lemma JapaneseEraByTable(ceYear: int)
    ensures JapaneseEra(ceYear) == EraFromTable(ceYear, JapaneseEras)
  {
    var e := JapaneseEras;
    if ceYear >= 2019 {
      EraTableEntry(ceYear, e, "Reiwa ");
    } else {
      assert EraFromTable(ceYear, e) == EraFromTable(ceYear, e[1..]);
      if ceYear >= 1989 {
        EraTableEntry(ceYear, e[1..], "Heisei ");
      } else {
        assert EraFromTable(ceYear, e[1..]) == EraFromTable(ceYear, e[2..]);
        if ceYear >= 1926 {
          EraTableEntry(ceYear, e[2..], "Showa ");
        } else {
          assert EraFromTable(ceYear, e[2..]) == EraFromTable(ceYear, e[3..]);
          if ceYear >= 1912 {
            EraTableEntry(ceYear, e[3..], "Taisho ");
          } else {
            assert EraFromTable(ceYear, e[3..]) == EraFromTable(ceYear, e[4..]);
            if ceYear >= 1868 {
              EraTableEntry(ceYear, e[4..], "Meiji ");
            } else {
              assert EraFromTable(ceYear, e[4..]) == EraFromTable(ceYear, e[5..]);
            }
          }
        }
      }
    }
  }

  /** The table's text for a year in its first era: the era's name, a space and the year number. */
  lemma EraTableEntry(ceYear: int, eras: seq<(string, int)>, prefix: string)
    requires |eras| > 0 && ceYear >= eras[0].1 && prefix == eras[0].0 + " "
    ensures EraFromTable(ceYear, eras) == prefix + IntToString(ceYear - eras[0].1 + 1)
  {
  }

  /** The first year of each era is its year 1. */
  lemma EraFirstYears()
    ensures JapaneseEra(2019) == "Reiwa 1" && JapaneseEra(1989) == "Heisei 1"
    ensures JapaneseEra(1926) == "Showa 1" && JapaneseEra(1912) == "Taisho 1"
    ensures JapaneseEra(1868) == "Meiji 1"
  {
    assert IntToString(1) == "1";
  }
}
