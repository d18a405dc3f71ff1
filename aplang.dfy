/**
 * The AP English Language score calculator: multiple-choice and essay scores, each clamped to its
 * range as it is typed, are weighted into a composite score of 0..150, which the score bands of
 * the chosen conversion year map to an AP score of 1..5 with its share of test takers.
 */
module ApLang {
  import opened Wrappers
  import opened Numbers
  import opened Strings

  /** One band of composite scores and the AP score it earns. */
  datatype Band = Band(min: int, max: int, score: int)

  datatype ScoreYear = Year2025 | Year2020 | Year2007

  datatype ScoreResult = ScoreResult(totalScore: int, apScore: int, percentile: string)

  const MaxMcq := 45
  const MaxEssay := 6
  const MaxComposite := 150

  /** Points per multiple-choice answer and per essay point. */
  const McqWeight := 1.333
  const EssayWeight := 3.125

  /** AP_SCORE_RANGES: the bands of each conversion year, from score 5 down to score 1. */
  function Ranges(year: ScoreYear): seq<Band>
  {
    match year
    case Year2025 => [Band(104, 150, 5), Band(88, 103, 4), Band(69, 87, 3), Band(49, 68, 2), Band(0, 48, 1)]
    case Year2020 => [Band(107, 150, 5), Band(90, 106, 4), Band(71, 89, 3), Band(51, 70, 2), Band(0, 50, 1)]
    case Year2007 => [Band(104, 150, 5), Band(87, 103, 4), Band(67, 86, 3), Band(46, 66, 2), Band(0, 45, 1)]
  }

  predicate InBand(band: Band, total: int) {
    band.min <= total <= band.max
  }

  /** No composite score lies in two bands. */
  ghost predicate Disjoint(bands: seq<Band>) {
    forall j, k, t :: 0 <= j < k < |bands| && InBand(bands[j], t) ==> !InBand(bands[k], t)
  }

  /** Every composite score from lo to hi lies in some band. */
  ghost predicate Covers(bands: seq<Band>, lo: int, hi: int) {
    forall t :: lo <= t <= hi ==> InSomeBand(bands, t)
  }

  ghost predicate InSomeBand(bands: seq<Band>, t: int) {
    exists k :: 0 <= k < |bands| && InBand(bands[k], t)
  }

  /**
   * The AP score the search finds: the score of the first band containing the composite, and 1
   * when there is none.
   */
  function BandScore(bands: seq<Band>, total: int): int
  {
    if |bands| == 0 then 1
    else if InBand(bands[0], total) then bands[0].score
    else BandScore(bands[1..], total)
  }

  /**
   * Bands listed from the top down with no gap between them, each non-empty and earning a
   * higher AP score than the band below it.
   */
  predicate Stacked(bands: seq<Band>) {
    && (forall i :: 0 <= i < |bands| ==> bands[i].min <= bands[i].max)
    && (forall i :: 0 <= i < |bands| - 1 ==> bands[i + 1].max + 1 == bands[i].min && bands[i + 1].score < bands[i].score)
  }

  /** In stacked bands every lower band lies wholly below, and earns less than, every higher one. */
  lemma {:induction false} StackedDescend(bands: seq<Band>, j: int, k: int)
    requires Stacked(bands) && 0 <= j < k < |bands|
    ensures bands[k].max < bands[j].min && bands[k].score < bands[j].score
    decreases k - j
  {
    if j + 1 < k {
      StackedDescend(bands, j + 1, k);
    }
  }

  /** Stacked bands are disjoint and cover everything from the lowest minimum to the top maximum. */
  lemma {:induction false} StackedPartition(bands: seq<Band>)
    requires Stacked(bands) && |bands| > 0
    ensures Disjoint(bands)
    ensures Covers(bands, bands[|bands| - 1].min, bands[0].max)
  {
    forall j, k, t | 0 <= j < k < |bands| && InBand(bands[j], t)
      ensures !InBand(bands[k], t)
    {
      StackedDescend(bands, j, k);
    }
    if |bands| > 1 {
      var rest := bands[1..];
      assert Stacked(rest) by {
        forall i | 0 <= i < |rest| - 1
          ensures rest[i + 1].max + 1 == rest[i].min && rest[i + 1].score < rest[i].score
        {
          assert rest[i] == bands[i + 1] && rest[i + 1] == bands[i + 2];
        }
      }
      StackedPartition(rest);
      forall t | bands[|bands| - 1].min <= t <= bands[0].max
        ensures InSomeBand(bands, t)
      {
        if t < bands[0].min {
          assert rest[|rest| - 1] == bands[|bands| - 1] && rest[0] == bands[1];
          assert InSomeBand(rest, t);
          var k :| 0 <= k < |rest| && InBand(rest[k], t);
          assert InBand(bands[k + 1], t);
        } else {
          assert InBand(bands[0], t);
        }
      }
    } else {
      forall t | bands[0].min <= t <= bands[0].max
        ensures InSomeBand(bands, t)
      {
        assert InBand(bands[0], t);
      }
    }
  }

  /** Each year's bands are stacked from 150 down to 0: pairwise disjoint and covering 0..150. */
  lemma BandsPartition(year: ScoreYear)
    ensures Stacked(Ranges(year))
    ensures Disjoint(Ranges(year))
    ensures Covers(Ranges(year), 0, MaxComposite)
  {
    RangesStacked(year);
    StackedPartition(Ranges(year));
  }

  /** Each year's table lists its bands from the top down, each starting just above the next. */
  lemma RangesStacked(year: ScoreYear)
    ensures Stacked(Ranges(year)) && |Ranges(year)| == 5
    ensures Ranges(year)[0].max == MaxComposite && Ranges(year)[4].min == 0
  {
    match year
    case Year2025 =>
    case Year2020 =>
    case Year2007 =>
  }

  /**
   * With disjoint bands the order of the search does not matter: the score found is the score of
   * whichever band contains the composite.
   */
  lemma {:induction false} BandScoreOfContainingBand(bands: seq<Band>, total: int, k: int)
    requires Disjoint(bands) && 0 <= k < |bands| && InBand(bands[k], total)
    ensures BandScore(bands, total) == bands[k].score
  {
    if k > 0 {
      assert !InBand(bands[0], total);
      assert Disjoint(bands[1..]) by {
        forall j, i, t | 0 <= j < i < |bands[1..]| && InBand(bands[1..][j], t)
          ensures !InBand(bands[1..][i], t)
        {
          assert bands[1..][j] == bands[j + 1] && bands[1..][i] == bands[i + 1];
        }
      }
      BandScoreOfContainingBand(bands[1..], total, k - 1);
    }
  }

  /** The AP score found is always one of 1..5. */
  lemma {:induction false} BandScoreInRange(bands: seq<Band>, total: int)
    requires forall k :: 0 <= k < |bands| ==> 1 <= bands[k].score <= 5
    ensures 1 <= BandScore(bands, total) <= 5
  {
    if |bands| > 0 && !InBand(bands[0], total) {
      BandScoreInRange(bands[1..], total);
    }
  }

  /** The composite: round(mcq·1.333 + (synthesis + rhetorical + argument)·3.125). */
  function Composite(mcq: int, synthesis: int, rhetorical: int, argument: int): (total: int)
    ensures (0 <= mcq <= MaxMcq && 0 <= synthesis <= MaxEssay && 0 <= rhetorical <= MaxEssay
      && 0 <= argument <= MaxEssay) ==> 0 <= total <= MaxComposite
  {
    var frqTotal := (synthesis + rhetorical + argument) as real * EssayWeight;
    var mcqTotal := mcq as real * McqWeight;
    Round(mcqTotal + frqTotal)
  }

  /**
   * The share of test takers shown for an AP score: scores 2 to 5 each have their own share, and
   * any other score is shown with the share of a 1.
   */
  function Percentile(apScore: int): (p: string)
    ensures apScore < 2 || apScore > 5 ==> p == "~18.0%"
    ensures 2 <= apScore <= 5 ==> p != "~18.0%"
    ensures |p| >= 3 && p[0] == '~' && p[|p| - 1] == '%'
  {
    if apScore == 5 then "~9.8%"
    else if apScore == 4 then "~18.3%"
    else if apScore == 3 then "~28.1%"
    else if apScore == 2 then "~25.8%"
    else "~18.0%"
  }

  /** getScoreColor: green from 4 up, yellow for 3, red below. */
  function ScoreColor(apScore: int): (c: string)
    ensures c == "text-green-600" <==> apScore >= 4
    ensures c == "text-yellow-600" <==> apScore == 3
    ensures c == "text-red-600" <==> apScore <= 2
  {
    if apScore >= 4 then "text-green-600" else if apScore == 3 then "text-yellow-600" else "text-red-600"
  }

  /** Math.min(hi, Math.max(0, parseInt(text) || 0)): unreadable text counts as 0. */
  function ClampedInput(text: string, hi: int): (v: int)
    requires hi >= 0
    ensures 0 <= v <= hi
    ensures ParseInt(text).Some? && 0 <= ParseInt(text).value <= hi ==> v == ParseInt(text).value
    ensures ParseInt(text).None? ==> v == 0
  {
    var n := ParseInt(text).GetOr(0);
    if n > hi then hi else if n < 0 then 0 else n
  }

  /** The page's state: the four scores, the conversion year and the last result. */
  class ApLangCalculator {
    var mcqScore: int
    var synthesisScore: int
    var rhetoricalScore: int
    var argumentScore: int
    var selectedYear: ScoreYear
    var result: Option<ScoreResult>

    /** The scores stay in their ranges, and a result holds a composite of 0..150 and a score of 1..5. */
    ghost predicate Valid()
      reads this
    {
      && 0 <= mcqScore <= MaxMcq
      && 0 <= synthesisScore <= MaxEssay && 0 <= rhetoricalScore <= MaxEssay && 0 <= argumentScore <= MaxEssay
      && (result.Some? ==> 0 <= result.value.totalScore <= MaxComposite && 1 <= result.value.apScore <= 5)
    }

    constructor()
      ensures Valid()
      ensures mcqScore == 0 && synthesisScore == 0 && rhetoricalScore == 0 && argumentScore == 0
      ensures selectedYear == Year2025 && result.None?
    {
      mcqScore, synthesisScore, rhetoricalScore, argumentScore := 0, 0, 0, 0;
      selectedYear := Year2025;
      result := None;
    }

    /** The multiple-choice field's onChange: the typed number clamped to 0..45. */
    method SetMcqScore(text: string)
      requires Valid()
      modifies this
      ensures Valid() && mcqScore == ClampedInput(text, MaxMcq)
      ensures synthesisScore == old(synthesisScore) && rhetoricalScore == old(rhetoricalScore)
      ensures argumentScore == old(argumentScore) && selectedYear == old(selectedYear) && result == old(result)
    {
      mcqScore := ClampedInput(text, MaxMcq);
    }

    /** The synthesis essay field's onChange: the typed number clamped to 0..6. */
    method SetSynthesisScore(text: string)
      requires Valid()
      modifies this
      ensures Valid() && synthesisScore == ClampedInput(text, MaxEssay)
      ensures mcqScore == old(mcqScore) && rhetoricalScore == old(rhetoricalScore)
      ensures argumentScore == old(argumentScore) && selectedYear == old(selectedYear) && result == old(result)
    {
      synthesisScore := ClampedInput(text, MaxEssay);
    }

    /** The rhetorical analysis essay field's onChange. */
    method SetRhetoricalScore(text: string)
      requires Valid()
      modifies this
      ensures Valid() && rhetoricalScore == ClampedInput(text, MaxEssay)
      ensures mcqScore == old(mcqScore) && synthesisScore == old(synthesisScore)
      ensures argumentScore == old(argumentScore) && selectedYear == old(selectedYear) && result == old(result)
    {
      rhetoricalScore := ClampedInput(text, MaxEssay);
    }

    /** The argument essay field's onChange. */
    method SetArgumentScore(text: string)
      requires Valid()
      modifies this
      ensures Valid() && argumentScore == ClampedInput(text, MaxEssay)
      ensures mcqScore == old(mcqScore) && synthesisScore == old(synthesisScore)
      ensures rhetoricalScore == old(rhetoricalScore) && selectedYear == old(selectedYear) && result == old(result)
    {
      argumentScore := ClampedInput(text, MaxEssay);
    }

    /** The year select's onChange. */
    method SetSelectedYear(year: ScoreYear)
      requires Valid()
      modifies this
      ensures Valid() && selectedYear == year
      ensures mcqScore == old(mcqScore) && synthesisScore == old(synthesisScore) && rhetoricalScore == old(rhetoricalScore)
      ensures argumentScore == old(argumentScore) && result == old(result)
    {
      selectedYear := year;
    }

    /**
     * calculateScore: the composite, the score of the first band of the year that contains it
     * (1 if none), and that score's percentile; the inputs are left as they are.
     */
    method CalculateScore()
      requires Valid()
      modifies this
      ensures Valid()
      ensures var total := Composite(mcqScore, synthesisScore, rhetoricalScore, argumentScore);
        var apScore := BandScore(Ranges(selectedYear), total);
        result == Some(ScoreResult(total, apScore, Percentile(apScore)))
      ensures mcqScore == old(mcqScore) && synthesisScore == old(synthesisScore) && rhetoricalScore == old(rhetoricalScore)
      ensures argumentScore == old(argumentScore) && selectedYear == old(selectedYear)
    {
      var totalScore := Composite(mcqScore, synthesisScore, rhetoricalScore, argumentScore);
      var scoreRanges := Ranges(selectedYear);
      var apScore := ScoreOfBands(scoreRanges, totalScore);
      BandScoreInRange(scoreRanges, totalScore);
      result := Some(ScoreResult(totalScore, apScore, Percentile(apScore)));
    }

    /** resetCalculator: the four scores back to 0 and the result cleared; the year is kept. */
    method ResetCalculator()
      requires Valid()
      modifies this
      ensures Valid()
      ensures mcqScore == 0 && synthesisScore == 0 && rhetoricalScore == 0 && argumentScore == 0
      ensures result.None? && selectedYear == old(selectedYear)
    {
      mcqScore, synthesisScore, rhetoricalScore, argumentScore := 0, 0, 0, 0;
      result := None;
    }
  }

  /** The search of calculateScore: the score of the first band containing the total, 1 if none. */
  method ScoreOfBands(scoreRanges: seq<Band>, totalScore: int) returns (apScore: int)
    ensures apScore == BandScore(scoreRanges, totalScore)
  {
    apScore := 1;
    var i := 0;
    while i < |scoreRanges|
      invariant 0 <= i <= |scoreRanges|
      invariant apScore == 1
      invariant BandScore(scoreRanges, totalScore) == BandScore(scoreRanges[i..], totalScore)
    {
      if InBand(scoreRanges[i], totalScore) {
        apScore := scoreRanges[i].score;
        break;
      }
      assert scoreRanges[i..][1..] == scoreRanges[i + 1..];
      i := i + 1;
    }
  }

  /**
   * The AP score of a composite in 0..150 is the score of the one band containing it, in every
   * conversion year, and lies in 1..5.
   */
  lemma ApScoreIsBandOfComposite(year: ScoreYear, total: int)
    requires 0 <= total <= MaxComposite
    ensures exists k :: (0 <= k < |Ranges(year)| && InBand(Ranges(year)[k], total)
      && BandScore(Ranges(year), total) == Ranges(year)[k].score)
    ensures 1 <= BandScore(Ranges(year), total) <= 5
  {
    BandsPartition(year);
    assert InSomeBand(Ranges(year), total);
    var k :| 0 <= k < |Ranges(year)| && InBand(Ranges(year)[k], total);
    BandScoreOfContainingBand(Ranges(year), total, k);
    BandScoreInRange(Ranges(year), total);
  }

  /** A higher composite never earns a lower AP score, in every conversion year. */
  lemma ApScoreMonotone(year: ScoreYear, a: int, b: int)
    requires 0 <= a <= b <= MaxComposite
    ensures BandScore(Ranges(year), a) <= BandScore(Ranges(year), b)
  {
    BandsPartition(year);
    var bands := Ranges(year);
    assert InSomeBand(bands, a) && InSomeBand(bands, b);
    var ka :| 0 <= ka < |bands| && InBand(bands[ka], a);
    var kb :| 0 <= kb < |bands| && InBand(bands[kb], b);
    BandScoreOfContainingBand(bands, a, ka);
    BandScoreOfContainingBand(bands, b, kb);
    if ka < kb {
      StackedDescend(bands, ka, kb);
    } else if kb < ka {
      StackedDescend(bands, kb, ka);
    }
  }
}
