/**
 * The rounding calculator's component body: the precision selector is read into a scale factor
 * (decimal places, or the denominator of a "1/d" option), the parsed input is rounded with
 * roundNumber, and the result is displayed as a whole/fraction/mixed value or as a message.
 */
module RoundingDisplay {
  import opened Wrappers
  import opened Numbers
  import opened Strings
  import opened Rounding
  import opened RoundingProperties
  import opened MixedFractions

  /**
   * The outcome of reading the selector: the value handed to roundNumber, whether it is a
   * denominator, and the denominator kept for display (0 when the precision is decimal).
   */
  datatype Precision = Precision(value: int, isFractional: bool, denominator: nat)

  const DecimalZero := Precision(0, false, 0)

  /**
   * The selector is "custom" (places read from the custom field, kept only within 0..20), a
   * "1/d" option (exactly two parts around '/', the first "1", d a positive integer), or a
   * number of decimal places; anything unreadable falls back to 0 decimal places.
   */
  function ParsePrecision(precision: string, custom: string): (p: Precision)
    ensures p.isFractional <==> p.denominator > 0
    ensures p.isFractional ==> p.value == p.denominator
    ensures precision == "custom" ==> !p.isFractional && 0 <= p.value <= 20
    ensures p.isFractional ==> '/' in precision
  {
    if precision == "custom" then
      match ParseInt(custom)
      case Some(n) => if 0 <= n <= 20 then Precision(n, false, 0) else DecimalZero
      case None => DecimalZero
    else if '/' in precision then
      var parts := Split(precision, '/');
      var denominator := ParseInt(parts[1]);
      if |parts| == 2 && parts[0] == "1" && denominator.Some? && denominator.value > 0 then
        Precision(denominator.value, true, denominator.value)
      else
        DecimalZero
    else
      match ParseInt(precision)
      case Some(n) => Precision(n, false, 0)
      case None => DecimalZero
  }

  /** Custom places written as an integer are kept when within 0..20 and become 0 otherwise. */
  lemma CustomPlaces(places: int, custom: string)
    requires custom == IntToString(places)
    ensures ParsePrecision("custom", custom) == Precision(if 0 <= places <= 20 then places else 0, false, 0)
  {
    ParseIntOfIntToString(places, "");
    assert custom + "" == custom;
  }

  /** Custom text with no leading integer reads as 0 places. */
  lemma CustomUnparsable(custom: string)
    requires ParseInt(custom).None?
    ensures ParsePrecision("custom", custom) == DecimalZero
  {
  }

  /** The option "1/d" with d > 0 selects the denominator d, for rounding and for display. */
  lemma FractionOption(d: nat, custom: string)
    requires d > 0
    ensures ParsePrecision("1/" + NatToString(d), custom) == Precision(d, true, d)
  {
    var s := NatToString(d);
    assert "1/" + s == "1" + ['/'] + s;
    assert '/' !in s by {
      forall i | 0 <= i < |s| ensures s[i] != '/' {
        assert IsDigit(s[i]);
      }
    }
    SplitTwo("1", s, '/');
    ParseIntOfNat(d);
  }

  /** A '/' option that is not "1/d" with a positive d reads as 0 decimal places. */
  lemma MalformedFractionOption(numerator: string, d: nat, custom: string)
    requires '/' !in numerator && numerator != "1"
    ensures ParsePrecision(numerator + "/" + NatToString(d), custom) == DecimalZero
    ensures ParsePrecision("1/0", custom) == DecimalZero
  {
    var s := NatToString(d);
    assert numerator + "/" + s == numerator + ['/'] + s;
    assert '/' !in s by {
      forall i | 0 <= i < |s| ensures s[i] != '/' {
        assert IsDigit(s[i]);
      }
    }
    SplitTwo(numerator, s, '/');
    assert numerator + ['/'] + s != "custom" by {
      assert (numerator + ['/'] + s)[|numerator|] == '/';
    }
    SplitTwo("1", "0", '/');
    assert "1" + ['/'] + "0" == "1/0";
    ParseIntOfNat(0);
  }

  /** A decimal option, the decimal text of an integer, selects that many places. */
  lemma DecimalOption(places: int, custom: string)
    ensures ParsePrecision(IntToString(places), custom) == Precision(places, false, 0)
  {
    var s := IntToString(places);
    var n: nat := if places < 0 then -places else places;
    var t := NatToString(n);
    assert forall i :: 0 <= i < |t| ==> IsDigit(t[i]);
    assert '/' !in s;
    assert s != "custom" by {
      assert s[0] == '-' || IsDigit(s[0]);
    }
    ParseIntOfIntToString(places, "");
    assert s + "" == s;
  }

  /**
   * Number.prototype.toFixed on an exact value: the nearest multiple of 10^-places, a tie going
   * to the larger magnitude, which is rounding half away from zero.
   */
  function ToFixed(x: real, places: int): real
  {
    ScaleRound(x, DecimalFactor(places), HalfAwayFromZero)
  }

  /** A value that already has at most `places` decimals is shown as it is. */
  lemma ToFixedOfRounded(x: real, places: int)
    requires IsMultiple(x, DecimalFactor(places))
    ensures ToFixed(x, places) == x
  {
    ExactMultipleUnchanged(x, DecimalFactor(places), HalfAwayFromZero);
  }

  /** What the result panel shows: a formatted number (whole/fraction/mixed), a decimal, or a message. */
  datatype Display =
    | FractionDisplay(formatted: Formatted)
    | DecimalDisplay(sign: string, magnitude: real)
    | MessageDisplay(text: string)

  const InvalidNumberMessage := "Please enter a valid number."
  const EmptyInputMessage := "Enter a number"

  /**
   * The displayed result. `parsed` is parseFloat of the input text (None for NaN and the
   * infinities), `inputText` is the text itself, used only to tell an empty field from bad text.
   */
  function DisplayResult(parsed: Option<real>, inputText: string, p: Precision, mode: Mode): (r: Display)
    ensures parsed.None? <==> r.MessageDisplay?
    ensures parsed.None? ==> (r.text == EmptyInputMessage <==> Trim(inputText) == "")
    ensures r.FractionDisplay? <==> parsed.Some? && p.isFractional && p.denominator > 0
    ensures r.DecimalDisplay? ==> r.magnitude >= 0.0 && (r.sign == "-" <==> r.magnitude != 0.0 && RoundNumber(parsed.value, p.value, mode, p.isFractional) < 0.0)
  {
    match parsed
    case Some(v) =>
      var numericResult := RoundNumber(v, p.value, mode, p.isFractional);
      if p.isFractional && p.denominator > 0 then
        FractionDisplay(FormatAsMixedFraction(numericResult, p.denominator))
      else
        var fixed := ToFixed(numericResult, p.value);
        DecimalDisplay(if numericResult < 0.0 && fixed != 0.0 then "-" else "", Abs(fixed))
    case None =>
      if Trim(inputText) != "" then MessageDisplay(InvalidNumberMessage) else MessageDisplay(EmptyInputMessage)
  }

  /** The signed amount a display shows, when it shows one. */
  function DisplayedAmount(d: Display): real
    requires !d.MessageDisplay?
  {
    match d
    case FractionDisplay(f) => Shown(f)
    case DecimalDisplay(sign, m) => if sign == "-" then -m else m
  }

  /**
   * With a "1/d" precision and a rounding mode, the fraction displayed is exactly the rounded
   * value: the rounded value is a multiple of 1/d, so formatting loses nothing.
   */
  lemma FractionDisplayIsRounded(v: real, d: nat, mode: Mode, inputText: string)
    requires d > 0 && mode != Unrecognised
    ensures DisplayedAmount(DisplayResult(Some(v), inputText, Precision(d, true, d), mode))
         == RoundNumber(v, d, mode, true)
  {
    var n := RoundNumber(v, d, mode, true);
    assert DisplayResult(Some(v), inputText, Precision(d, true, d), mode)
        == FractionDisplay(FormatAsMixedFraction(n, d));
    RoundedToDenominator(v, d, mode);
    FormatExact(n, d);
  }

  /** In a rounding mode, roundNumber with denominator d gives a whole number of d-ths. */
  lemma RoundedToDenominator(v: real, d: nat, mode: Mode)
    requires d > 0 && mode != Unrecognised
    ensures IsMultiple(RoundNumber(v, d, mode, true), d as real)
  {
    RoundNumberScales(v, d, mode, true);
    ScaleRoundIsMultiple(v, d as real, mode);
  }

  /**
   * With decimal places and a rounding mode, the decimal displayed is exactly the rounded value
   * (toFixed of a value already rounded to that many places changes nothing).
   */
  lemma DecimalDisplayIsRounded(v: real, places: int, mode: Mode, inputText: string)
    requires mode != Unrecognised
    ensures DisplayedAmount(DisplayResult(Some(v), inputText, Precision(places, false, 0), mode))
         == RoundNumber(v, places, mode, false)
  {
    var n := RoundNumber(v, places, mode, false);
    assert DisplayResult(Some(v), inputText, Precision(places, false, 0), mode)
        == DecimalDisplay(if n < 0.0 && ToFixed(n, places) != 0.0 then "-" else "", Abs(ToFixed(n, places)));
    RoundedToPlaces(v, places, mode);
    ToFixedOfRounded(n, places);
  }

  /** In a rounding mode, roundNumber with decimal places gives a whole number of 10^-places. */
  lemma RoundedToPlaces(v: real, places: int, mode: Mode)
    requires mode != Unrecognised
    ensures IsMultiple(RoundNumber(v, places, mode, false), DecimalFactor(places))
  {
    RoundNumberScales(v, places, mode, false);
    ScaleRoundIsMultiple(v, DecimalFactor(places), mode);
  }
}
