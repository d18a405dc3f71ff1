/**
 * The asphalt mass calculator: the mass of a slab of asphalt from its length, width and thickness
 * and the compacted unit weight, either in pounds per square yard per inch of thickness (US
 * practice, giving short tons) or per cubic metre (metric).
 */
module Asphalt {
  import opened Wrappers

  /** A unit of an option list and its factor to metres (or to tonnes per cubic metre). */
  datatype Unit = Unit(value: string, factor: real)

  datatype Outcome = Tons(tons: real) | Message(text: string)

  const EnterAllValues := "Please enter all values"

  /** One foot and one inch in metres. */
  const FootInMetres := 0.3048
  const InchInMetres := 0.0254

  /** Square feet in a square yard, inches in a foot, pounds in a short ton. */
  const SquareFeetPerSquareYard := 9.0
  const InchesPerFoot := 12.0
  const PoundsPerShortTon := 2000.0

  /** One pound and one short ton in tonnes. */
  const PoundInTonnes := 0.00045359237
  const ShortTonInTonnes := 0.90718474

  const LengthUnits: seq<Unit> := [Unit("m", 1.0), Unit("ft", FootInMetres), Unit("in", InchInMetres)]
  const ThicknessUnits: seq<Unit> := [Unit("in", InchInMetres), Unit("m", 1.0)]

  /** Array.prototype.find on the unit value: the first unit with that value. */
  function Find(units: seq<Unit>, value: string): (r: Option<Unit>)
    ensures r.Some? ==> r.value in units && r.value.value == value
    ensures r.None? ==> forall u :: u in units ==> u.value != value
  {
    if |units| == 0 then None
    else if units[0].value == value then Some(units[0])
    else Find(units[1..], value)
  }

  /** convertLength: to metres by the unit's factor; an unknown unit leaves the value as it is. */
  function ConvertLength(val: real, from: string): (r: real)
    ensures from == "m" ==> r == val
    ensures from == "ft" ==> r == val * FootInMetres
    ensures from == "in" ==> r == val * InchInMetres
    ensures from !in {"m", "ft", "in"} ==> r == val
  {
    match Find(LengthUnits, from)
    case Some(u) => val * u.factor
    case None => val
  }

  /** convertThickness: to metres by the unit's factor; an unknown unit leaves the value as it is. */
  function ConvertThickness(val: real, from: string): (r: real)
    ensures from == "in" ==> r == val * InchInMetres
    ensures from == "m" ==> r == val
    ensures from !in {"in", "m"} ==> r == val
  {
    match Find(ThicknessUnits, from)
    case Some(u) => val * u.factor
    case None => val
  }

  /** A length in feet, for the pounds path: feet as they are, metres and inches converted. */
  function LengthInFeet(val: real, unit: string): real
  {
    if unit == "ft" then val else if unit == "m" then val / FootInMetres else val / InchesPerFoot
  }

  /** A thickness in inches, for the pounds path: inches as they are, metres converted, else feet. */
  function ThicknessInInches(val: real, unit: string): real
  {
    if unit == "in" then val else if unit == "m" then val / InchInMetres else val * InchesPerFoot
  }

  /** Short tons of a slab in feet, feet and inches at a unit weight in LB/(SY·in). */
  function PoundsPathTons(lengthFt: real, widthFt: real, thicknessIn: real, lbPerSyIn: real): real
  {
    var areaSy := (lengthFt * widthFt) / SquareFeetPerSquareYard;
    var totalLb := areaSy * thicknessIn * lbPerSyIn;
    totalLb / PoundsPerShortTon
  }

  /** The product the metric path reports for a slab in metres at a unit weight in t/m³. */
  function MetricPathTons(lengthM: real, widthM: real, thicknessM: real, tonnesPerM3: real): real
  {
    var volume := lengthM * widthM * thicknessM;
    volume * tonnesPerM3
  }

  /**
   * calculate: any value that is not a number gives the message; the LB/(SY·in) unit weight takes
   * the pounds path, every other the metric path, with kg/m³ scaled to t/m³.
   */
  function Calculate(
    length: Option<real>, width: Option<real>, thickness: Option<real>, unitWeight: Option<real>,
    lengthUnit: string, widthUnit: string, thicknessUnit: string, weightUnit: string): (r: Outcome)
    ensures r.Message? <==> length.None? || width.None? || thickness.None? || unitWeight.None?
    ensures r.Message? ==> r.text == EnterAllValues
    ensures r.Tons? && weightUnit == "lb_sy_in" ==> r.tons == PoundsPathTons(
      LengthInFeet(length.value, lengthUnit), LengthInFeet(width.value, widthUnit),
      ThicknessInInches(thickness.value, thicknessUnit), unitWeight.value)
    ensures r.Tons? && weightUnit != "lb_sy_in" ==> r.tons == MetricPathTons(
      ConvertLength(length.value, lengthUnit), ConvertLength(width.value, widthUnit),
      ConvertThickness(thickness.value, thicknessUnit),
      if weightUnit == "t" then unitWeight.value else unitWeight.value * 0.001)
  {
    if length.None? || width.None? || thickness.None? || unitWeight.None? then Message(EnterAllValues)
    else
      var l, w, t, uw := length.value, width.value, thickness.value, unitWeight.value;
      if weightUnit == "lb_sy_in" then
        Tons(PoundsPathTons(LengthInFeet(l, lengthUnit), LengthInFeet(w, widthUnit), ThicknessInInches(t, thicknessUnit), uw))
      else
        var l_m, w_m, t_m := ConvertLength(l, lengthUnit), ConvertLength(w, widthUnit), ConvertThickness(t, thicknessUnit);
        Tons(MetricPathTons(l_m, w_m, t_m, if weightUnit == "t" then uw else uw * 0.001))
  }

  /**
   * The two paths convert lengths consistently: for every unit on offer, the length in feet of
   * the pounds path is the length in metres of the metric path, in feet; likewise for thickness
   * in inches.
   */
  lemma PathsConvertAlike(val: real, unit: string)
    ensures unit in {"m", "ft", "in"} ==> LengthInFeet(val, unit) * FootInMetres == ConvertLength(val, unit)
    ensures unit in {"in", "m"} ==> ThicknessInInches(val, unit) * InchInMetres == ConvertThickness(val, unit)
  {
  }

  /** One LB/(SY·in) in tonnes per cubic metre. */
  function TonnesPerM3(lbPerSyIn: real): real
  {
    lbPerSyIn * PoundInTonnes / (SquareFeetPerSquareYard * FootInMetres * FootInMetres * InchInMetres)
  }

  /**
   * The metric path as written: for the same slab and the same unit weight stated in t/m³, it
   * reports 0.90718474 times the pounds path's figure, because it gives tonnes where the result
   * is labelled short tons.
   */
  lemma MetricPathGivesTonnes(lengthFt: real, widthFt: real, thicknessIn: real, lbPerSyIn: real)
    ensures MetricPathTons(lengthFt * FootInMetres, widthFt * FootInMetres, thicknessIn * InchInMetres, TonnesPerM3(lbPerSyIn))
         == PoundsPathTons(lengthFt, widthFt, thicknessIn, lbPerSyIn) * ShortTonInTonnes
  {
    var x := lengthFt * widthFt * thicknessIn * lbPerSyIn;
    var c := SquareFeetPerSquareYard * FootInMetres * FootInMetres * InchInMetres;
    assert (lengthFt * FootInMetres) * (widthFt * FootInMetres) * (thicknessIn * InchInMetres)
        == (lengthFt * widthFt * thicknessIn) * (FootInMetres * FootInMetres * InchInMetres);
    assert MetricPathTons(lengthFt * FootInMetres, widthFt * FootInMetres, thicknessIn * InchInMetres, TonnesPerM3(lbPerSyIn))
        == x * PoundInTonnes / SquareFeetPerSquareYard;
    assert PoundsPathTons(lengthFt, widthFt, thicknessIn, lbPerSyIn) == x / SquareFeetPerSquareYard / PoundsPerShortTon;
  }

  /** A cubic metre at 1 t/m³ is shown as 1 short ton, where it weighs about 1.102 short tons. */
  lemma OneCubicMetreExample()
    ensures Calculate(Some(1.0), Some(1.0), Some(1.0), Some(1.0), "m", "m", "m", "t") == Tons(1.0)
    ensures 1.0 / ShortTonInTonnes > 1.1
  {
  }

  /** The metric path's tonnes restated in short tons, the unit the result is labelled with. */
  function MetricPathShortTons(lengthM: real, widthM: real, thicknessM: real, tonnesPerM3: real): real
  {
    MetricPathTons(lengthM, widthM, thicknessM, tonnesPerM3) / ShortTonInTonnes
  }

  /** With the metric figure in short tons, both paths give the same mass for the same slab. */
  lemma CorrectedPathsAgree(lengthFt: real, widthFt: real, thicknessIn: real, lbPerSyIn: real)
    ensures MetricPathShortTons(lengthFt * FootInMetres, widthFt * FootInMetres, thicknessIn * InchInMetres, TonnesPerM3(lbPerSyIn))
         == PoundsPathTons(lengthFt, widthFt, thicknessIn, lbPerSyIn)
  {
    MetricPathGivesTonnes(lengthFt, widthFt, thicknessIn, lbPerSyIn);
  }
}
