/**
 * The dew point calculator: of air temperature, relative humidity and dew point, exactly two are
 * entered and the third is computed. Temperatures are entered in °C, °F or K and worked in °C; a
 * computed temperature is shown in all three units.
 *
 * The Magnus formula and its two rearrangements use log and exp; they are the parameters
 * dewPointOf, humidityOf and temperatureOf, each taking temperatures in °C and humidity in percent.
 */
module DewPoint {
  import opened Wrappers
  import opened Numbers

  /** A computed temperature, in the three units the result shows. */
  datatype Reading = Reading(title: string, celsius: real, fahrenheit: real, kelvin: real)

  datatype Outcome =
    | Message(text: string)
    | Temperature(reading: Reading)
    | RelativeHumidity(percent: real)

  const ExactlyTwo := "Please enter exactly two values to calculate the third."
  const HumidityRange := "Relative humidity must be between 1 and 100%."
  const ComputedHumidityRange := "Calculated relative humidity is out of valid range (1-100%)."

  const DewPointLabel := "Dew Point Temperature"
  const AirTemperatureLabel := "Air Temperature"

  /** 0 °C in kelvin. */
  const KelvinOffset := 273.15

  /** toCelsius: °F and K to °C; °C and any other unit as they are. */
  function ToCelsius(value: real, unit: string): (c: real)
    ensures unit == "F" ==> c == (value - 32.0) * 5.0 / 9.0
    ensures unit == "K" ==> c == value - KelvinOffset
    ensures unit != "F" && unit != "K" ==> c == value
  {
    if unit == "C" then value
    else if unit == "F" then (value - 32.0) * 5.0 / 9.0
    else if unit == "K" then value - KelvinOffset
    else value
  }

  /** fromCelsius: °C to °F and K; °C and any other unit as they are. */
  function FromCelsius(value: real, unit: string): (v: real)
    ensures unit == "F" ==> v == value * 9.0 / 5.0 + 32.0
    ensures unit == "K" ==> v == value + KelvinOffset
    ensures unit != "F" && unit != "K" ==> v == value
  {
    if unit == "C" then value
    else if unit == "F" then value * 9.0 / 5.0 + 32.0
    else if unit == "K" then value + KelvinOffset
    else value
  }

  /** The two conversions are inverse to each other, in both orders, for every unit. */
  lemma ConversionsInverse(value: real, unit: string)
    ensures FromCelsius(ToCelsius(value, unit), unit) == value
    ensures ToCelsius(FromCelsius(value, unit), unit) == value
  {
  }

  /** Water freezes at 0 °C, 32 °F and 273.15 K, and boils at 100 °C, 212 °F and 373.15 K. */
  lemma FixedPoints()
    ensures ToCelsius(32.0, "F") == 0.0 && ToCelsius(273.15, "K") == 0.0
    ensures ToCelsius(212.0, "F") == 100.0 && ToCelsius(373.15, "K") == 100.0
    ensures FromCelsius(-40.0, "F") == -40.0
  {
  }

  /** formatTemperatureResults: a temperature in °C shown in °C, °F and K. */
  function Show(valueC: real, title: string): (r: Reading)
    ensures r.title == title
    ensures ToCelsius(r.celsius, "C") == valueC && ToCelsius(r.fahrenheit, "F") == valueC
    ensures ToCelsius(r.kelvin, "K") == valueC
  {
    ConversionsInverse(valueC, "F");
    ConversionsInverse(valueC, "K");
    Reading(title, FromCelsius(valueC, "C"), FromCelsius(valueC, "F"), FromCelsius(valueC, "K"))
  }

  /** A humidity as toFixed(2) writes it back into its field, for a positive humidity. */
  function TwoDecimals(x: real): (r: real)
    ensures x - 0.005 < r <= x + 0.005
  {
    var n := Round(x * 100.0);
    assert x * 100.0 - 0.5 < n as real <= x * 100.0 + 0.5;
    n as real / 100.0
  }

  /** A humidity from the field is accepted when it is above 0 and at most 100 percent. */
  predicate HumidityInRange(rh: real)
  {
    0.0 < rh <= 100.0
  }

  /** The number of the three fields that hold a value. */
  function Filled(temperature: Option<real>, humidity: Option<real>, dewPoint: Option<real>): (n: nat)
    ensures n <= 3
    ensures n == 2 <==>
      || (temperature.Some? && humidity.Some? && dewPoint.None?)
      || (temperature.Some? && humidity.None? && dewPoint.Some?)
      || (temperature.None? && humidity.Some? && dewPoint.Some?)
  {
    (if temperature.Some? then 1 else 0) + (if humidity.Some? then 1 else 0) + (if dewPoint.Some? then 1 else 0)
  }

  /**
   * The page's state: the three fields (None when blank), the units of the two temperature
   * fields, and the result shown.
   */
  class DewPointCalculator {
    var temperature: Option<real>
    var humidity: Option<real>
    var dewPoint: Option<real>
    var tempUnit: string
    var dewUnit: string
    var result: Option<Outcome>

    /** The initial state: blank fields, both units °F, no result. */
    constructor()
      ensures temperature.None? && humidity.None? && dewPoint.None?
      ensures tempUnit == "F" && dewUnit == "F" && result.None?
    {
      temperature := None;
      humidity := None;
      dewPoint := None;
      tempUnit := "F";
      dewUnit := "F";
      result := None;
    }

    /** handleInputChange on the temperature field: the new value, and the result cleared. */
    method SetTemperature(value: Option<real>)
      modifies this
      ensures temperature == value && result.None?
      ensures humidity == old(humidity) && dewPoint == old(dewPoint)
      ensures tempUnit == old(tempUnit) && dewUnit == old(dewUnit)
    {
      temperature := value;
      result := None;
    }

    /** handleInputChange on the humidity field: the new value, and the result cleared. */
    method SetHumidity(value: Option<real>)
      modifies this
      ensures humidity == value && result.None?
      ensures temperature == old(temperature) && dewPoint == old(dewPoint)
      ensures tempUnit == old(tempUnit) && dewUnit == old(dewUnit)
    {
      humidity := value;
      result := None;
    }

    /** handleInputChange on the dew point field: the new value, and the result cleared. */
    method SetDewPoint(value: Option<real>)
      modifies this
      ensures dewPoint == value && result.None?
      ensures temperature == old(temperature) && humidity == old(humidity)
      ensures tempUnit == old(tempUnit) && dewUnit == old(dewUnit)
    {
      dewPoint := value;
      result := None;
    }

    /** The temperature unit select: the unit changes, the result stays. */
    method SetTempUnit(unit: string)
      modifies this
      ensures tempUnit == unit
      ensures temperature == old(temperature) && humidity == old(humidity) && dewPoint == old(dewPoint)
      ensures dewUnit == old(dewUnit) && result == old(result)
    {
      tempUnit := unit;
    }

    /** The dew point unit select: the unit changes, the result stays. */
    method SetDewUnit(unit: string)
      modifies this
      ensures dewUnit == unit
      ensures temperature == old(temperature) && humidity == old(humidity) && dewPoint == old(dewPoint)
      ensures tempUnit == old(tempUnit) && result == old(result)
    {
      dewUnit := unit;
    }

    /**
     * handleCalculate: unless exactly two fields hold a value, the message. Temperature and
     * humidity give the dew point and clear the dew point field; temperature and dew point give
     * the humidity, written back to its field to two decimals; dew point and humidity give the
     * air temperature and clear the temperature field. An entered humidity outside (0, 100] and
     * a computed one outside it are refused, each with its message, and change no field.
     */
    method HandleCalculate(
      dewPointOf: (real, real) -> real, humidityOf: (real, real) -> real, temperatureOf: (real, real) -> real)
      modifies this
      ensures tempUnit == old(tempUnit) && dewUnit == old(dewUnit)
      ensures Filled(old(temperature), old(humidity), old(dewPoint)) != 2 ==>
        result == Some(Message(ExactlyTwo))
        && temperature == old(temperature) && humidity == old(humidity) && dewPoint == old(dewPoint)
      ensures old(temperature).Some? && old(humidity).Some? && old(dewPoint).None? ==>
        var t, rh := ToCelsius(old(temperature).value, tempUnit), old(humidity).value;
        && temperature == old(temperature) && humidity == old(humidity) && dewPoint.None?
        && (!HumidityInRange(rh) ==> result == Some(Message(HumidityRange)))
        && (HumidityInRange(rh) ==> result == Some(Temperature(Show(dewPointOf(t, rh), DewPointLabel))))
      ensures old(temperature).Some? && old(humidity).None? && old(dewPoint).Some? ==>
        var rh := humidityOf(ToCelsius(old(temperature).value, tempUnit), ToCelsius(old(dewPoint).value, dewUnit));
        && temperature == old(temperature) && dewPoint == old(dewPoint)
        && (!HumidityInRange(rh) ==> result == Some(Message(ComputedHumidityRange)) && humidity.None?)
        && (HumidityInRange(rh) ==> result == Some(RelativeHumidity(rh)) && humidity == Some(TwoDecimals(rh)))
      ensures old(temperature).None? && old(humidity).Some? && old(dewPoint).Some? ==>
        var d, rh := ToCelsius(old(dewPoint).value, dewUnit), old(humidity).value;
        && humidity == old(humidity) && dewPoint == old(dewPoint)
        && (!HumidityInRange(rh) ==> result == Some(Message(HumidityRange)) && temperature.None?)
        && (HumidityInRange(rh) ==> result == Some(Temperature(Show(temperatureOf(d, rh), AirTemperatureLabel))) && temperature.None?)
    {
      var temp := if temperature.Some? then Some(ToCelsius(temperature.value, tempUnit)) else None;
      var rh := humidity;
      var dew := if dewPoint.Some? then Some(ToCelsius(dewPoint.value, dewUnit)) else None;
      var count := 0;
      if temp.Some? { count := count + 1; }
      if rh.Some? { count := count + 1; }
      if dew.Some? { count := count + 1; }
      assert count == Filled(temperature, humidity, dewPoint);
      if count != 2 {
        result := Some(Message(ExactlyTwo));
        return;
      }
      if temp.Some? && rh.Some? {
        if !HumidityInRange(rh.value) {
          result := Some(Message(HumidityRange));
          return;
        }
        var dewResultC := dewPointOf(temp.value, rh.value);
        dewPoint := None;
        result := Some(Temperature(Show(dewResultC, DewPointLabel)));
      } else if temp.Some? && dew.Some? {
        var rhResult := humidityOf(temp.value, dew.value);
        if !HumidityInRange(rhResult) {
          result := Some(Message(ComputedHumidityRange));
          return;
        }
        humidity := Some(TwoDecimals(rhResult));
        result := Some(RelativeHumidity(rhResult));
      } else if dew.Some? && rh.Some? {
        if !HumidityInRange(rh.value) {
          result := Some(Message(HumidityRange));
          return;
        }
        var tempResultC := temperatureOf(dew.value, rh.value);
        temperature := None;
        result := Some(Temperature(Show(tempResultC, AirTemperatureLabel)));
      }
    }
  }
}
