/**
 * Conduit fill: the conduit tables (trade size, internal diameter, area in square inches) and the
 * conductor tables (diameter and area per wire type and AWG size), and calculateConduitFill, which
 * sums the areas of the recognised conductors, compares the fill of the bend-adjusted conduit area
 * with the limit of the standard, and estimates the chance of a jam.
 *
 * The fill limits follow NFPA 70 (National Electrical Code), Chapter 9, Table 1: 53% for one
 * conductor, 31% for two and 40% for more; the "Utility" standard uses 50%, 30% and 35%.
 */
module ConduitFill {
  import opened Wrappers
  import opened Numbers

  datatype ConduitSize = ConduitSize(trade: string, internal: real, area: real)
  datatype Conduit = Conduit(name: string, sizes: seq<ConduitSize>)
  datatype WireSize = WireSize(diameter: real, area: real)

  /** Every size has a positive area and internal diameter. */
  predicate PositiveSizes(sizes: seq<ConduitSize>)
  {
    forall i :: 0 <= i < |sizes| ==> sizes[i].area > 0.0 && sizes[i].internal > 0.0
  }

  /** conduitData: the conduit of a listed type. */
  function ConduitOf(conduitType: string): (r: Option<Conduit>)
    ensures r.Some? ==> PositiveSizes(r.value.sizes)
  {
    if conduitType == "EMT" then Some(Conduit("Electrical Metallic Tubing", EmtSizes()))
    else if conduitType == "PVC Sch 40 & HDPE" then Some(Conduit("PVC Schedule 40 & HDPE", PvcSch40HdpeSizes()))
    else if conduitType == "PVC Sch 80" then Some(Conduit("PVC Schedule 80", PvcSch80Sizes()))
    else if conduitType == "RMC (GRC)" then Some(Conduit("Rigid Metal Conduit (Galvanized Rigid Conduit)", RmcgrcSizes()))
    else if conduitType == "IMC" then Some(Conduit("Intermediate Metal Conduit", ImcSizes()))
    else if conduitType == "Flex FMC" then Some(Conduit("Flexible Metal Conduit", FlexFmcSizes()))
    else if conduitType == "Flex LFMC" then Some(Conduit("Liquidtight Flexible Metal Conduit", FlexLfmcSizes()))
    else if conduitType == "Flex LFNC-B" then Some(Conduit("Liquidtight Flexible Nonmetallic Conduit Type B", FlexLfncbSizes()))
    else if conduitType == "SDR 9" then Some(Conduit("Standard Dimension Ratio 9", Sdr9Sizes()))
    else if conduitType == "SDR 11" then Some(Conduit("Standard Dimension Ratio 11", Sdr11Sizes()))
    else if conduitType == "SDR 13.5" then Some(Conduit("Standard Dimension Ratio 13.5", Sdr135Sizes()))
    else if conduitType == "TC-7" then Some(Conduit("Thermoplastic-Covered Cable Type 7", Tc7Sizes()))
    else None
  }

  function EmtSizes(): (sizes: seq<ConduitSize>)
    ensures PositiveSizes(sizes)
  {
    [
      ConduitSize("1/2\"", 0.622, 0.304),
      ConduitSize("3/4\"", 0.824, 0.533),
      ConduitSize("1\"", 1.049, 0.864),
      ConduitSize("1-1/4\"", 1.380, 1.496),
      ConduitSize("1-1/2\"", 1.610, 2.036),
      ConduitSize("2\"", 2.067, 3.356),
      ConduitSize("2-1/2\"", 2.731, 5.858),
      ConduitSize("3\"", 3.356, 8.846),
      ConduitSize("3-1/2\"", 3.834, 11.545),
      ConduitSize("4\"", 4.334, 14.753)]
  }

  function PvcSch40HdpeSizes(): (sizes: seq<ConduitSize>)
    ensures PositiveSizes(sizes)
  {
    [
      ConduitSize("1/2\"", 0.602, 0.285),
      ConduitSize("3/4\"", 0.804, 0.508),
      ConduitSize("1\"", 1.029, 0.832),
      ConduitSize("1-1/4\"", 1.360, 1.453),
      ConduitSize("1-1/2\"", 1.590, 1.986),
      ConduitSize("2\"", 2.047, 3.291),
      ConduitSize("2-1/2\"", 2.469, 4.788),
      ConduitSize("3\"", 3.042, 7.268),
      ConduitSize("3-1/2\"", 3.521, 9.737),
      ConduitSize("4\"", 4.021, 12.692),
      ConduitSize("5\"", 5.016, 19.761),
      ConduitSize("6\"", 6.031, 28.567)]
  }

  function PvcSch80Sizes(): (sizes: seq<ConduitSize>)
    ensures PositiveSizes(sizes)
  {
    [
      ConduitSize("1/2\"", 0.526, 0.217),
      ConduitSize("3/4\"", 0.722, 0.409),
      ConduitSize("1\"", 0.936, 0.688),
      ConduitSize("1-1/4\"", 1.255, 1.237),
      ConduitSize("1-1/2\"", 1.476, 1.711),
      ConduitSize("2\"", 1.913, 2.874),
      ConduitSize("2-1/2\"", 2.290, 4.119),
      ConduitSize("3\"", 2.864, 6.442),
      ConduitSize("3-1/2\"", 3.326, 8.688),
      ConduitSize("4\"", 3.826, 11.500),
      ConduitSize("5\"", 4.813, 18.194),
      ConduitSize("6\"", 5.709, 25.598)]
  }

  function RmcgrcSizes(): (sizes: seq<ConduitSize>)
    ensures PositiveSizes(sizes)
  {
    [
      ConduitSize("1/2\"", 0.632, 0.314),
      ConduitSize("3/4\"", 0.836, 0.549),
      ConduitSize("1\"", 1.063, 0.887),
      ConduitSize("1-1/4\"", 1.394, 1.526),
      ConduitSize("1-1/2\"", 1.624, 2.071),
      ConduitSize("2\"", 2.083, 3.408),
      ConduitSize("2-1/2\"", 2.489, 4.866),
      ConduitSize("3\"", 3.068, 7.393),
      ConduitSize("3-1/2\"", 3.548, 9.887),
      ConduitSize("4\"", 4.026, 12.717),
      ConduitSize("5\"", 5.073, 20.212),
      ConduitSize("6\"", 6.093, 29.158)]
  }

  function ImcSizes(): (sizes: seq<ConduitSize>)
    ensures PositiveSizes(sizes)
  {
    [
      ConduitSize("1/2\"", 0.660, 0.342),
      ConduitSize("3/4\"", 0.864, 0.586),
      ConduitSize("1\"", 1.105, 0.959),
      ConduitSize("1-1/4\"", 1.448, 1.647),
      ConduitSize("1-1/2\"", 1.683, 2.225),
      ConduitSize("2\"", 2.150, 3.630),
      ConduitSize("2-1/2\"", 2.557, 5.135),
      ConduitSize("3\"", 3.176, 7.922),
      ConduitSize("3-1/2\"", 3.671, 10.584),
      ConduitSize("4\"", 4.166, 13.631)]
  }

  function FlexFmcSizes(): (sizes: seq<ConduitSize>)
    ensures PositiveSizes(sizes)
  {
    [
      ConduitSize("3/8\"", 0.384, 0.116),
      ConduitSize("1/2\"", 0.635, 0.317),
      ConduitSize("3/4\"", 0.824, 0.533),
      ConduitSize("1\"", 1.020, 0.817),
      ConduitSize("1-1/4\"", 1.275, 1.277),
      ConduitSize("1-1/2\"", 1.538, 1.858),
      ConduitSize("2\"", 2.040, 3.269)]
  }

  function FlexLfmcSizes(): (sizes: seq<ConduitSize>)
    ensures PositiveSizes(sizes)
  {
    [
      ConduitSize("3/8\"", 0.384, 0.116),
      ConduitSize("1/2\"", 0.494, 0.192),
      ConduitSize("3/4\"", 0.736, 0.425),
      ConduitSize("1\"", 0.981, 0.756),
      ConduitSize("1-1/4\"", 1.267, 1.262),
      ConduitSize("1-1/2\"", 1.524, 1.825),
      ConduitSize("2\"", 2.009, 3.169)]
  }

  function FlexLfncbSizes(): (sizes: seq<ConduitSize>)
    ensures PositiveSizes(sizes)
  {
    [
      ConduitSize("3/8\"", 0.384, 0.116),
      ConduitSize("1/2\"", 0.494, 0.192),
      ConduitSize("3/4\"", 0.736, 0.425),
      ConduitSize("1\"", 0.981, 0.756),
      ConduitSize("1-1/4\"", 1.267, 1.262),
      ConduitSize("1-1/2\"", 1.524, 1.825),
      ConduitSize("2\"", 2.009, 3.169)]
  }

  function Sdr9Sizes(): (sizes: seq<ConduitSize>)
    ensures PositiveSizes(sizes)
  {
    [
      ConduitSize("2\"", 2.193, 3.778),
      ConduitSize("3\"", 3.284, 8.474),
      ConduitSize("4\"", 4.374, 15.022),
      ConduitSize("5\"", 5.465, 23.448),
      ConduitSize("6\"", 6.556, 33.751)]
  }

  function Sdr11Sizes(): (sizes: seq<ConduitSize>)
    ensures PositiveSizes(sizes)
  {
    [
      ConduitSize("2\"", 2.193, 3.778),
      ConduitSize("3\"", 3.284, 8.474),
      ConduitSize("4\"", 4.374, 15.022),
      ConduitSize("5\"", 5.465, 23.448),
      ConduitSize("6\"", 6.556, 33.751)]
  }

  function Sdr135Sizes(): (sizes: seq<ConduitSize>)
    ensures PositiveSizes(sizes)
  {
    [
      ConduitSize("2\"", 2.193, 3.778),
      ConduitSize("3\"", 3.284, 8.474),
      ConduitSize("4\"", 4.374, 15.022),
      ConduitSize("5\"", 5.465, 23.448),
      ConduitSize("6\"", 6.556, 33.751)]
  }

  function Tc7Sizes(): (sizes: seq<ConduitSize>)
    ensures PositiveSizes(sizes)
  {
    [
      ConduitSize("1/2\"", 0.602, 0.285),
      ConduitSize("3/4\"", 0.804, 0.508),
      ConduitSize("1\"", 1.029, 0.832),
      ConduitSize("1-1/4\"", 1.360, 1.453),
      ConduitSize("1-1/2\"", 1.590, 1.986),
      ConduitSize("2\"", 2.047, 3.291)]
  }

  /** conductorData: the sizes of a listed wire type. */
  function WireTable(wireType: string): Option<map<string, WireSize>>
  {
    if wireType == "THHN/THWN (Copper)" then Some(ThhnthwnCopperWires())
    else if wireType == "THHN/THWN (Aluminum)" then Some(ThhnthwnAluminumWires())
    else if wireType == "XHHW (Copper)" then Some(XhhwCopperWires())
    else if wireType == "XHHW (Aluminum)" then Some(XhhwAluminumWires())
    else if wireType == "TW (Copper)" then Some(TwCopperWires())
    else if wireType == "THW (Copper)" then Some(ThwCopperWires())
    else if wireType == "THW (Aluminum)" then Some(ThwAluminumWires())
    else if wireType == "RHH/RHW (Copper)" then Some(RhhrhwCopperWires())
    else if wireType == "USE (Copper)" then Some(UseCopperWires())
    else None
  }

  function ThhnthwnCopperWires(): map<string, WireSize>
  {
    map[
      "14" := WireSize(0.111, 0.0097),
      "12" := WireSize(0.130, 0.0133),
      "10" := WireSize(0.164, 0.0211),
      "8" := WireSize(0.216, 0.0366),
      "6" := WireSize(0.275, 0.0507),
      "4" := WireSize(0.324, 0.0824),
      "3" := WireSize(0.352, 0.0973),
      "2" := WireSize(0.384, 0.1158),
      "1" := WireSize(0.448, 0.1576),
      "1/0" := WireSize(0.486, 0.1855),
      "2/0" := WireSize(0.532, 0.2223),
      "3/0" := WireSize(0.584, 0.2679),
      "4/0" := WireSize(0.642, 0.3237),
      "250" := WireSize(0.711, 0.3970),
      "300" := WireSize(0.766, 0.4608),
      "350" := WireSize(0.817, 0.5242),
      "400" := WireSize(0.864, 0.5863),
      "500" := WireSize(0.953, 0.7127)]
  }

  function ThhnthwnAluminumWires(): map<string, WireSize>
  {
    map[
      "12" := WireSize(0.130, 0.0133),
      "10" := WireSize(0.164, 0.0211),
      "8" := WireSize(0.216, 0.0366),
      "6" := WireSize(0.275, 0.0507),
      "4" := WireSize(0.324, 0.0824),
      "3" := WireSize(0.352, 0.0973),
      "2" := WireSize(0.384, 0.1158),
      "1" := WireSize(0.448, 0.1576),
      "1/0" := WireSize(0.486, 0.1855),
      "2/0" := WireSize(0.532, 0.2223),
      "3/0" := WireSize(0.584, 0.2679),
      "4/0" := WireSize(0.642, 0.3237),
      "250" := WireSize(0.711, 0.3970),
      "300" := WireSize(0.766, 0.4608),
      "350" := WireSize(0.817, 0.5242),
      "400" := WireSize(0.864, 0.5863),
      "500" := WireSize(0.953, 0.7127)]
  }

  function XhhwCopperWires(): map<string, WireSize>
  {
    map[
      "14" := WireSize(0.122, 0.0117),
      "12" := WireSize(0.141, 0.0156),
      "10" := WireSize(0.175, 0.0241),
      "8" := WireSize(0.227, 0.0405),
      "6" := WireSize(0.286, 0.0642),
      "4" := WireSize(0.335, 0.0881),
      "3" := WireSize(0.363, 0.1035),
      "2" := WireSize(0.395, 0.1225),
      "1" := WireSize(0.459, 0.1653),
      "1/0" := WireSize(0.497, 0.1940),
      "2/0" := WireSize(0.543, 0.2316),
      "3/0" := WireSize(0.595, 0.2781),
      "4/0" := WireSize(0.653, 0.3349),
      "250" := WireSize(0.722, 0.4096),
      "300" := WireSize(0.777, 0.4743),
      "350" := WireSize(0.828, 0.5384),
      "400" := WireSize(0.875, 0.6013),
      "500" := WireSize(0.964, 0.7297)]
  }

  function XhhwAluminumWires(): map<string, WireSize>
  {
    map[
      "12" := WireSize(0.141, 0.0156),
      "10" := WireSize(0.175, 0.0241),
      "8" := WireSize(0.227, 0.0405),
      "6" := WireSize(0.286, 0.0642),
      "4" := WireSize(0.335, 0.0881),
      "3" := WireSize(0.363, 0.1035),
      "2" := WireSize(0.395, 0.1225),
      "1" := WireSize(0.459, 0.1653),
      "1/0" := WireSize(0.497, 0.1940),
      "2/0" := WireSize(0.543, 0.2316),
      "3/0" := WireSize(0.595, 0.2781),
      "4/0" := WireSize(0.653, 0.3349),
      "250" := WireSize(0.722, 0.4096),
      "300" := WireSize(0.777, 0.4743),
      "350" := WireSize(0.828, 0.5384),
      "400" := WireSize(0.875, 0.6013),
      "500" := WireSize(0.964, 0.7297)]
  }

  function TwCopperWires(): map<string, WireSize>
  {
    map[
      "14" := WireSize(0.152, 0.0181),
      "12" := WireSize(0.172, 0.0233),
      "10" := WireSize(0.206, 0.0333),
      "8" := WireSize(0.289, 0.0656),
      "6" := WireSize(0.372, 0.1087),
      "4" := WireSize(0.452, 0.1605),
      "3" := WireSize(0.481, 0.1817),
      "2" := WireSize(0.513, 0.2067),
      "1" := WireSize(0.588, 0.2715),
      "1/0" := WireSize(0.629, 0.3107),
      "2/0" := WireSize(0.675, 0.3578),
      "3/0" := WireSize(0.727, 0.4151),
      "4/0" := WireSize(0.785, 0.4840)]
  }

  function ThwCopperWires(): map<string, WireSize>
  {
    map[
      "14" := WireSize(0.152, 0.0181),
      "12" := WireSize(0.172, 0.0233),
      "10" := WireSize(0.206, 0.0333),
      "8" := WireSize(0.289, 0.0656),
      "6" := WireSize(0.372, 0.1087),
      "4" := WireSize(0.452, 0.1605),
      "3" := WireSize(0.481, 0.1817),
      "2" := WireSize(0.513, 0.2067),
      "1" := WireSize(0.588, 0.2715),
      "1/0" := WireSize(0.629, 0.3107),
      "2/0" := WireSize(0.675, 0.3578),
      "3/0" := WireSize(0.727, 0.4151),
      "4/0" := WireSize(0.785, 0.4840),
      "250" := WireSize(0.867, 0.5917),
      "300" := WireSize(0.922, 0.6665),
      "350" := WireSize(0.973, 0.7435),
      "400" := WireSize(1.020, 0.8171),
      "500" := WireSize(1.109, 0.9676)]
  }

  function ThwAluminumWires(): map<string, WireSize>
  {
    map[
      "12" := WireSize(0.172, 0.0233),
      "10" := WireSize(0.206, 0.0333),
      "8" := WireSize(0.289, 0.0656),
      "6" := WireSize(0.372, 0.1087),
      "4" := WireSize(0.452, 0.1605),
      "3" := WireSize(0.481, 0.1817),
      "2" := WireSize(0.513, 0.2067),
      "1" := WireSize(0.588, 0.2715),
      "1/0" := WireSize(0.629, 0.3107),
      "2/0" := WireSize(0.675, 0.3578),
      "3/0" := WireSize(0.727, 0.4151),
      "4/0" := WireSize(0.785, 0.4840),
      "250" := WireSize(0.867, 0.5917),
      "300" := WireSize(0.922, 0.6665),
      "350" := WireSize(0.973, 0.7435),
      "400" := WireSize(1.020, 0.8171),
      "500" := WireSize(1.109, 0.9676)]
  }

  function RhhrhwCopperWires(): map<string, WireSize>
  {
    map[
      "14" := WireSize(0.193, 0.0293),
      "12" := WireSize(0.213, 0.0353),
      "10" := WireSize(0.247, 0.0479),
      "8" := WireSize(0.330, 0.0855),
      "6" := WireSize(0.413, 0.1338),
      "4" := WireSize(0.493, 0.1907),
      "3" := WireSize(0.522, 0.2137),
      "2" := WireSize(0.554, 0.2406),
      "1" := WireSize(0.629, 0.3107),
      "1/0" := WireSize(0.670, 0.3525),
      "2/0" := WireSize(0.716, 0.4026),
      "3/0" := WireSize(0.768, 0.4634),
      "4/0" := WireSize(0.826, 0.5356)]
  }

  function UseCopperWires(): map<string, WireSize>
  {
    map[
      "14" := WireSize(0.122, 0.0117),
      "12" := WireSize(0.141, 0.0156),
      "10" := WireSize(0.175, 0.0241),
      "8" := WireSize(0.227, 0.0405),
      "6" := WireSize(0.286, 0.0642),
      "4" := WireSize(0.335, 0.0881),
      "3" := WireSize(0.363, 0.1035),
      "2" := WireSize(0.395, 0.1225),
      "1" := WireSize(0.459, 0.1653),
      "1/0" := WireSize(0.497, 0.1940),
      "2/0" := WireSize(0.543, 0.2316),
      "3/0" := WireSize(0.595, 0.2781),
      "4/0" := WireSize(0.653, 0.3349)]
  }

  datatype Conductor = Conductor(id: string, wireType: string, awgSize: string, quantity: int)

  datatype Standard = NEC | Utility

  datatype FillResult = FillResult(
    fillPercentage: real,
    jamProbability: real,
    isCompliant: bool,
    maxAllowed: int,
    totalConductorArea: real,
    conduitArea: real,
    conductorCount: int,
    standard: Standard)

  /** The result, or the message of the error thrown. */
  datatype Outcome = Ok(result: FillResult) | Thrown(message: string)

  /** sizes.find by trade size: the first row with that trade, if any. */
  function FindSize(sizes: seq<ConduitSize>, trade: string): (r: Option<ConduitSize>)
    ensures r.Some? ==> r.value in sizes && r.value.trade == trade
    ensures r.None? <==> forall s :: s in sizes ==> s.trade != trade
  {
    if |sizes| == 0 then None
    else if sizes[0].trade == trade then Some(sizes[0])
    else
      assert forall s :: s in sizes <==> s == sizes[0] || s in sizes[1..];
      FindSize(sizes[1..], trade)
  }

  /** The table entry of a conductor, when both its wire type and its size are listed. */
  function WireOf(c: Conductor): Option<WireSize>
  {
    var table := WireTable(c.wireType);
    if table.Some? && c.awgSize in table.value then Some(table.value[c.awgSize]) else None
  }

  /**
   * The area one row adds under a wire lookup: its wire's area times its quantity, or nothing
   * when not listed.
   */
  function AreaOf(wireOf: Conductor -> Option<WireSize>, c: Conductor): real
  {
    var w := wireOf(c);
    if w.Some? then w.value.area * c.quantity as real else 0.0
  }

  /** The count one row adds: its quantity, or nothing when not listed. */
  function CountOf(wireOf: Conductor -> Option<WireSize>, c: Conductor): int
  {
    if wireOf(c).Some? then c.quantity else 0
  }

  /** The area of the recognised conductors: the sum of area times quantity. */
  function TotalArea(wireOf: Conductor -> Option<WireSize>, cs: seq<Conductor>): real
  {
    if |cs| == 0 then 0.0 else TotalArea(wireOf, cs[..|cs| - 1]) + AreaOf(wireOf, cs[|cs| - 1])
  }

  /** The number of recognised conductors: the sum of their quantities. */
  function TotalCount(wireOf: Conductor -> Option<WireSize>, cs: seq<Conductor>): int
  {
    if |cs| == 0 then 0 else TotalCount(wireOf, cs[..|cs| - 1]) + CountOf(wireOf, cs[|cs| - 1])
  }

  /** The largest fill allowed for a number of conductors under a standard, in percent. */
  function MaxAllowed(standard: Standard, count: int): (limit: int)
    ensures standard == NEC ==> limit == (if count == 1 then 53 else if count == 2 then 31 else 40)
    ensures standard == Utility ==> limit == (if count == 1 then 50 else if count == 2 then 30 else 35)
    ensures limit <= 53
  {
    match standard
    case NEC => if count == 1 then 53 else if count == 2 then 31 else 40
    case Utility => if count == 1 then 50 else if count == 2 then 30 else 35
  }

  /** The Utility limits are never above the NEC limits. */
  lemma UtilityIsStricter(count: int)
    ensures MaxAllowed(Utility, count) < MaxAllowed(NEC, count)
  {
  }

  /**
   * The chance of a jam: 0 for fewer than three conductors; otherwise 50 points per unit the
   * ratio of conduit to average conductor diameter falls below 3, at most 100.
   */
  function JamProbability(count: int, conduitDiameter: real, averageDiameter: real): (p: real)
    ensures 0.0 <= p <= 100.0
    ensures count < 3 ==> p == 0.0
  {
    if count >= 3 && averageDiameter > 0.0 && conduitDiameter > 0.0 then
      var spacingRatio := conduitDiameter / averageDiameter;
      if spacingRatio < 3.0 then Min(100.0, (3.0 - spacingRatio) * 50.0) else 0.0
    else 0.0
  }

  /** The share of the conduit's area, less 5% for bends, that the conductors take, in percent. */
  function FillPercent(conductorArea: real, conduitArea: real): real
    requires conduitArea > 0.0
  {
    conductorArea / (conduitArea * 0.95) * 100.0
  }

  /** Math.round(x * 10^k) / 10^k for k = 1 or 4. */
  function RoundTo(x: real, scale: real): real
    requires scale > 0.0
  {
    Round(x * scale) as real / scale
  }

  /** The loop over the conductors: recognised ones add area times quantity, and quantity. */
  method SumConductors(wireOf: Conductor -> Option<WireSize>, conductors: seq<Conductor>)
    returns (totalConductorArea: real, conductorCount: int)
    ensures totalConductorArea == TotalArea(wireOf, conductors)
    ensures conductorCount == TotalCount(wireOf, conductors)
  {
    totalConductorArea, conductorCount := 0.0, 0;
    for i := 0 to |conductors|
      invariant totalConductorArea == TotalArea(wireOf, conductors[..i])
      invariant conductorCount == TotalCount(wireOf, conductors[..i])
    {
      assert conductors[..i + 1][..i] == conductors[..i];
      var wireData := wireOf(conductors[i]);
      if wireData.None? {
        continue;
      }
      assert AreaOf(wireOf, conductors[i]) == wireData.value.area * conductors[i].quantity as real;
      totalConductorArea := totalConductorArea + wireData.value.area * conductors[i].quantity as real;
      conductorCount := conductorCount + conductors[i].quantity;
    }
    assert conductors[..|conductors|] == conductors;
  }

  /** Every conduit a lookup lists has positive sizes, as the conduit table has. */
  ghost predicate PositiveTable(conduitOf: string -> Option<Conduit>)
  {
    forall t :: conduitOf(t).Some? ==> PositiveSizes(conduitOf(t).value.sizes)
  }

  /**
   * calculateConduitFill, over the conduit table `conduitOf` (ConduitOf) and the wire table
   * `wireOf` (WireOf). `averageDiameter(area, count)` stands for sqrt(area / count / pi) * 2,
   * which is not modelled.
   */
  method CalculateConduitFill(
    conduitOf: string -> Option<Conduit>, wireOf: Conductor -> Option<WireSize>,
    conduitType: string, conduitSize: string, conductors: seq<Conductor>, standard: Standard,
    averageDiameter: (real, int) -> real)
    returns (outcome: Outcome)
    requires PositiveTable(conduitOf)
    ensures conduitOf(conduitType).None? <==> outcome == Thrown("Invalid conduit type")
    ensures conduitOf(conduitType).Some? && FindSize(conduitOf(conduitType).value.sizes, conduitSize).None?
            <==> outcome == Thrown("Invalid conduit size")
    ensures outcome.Ok? ==>
      var size := FindSize(conduitOf(conduitType).value.sizes, conduitSize).value;
      var r := outcome.result;
      var fill := FillPercent(TotalArea(wireOf, conductors), size.area);
      r.conductorCount == TotalCount(wireOf, conductors)
      && r.maxAllowed == MaxAllowed(standard, TotalCount(wireOf, conductors))
      && (r.isCompliant <==> fill <= r.maxAllowed as real)
      && r.fillPercentage == RoundTo(fill, 10.0)
      && r.totalConductorArea == RoundTo(TotalArea(wireOf, conductors), 10000.0)
      && r.conduitArea == RoundTo(size.area * 0.95, 10000.0)
      && r.jamProbability == RoundTo(JamProbability(
           TotalCount(wireOf, conductors), size.internal,
           averageDiameter(TotalArea(wireOf, conductors), TotalCount(wireOf, conductors))), 10.0)
      && 0.0 <= r.jamProbability <= 100.0
      && (r.conductorCount < 3 ==> r.jamProbability == 0.0)
      && r.standard == standard
  {
    var conduit := conduitOf(conduitType);
    if conduit.None? {
      return Thrown("Invalid conduit type");
    }
    var sizeData := FindSize(conduit.value.sizes, conduitSize);
    if sizeData.None? {
      return Thrown("Invalid conduit size");
    }
    var conduitArea := sizeData.value.area;
    var totalConductorArea, conductorCount := SumConductors(wireOf, conductors);
    var adjustedConduitArea := conduitArea * 0.95;
    var maxAllowedPercentage := MaxAllowed(standard, conductorCount);
    var fillPercentage := FillPercent(totalConductorArea, conduitArea);
    var isCompliant := fillPercentage <= maxAllowedPercentage as real;
    var jam := JamProbability(conductorCount, sizeData.value.internal, averageDiameter(totalConductorArea, conductorCount));
    var roundedJam := RoundTo(jam, 10.0);
    RoundedPercentInRange(jam);
    return Ok(FillResult(
      RoundTo(fillPercentage, 10.0), roundedJam, isCompliant, maxAllowedPercentage,
      RoundTo(totalConductorArea, 10000.0), RoundTo(adjustedConduitArea, 10000.0), conductorCount, standard));
  }

  /** Rounding a percentage in 0..100 to one decimal keeps it in 0..100, and keeps 0 at 0. */
  lemma RoundedPercentInRange(p: real)
    requires 0.0 <= p <= 100.0
    ensures 0.0 <= RoundTo(p, 10.0) <= 100.0
    ensures p == 0.0 ==> RoundTo(p, 10.0) == 0.0
  {
    assert 0.0 <= p * 10.0 <= 1000.0;
  }

  /** The totals of two lists of rows put together are the sums of their totals. */
  lemma {:induction false} TotalsOfAppend(wireOf: Conductor -> Option<WireSize>, a: seq<Conductor>, b: seq<Conductor>)
    ensures TotalArea(wireOf, a + b) == TotalArea(wireOf, a) + TotalArea(wireOf, b)
    ensures TotalCount(wireOf, a + b) == TotalCount(wireOf, a) + TotalCount(wireOf, b)
  {
    if |b| == 0 {
      assert a + b == a;
    } else {
      assert (a + b)[..|a + b| - 1] == a + b[..|b| - 1];
      TotalsOfAppend(wireOf, a, b[..|b| - 1]);
    }
  }

  /** Rows whose wire is not listed change neither total. */
  lemma UnlistedRowIsSkipped(wireOf: Conductor -> Option<WireSize>, cs: seq<Conductor>, c: Conductor)
    requires wireOf(c).None?
    ensures TotalArea(wireOf, cs + [c]) == TotalArea(wireOf, cs)
    ensures TotalCount(wireOf, cs + [c]) == TotalCount(wireOf, cs)
  {
    assert (cs + [c])[..|cs|] == cs;
  }

  /** The conduit table meets the precondition of CalculateConduitFill. */
  lemma ConduitTableIsPositive()
    ensures PositiveTable(ConduitOf)
  {
  }

  /** Four 6 AWG THHN copper conductors in 1/2" EMT exceed the NEC limit. */
  lemma FourSixAwgInHalfInchEmt()
    ensures var c := Conductor("c", "THHN/THWN (Copper)", "6", 4);
            TotalCount(WireOf, [c]) == 4 && MaxAllowed(NEC, 4) == 40
            && FillPercent(TotalArea(WireOf, [c]), 0.304) > 40.0
            && ConduitOf("EMT").Some?
            && FindSize(ConduitOf("EMT").value.sizes, "1/2\"") == Some(ConduitSize("1/2\"", 0.622, 0.304))
  {
    var c := Conductor("c", "THHN/THWN (Copper)", "6", 4);
    assert WireOf(c) == Some(WireSize(0.275, 0.0507));
    assert [c][..0] == [];
  }
}
