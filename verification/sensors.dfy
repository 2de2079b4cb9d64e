/** The fixed catalogue of camera sensor formats (js/calculator.js, SENSOR_SIZES)
    and the conversion between a lens's actual focal length and its
    35mm-equivalent focal length. */
module Sensors {
  import opened Options

  /** The six built-in sensor formats. The catalogue is closed: a lookup
      cannot miss. */
  datatype Sensor = MediumFormat | FullFrame | ApsC | ApsCCanon | MicroFourThirds | OneInch

  /** A catalogue entry: physical size in millimetres, display name and the
      35mm-equivalence multiplier ("crop factor" of the sensor itself). */
  datatype SensorInfo = SensorInfo(width: real, height: real, name: string, cropFactor: real)

  /** The catalogue's entries in the order the catalogue declares them. */
  const AllSensors: seq<Sensor> := [MediumFormat, FullFrame, ApsC, ApsCCanon, MicroFourThirds, OneInch]

  /** The catalogue entry of a sensor format. */
  function Info(s: Sensor): (info: SensorInfo)
    ensures 0.0 < info.height < info.width
    ensures info.cropFactor > 0.0
    ensures info.cropFactor == 1.0 <==> s == FullFrame
    ensures info.cropFactor < 1.0 <==> s == MediumFormat
  {
    match s
    case MediumFormat => SensorInfo(43.8, 32.9, "\U{C911}\U{D615} \U{D3EC}\U{B9F7}", 0.79)
    case FullFrame => SensorInfo(36.0, 24.0, "\U{D480}\U{D504}\U{B808}\U{C784}", 1.0)
    case ApsC => SensorInfo(23.6, 15.6, "APS-C", 1.5)
    case ApsCCanon => SensorInfo(22.2, 14.8, "APS-C (\U{CE90}\U{B17C})", 1.6)
    case MicroFourThirds => SensorInfo(17.3, 13.0, "\U{B9C8}\U{C774}\U{D06C}\U{B85C} \U{D3EC}\U{C11C}\U{B4DC}", 2.0)
    case OneInch => SensorInfo(13.2, 8.8, "1\U{C778}\U{CE58}", 2.7)
  }

  /** The identifier under which the catalogue stores a format. */
  function Id(s: Sensor): string
  {
    match s
    case MediumFormat => "medium-format"
    case FullFrame => "fullframe"
    case ApsC => "apsc"
    case ApsCCanon => "apsc-canon"
    case MicroFourThirds => "micro43"
    case OneInch => "1inch"
  }

  /** Looks a format up by identifier; an unknown identifier is an explicit
      `None` rather than an undefined entry. */
  function FromId(id: string): (r: Option<Sensor>)
    ensures r.Some? ==> Id(r.value) == id
    ensures r.None? ==> forall s: Sensor :: Id(s) != id
  {
    if id == "medium-format" then Some(MediumFormat)
    else if id == "fullframe" then Some(FullFrame)
    else if id == "apsc" then Some(ApsC)
    else if id == "apsc-canon" then Some(ApsCCanon)
    else if id == "micro43" then Some(MicroFourThirds)
    else if id == "1inch" then Some(OneInch)
    else None
  }

  /** Every format is found again under its own identifier, so identifiers
      are distinct. */
  lemma FromIdInvertsId(s: Sensor)
    ensures FromId(Id(s)) == Some(s)
  {
  }

  /** The catalogue lists each format exactly once, under six distinct keys. */
  lemma AllSensorsListsEachOnce(s: Sensor)
    ensures s in AllSensors
    ensures |AllSensors| == 6
    ensures forall i, j :: 0 <= i < j < |AllSensors| ==> AllSensors[i] != AllSensors[j]
    ensures forall i, j :: 0 <= i < j < |AllSensors| ==> Id(AllSensors[i]) != Id(AllSensors[j])
  {
    forall i, j | 0 <= i < j < |AllSensors|
      ensures Id(AllSensors[i]) != Id(AllSensors[j])
    {
      FromIdInvertsId(AllSensors[i]);
      FromIdInvertsId(AllSensors[j]);
    }
  }

  /** The 35mm-equivalence multiplier of the selected format. */
  function Multiplier(s: Sensor): (m: real)
    ensures m > 0.0
    ensures m == 1.0 <==> s == FullFrame
  {
    Info(s).cropFactor
  }

  /** 35mm-equivalent focal length of a lens of the given actual focal length. */
  function ActualToEquivalent(s: Sensor, actual: real): (equivalent: real)
    ensures equivalent > 0.0 <==> actual > 0.0
    ensures s == FullFrame ==> equivalent == actual
  {
    actual * Multiplier(s)
  }

  /** Actual focal length of a lens with the given 35mm-equivalent focal length. */
  function EquivalentToActual(s: Sensor, equivalent: real): (actual: real)
    ensures actual > 0.0 <==> equivalent > 0.0
    ensures s == FullFrame ==> actual == equivalent
  {
    equivalent / Multiplier(s)
  }

  /** Converting to 35mm-equivalent and back gives the actual focal length again. */
  lemma EquivalentToActualUndoesActualToEquivalent(s: Sensor, actual: real)
    ensures EquivalentToActual(s, ActualToEquivalent(s, actual)) == actual
  {
  }

  /** Converting to actual and back gives the equivalent focal length again. */
  lemma ActualToEquivalentUndoesEquivalentToActual(s: Sensor, equivalent: real)
    ensures ActualToEquivalent(s, EquivalentToActual(s, equivalent)) == equivalent
  {
  }

  /** A longer lens stays longer after conversion, in both directions. */
  lemma ConversionsPreserveOrder(s: Sensor, a: real, b: real)
    requires a <= b
    ensures ActualToEquivalent(s, a) <= ActualToEquivalent(s, b)
    ensures EquivalentToActual(s, a) <= EquivalentToActual(s, b)
  {
  }
}
