/** The normalised input snapshot the calculator holds between `setInputs`
    and `calculate` (js/calculator.js, CropCalculator constructor and
    setInputs). Text parsing itself is outside the model: the results of
    `parseFloat` and `parseInt` arrive as parameters, `None` standing for
    `NaN`. */
module Inputs {
  import opened Options
  import opened Sensors

  /** Focal lengths are millimetres, never NaN after normalisation;
      resolutions are pixel counts, `None` when the field was not a number. */
  datatype Input = Input(
    sensor: Sensor,
    focalLength: real,
    equivalentFocalLength: real,
    originalWidth: Option<int>,
    originalHeight: Option<int>,
    cropWidth: Option<int>,
    cropHeight: Option<int>)

  /** The snapshot of a freshly constructed calculator: full frame and zeros. */
  const Initial: Input := Input(FullFrame, 0.0, 0.0, Some(0), Some(0), Some(0), Some(0))

  /** `parseFloat(text) || 0`: a NaN parse becomes zero, any number is kept. */
  function FocalValue(parsed: Option<real>): (r: real)
    ensures parsed.Some? ==> r == parsed.value
    ensures parsed.None? ==> r == 0.0
    ensures r > 0.0 <==> parsed.Some? && parsed.value > 0.0
  {
    match parsed
    case None => 0.0
    case Some(v) => v
  }

  /** Stores a new snapshot. Never fails: unparseable focal lengths become
      zero, unparseable resolutions stay missing, and nothing is clamped. */
  function SetInputs(
    sensor: Sensor,
    focalLength: Option<real>,
    equivalentFocalLength: Option<real>,
    originalWidth: Option<int>,
    originalHeight: Option<int>,
    cropWidth: Option<int>,
    cropHeight: Option<int>): (r: Input)
    ensures r.sensor == sensor
    ensures r.focalLength == focalLength.GetOr(0.0)
    ensures r.equivalentFocalLength == equivalentFocalLength.GetOr(0.0)
    ensures r.originalWidth == originalWidth && r.originalHeight == originalHeight
    ensures r.cropWidth == cropWidth && r.cropHeight == cropHeight
  {
    Input(sensor, FocalValue(focalLength), FocalValue(equivalentFocalLength),
          originalWidth, originalHeight, cropWidth, cropHeight)
  }

  /** All four resolutions are numbers. */
  predicate HasResolutions(inp: Input)
  {
    inp.originalWidth.Some? && inp.originalHeight.Some? && inp.cropWidth.Some? && inp.cropHeight.Some?
  }
}
