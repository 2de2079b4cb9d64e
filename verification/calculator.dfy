/** The whole calculation (js/calculator.js, calculateCropActualFocalLength,
    calculateCropEquivalentFocalLength and calculate): validate, and only on
    valid input compute the metrics, rounded once at the output. */
module Calculator {
  import opened Options
  import opened Sensors
  import opened Inputs
  import opened Validation
  import opened Rounding
  import opened Geometry
  import opened Focal

  /** The six reported metrics, rounded: focal lengths and the area ratio
      to one decimal place, factors to two. */
  datatype Results = Results(
    cropActualFocalLength: real,
    cropEquivalentFocalLength: real,
    cropFactor: real,
    horizontalCropFactor: real,
    verticalCropFactor: real,
    cropRatio: real)

  /** Supporting figures: the catalogue entry, diagonals in whole pixels and
      aspect ratios to two decimal places. */
  datatype Details = Details(
    sensorInfo: SensorInfo,
    originalDiagonal: int,
    cropDiagonal: int,
    originalAspectRatio: real,
    cropAspectRatio: real)

  /** Either the validator's list of errors or the results. */
  datatype Calculation =
    | Failure(errors: seq<ValidationError>)
    | Success(results: Results, details: Details)

  /** All four resolutions present and a non-empty cropped frame: what the
      cropped focal lengths need to be finite. */
  predicate Measurable(inp: Input)
  {
    HasResolutions(inp) && (inp.cropWidth.value != 0 || inp.cropHeight.value != 0)
  }

  /** The diagonal crop factor of the input's two frames. */
  function ImageCropFactor(inp: Input, sqrt: real -> real): (f: real)
    requires IsSqrt(sqrt)
    requires Measurable(inp)
    ensures f >= 0.0
  {
    CropFactor(inp.originalWidth.value, inp.originalHeight.value,
               inp.cropWidth.value, inp.cropHeight.value, sqrt)
  }

  /** A product of non-negative reals is non-negative. */
  lemma ProductNonNegative(x: real, y: real)
    ensures x >= 0.0 && y >= 0.0 ==> x * y >= 0.0
  {
  }

  /** A focal length seen through a crop of the given diagonal factor. A
      factor of at least 1 (a crop inside the frame) never shortens it. */
  function ScaleFocalLength(focalLength: real, factor: real): (r: real)
    ensures focalLength >= 0.0 && factor >= 0.0 ==> r >= 0.0
    ensures focalLength > 0.0 && factor >= 1.0 ==> r >= focalLength
  {
    ProductNonNegative(focalLength, factor);
    ScaleByAtLeastOne(focalLength, factor, focalLength * factor);
    focalLength * factor
  }

  /** Actual focal length after cropping: the original actual focal length
      scaled by the ratio of the diagonals. */
  function CropActualFocalLength(inp: Input, sqrt: real -> real): (a: real)
    requires IsSqrt(sqrt)
    requires Measurable(inp)
    ensures OriginalActualFocalLength(inp) >= 0.0 ==> a >= 0.0
  {
    ScaleFocalLength(OriginalActualFocalLength(inp), ImageCropFactor(inp, sqrt))
  }

  /** 35mm-equivalent focal length after cropping: the original equivalent
      focal length scaled by the ratio of the diagonals. */
  function CropEquivalentFocalLength(inp: Input, sqrt: real -> real): (e: real)
    requires IsSqrt(sqrt)
    requires Measurable(inp)
    ensures OriginalEquivalentFocalLength(inp) >= 0.0 ==> e >= 0.0
  {
    ScaleFocalLength(OriginalEquivalentFocalLength(inp), ImageCropFactor(inp, sqrt))
  }

  /** The metrics of a valid input, rounded for output: focal lengths and
      the area ratio to one decimal place, the factors to two. Each figure
      is the grid value `RoundTo` picks, so it lies within half a display
      step of the exact metric. */
  function ComputeResults(inp: Input, sqrt: real -> real): (r: Results)
    requires IsSqrt(sqrt)
    requires Valid(inp)
    ensures r.cropActualFocalLength == RoundTo(CropActualFocalLength(inp, sqrt), 10.0)
    ensures r.cropEquivalentFocalLength == RoundTo(CropEquivalentFocalLength(inp, sqrt), 10.0)
    ensures r.cropFactor == RoundTo(ImageCropFactor(inp, sqrt), 100.0)
    ensures r.horizontalCropFactor
            == RoundTo(AxisCropFactor(inp.originalWidth.value, inp.cropWidth.value), 100.0)
    ensures r.verticalCropFactor
            == RoundTo(AxisCropFactor(inp.originalHeight.value, inp.cropHeight.value), 100.0)
    ensures r.cropRatio == RoundTo(CropRatio(inp.originalWidth.value, inp.originalHeight.value,
                                             inp.cropWidth.value, inp.cropHeight.value), 10.0)
    ensures -0.05 < r.cropActualFocalLength - CropActualFocalLength(inp, sqrt) <= 0.05
    ensures -0.05 < r.cropEquivalentFocalLength - CropEquivalentFocalLength(inp, sqrt) <= 0.05
    ensures -0.005 < r.cropFactor - ImageCropFactor(inp, sqrt) <= 0.005
    ensures -0.005 < r.horizontalCropFactor
                     - AxisCropFactor(inp.originalWidth.value, inp.cropWidth.value) <= 0.005
    ensures -0.005 < r.verticalCropFactor
                     - AxisCropFactor(inp.originalHeight.value, inp.cropHeight.value) <= 0.005
    ensures -0.05 < r.cropRatio - CropRatio(inp.originalWidth.value, inp.originalHeight.value,
                                            inp.cropWidth.value, inp.cropHeight.value) <= 0.05
  {
    var ow := inp.originalWidth.value;
    var oh := inp.originalHeight.value;
    var cw := inp.cropWidth.value;
    var ch := inp.cropHeight.value;
    assert ow * oh != 0;
    var actual := CropActualFocalLength(inp, sqrt);
    var equivalent := CropEquivalentFocalLength(inp, sqrt);
    var factor := ImageCropFactor(inp, sqrt);
    RoundToIsClose(actual, 10.0);
    RoundToIsClose(equivalent, 10.0);
    var horizontal := AxisCropFactor(ow, cw);
    var vertical := AxisCropFactor(oh, ch);
    var ratio := CropRatio(ow, oh, cw, ch);
    RoundToIsClose(factor, 100.0);
    RoundToIsClose(horizontal, 100.0);
    RoundToIsClose(vertical, 100.0);
    RoundToIsClose(ratio, 10.0);
    Results(
      RoundTo(actual, 10.0),
      RoundTo(equivalent, 10.0),
      RoundTo(factor, 100.0),
      RoundTo(horizontal, 100.0),
      RoundTo(vertical, 100.0),
      RoundTo(ratio, 10.0))
  }

  /** The supporting figures of a valid input: the sensor's catalogue entry,
      each diagonal to the nearest whole pixel and each aspect ratio (width
      over height) to two decimal places. */
  function ComputeDetails(inp: Input, sqrt: real -> real): (r: Details)
    requires IsSqrt(sqrt)
    requires Valid(inp)
    ensures r.sensorInfo == Info(inp.sensor)
    ensures r.originalDiagonal as real - 0.5
            <= Diagonal(inp.originalWidth.value, inp.originalHeight.value, sqrt)
            < r.originalDiagonal as real + 0.5
    ensures r.cropDiagonal as real - 0.5
            <= Diagonal(inp.cropWidth.value, inp.cropHeight.value, sqrt)
            < r.cropDiagonal as real + 0.5
    ensures r.originalAspectRatio
            == RoundTo(inp.originalWidth.value as real / inp.originalHeight.value as real, 100.0)
    ensures r.cropAspectRatio
            == RoundTo(inp.cropWidth.value as real / inp.cropHeight.value as real, 100.0)
    ensures -0.005 < r.originalAspectRatio
                     - inp.originalWidth.value as real / inp.originalHeight.value as real <= 0.005
    ensures -0.005 < r.cropAspectRatio
                     - inp.cropWidth.value as real / inp.cropHeight.value as real <= 0.005
  {
    var ow := inp.originalWidth.value;
    var oh := inp.originalHeight.value;
    var cw := inp.cropWidth.value;
    var ch := inp.cropHeight.value;
    var originalAspect := ow as real / oh as real;
    var cropAspect := cw as real / ch as real;
    RoundToIsClose(originalAspect, 100.0);
    RoundToIsClose(cropAspect, 100.0);
    Details(
      Info(inp.sensor),
      Round(Diagonal(ow, oh, sqrt)),
      Round(Diagonal(cw, ch, sqrt)),
      RoundTo(originalAspect, 100.0),
      RoundTo(cropAspect, 100.0))
  }

  /** Validates, then either returns every error or computes the metrics. */
  function Calculate(inp: Input, sqrt: real -> real): (r: Calculation)
    requires IsSqrt(sqrt)
    ensures r.Success? <==> Valid(inp)
    ensures r.Failure? ==> r.errors == Validate(inp) && r.errors != []
    ensures r.Success? ==> r.details.sensorInfo == Info(inp.sensor)
    ensures r.Success? ==> r.results == ComputeResults(inp, sqrt) && r.details == ComputeDetails(inp, sqrt)
  {
    var errors := Validate(inp);
    ValidateEmptyIffValid(inp);
    if |errors| > 0 then Failure(errors)
    else Success(ComputeResults(inp, sqrt), ComputeDetails(inp, sqrt))
  }

  // ---- properties ----

  /** Cropping scales the actual focal length by the ratio of the
      diagonals: cropped focal length times cropped diagonal equals original
      focal length times original diagonal. */
  lemma CroppedActualFollowsDiagonals(inp: Input, sqrt: real -> real)
    requires IsSqrt(sqrt)
    requires Measurable(inp)
    ensures CropActualFocalLength(inp, sqrt) * Diagonal(inp.cropWidth.value, inp.cropHeight.value, sqrt)
            == OriginalActualFocalLength(inp) * Diagonal(inp.originalWidth.value, inp.originalHeight.value, sqrt)
  {
    var x := OriginalActualFocalLength(inp);
    var f := ImageCropFactor(inp, sqrt);
    var cd := Diagonal(inp.cropWidth.value, inp.cropHeight.value, sqrt);
    var od := Diagonal(inp.originalWidth.value, inp.originalHeight.value, sqrt);
    var cropped := CropActualFocalLength(inp, sqrt);
    assert cropped == ScaleFocalLength(x, f);
    assert f * cd == od;
    ScaledByRatio(x, f, cd, od, cropped);
  }

  /** The same scaling for the 35mm-equivalent focal length. */
  lemma CroppedEquivalentFollowsDiagonals(inp: Input, sqrt: real -> real)
    requires IsSqrt(sqrt)
    requires Measurable(inp)
    ensures CropEquivalentFocalLength(inp, sqrt) * Diagonal(inp.cropWidth.value, inp.cropHeight.value, sqrt)
            == OriginalEquivalentFocalLength(inp) * Diagonal(inp.originalWidth.value, inp.originalHeight.value, sqrt)
  {
    var x := OriginalEquivalentFocalLength(inp);
    var f := ImageCropFactor(inp, sqrt);
    var cd := Diagonal(inp.cropWidth.value, inp.cropHeight.value, sqrt);
    var od := Diagonal(inp.originalWidth.value, inp.originalHeight.value, sqrt);
    var cropped := CropEquivalentFocalLength(inp, sqrt);
    assert cropped == ScaleFocalLength(x, f);
    assert f * cd == od;
    ScaledByRatio(x, f, cd, od, cropped);
  }

  /** If a factor maps one length onto another, scaling a value by that
      factor trades the first length for the second. */
  lemma ScaledByRatio(x: real, f: real, from: real, to: real, scaled: real)
    requires f * from == to
    requires scaled == ScaleFocalLength(x, f)
    ensures scaled * from == x * to
  {
    assert (x * f) * from == x * (f * from);
  }

  /** On valid input each cropped focal length is at least its resolved
      original, because the diagonal crop factor is at least 1. */
  lemma CroppedFocalLengthsScaleOriginals(inp: Input, sqrt: real -> real)
    requires IsSqrt(sqrt)
    requires Valid(inp)
    ensures CropActualFocalLength(inp, sqrt) >= OriginalActualFocalLength(inp) > 0.0
    ensures CropEquivalentFocalLength(inp, sqrt) >= OriginalEquivalentFocalLength(inp) > 0.0
  {
    var f := ImageCropFactor(inp, sqrt);
    assert f >= 1.0 by {
      CropFactorAtLeastOne(inp.originalWidth.value, inp.originalHeight.value,
                           inp.cropWidth.value, inp.cropHeight.value, sqrt);
    }
    ValidInputHasPositiveFocalLengths(inp);
    assert CropActualFocalLength(inp, sqrt) == ScaleFocalLength(OriginalActualFocalLength(inp), f);
    assert CropEquivalentFocalLength(inp, sqrt) == ScaleFocalLength(OriginalEquivalentFocalLength(inp), f);
  }

  /** Multiplying a positive real by a factor of at least one does not
      make it smaller. */
  lemma ScaleByAtLeastOne(x: real, f: real, product: real)
    requires product == x * f
    ensures x > 0.0 && f >= 1.0 ==> product >= x
  {
    assert x * f - x == x * (f - 1.0);
  }

  /** On valid input every reported factor is at least 1, the area ratio
      lies between 0 and 100 percent, and each cropped focal length is at
      least its rounded original. */
  lemma CalculateResultsBounded(inp: Input, sqrt: real -> real)
    requires IsSqrt(sqrt)
    requires Valid(inp)
    ensures Calculate(inp, sqrt).Success?
    ensures Calculate(inp, sqrt).results.cropFactor >= 1.0
    ensures Calculate(inp, sqrt).results.horizontalCropFactor >= 1.0
    ensures Calculate(inp, sqrt).results.verticalCropFactor >= 1.0
    ensures 0.0 <= Calculate(inp, sqrt).results.cropRatio <= 100.0
    ensures Calculate(inp, sqrt).results.cropActualFocalLength
            >= RoundTo(OriginalActualFocalLength(inp), 10.0)
    ensures Calculate(inp, sqrt).results.cropEquivalentFocalLength
            >= RoundTo(OriginalEquivalentFocalLength(inp), 10.0)
  {
    var ow := inp.originalWidth.value;
    var oh := inp.originalHeight.value;
    var cw := inp.cropWidth.value;
    var ch := inp.cropHeight.value;
    CropFactorAtLeastOne(ow, oh, cw, ch, sqrt);
    AxisFactorAtLeastOne(ow, cw);
    AxisFactorAtLeastOne(oh, ch);
    CropRatioWithinPercent(ow, oh, cw, ch);
    RoundToKeepsLowerBound(100, ImageCropFactor(inp, sqrt), 100.0);
    RoundToKeepsLowerBound(100, AxisCropFactor(ow, cw), 100.0);
    RoundToKeepsLowerBound(100, AxisCropFactor(oh, ch), 100.0);
    RoundToKeepsLowerBound(0, CropRatio(ow, oh, cw, ch), 10.0);
    RoundToKeepsUpperBound(1000, CropRatio(ow, oh, cw, ch), 10.0);
    CroppedFocalLengthsScaleOriginals(inp, sqrt);
    RoundToMonotone(OriginalActualFocalLength(inp), CropActualFocalLength(inp, sqrt), 10.0);
    RoundToMonotone(OriginalEquivalentFocalLength(inp), CropEquivalentFocalLength(inp, sqrt), 10.0);
  }

  /** Keeping the whole frame reports factors of exactly 1, an area ratio of
      exactly 100 percent and the original focal lengths (rounded). */
  lemma CalculateWholeFrame(inp: Input, sqrt: real -> real)
    requires IsSqrt(sqrt)
    requires Valid(inp)
    requires inp.cropWidth == inp.originalWidth && inp.cropHeight == inp.originalHeight
    ensures Calculate(inp, sqrt).Success?
    ensures Calculate(inp, sqrt).results.cropFactor == 1.0
    ensures Calculate(inp, sqrt).results.horizontalCropFactor == 1.0
    ensures Calculate(inp, sqrt).results.verticalCropFactor == 1.0
    ensures Calculate(inp, sqrt).results.cropRatio == 100.0
    ensures Calculate(inp, sqrt).results.cropActualFocalLength
            == RoundTo(OriginalActualFocalLength(inp), 10.0)
    ensures Calculate(inp, sqrt).results.cropEquivalentFocalLength
            == RoundTo(OriginalEquivalentFocalLength(inp), 10.0)
  {
    var w := inp.originalWidth.value;
    var h := inp.originalHeight.value;
    CropFactorOfWholeFrame(w, h, sqrt);
    AxisFactorAtLeastOne(w, w);
    AxisFactorAtLeastOne(h, h);
    CropRatioWithinPercent(w, h, w, h);
    RoundToExact(100, 100.0);
    RoundToExact(1000, 10.0);
  }

  /** On full frame both cropped focal lengths are the same figure. */
  lemma FullFrameReportsOneFocalLength(inp: Input, sqrt: real -> real)
    requires IsSqrt(sqrt)
    requires inp.sensor == FullFrame
    requires Valid(inp)
    ensures CropActualFocalLength(inp, sqrt) == CropEquivalentFocalLength(inp, sqrt)
    ensures Calculate(inp, sqrt).results.cropActualFocalLength
            == Calculate(inp, sqrt).results.cropEquivalentFocalLength
  {
    FullFrameIgnoresEquivalentField(inp, inp.equivalentFocalLength);
    assert CropActualFocalLength(inp, sqrt) == CropEquivalentFocalLength(inp, sqrt);
    ValidateEmptyIffValid(inp);
    assert Calculate(inp, sqrt).results == ComputeResults(inp, sqrt);
  }

  /** On full frame the equivalent field has no influence on the outcome,
      whether the input is valid or not. */
  lemma FullFrameCalculateIgnoresEquivalentField(inp: Input, other: real, sqrt: real -> real)
    requires IsSqrt(sqrt)
    requires inp.sensor == FullFrame
    ensures Calculate(inp.(equivalentFocalLength := other), sqrt) == Calculate(inp, sqrt)
  {
    var changed := inp.(equivalentFocalLength := other);
    assert FocalErrors(changed) == FocalErrors(inp);
    assert Validate(changed) == Validate(inp);
    if Valid(inp) {
      FullFrameIgnoresEquivalentField(inp, other);
      assert ImageCropFactor(changed, sqrt) == ImageCropFactor(inp, sqrt);
      assert CropActualFocalLength(changed, sqrt) == CropActualFocalLength(inp, sqrt);
      assert CropEquivalentFocalLength(changed, sqrt) == CropEquivalentFocalLength(inp, sqrt);
    }
  }
}
