/** Worked cases of the calculation, stated for every square-root function
    that satisfies IsSqrt, so they hold whatever Math.sqrt rounds to as
    long as it is an exact root. */
module Scenarios {
  import opened Options
  import opened Sensors
  import opened Inputs
  import opened Validation
  import opened Rounding
  import opened Geometry
  import opened Calculator

  /** A full-frame 50mm shot of 6000x4000 cropped to 3000x2000 halves both
      sides: every factor is 2, the cropped focal lengths are 100mm and a
      quarter of the area remains. */
  lemma HalvedFullFrameShot(sqrt: real -> real)
    requires IsSqrt(sqrt)
    ensures var inp := SetInputs(FullFrame, Some(50.0), None, Some(6000), Some(4000), Some(3000), Some(2000));
            Calculate(inp, sqrt).Success? &&
            Calculate(inp, sqrt).results == Results(100.0, 100.0, 2.0, 2.0, 2.0, 25.0)
  {
    var inp := SetInputs(FullFrame, Some(50.0), None, Some(6000), Some(4000), Some(3000), Some(2000));
    assert Valid(inp);
    CropFactorOfUniformScaling(3000, 2000, 2, sqrt);
    assert ImageCropFactor(inp, sqrt) == 2.0;
    RoundToExact(1000, 10.0);
    RoundToExact(200, 100.0);
    RoundToExact(250, 10.0);
  }

  /** An APS-C 18mm shot of 5472x3648 kept whole reports the 27mm
      equivalent, factors of 1 and the whole area. */
  lemma UncroppedApsCShot(sqrt: real -> real)
    requires IsSqrt(sqrt)
    ensures var inp := SetInputs(ApsC, Some(18.0), None, Some(5472), Some(3648), Some(5472), Some(3648));
            Calculate(inp, sqrt).Success? &&
            Calculate(inp, sqrt).results == Results(18.0, 27.0, 1.0, 1.0, 1.0, 100.0)
  {
    var inp := SetInputs(ApsC, Some(18.0), None, Some(5472), Some(3648), Some(5472), Some(3648));
    assert Valid(inp);
    CropFactorOfWholeFrame(5472, 3648, sqrt);
    assert ImageCropFactor(inp, sqrt) == 1.0;
    RoundToExact(180, 10.0);
    RoundToExact(270, 10.0);
    RoundToExact(100, 100.0);
    RoundToExact(1000, 10.0);
  }

  /** With every resolution field left blank, a full-frame shot with a focal
      length fails on exactly the four resolution checks, in form order. */
  lemma BlankResolutionsAreReported(sqrt: real -> real)
    requires IsSqrt(sqrt)
    ensures var inp := SetInputs(FullFrame, Some(50.0), None, None, None, None, None);
            Calculate(inp, sqrt)
            == Failure([OriginalWidthInvalid, OriginalHeightInvalid, CropWidthInvalid, CropHeightInvalid])
  {
    var inp := SetInputs(FullFrame, Some(50.0), None, None, None, None, None);
    AllResolutionsMissing(inp);
  }
}
