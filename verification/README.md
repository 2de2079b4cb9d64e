# CropFocal calculator core in Dafny

CropFocal tells a photographer what focal length a cropped photo looks
like it was shot at. The user picks a camera sensor format and gives the
lens's actual focal length, its 35mm-equivalent focal length, or both. They
also give the pixel resolution of the original photo and of the crop. The
calculator then:

- validates the inputs and reports every problem at once, in form order;
- resolves the original actual and 35mm-equivalent focal lengths, deriving
  whichever one is missing through the sensor's 35mm crop factor;
- computes the diagonal crop factor (original diagonal over cropped
  diagonal), the horizontal and vertical factors and the kept area in
  percent;
- scales both original focal lengths by the diagonal crop factor;
- rounds the results for display: focal lengths and area ratio to one
  decimal place, factors and aspect ratios to two, diagonals to whole
  pixels.

This project models that core (`js/calculator.js`) as pure functions over
immutable data and proves its properties. The modules are:

- `Options`: an optional value, standing for JavaScript's `NaN` where a
  resolution field does not parse.
- `Sensors`: the sensor catalogue and the conversions between actual and
  35mm-equivalent focal length.
- `Inputs`: the calculator's input snapshot and `setInputs`.
- `Validation`: `validateInputs`, stated with JavaScript's comparison
  semantics. Falsy values, `NaN <= 0` and `NaN > x` are all false. It is
  checked against a per-rule specification and a reference filter over the
  rule list.
- `Rounding`: `Math.round(x * k) / k` over exact reals.
- `Geometry`: diagonals, crop factors and the area ratio.
- `Focal`: resolving the original focal lengths.
- `Calculator`: the cropped focal lengths and `calculate`.
- `Scenarios`: worked cases, among them the 6000x4000 to 3000x2000 crop
  that doubles a full-frame 50mm lens.

`Math.sqrt` is a parameter `sqrt`. Every statement about diagonals holds
for any function satisfying `Geometry.IsSqrt`, which asks for:

- a non-negative exact root;
- `sqrt(0) = 0`;
- strict monotonicity.

The last two follow from the first for the true square root; they are
stated explicitly so the solver need not derive them.

When both focal lengths are given on a format other than full frame, the
code uses each value as given, even if the two disagree with the sensor's
crop factor. The model does the same. `Focal.ResolvedFocalLengthsAgree`
therefore only promises agreement when at most one of them was supplied.

## Model

| member | source | states |
|---|---|---|
| Sensors.Info | js/calculator.js:4-11 | Every catalogue entry has a positive size that is wider than tall and a positive 35mm factor. The factor is exactly 1 only for full frame and below 1 only for medium format. |
| Sensors.FromId | js/calculator.js:4-11 | Looking an identifier up either finds the format stored under it or reports that no format has that identifier. |
| Sensors.FromIdInvertsId | js/calculator.js:4-11 | Each format is found again under its own catalogue key, so the six keys are distinct. |
| Sensors.AllSensorsListsEachOnce | js/calculator.js:4-11 | The catalogue lists all six formats, each exactly once, under six distinct keys. |
| Sensors.Multiplier | js/calculator.js:115-117 | The selected sensor's 35mm factor is positive, and it is 1 exactly on full frame. |
| Sensors.ActualToEquivalent | js/calculator.js:122-124 | The equivalent focal length is positive exactly when the actual one is. On full frame it equals the actual one. |
| Sensors.EquivalentToActual | js/calculator.js:129-131 | The actual focal length is positive exactly when the equivalent one is. On full frame it equals the equivalent one. |
| Sensors.EquivalentToActualUndoesActualToEquivalent | js/calculator.js:122-131 | Converting an actual focal length to 35mm-equivalent and back returns it unchanged. |
| Sensors.ActualToEquivalentUndoesEquivalentToActual | js/calculator.js:122-131 | Converting an equivalent focal length to actual and back returns it unchanged. |
| Sensors.ConversionsPreserveOrder | js/calculator.js:122-131 | Neither conversion ever makes a longer lens shorter. |
| Inputs.FocalValue | js/calculator.js:32-33 | A parsed number is kept as it is, negative values included. An unparseable field becomes 0. |
| Inputs.SetInputs | js/calculator.js:30-38 | Storing inputs keeps the sensor. Each focal length is its parse or 0 when it does not parse. Each resolution is its parse, possibly missing. |
| Validation.Report | js/calculator.js:48-50 | A check adds its error exactly when its condition holds, and at most one error. |
| Validation.FocalErrors | js/calculator.js:46-56 | The focal check reports at most one error. It reports exactly the violated one of the two focal rules, chosen by whether the sensor is full frame. |
| Validation.PositivityErrors | js/calculator.js:58-72 | The four resolution checks report exactly the resolutions that are missing or not positive, at most four errors. |
| Validation.ContainmentErrors | js/calculator.js:74-80 | The two containment checks report exactly the sides where both numbers are present and the crop is larger. |
| Validation.Validate | js/calculator.js:43-83 | An error is in the list exactly when its rule is violated, under JavaScript's falsy and NaN comparison semantics. At most seven errors are reported. |
| Validation.ValidateFollowsRuleOrder | js/calculator.js:43-83 | The list equals the reference filter of the fixed rule order, so its contents and order are fully determined. |
| Validation.ValidateExhaustiveAndOrdered | js/calculator.js:43-83 | Every violated rule is reported, only those, each once, in form order. |
| Validation.ValidateEmptyIffValid | js/calculator.js:43-83 | No error is reported exactly when the input satisfies every rule. |
| Validation.ViolationsKeepOrder | js/calculator.js:43-83 | Filtering a list of rules in report order keeps that order. |
| Validation.FullFrameNeedsActualFocalLength | js/calculator.js:47-50 | On full frame the focal rule fails exactly when the actual focal length is not positive. An equivalent focal length does not satisfy it, and the other focal rule is never reported. |
| Validation.OtherFormatsNeedEitherFocalLength | js/calculator.js:51-55 | On other formats the focal rule fails exactly when neither focal length is positive. The full-frame rule is never reported. |
| Validation.MissingResolutionNeverExceeds | js/calculator.js:58-80 | A missing resolution is reported as invalid, and never as a crop exceeding the original, because comparisons with NaN are false. |
| Validation.AllResolutionsMissing | js/calculator.js:58-72 | With all four resolutions missing, the report is the focal result followed by the four resolution errors in form order. |
| Validation.InitialIsRejected | js/calculator.js:17-25 | The state of a fresh calculator fails the full-frame focal rule and all four resolution checks, and nothing else. |
| Rounding.Round | js/calculator.js:211-223 | Rounding lands within half a unit, and a tie goes upward. |
| Rounding.RoundTo | js/calculator.js:211-223 | The rounded value lies on the grid: times the scale it is the integer `Math.round` gives for the scaled input. It is within half a grid step of the input. |
| Rounding.RoundToIsClose | js/calculator.js:211-223 | The rounded value differs from the input by at most half of one over the scale. |
| Rounding.RoundToMonotone | js/calculator.js:211-223 | Rounding never reverses the order of two values. |
| Rounding.RoundToExact | js/calculator.js:211-223 | A value already on the grid is unchanged by rounding. |
| Rounding.RoundToFixesGridPoint | js/calculator.js:211-223 | A value whose scaled form is a whole number is unchanged by rounding to that scale. |
| Geometry.SquaredDiagonal | js/calculator.js:88-90 | The sum of squared sides is non-negative, and zero only for an empty frame. |
| Geometry.Diagonal | js/calculator.js:88-90 | The diagonal is non-negative. This is weaker than the source; the lemmas below state the rest. |
| Geometry.DiagonalSquared | js/calculator.js:88-90 | The diagonal squared is width times width plus height times height, so the diagonal is the Euclidean length of the frame. |
| Geometry.DiagonalPositive | js/calculator.js:88-90 | The diagonal is positive exactly when the frame is not empty. |
| Geometry.DiagonalMonotone | js/calculator.js:88-90 | A frame no larger on either side has no longer a diagonal. |
| Geometry.CropFactor | js/calculator.js:95-99 | The crop factor is non-negative, and times the cropped diagonal it gives the original diagonal. |
| Geometry.CropFactorSquared | js/calculator.js:95-99 | The squared crop factor is the ratio of the squared diagonals, for any exact square root. |
| Geometry.AxisCropFactor | js/calculator.js:104-110 | The horizontal (vertical) factor times the cropped width (height) is the original width (height). |
| Geometry.AxisFactorAtLeastOne | js/calculator.js:104-110 | For a crop side no longer than the original, the axis factor is at least 1, and exactly 1 when that side is kept whole. |
| Geometry.CropFactorAtLeastOne | js/calculator.js:95-99 | For a crop inside the original, the diagonal factor is at least 1. |
| Geometry.CropFactorOfWholeFrame | js/calculator.js:95-99 | Keeping the whole frame gives a diagonal factor of exactly 1. |
| Geometry.DiagonalScales | js/calculator.js:88-90 | Scaling both sides by k scales the diagonal by k. |
| Geometry.CropFactorOfUniformScaling | js/calculator.js:95-99 | A crop that shrinks both sides by the same whole factor k has diagonal factor exactly k. |
| Geometry.CropRatio | js/calculator.js:182-186 | The area ratio times the original area is 100 times the cropped area. |
| Geometry.CropRatioWithinPercent | js/calculator.js:182-186 | For a crop inside the original, the area ratio lies in (0, 100], and is 100 exactly when the whole frame is kept. |
| Focal.OriginalActualFocalLength | js/calculator.js:136-143 | A positive actual focal length is used as given. The result is positive exactly when either focal length is positive, and 0 when neither is. |
| Focal.OriginalEquivalentFocalLength | js/calculator.js:148-159 | On full frame the result is the actual focal length field. Elsewhere a positive equivalent field is used as given. The result is positive exactly when either field is, and 0 when neither is. |
| Focal.DerivedFocalLengthsConvertBack | js/calculator.js:136-159 | A focal length derived from the other one converts back to the value the user supplied. |
| Focal.ResolvedFocalLengthsAgree | js/calculator.js:136-159 | When only one focal length is supplied, the resolved equivalent is the sensor's conversion of the resolved actual. |
| Focal.FullFrameIgnoresEquivalentField | js/calculator.js:148-151 | On full frame with a positive focal length, changing the equivalent field changes neither resolved value. |
| Focal.ValidInputHasPositiveFocalLengths | js/calculator.js:136-159 | Input that passes validation resolves to positive focal lengths. |
| Calculator.ImageCropFactor | js/calculator.js:95-99 | The input's diagonal crop factor is non-negative. This is weaker than the source; `Geometry.CropFactor` carries the relation to the diagonals. |
| Calculator.ScaleFocalLength | js/calculator.js:164-177 | Scaling a non-negative focal length by a non-negative factor gives a non-negative result. A factor of at least 1 never shortens a positive focal length. |
| Calculator.CropActualFocalLength | js/calculator.js:164-168 | The cropped actual focal length is non-negative when the original is. This is weaker than the source; the lemmas below state the relation. |
| Calculator.CropEquivalentFocalLength | js/calculator.js:173-177 | The cropped equivalent focal length is non-negative when the original is. This is weaker than the source; the lemmas below state the relation. |
| Calculator.CroppedActualFollowsDiagonals | js/calculator.js:164-168 | The cropped actual focal length times the cropped diagonal equals the original actual focal length times the original diagonal. |
| Calculator.CroppedEquivalentFollowsDiagonals | js/calculator.js:173-177 | The same holds for the 35mm-equivalent focal length. |
| Calculator.CroppedFocalLengthsScaleOriginals | js/calculator.js:164-177 | On valid input each cropped focal length is at least its original, and the original is positive. |
| Calculator.ComputeResults | js/calculator.js:197-217 | Each reported figure is its metric rounded by `Rounding.RoundTo`: focal lengths and the area ratio to one decimal place, factors to two. Each lies within half a display step of the exact metric. |
| Calculator.ComputeDetails | js/calculator.js:204-224 | The details hold the selected sensor's catalogue entry and each diagonal to the nearest whole pixel. Each aspect ratio is width over height rounded to two decimal places, within 0.005 of the exact ratio. |
| Calculator.Calculate | js/calculator.js:191-226 | The calculation succeeds exactly on valid input. On failure it returns the validator's non-empty error list. On success the results are the rounded metrics of `ComputeResults` and the details are those of `ComputeDetails`, including the selected sensor's catalogue entry. |
| Calculator.CalculateResultsBounded | js/calculator.js:191-226 | On valid input every reported factor is at least 1 and the area ratio is between 0 and 100. Each cropped focal length is at least its rounded original. |
| Calculator.CalculateWholeFrame | js/calculator.js:191-226 | Keeping the whole frame reports factors of 1, an area ratio of 100 and the rounded original focal lengths. |
| Calculator.FullFrameReportsOneFocalLength | js/calculator.js:148-177 | On valid full-frame input the cropped actual and equivalent focal lengths are the same figure. |
| Calculator.FullFrameCalculateIgnoresEquivalentField | js/calculator.js:191-226 | On full frame the equivalent field never changes the outcome of the calculation. |
| Scenarios.HalvedFullFrameShot | js/calculator.js:191-226 | Full frame, 50mm, 6000x4000 cropped to 3000x2000 reports 100mm both ways, factors of 2 and an area ratio of 25. |
| Scenarios.UncroppedApsCShot | js/calculator.js:191-226 | APS-C, 18mm, 5472x3648 kept whole reports 18mm actual, 27mm equivalent, factors of 1 and an area ratio of 100. |
| Scenarios.BlankResolutionsAreReported | js/calculator.js:191-195 | Full frame, 50mm, with all resolutions blank fails with exactly the four resolution errors. |

## Left out

- `js/main.js` (DOM wiring, form events, rendering) and `js/i18n.js` (translation tables): user interface only, no calculation logic.
- `generateCalculationSteps`: it only formats explanatory text from the same figures.
- Text parsing by `parseFloat` and `parseInt`: the parse results are parameters of `SetInputs`, with a missing value standing for `NaN`.
- IEEE-754 floating point: all arithmetic is over exact reals and unbounded integers, so floating-point error in products, quotients and `Math.round` is not modelled.
- `Math.sqrt`: it is a parameter constrained by `Geometry.IsSqrt`, not a computed function. As a result the rounded pixel diagonals in `details` are not evaluated in the worked cases.
- An unknown sensor identifier: the model's sensor is a closed datatype, and `Sensors.FromId` reports unknown identifiers as `None`. In the code, an unknown identifier passes validation as a format other than full frame (js/calculator.js:47). Invalid input still returns its error list without touching the catalogue. On valid input with both focal lengths positive, no conversion runs, and `calculate` succeeds with an undefined `sensorInfo`. Only when a conversion is needed (js/calculator.js:140 or :156) does the catalogue lookup at js/calculator.js:116 throw a `TypeError`.
- The `NaN` and `Infinity` that the metric functions produce on unvalidated input, such as a zero cropped width: the metric functions require non-zero denominators, and `calculate` only calls them after validation.
- Error message texts (Korean strings): each error is a tag of `Validation.ValidationError`.
- Geometry.Diagonal: its own contract states only that the diagonal is non-negative; the exact-root, positivity and monotonicity facts are separate lemmas (`DiagonalSquared`, `DiagonalPositive`, `DiagonalMonotone`).
- Calculator.CropActualFocalLength: its own contract states only non-negativity; its relation to the original focal length and the diagonals is stated by `CroppedActualFollowsDiagonals` and `CroppedFocalLengthsScaleOriginals`.
- Calculator.CropEquivalentFocalLength: likewise, its relation is stated by `CroppedEquivalentFollowsDiagonals` and `CroppedFocalLengthsScaleOriginals`.
- Calculator.ImageCropFactor: its own contract states only non-negativity; it is `Geometry.CropFactor` on the input's resolutions, whose contract carries the relation to the diagonals.
