/** Resolution of the original lens's focal length from the two focal-length
    fields (js/calculator.js, getOriginalActualFocalLength and
    getOriginalEquivalentFocalLength): a supplied positive value is used as
    it is, a missing one is derived from the other through the sensor's
    multiplier. */
module Focal {
  import opened Sensors
  import opened Inputs
  import opened Validation

  /** The original lens's actual focal length. */
  function OriginalActualFocalLength(inp: Input): (a: real)
    ensures inp.focalLength > 0.0 ==> a == inp.focalLength
    ensures a > 0.0 <==> inp.focalLength > 0.0 || inp.equivalentFocalLength > 0.0
    ensures inp.focalLength <= 0.0 && inp.equivalentFocalLength <= 0.0 ==> a == 0.0
  {
    if inp.focalLength > 0.0 then inp.focalLength
    else if inp.equivalentFocalLength > 0.0 then
      EquivalentToActual(inp.sensor, inp.equivalentFocalLength)
    else 0.0
  }

  /** The original lens's 35mm-equivalent focal length. On full frame it is
      the actual focal length field, whatever the equivalent field holds. */
  function OriginalEquivalentFocalLength(inp: Input): (e: real)
    ensures inp.sensor == FullFrame ==> e == inp.focalLength
    ensures inp.sensor != FullFrame && inp.equivalentFocalLength > 0.0
            ==> e == inp.equivalentFocalLength
    ensures inp.sensor != FullFrame
            ==> (e > 0.0 <==> inp.focalLength > 0.0 || inp.equivalentFocalLength > 0.0)
    ensures inp.sensor != FullFrame && inp.focalLength <= 0.0 && inp.equivalentFocalLength <= 0.0
            ==> e == 0.0
  {
    if inp.sensor == FullFrame then inp.focalLength
    else if inp.equivalentFocalLength > 0.0 then inp.equivalentFocalLength
    else if inp.focalLength > 0.0 then
      ActualToEquivalent(inp.sensor, inp.focalLength)
    else 0.0
  }

  /** A value the user left out is derived so that converting it back gives
      the value the user supplied. */
  lemma DerivedFocalLengthsConvertBack(inp: Input)
    ensures inp.focalLength <= 0.0 && inp.equivalentFocalLength > 0.0
            ==> ActualToEquivalent(inp.sensor, OriginalActualFocalLength(inp)) == inp.equivalentFocalLength
    ensures inp.sensor != FullFrame && inp.equivalentFocalLength <= 0.0 && inp.focalLength > 0.0
            ==> EquivalentToActual(inp.sensor, OriginalEquivalentFocalLength(inp)) == inp.focalLength
  {
    ActualToEquivalentUndoesEquivalentToActual(inp.sensor, inp.equivalentFocalLength);
    EquivalentToActualUndoesActualToEquivalent(inp.sensor, inp.focalLength);
  }

  /** When the user supplied only one of the two focal lengths (on full
      frame: the actual one), the two resolved values are related by the
      sensor's conversion. */
  lemma ResolvedFocalLengthsAgree(inp: Input)
    requires inp.sensor == FullFrame ==> inp.focalLength > 0.0
    requires inp.sensor != FullFrame ==> !(inp.focalLength > 0.0 && inp.equivalentFocalLength > 0.0)
    ensures OriginalEquivalentFocalLength(inp)
            == ActualToEquivalent(inp.sensor, OriginalActualFocalLength(inp))
  {
    if inp.sensor != FullFrame && inp.focalLength <= 0.0 && inp.equivalentFocalLength <= 0.0 {
      assert OriginalActualFocalLength(inp) == 0.0;
    }
  }

  /** On full frame the equivalent field is ignored: changing it changes
      neither resolved value that a valid full-frame input uses. */
  lemma FullFrameIgnoresEquivalentField(inp: Input, other: real)
    requires inp.sensor == FullFrame && inp.focalLength > 0.0
    ensures OriginalEquivalentFocalLength(inp.(equivalentFocalLength := other))
            == OriginalEquivalentFocalLength(inp) == inp.focalLength
    ensures OriginalActualFocalLength(inp.(equivalentFocalLength := other))
            == OriginalActualFocalLength(inp) == inp.focalLength
  {
  }

  /** Input that passes validation resolves to positive focal lengths. */
  lemma ValidInputHasPositiveFocalLengths(inp: Input)
    requires Valid(inp)
    ensures OriginalActualFocalLength(inp) > 0.0
    ensures OriginalEquivalentFocalLength(inp) > 0.0
  {
  }
}
