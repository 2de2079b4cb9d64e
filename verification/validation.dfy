/** The input validator (js/calculator.js, validateInputs): every rule is
    checked, and every violated rule contributes one error, in a fixed order. */
module Validation {
  import opened Options
  import opened Sensors
  import opened Inputs

  /** One tag per rule, declared in report order. */
  datatype ValidationError =
    | FocalLengthRequired               // full frame: the actual focal length is mandatory
    | FocalLengthOrEquivalentRequired   // other formats: one of the two focal lengths
    | OriginalWidthInvalid
    | OriginalHeightInvalid
    | CropWidthInvalid
    | CropHeightInvalid
    | CropWidthExceedsOriginal
    | CropHeightExceedsOriginal

  /** The position of a rule in the report order. */
  function Rank(e: ValidationError): nat
  {
    match e
    case FocalLengthRequired => 0
    case FocalLengthOrEquivalentRequired => 1
    case OriginalWidthInvalid => 2
    case OriginalHeightInvalid => 3
    case CropWidthInvalid => 4
    case CropHeightInvalid => 5
    case CropWidthExceedsOriginal => 6
    case CropHeightExceedsOriginal => 7
  }

  /** Every rule, in report order. */
  const RuleOrder: seq<ValidationError> := [
    FocalLengthRequired, FocalLengthOrEquivalentRequired,
    OriginalWidthInvalid, OriginalHeightInvalid, CropWidthInvalid, CropHeightInvalid,
    CropWidthExceedsOriginal, CropHeightExceedsOriginal]

  /** The ranks of `s` strictly increase, so `s` has no repeats and follows
      the report order. */
  ghost predicate StrictlyRanked(s: seq<ValidationError>)
  {
    forall i, j :: 0 <= i < j < |s| ==> Rank(s[i]) < Rank(s[j])
  }

  // ---- JavaScript truthiness and comparison on a possibly-NaN number ----

  /** `!v`: true for NaN and for zero. */
  predicate Falsy(v: Option<int>)
  {
    v.None? || v.value == 0
  }

  /** `v <= n`: false whenever `v` is NaN. */
  predicate JsAtMost(v: Option<int>, n: int)
  {
    v.Some? && v.value <= n
  }

  /** `a > b`: false whenever either side is NaN. */
  predicate JsGreater(a: Option<int>, b: Option<int>)
  {
    a.Some? && b.Some? && a.value > b.value
  }

  /** `!x || x <= 0` for a focal length, which is never NaN. */
  predicate FocalMissing(x: real)
  {
    x == 0.0 || x <= 0.0
  }

  // ---- the rules, stated one at a time ----

  /** A resolution that passes its own rule: a number, and positive. */
  predicate PositiveResolution(v: Option<int>)
  {
    v.Some? && v.value > 0
  }

  /** Whether rule `e` is violated by `inp`. */
  predicate Violated(inp: Input, e: ValidationError)
  {
    match e
    case FocalLengthRequired =>
      inp.sensor == FullFrame && inp.focalLength <= 0.0
    case FocalLengthOrEquivalentRequired =>
      inp.sensor != FullFrame && inp.focalLength <= 0.0 && inp.equivalentFocalLength <= 0.0
    case OriginalWidthInvalid => !PositiveResolution(inp.originalWidth)
    case OriginalHeightInvalid => !PositiveResolution(inp.originalHeight)
    case CropWidthInvalid => !PositiveResolution(inp.cropWidth)
    case CropHeightInvalid => !PositiveResolution(inp.cropHeight)
    case CropWidthExceedsOriginal =>
      inp.cropWidth.Some? && inp.originalWidth.Some? && inp.cropWidth.value > inp.originalWidth.value
    case CropHeightExceedsOriginal =>
      inp.cropHeight.Some? && inp.originalHeight.Some? && inp.cropHeight.value > inp.originalHeight.value
  }

  /** Input the calculator accepts: a usable focal length for the format,
      four positive resolutions, and a crop that fits inside the original. */
  predicate Valid(inp: Input)
  {
    && (if inp.sensor == FullFrame then inp.focalLength > 0.0
        else inp.focalLength > 0.0 || inp.equivalentFocalLength > 0.0)
    && PositiveResolution(inp.originalWidth)
    && PositiveResolution(inp.originalHeight)
    && PositiveResolution(inp.cropWidth)
    && PositiveResolution(inp.cropHeight)
    && inp.cropWidth.value <= inp.originalWidth.value
    && inp.cropHeight.value <= inp.originalHeight.value
  }

  /** The violated rules among `rules`, in the order given: the reference
      definition the validator is compared against. */
  ghost function Violations(inp: Input, rules: seq<ValidationError>): seq<ValidationError>
  {
    if rules == [] then []
    else (if Violated(inp, rules[0]) then [rules[0]] else []) + Violations(inp, rules[1..])
  }

  // ---- the validator as written ----

  /** `[e]` when the condition holds, otherwise nothing: one `errors.push`. */
  function Report(condition: bool, e: ValidationError): (r: seq<ValidationError>)
    ensures forall x :: x in r <==> condition && x == e
    ensures |r| <= 1
  {
    if condition then [e] else []
  }

  /** The focal-length rule, whose form depends on the sensor format. */
  function FocalErrors(inp: Input): (errors: seq<ValidationError>)
    ensures forall e :: e in errors <==> Rank(e) <= 1 && Violated(inp, e)
    ensures |errors| <= 1
  {
    if inp.sensor == FullFrame then
      Report(FocalMissing(inp.focalLength), FocalLengthRequired)
    else
      Report(FocalMissing(inp.focalLength) && FocalMissing(inp.equivalentFocalLength),
             FocalLengthOrEquivalentRequired)
  }

  /** The four positivity rules; NaN and zero are falsy, and `NaN <= 0` is false. */
  function PositivityErrors(inp: Input): (errors: seq<ValidationError>)
    ensures forall e :: e in errors <==> 2 <= Rank(e) <= 5 && Violated(inp, e)
    ensures |errors| <= 4
  {
    Report(Falsy(inp.originalWidth) || JsAtMost(inp.originalWidth, 0), OriginalWidthInvalid)
    + Report(Falsy(inp.originalHeight) || JsAtMost(inp.originalHeight, 0), OriginalHeightInvalid)
    + Report(Falsy(inp.cropWidth) || JsAtMost(inp.cropWidth, 0), CropWidthInvalid)
    + Report(Falsy(inp.cropHeight) || JsAtMost(inp.cropHeight, 0), CropHeightInvalid)
  }

  /** The two containment rules, comparing possibly-NaN numbers. */
  function ContainmentErrors(inp: Input): (errors: seq<ValidationError>)
    ensures forall e :: e in errors <==> 6 <= Rank(e) && Violated(inp, e)
    ensures |errors| <= 2
  {
    Report(JsGreater(inp.cropWidth, inp.originalWidth), CropWidthExceedsOriginal)
    + Report(JsGreater(inp.cropHeight, inp.originalHeight), CropHeightExceedsOriginal)
  }

  /** All violated rules, none skipped after an earlier failure. */
  function Validate(inp: Input): (errors: seq<ValidationError>)
    ensures forall e :: e in errors <==> Violated(inp, e)
    ensures |errors| <= 7
  {
    FocalErrors(inp) + PositivityErrors(inp) + ContainmentErrors(inp)
  }

  // ---- properties ----

  /** The reference filter keeps exactly the violated rules it is given. */
  lemma {:induction false} ViolationsMembers(inp: Input, rules: seq<ValidationError>, e: ValidationError)
    ensures e in Violations(inp, rules) <==> e in rules && Violated(inp, e)
    decreases |rules|
  {
    if rules != [] {
      ViolationsMembers(inp, rules[1..], e);
      assert rules == [rules[0]] + rules[1..];
    }
  }

  /** The reference filter keeps the order of the rules it is given. */
  lemma {:induction false} ViolationsKeepOrder(inp: Input, rules: seq<ValidationError>)
    requires StrictlyRanked(rules)
    ensures StrictlyRanked(Violations(inp, rules))
    decreases |rules|
  {
    if rules != [] {
      var rest := Violations(inp, rules[1..]);
      ViolationsKeepOrder(inp, rules[1..]);
      forall k | 0 <= k < |rest|
        ensures Rank(rules[0]) < Rank(rest[k])
      {
        ViolationsMembers(inp, rules[1..], rest[k]);
        var j :| 0 <= j < |rules[1..]| && rules[1..][j] == rest[k];
        assert rules[j + 1] == rest[k];
      }
    }
  }

  /** Filtering a concatenation filters each part. */
  lemma {:induction false} ViolationsAppend(inp: Input, a: seq<ValidationError>, b: seq<ValidationError>)
    ensures Violations(inp, a + b) == Violations(inp, a) + Violations(inp, b)
    decreases |a|
  {
    if a != [] {
      assert (a + b)[0] == a[0];
      assert (a + b)[1..] == a[1..] + b;
      ViolationsAppend(inp, a[1..], b);
    } else {
      assert a + b == b;
    }
  }

  /** Each rule sits at its own rank in the rule list. */
  lemma RuleOrderIsRanked()
    ensures forall i :: 0 <= i < |RuleOrder| ==> Rank(RuleOrder[i]) == i
    ensures StrictlyRanked(RuleOrder)
  {
  }

  /** The reference filter of a single rule is that rule's report. */
  lemma ViolationsOfOne(inp: Input, a: ValidationError)
    ensures Violations(inp, [a]) == Report(Violated(inp, a), a)
  {
    assert [a][1..] == [];
  }

  /** The reference filter of two rules reports each in turn. */
  lemma ViolationsOfTwo(inp: Input, a: ValidationError, b: ValidationError)
    ensures Violations(inp, [a, b]) == Report(Violated(inp, a), a) + Report(Violated(inp, b), b)
  {
    assert [a, b] == [a] + [b];
    ViolationsAppend(inp, [a], [b]);
    ViolationsOfOne(inp, a);
    ViolationsOfOne(inp, b);
  }

  /** The reference filter of four rules reports each in turn. */
  lemma ViolationsOfFour(inp: Input, a: ValidationError, b: ValidationError,
                         c: ValidationError, d: ValidationError)
    ensures Violations(inp, [a, b, c, d])
            == Report(Violated(inp, a), a) + Report(Violated(inp, b), b)
               + Report(Violated(inp, c), c) + Report(Violated(inp, d), d)
  {
    assert [a, b, c, d] == [a, b] + [c, d];
    ViolationsAppend(inp, [a, b], [c, d]);
    ViolationsOfTwo(inp, a, b);
    ViolationsOfTwo(inp, c, d);
  }

  /** The focal part of the validator agrees with the reference filter. */
  lemma FocalErrorsFollowRules(inp: Input)
    ensures FocalErrors(inp) == Violations(inp, [FocalLengthRequired, FocalLengthOrEquivalentRequired])
  {
    ViolationsOfTwo(inp, FocalLengthRequired, FocalLengthOrEquivalentRequired);
  }

  /** The JavaScript form of one positivity check reports exactly its rule. */
  lemma PositivityCheckIsRule(inp: Input, v: Option<int>, e: ValidationError)
    requires Violated(inp, e) == !PositiveResolution(v)
    ensures Report(Falsy(v) || JsAtMost(v, 0), e) == Report(Violated(inp, e), e)
  {
  }

  /** The positivity part of the validator agrees with the reference filter. */
  lemma PositivityErrorsFollowRules(inp: Input)
    ensures PositivityErrors(inp)
            == Violations(inp, [OriginalWidthInvalid, OriginalHeightInvalid, CropWidthInvalid, CropHeightInvalid])
  {
    PositivityCheckIsRule(inp, inp.originalWidth, OriginalWidthInvalid);
    PositivityCheckIsRule(inp, inp.originalHeight, OriginalHeightInvalid);
    PositivityCheckIsRule(inp, inp.cropWidth, CropWidthInvalid);
    PositivityCheckIsRule(inp, inp.cropHeight, CropHeightInvalid);
    ViolationsOfFour(inp, OriginalWidthInvalid, OriginalHeightInvalid, CropWidthInvalid, CropHeightInvalid);
  }

  /** The containment part of the validator agrees with the reference filter. */
  lemma ContainmentErrorsFollowRules(inp: Input)
    ensures ContainmentErrors(inp) == Violations(inp, [CropWidthExceedsOriginal, CropHeightExceedsOriginal])
  {
    ViolationsOfTwo(inp, CropWidthExceedsOriginal, CropHeightExceedsOriginal);
  }

  /** The validator reports exactly what the reference filter keeps of the
      full rule list: its output is fully determined, element by element. */
  lemma ValidateFollowsRuleOrder(inp: Input)
    ensures Validate(inp) == Violations(inp, RuleOrder)
  {
    var focal := [FocalLengthRequired, FocalLengthOrEquivalentRequired];
    var positivity := [OriginalWidthInvalid, OriginalHeightInvalid, CropWidthInvalid, CropHeightInvalid];
    var containment := [CropWidthExceedsOriginal, CropHeightExceedsOriginal];
    assert RuleOrder == focal + positivity + containment;
    ViolationsAppend(inp, focal + positivity, containment);
    ViolationsAppend(inp, focal, positivity);
    FocalErrorsFollowRules(inp);
    PositivityErrorsFollowRules(inp);
    ContainmentErrorsFollowRules(inp);
  }

  /** Exhaustive and ordered: the validator lists every violated rule, only
      those, each once, in report order. */
  lemma ValidateExhaustiveAndOrdered(inp: Input)
    ensures forall e :: e in Validate(inp) <==> Violated(inp, e)
    ensures StrictlyRanked(Validate(inp))
  {
    ValidateFollowsRuleOrder(inp);
    RuleOrderIsRanked();
    ViolationsKeepOrder(inp, RuleOrder);
  }

  /** No error at all exactly when the input is valid. */
  lemma ValidateEmptyIffValid(inp: Input)
    ensures Validate(inp) == [] <==> Valid(inp)
  {
    if Validate(inp) == [] {
      assert !Violated(inp, CropWidthInvalid);
    } else {
      assert Validate(inp)[0] in Validate(inp);
    }
  }

  /** Full frame: only a positive actual focal length satisfies the focal
      rule; a positive equivalent focal length does not. */
  lemma FullFrameNeedsActualFocalLength(inp: Input)
    requires inp.sensor == FullFrame
    ensures FocalLengthRequired in Validate(inp) <==> inp.focalLength <= 0.0
    ensures FocalLengthOrEquivalentRequired !in Validate(inp)
  {
  }

  /** Other formats: either focal length, if positive, satisfies the rule. */
  lemma OtherFormatsNeedEitherFocalLength(inp: Input)
    requires inp.sensor != FullFrame
    ensures FocalLengthOrEquivalentRequired in Validate(inp)
            <==> inp.focalLength <= 0.0 && inp.equivalentFocalLength <= 0.0
    ensures FocalLengthRequired !in Validate(inp)
  {
  }

  /** A missing width or height raises its own rule and never the matching
      "exceeds original" rule, since every comparison with NaN is false. */
  lemma MissingResolutionNeverExceeds(inp: Input)
    ensures inp.originalWidth.None? ==> OriginalWidthInvalid in Validate(inp) && CropWidthExceedsOriginal !in Validate(inp)
    ensures inp.cropWidth.None? ==> CropWidthInvalid in Validate(inp) && CropWidthExceedsOriginal !in Validate(inp)
    ensures inp.originalHeight.None? ==> OriginalHeightInvalid in Validate(inp) && CropHeightExceedsOriginal !in Validate(inp)
    ensures inp.cropHeight.None? ==> CropHeightInvalid in Validate(inp) && CropHeightExceedsOriginal !in Validate(inp)
  {
  }

  /** With all four resolutions missing, the report is the focal rule's
      verdict followed by exactly the four positivity errors. */
  lemma AllResolutionsMissing(inp: Input)
    requires inp.originalWidth.None? && inp.originalHeight.None?
    requires inp.cropWidth.None? && inp.cropHeight.None?
    ensures Validate(inp) == FocalErrors(inp)
            + [OriginalWidthInvalid, OriginalHeightInvalid, CropWidthInvalid, CropHeightInvalid]
  {
  }

  /** The snapshot of a fresh calculator is rejected on the focal length and
      on all four resolutions (zero is falsy), but not on their comparison. */
  lemma InitialIsRejected()
    ensures Validate(Initial) == [FocalLengthRequired, OriginalWidthInvalid, OriginalHeightInvalid,
                                  CropWidthInvalid, CropHeightInvalid]
  {
  }
}
