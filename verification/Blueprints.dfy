/**
 Vertical windows: how many samples fit between a top and a bottom boundary, and where they lie.
 A raw window counts samples of the trace; a resampled window counts steps away from a reference depth.
 */
module Blueprints {
  import opened RealMath

  /** Samples wanted beyond each boundary of a raw window. */
  const PREFERRED_MARGIN: nat := 2

  /** The rounding tolerance as a distance on the samples axis: a thousandth of a step. */
  function Slack(step: real): real {
    0.001 * step
  }

  /** Position of the sample `index` steps after the one at zeroPosition. */
  function SamplePositionAt(step: real, zeroPosition: real, index: int): real {
    zeroPosition + step * index as real
  }

  /** Number, counted from the sample at zero, of the first sample at or below the boundary, up to the tolerance. */
  function RoundUpNumber(step: real, zero: real, position: real): int
    requires step > 0.0
  {
    CeilWithTolerance((position - zero) / step)
  }

  function RoundDownNumber(step: real, zero: real, position: real): int
    requires step > 0.0
  {
    FloorWithTolerance((position - zero) / step)
  }

  function WindowSize(step: real, zero: real, top: real, bottom: real): int
    requires step > 0.0
  {
    RoundDownNumber(step, zero, bottom) - RoundUpNumber(step, zero, top) + 1
  }

  // ---- raw windows

  function RawSize(step: real, zero: real, top: real, bottom: real, topMargin: nat, bottomMargin: nat): int
    requires step > 0.0
  {
    WindowSize(step, zero, top, bottom) + topMargin + bottomMargin
  }

  function RawTopPosition(step: real, zero: real, top: real, margin: nat): real
    requires step > 0.0
  {
    SamplePositionAt(step, zero, RoundUpNumber(step, zero, top) - margin)
  }

  function RawBottomPosition(step: real, zero: real, bottom: real, margin: nat): real
    requires step > 0.0
  {
    SamplePositionAt(step, zero, RoundDownNumber(step, zero, bottom) + margin)
  }

  // ---- resampled windows

  function ResampledTopPosition(step: real, reference: real, top: real): real
    requires step > 0.0
  {
    SamplePositionAt(step, reference, RoundUpNumber(step, reference, top))
  }

  function ResampledBottomPosition(step: real, reference: real, bottom: real): real
    requires step > 0.0
  {
    SamplePositionAt(step, reference, RoundDownNumber(step, reference, bottom))
  }

  function SamplesAbove(step: real, reference: real, top: real): int
    requires step > 0.0
  {
    -RoundUpNumber(step, reference, top)
  }

  function ResampledPosition(step: real, reference: real, top: real, index: int): real
    requires step > 0.0
  {
    SamplePositionAt(step, ResampledTopPosition(step, reference, top), index)
  }

  // ---- properties

  lemma PositionOrder(step: real, zero: real, m: int, n: int)
    requires step > 0.0
    ensures m <= n <==> SamplePositionAt(step, zero, m) <= SamplePositionAt(step, zero, n)
    ensures m < n <==> SamplePositionAt(step, zero, m) < SamplePositionAt(step, zero, n)
  {
    ScaleLess(step, m as real, n as real);
  }

  lemma PositionShift(step: real, zero: real, m: int, n: int)
    ensures SamplePositionAt(step, SamplePositionAt(step, zero, m), n) == SamplePositionAt(step, zero, m + n)
  {
    Distribute(step, m as real, n as real);
  }

  lemma PositionNext(step: real, zero: real, n: int)
    ensures SamplePositionAt(step, zero, n + 1) == SamplePositionAt(step, zero, n) + step
    ensures SamplePositionAt(step, zero, n - 1) == SamplePositionAt(step, zero, n) - step
  {
    Distribute(step, n as real, 1.0);
  }

  /** From a bound on the distance in steps to a bound on the position. */
  lemma PositionFromSteps(step: real, zero: real, position: real, n: int, c: real)
    requires step > 0.0
    ensures (position - zero) / step < n as real + c <==> position < SamplePositionAt(step, zero, n) + step * c
    ensures (position - zero) / step <= n as real + c <==> position <= SamplePositionAt(step, zero, n) + step * c
  {
    var x := (position - zero) / step;
    DivideThenScale(position - zero, step);
    ScaleLess(step, x, n as real + c);
    Distribute(step, n as real, c);
  }

  /** The number rounded up to is less than one step above the boundary and less than the tolerance below it. */
  lemma RoundUpBounds(step: real, zero: real, position: real)
    requires step > 0.0
    ensures position - Slack(step)
            < SamplePositionAt(step, zero, RoundUpNumber(step, zero, position))
            <= position + (step - Slack(step))
  {
    var n := RoundUpNumber(step, zero, position);
    CeilWithToleranceIff((position - zero) / step, n);
    PositionFromSteps(step, zero, position, n, 0.001);
    PositionFromSteps(step, zero, position, n, -0.999);
  }

  lemma RoundDownBounds(step: real, zero: real, position: real)
    requires step > 0.0
    ensures position - (step - Slack(step))
            <= SamplePositionAt(step, zero, RoundDownNumber(step, zero, position))
            < position + Slack(step)
  {
    var n := RoundDownNumber(step, zero, position);
    FloorWithToleranceIff((position - zero) / step, n);
    PositionFromSteps(step, zero, position, n, 0.999);
    PositionFromSteps(step, zero, position, n, -0.001);
  }

  /** Ordered boundaries never give a negative size, although both are rounded inward. */
  lemma WindowSizeNotNegative(step: real, zero: real, top: real, bottom: real)
    requires step > 0.0
    requires top <= bottom
    ensures WindowSize(step, zero, top, bottom) >= 0
  {
    DivideOrder(top - zero, bottom - zero, step);
    CeilWithToleranceIff((top - zero) / step, RoundUpNumber(step, zero, top));
    FloorWithToleranceIff((bottom - zero) / step, RoundDownNumber(step, zero, bottom));
  }

  /** A resampled window always holds its reference, at the index counted from the top, at exactly the reference depth. */
  lemma ReferenceInWindow(step: real, reference: real, top: real, bottom: real)
    requires step > 0.0
    requires top <= reference <= bottom
    ensures 0 <= SamplesAbove(step, reference, top) < WindowSize(step, reference, top, bottom)
    ensures ResampledPosition(step, reference, top, SamplesAbove(step, reference, top)) == reference
  {
    DivideOrder(top - reference, 0.0, step);
    DivideOrder(0.0, bottom - reference, step);
    CeilWithToleranceIff((top - reference) / step, RoundUpNumber(step, reference, top));
    FloorWithToleranceIff((bottom - reference) / step, RoundDownNumber(step, reference, bottom));
    var up := RoundUpNumber(step, reference, top);
    PositionShift(step, reference, up, -up);
  }

  /** Positions grow with the index, from the top position to the bottom position of the window. */
  lemma ResampledPositionsBetweenEnds(step: real, reference: real, top: real, bottom: real, index: int)
    requires step > 0.0
    requires 0 <= index < WindowSize(step, reference, top, bottom)
    ensures ResampledTopPosition(step, reference, top)
            <= ResampledPosition(step, reference, top, index)
            <= ResampledBottomPosition(step, reference, bottom)
  {
    var up, down := RoundUpNumber(step, reference, top), RoundDownNumber(step, reference, bottom);
    PositionShift(step, reference, up, index);
    PositionOrder(step, reference, up, up + index);
    PositionOrder(step, reference, up + index, down);
  }

  /** No resampled position leaves [top, bottom] by as much as the tolerance times the step. */
  lemma ResampledOvershoot(step: real, reference: real, top: real, bottom: real, index: int)
    requires step > 0.0
    requires 0 <= index < WindowSize(step, reference, top, bottom)
    ensures top - Slack(step) < ResampledPosition(step, reference, top, index) < bottom + Slack(step)
  {
    RoundUpBounds(step, reference, top);
    RoundDownBounds(step, reference, bottom);
    ResampledPositionsBetweenEnds(step, reference, top, bottom, index);
  }

  /**
   A depth a whole number m of steps from the reference is in the window exactly when it lies between the boundaries,
   up to the tolerance; its index is m counted from that of the reference.
   */
  lemma ResampledWindowIff(step: real, reference: real, top: real, bottom: real, m: int)
    requires step > 0.0
    ensures ResampledPosition(step, reference, top, SamplesAbove(step, reference, top) + m) == reference + step * m as real
    ensures 0 <= SamplesAbove(step, reference, top) + m < WindowSize(step, reference, top, bottom)
            <==> top - 0.001 * step < reference + step * m as real < bottom + 0.001 * step
  {
    var up, down := RoundUpNumber(step, reference, top), RoundDownNumber(step, reference, bottom);
    PositionShift(step, reference, up, m - up);
    CeilWithToleranceIff((top - reference) / step, up);
    FloorWithToleranceIff((bottom - reference) / step, down);
    PositionFromSteps(step, reference, top, m, 0.001);
    PositionFromSteps(step, reference, bottom, m, -0.001);
  }

  /** Every resampled position lies between the first and the last raw position: what the spline demands. */
  ghost predicate WithinSpline(step: real, reference: real, top: real, bottom: real, first: real, last: real)
    requires step > 0.0
  {
    forall index :: 0 <= index < WindowSize(step, reference, top, bottom) ==>
      first <= ResampledPosition(step, reference, top, index) <= last
  }

  predicate StrictlyBetween(low: real, n: int, high: real) {
    low < n as real < high
  }

  /** Some whole number of steps above the reference is past `limit`, yet within tolerance of the boundary. */
  ghost predicate StepSlipsPast(step: real, toLimit: real, toBoundary: real)
    requires step > 0.0
  {
    IntegerBetween(toLimit / step, toBoundary / step + TOLERANCE)
  }

  ghost predicate IntegerBetween(low: real, high: real) {
    exists n :: StrictlyBetween(low, n, high)
  }

  lemma TopSlipsIff(step: real, reference: real, top: real, first: real)
    requires step > 0.0
    ensures ResampledTopPosition(step, reference, top) < first
            <==> StepSlipsPast(step, reference - first, reference - top)
  {
    var up := RoundUpNumber(step, reference, top);
    CeilWithToleranceIff((top - reference) / step, up);
    assert (reference - top) / step == -((top - reference) / step);
    PositionFromSteps(step, reference, first, up, 0.0);
    assert (reference - first) / step == -((first - reference) / step);
    if StepSlipsPast(step, reference - first, reference - top) {
      var n :| StrictlyBetween((reference - first) / step, n, (reference - top) / step + TOLERANCE);
      assert n <= -up;
    }
    assert ResampledTopPosition(step, reference, top) < first
      ==> StrictlyBetween((reference - first) / step, -up, (reference - top) / step + TOLERANCE);
  }

  lemma BottomSlipsIff(step: real, reference: real, bottom: real, last: real)
    requires step > 0.0
    ensures ResampledBottomPosition(step, reference, bottom) > last
            <==> StepSlipsPast(step, last - reference, bottom - reference)
  {
    var down := RoundDownNumber(step, reference, bottom);
    FloorWithToleranceIff((bottom - reference) / step, down);
    PositionFromSteps(step, reference, last, down, 0.0);
    if StepSlipsPast(step, last - reference, bottom - reference) {
      var n :| StrictlyBetween((last - reference) / step, n, (bottom - reference) / step + TOLERANCE);
      assert n <= down;
    }
    assert ResampledBottomPosition(step, reference, bottom) > last
      ==> StrictlyBetween((last - reference) / step, down, (bottom - reference) / step + TOLERANCE);
  }

  /**
   The resampled window stays inside the raw points if and only if no whole number of steps from the
   reference falls beyond the outermost raw point while tolerant rounding still counts it as inside the boundary.
   */
  lemma WithinSplineIff(step: real, reference: real, top: real, bottom: real, first: real, last: real)
    requires step > 0.0
    requires top <= reference <= bottom
    ensures WithinSpline(step, reference, top, bottom, first, last)
            <==> !StepSlipsPast(step, reference - first, reference - top)
                 && !StepSlipsPast(step, last - reference, bottom - reference)
  {
    var size := WindowSize(step, reference, top, bottom);
    ReferenceInWindow(step, reference, top, bottom);
    TopSlipsIff(step, reference, top, first);
    BottomSlipsIff(step, reference, bottom, last);
    PositionShift(step, reference, RoundUpNumber(step, reference, top), 0);
    PositionShift(step, reference, RoundUpNumber(step, reference, top), size - 1);
    assert ResampledPosition(step, reference, top, 0) == ResampledTopPosition(step, reference, top);
    assert ResampledPosition(step, reference, top, size - 1) == ResampledBottomPosition(step, reference, bottom);
    forall index | 0 <= index < size
      ensures ResampledTopPosition(step, reference, top)
              <= ResampledPosition(step, reference, top, index)
              <= ResampledBottomPosition(step, reference, bottom)
    {
      ResampledPositionsBetweenEnds(step, reference, top, bottom, index);
    }
  }

  lemma RawTopPositionBelow(step: real, zero: real, top: real, margin: nat)
    requires step > 0.0
    requires margin >= 1
    ensures RawTopPosition(step, zero, top, margin) <= top - Slack(step)
  {
    RoundUpBounds(step, zero, top);
    var up := RoundUpNumber(step, zero, top);
    PositionOrder(step, zero, up - margin, up - 1);
    PositionNext(step, zero, up);
  }

  lemma RawBottomPositionAbove(step: real, zero: real, bottom: real, margin: nat)
    requires step > 0.0
    requires margin >= 1
    ensures RawBottomPosition(step, zero, bottom, margin) >= bottom + Slack(step)
  {
    RoundDownBounds(step, zero, bottom);
    var down := RoundDownNumber(step, zero, bottom);
    PositionOrder(step, zero, down + 1, down + margin);
    PositionNext(step, zero, down);
  }

  /** One sample of margin on either side is enough for every resampling step up to the source step. */
  lemma MarginsKeepWithinSpline(step: real, reference: real, top: real, bottom: real,
                                sourceStep: real, zero: real, topMargin: nat, bottomMargin: nat)
    requires 0.0 < step <= sourceStep
    requires topMargin >= 1 && bottomMargin >= 1
    ensures WithinSpline(step, reference, top, bottom,
                         RawTopPosition(sourceStep, zero, top, topMargin),
                         RawBottomPosition(sourceStep, zero, bottom, bottomMargin))
  {
    var first := RawTopPosition(sourceStep, zero, top, topMargin);
    var last := RawBottomPosition(sourceStep, zero, bottom, bottomMargin);
    assert first <= top - Slack(sourceStep) by {
      RawTopPositionBelow(sourceStep, zero, top, topMargin);
    }
    assert last >= bottom + Slack(sourceStep) by {
      RawBottomPositionAbove(sourceStep, zero, bottom, bottomMargin);
    }
    forall index | 0 <= index < WindowSize(step, reference, top, bottom)
      ensures first <= ResampledPosition(step, reference, top, index) <= last
    {
      ResampledOvershoot(step, reference, top, bottom, index);
    }
  }

  /** With no margin at the first sample the tolerance lets the window start above it: -0.001 against a first sample at 0. */
  lemma ZeroMarginEscapesSpline()
    ensures !WithinSpline(4.0, 3.999, 0.0, 8.0, RawTopPosition(4.0, 0.0, 0.0, 0), RawBottomPosition(4.0, 0.0, 8.0, 2))
  {
    assert StrictlyBetween((3.999 - 0.0) / 4.0, 1, (3.999 - 0.0) / 4.0 + TOLERANCE);
    assert StepSlipsPast(4.0, 3.999 - 0.0, 3.999 - 0.0);
    assert RawTopPosition(4.0, 0.0, 0.0, 0) == 0.0;
    WithinSplineIff(4.0, 3.999, 0.0, 8.0, 0.0, RawBottomPosition(4.0, 0.0, 8.0, 2));
  }
}
