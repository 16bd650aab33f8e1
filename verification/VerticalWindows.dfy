/**
 The part of a trace that is fetched for one surface cell: the samples between two depths, widened by
 margins that shrink near the trace ends and grow again until the interpolation has its four samples.
 */
module VerticalWindows {
  import opened RealMath
  import opened Axes
  import opened Blueprints

  /** Fewest samples the makima interpolation works on. */
  const MIN_SAMPLES: nat := 4

  datatype Border = Top | Bottom

  datatype WindowPlan = TooSmall | Window(topMargin: nat, bottomMargin: nat, size: int)

  function BorderPosition(sample: Axis, border: Border, boundary: real, margin: nat): real
    requires sample.Accepted()
  {
    match border
    case Top => RawTopPosition(sample.Stepsize(), sample.min, boundary, margin)
    case Bottom => RawBottomPosition(sample.Stepsize(), sample.min, boundary, margin)
  }

  /** The widest margin, up to the preferred one, whose outermost sample is on the axis; zero if none is. */
  ghost predicate IsWidestMargin(sample: Axis, border: Border, boundary: real, margin: nat)
    requires sample.Accepted()
  {
    && margin <= PREFERRED_MARGIN
    && (margin > 0 ==> sample.InRange(BorderPosition(sample, border, boundary, margin)))
    && forall m :: margin < m <= PREFERRED_MARGIN ==> !sample.InRange(BorderPosition(sample, border, boundary, m))
  }

  function Margin(sample: Axis, border: Border, boundary: real): (margin: nat)
    requires sample.Accepted()
    ensures IsWidestMargin(sample, border, boundary, margin)
  {
    if sample.InRange(BorderPosition(sample, border, boundary, 2)) then 2
    else if sample.InRange(BorderPosition(sample, border, boundary, 1)) then 1
    else 0
  }

  method CalculateMargin(sample: Axis, border: Border, boundary: real) returns (margin: nat)
    requires sample.Accepted()
    ensures margin == Margin(sample, border, boundary)
  {
    margin := PREFERRED_MARGIN;
    while margin > 0
      invariant margin <= PREFERRED_MARGIN
      invariant forall m :: margin < m <= PREFERRED_MARGIN ==> !sample.InRange(BorderPosition(sample, border, boundary, m))
    {
      var position := BorderPosition(sample, border, boundary, margin);
      if sample.InRange(position) {
        return;
      }
      margin := margin - 1;
    }
  }

  /** Margins and size of the window between two depths on the axis, or TooSmall. */
  function PlanWindow(sample: Axis, top: real, bottom: real): WindowPlan
    requires sample.Accepted()
  {
    var step, zero := sample.Stepsize(), sample.min;
    var topMargin, bottomMargin := Margin(sample, Top, top), Margin(sample, Bottom, bottom);
    var size := RawSize(step, zero, top, bottom, topMargin, bottomMargin);
    if size >= MIN_SAMPLES then
      Window(topMargin, bottomMargin, size)
    else if topMargin != PREFERRED_MARGIN && bottomMargin != PREFERRED_MARGIN then
      TooSmall
    else if topMargin != PREFERRED_MARGIN then
      var grown := bottomMargin + (MIN_SAMPLES - size);
      Window(topMargin, grown, RawSize(step, zero, top, bottom, topMargin, grown))
    else
      var grown := topMargin + (MIN_SAMPLES - size);
      Window(grown, bottomMargin, RawSize(step, zero, top, bottom, grown, bottomMargin))
  }

  /** Plans a window step by step, and tells whether its top margin differs from the preferred one. */
  method ChooseWindow(sample: Axis, top: real, bottom: real) returns (plan: WindowPlan, isTopAtypical: bool)
    requires sample.Accepted()
    ensures plan == PlanWindow(sample, top, bottom)
    ensures plan.Window? ==> (isTopAtypical <==> plan.topMargin != PREFERRED_MARGIN)
  {
    var step, zero := sample.Stepsize(), sample.min;
    var topMargin := CalculateMargin(sample, Top, top);
    isTopAtypical := topMargin != PREFERRED_MARGIN;
    var bottomMargin := CalculateMargin(sample, Bottom, bottom);
    var isBottomAtypical := bottomMargin != PREFERRED_MARGIN;
    var size := RawSize(step, zero, top, bottom, topMargin, bottomMargin);
    if size < MIN_SAMPLES {
      if isTopAtypical && isBottomAtypical {
        return TooSmall, isTopAtypical;
      }
      var diff := MIN_SAMPLES - size;
      if isTopAtypical {
        bottomMargin := bottomMargin + diff;
      } else {
        topMargin := topMargin + diff;
        isTopAtypical := true;
      }
    }
    plan := Window(topMargin, bottomMargin, RawSize(step, zero, top, bottom, topMargin, bottomMargin));
  }

  /** Number, on the axis, of the first and of the last sample of a planned window. */
  function FirstSample(sample: Axis, top: real, topMargin: nat): int
    requires sample.Accepted()
  {
    RoundUpNumber(sample.Stepsize(), sample.min, top) - topMargin
  }

  function LastSample(sample: Axis, bottom: real, bottomMargin: nat): int
    requires sample.Accepted()
  {
    RoundDownNumber(sample.Stepsize(), sample.min, bottom) + bottomMargin
  }

  // ---- closed forms of the margins

  lemma BoundaryNumbers(sample: Axis, top: real, bottom: real)
    requires sample.Accepted()
    requires sample.InRange(top) && sample.InRange(bottom)
    requires top <= bottom
    ensures 0 <= FirstSample(sample, top, 0) <= sample.nsamples - 1
    ensures 0 <= LastSample(sample, bottom, 0) <= sample.nsamples - 1
    ensures FirstSample(sample, top, 0) <= LastSample(sample, bottom, 0) + 1
  {
    InRangeIff(sample, top);
    InRangeIff(sample, bottom);
    CeilWithToleranceIff(sample.IndexOf(top), FirstSample(sample, top, 0));
    FloorWithToleranceIff(sample.IndexOf(bottom), LastSample(sample, bottom, 0));
    WindowSizeNotNegative(sample.Stepsize(), sample.min, top, bottom);
  }

  lemma TopBorderInRange(sample: Axis, top: real, m: nat)
    requires sample.Accepted()
    ensures sample.InRange(BorderPosition(sample, Top, top, m)) <==> 0 <= FirstSample(sample, top, m) < sample.nsamples
  {
    PositionInRangeIff(sample, FirstSample(sample, top, m));
  }

  lemma BottomBorderInRange(sample: Axis, bottom: real, m: nat)
    requires sample.Accepted()
    ensures sample.InRange(BorderPosition(sample, Bottom, bottom, m)) <==> 0 <= LastSample(sample, bottom, m) < sample.nsamples
  {
    PositionInRangeIff(sample, LastSample(sample, bottom, m));
  }

  lemma TopMarginFormula(sample: Axis, top: real)
    requires sample.Accepted()
    requires 0 <= FirstSample(sample, top, 0) < sample.nsamples
    ensures Margin(sample, Top, top) == if FirstSample(sample, top, 0) < 2 then FirstSample(sample, top, 0) else 2
  {
    TopBorderInRange(sample, top, 1);
    TopBorderInRange(sample, top, 2);
  }

  lemma BottomMarginFormula(sample: Axis, bottom: real)
    requires sample.Accepted()
    requires 0 <= LastSample(sample, bottom, 0) < sample.nsamples
    ensures var room := sample.nsamples - 1 - LastSample(sample, bottom, 0);
            Margin(sample, Bottom, bottom) == if room < 2 then room else 2
  {
    BottomBorderInRange(sample, bottom, 1);
    BottomBorderInRange(sample, bottom, 2);
  }

  // ---- what is planned

  function Max(a: int, b: int): int { if a < b then b else a }
  function Min(a: int, b: int): int { if a < b then a else b }

  /**
   Reference definition, on sample numbers alone: two samples beyond each boundary, cut to the axis;
   and where that leaves fewer than four, the first or the last four samples of the axis.
   */
  function ClampedWindow(nsamples: int, firstInside: int, lastInside: int): (int, int) {
    var first, last := Max(0, firstInside - 2), Min(nsamples - 1, lastInside + 2);
    if last - first + 1 >= 4 then (first, last)
    else if firstInside < 2 then (0, 3)
    else (nsamples - 4, nsamples - 1)
  }

  lemma PlanCoversFour(sample: Axis, top: real, bottom: real)
    requires sample.Accepted()
    ensures PlanWindow(sample, top, bottom).Window? ==>
              var plan := PlanWindow(sample, top, bottom);
              plan.size >= MIN_SAMPLES
              && plan.size == LastSample(sample, bottom, plan.bottomMargin) - FirstSample(sample, top, plan.topMargin) + 1
  {
  }

  /** On an axis of four samples or more, planning never fails and yields the reference window. */
  lemma PlanIsClampedWindow(sample: Axis, top: real, bottom: real)
    requires sample.Accepted() && sample.nsamples >= 4
    requires sample.InRange(top) && sample.InRange(bottom)
    requires top <= bottom
    ensures var plan := PlanWindow(sample, top, bottom);
            plan.Window?
            && (FirstSample(sample, top, plan.topMargin), LastSample(sample, bottom, plan.bottomMargin))
               == ClampedWindow(sample.nsamples, FirstSample(sample, top, 0), LastSample(sample, bottom, 0))
  {
    BoundaryNumbers(sample, top, bottom);
    TopMarginFormula(sample, top);
    BottomMarginFormula(sample, bottom);
  }

  /** Every one of `size` samples, counted from `margin` samples above the top boundary, is a sample of the axis. */
  ghost predicate WindowOnAxis(sample: Axis, top: real, margin: nat, size: int)
    requires sample.Accepted()
  {
    forall j :: 0 <= j < size ==> sample.InRange(WindowPosition(sample, top, margin, j))
  }

  /** Depth of sample j of the window. */
  function WindowPosition(sample: Axis, top: real, margin: nat, j: int): real
    requires sample.Accepted()
  {
    SamplePositionAt(sample.Stepsize(), RawTopPosition(sample.Stepsize(), sample.min, top, margin), j)
  }

  lemma WindowPositionOnAxis(sample: Axis, top: real, margin: nat, j: int)
    requires sample.Accepted()
    ensures WindowPosition(sample, top, margin, j) == sample.PositionAt(FirstSample(sample, top, margin) + j)
    ensures sample.InRange(WindowPosition(sample, top, margin, j))
            <==> 0 <= FirstSample(sample, top, margin) + j < sample.nsamples
  {
    PositionShift(sample.Stepsize(), sample.min, FirstSample(sample, top, margin), j);
    PositionInRangeIff(sample, FirstSample(sample, top, margin) + j);
  }

  /** The store finds every sample of a window on the axis at the centre of that sample. */
  lemma WindowSampleCentre(sample: Axis, top: real, margin: nat, size: int, j: nat)
    requires sample.Accepted() && WindowOnAxis(sample, top, margin, size) && j < size
    ensures var k := FirstSample(sample, top, margin) + j;
            0 <= k < sample.nsamples && sample.ToSamplePosition(WindowPosition(sample, top, margin, j)) == k as real + 0.5
  {
    WindowPositionOnAxis(sample, top, margin, j);
    LineCentre(sample, FirstSample(sample, top, margin) + j);
  }

  lemma WindowOnAxisIff(sample: Axis, top: real, margin: nat, size: int)
    requires sample.Accepted()
    requires size >= 1
    ensures WindowOnAxis(sample, top, margin, size)
            <==> 0 <= FirstSample(sample, top, margin) <= sample.nsamples - size
  {
    forall j
      ensures sample.InRange(WindowPosition(sample, top, margin, j))
              <==> 0 <= FirstSample(sample, top, margin) + j < sample.nsamples
    {
      WindowPositionOnAxis(sample, top, margin, j);
    }
    if WindowOnAxis(sample, top, margin, size) {
      assert sample.InRange(WindowPosition(sample, top, margin, 0));
      assert sample.InRange(WindowPosition(sample, top, margin, size - 1));
    }
  }

  ghost predicate PlanOnAxis(sample: Axis, top: real, plan: WindowPlan)
    requires sample.Accepted()
  {
    plan.Window? && WindowOnAxis(sample, top, plan.topMargin, plan.size)
  }

  /**
   Planning a window between two depths on the axis succeeds, with every sample on the axis, if and only if
   the axis has at least four samples. On a shorter one each window is either rejected or reaches past an end.
   */
  lemma PlanSoundIffFourSamples(sample: Axis, top: real, bottom: real)
    requires sample.Accepted()
    requires sample.InRange(top) && sample.InRange(bottom)
    requires top <= bottom
    ensures PlanOnAxis(sample, top, PlanWindow(sample, top, bottom)) <==> sample.nsamples >= 4
  {
    BoundaryNumbers(sample, top, bottom);
    TopMarginFormula(sample, top);
    BottomMarginFormula(sample, bottom);
    var plan := PlanWindow(sample, top, bottom);
    if plan.Window? {
      PlanCoversFour(sample, top, bottom);
      WindowOnAxisIff(sample, top, plan.topMargin, plan.size);
    }
    if sample.nsamples >= 4 {
      PlanIsClampedWindow(sample, top, bottom);
    }
  }

  /** The "too small" error is raised exactly when both margins are cut and the whole axis is under four samples. */
  lemma TooSmallIff(sample: Axis, top: real, bottom: real)
    requires sample.Accepted()
    requires sample.InRange(top) && sample.InRange(bottom)
    requires top <= bottom
    ensures PlanWindow(sample, top, bottom).TooSmall?
            <==> sample.nsamples < 4
                 && FirstSample(sample, top, 0) < 2
                 && sample.nsamples - 1 - LastSample(sample, bottom, 0) < 2
  {
    BoundaryNumbers(sample, top, bottom);
    TopMarginFormula(sample, top);
    BottomMarginFormula(sample, bottom);
  }

  /** On an axis of three samples, a window ending at the first sample is planned one sample past the last. */
  lemma ThreeSampleAxisOverruns(sample: Axis, top: real, bottom: real)
    requires sample.Accepted() && sample.nsamples == 3
    requires FirstSample(sample, top, 0) == 0 && LastSample(sample, bottom, 0) == 0
    ensures PlanWindow(sample, top, bottom) == Window(0, 3, 4)
    ensures !PlanOnAxis(sample, top, PlanWindow(sample, top, bottom))
  {
    TopMarginFormula(sample, top);
    BottomMarginFormula(sample, bottom);
    WindowOnAxisIff(sample, top, 0, 4);
  }

  /** Such an axis passes validation: samples at 0, 4 and 8, and a window at depth 0. */
  lemma ThreeSampleAxisExists(sample: Axis)
    requires sample == Axis(0.0, 8.0, 3, "Depth", "m", 0)
    ensures sample.Accepted() && sample.InRange(0.0)
    ensures FirstSample(sample, 0.0, 0) == 0 && LastSample(sample, 0.0, 0) == 0
  {
    CeilWithToleranceIff(sample.IndexOf(0.0), 0);
    FloorWithToleranceIff(sample.IndexOf(0.0), 0);
  }

  lemma InteriorTopNumber(sample: Axis, top: real)
    requires sample.Accepted()
    requires sample.min + Slack(sample.Stepsize()) <= top
    ensures FirstSample(sample, top, 0) >= 1
  {
    PositionFromSteps(sample.Stepsize(), sample.min, top, 0, 0.001);
    CeilWithToleranceIff(sample.IndexOf(top), FirstSample(sample, top, 0));
  }

  lemma InteriorBottomNumber(sample: Axis, bottom: real)
    requires sample.Accepted()
    requires bottom <= sample.max - Slack(sample.Stepsize())
    ensures LastSample(sample, bottom, 0) <= sample.nsamples - 2
  {
    LastPosition(sample);
    PositionFromSteps(sample.Stepsize(), sample.min, bottom, sample.nsamples - 1, -0.001);
    FloorWithToleranceIff(sample.IndexOf(bottom), LastSample(sample, bottom, 0));
  }

  lemma InteriorMargins(sample: Axis, top: real, bottom: real)
    requires sample.Accepted() && sample.nsamples >= 4
    requires sample.InRange(top) && sample.InRange(bottom)
    requires top <= bottom
    requires sample.min + Slack(sample.Stepsize()) <= top
    requires bottom <= sample.max - Slack(sample.Stepsize())
    ensures var plan := PlanWindow(sample, top, bottom);
            plan.Window? && plan.topMargin >= 1 && plan.bottomMargin >= 1
  {
    InteriorTopNumber(sample, top);
    InteriorBottomNumber(sample, bottom);
    BoundaryNumbers(sample, top, bottom);
    PlanIsClampedWindow(sample, top, bottom);
  }

  /**
   On a trace of four samples or more, a window that keeps a thousandth of a step away from both trace ends
   and is resampled no coarser than the trace stays inside the fetched samples.
   */
  lemma InteriorWindowWithinSpline(sample: Axis, step: real, reference: real, top: real, bottom: real)
    requires sample.Accepted() && sample.nsamples >= 4
    requires sample.InRange(top) && sample.InRange(bottom)
    requires top <= bottom
    requires sample.min + Slack(sample.Stepsize()) <= top
    requires bottom <= sample.max - Slack(sample.Stepsize())
    requires 0.0 < step <= sample.Stepsize()
    ensures var plan := PlanWindow(sample, top, bottom);
            plan.Window?
            && WithinSpline(step, reference, top, bottom,
                            RawTopPosition(sample.Stepsize(), sample.min, top, plan.topMargin),
                            RawBottomPosition(sample.Stepsize(), sample.min, bottom, plan.bottomMargin))
  {
    InteriorMargins(sample, top, bottom);
    var plan := PlanWindow(sample, top, bottom);
    MarginsKeepWithinSpline(step, reference, top, bottom, sample.Stepsize(), sample.min, plan.topMargin, plan.bottomMargin);
  }
}
