/**
 Fetching a sub-volume and calculating attributes from it, cell by cell: raw samples, resampled around the
 reference depth, reduced to one number per attribute.
 */
module Attributes {
  import opened RealMath
  import opened Axes
  import opened Blueprints
  import opened CubeMetadata
  import opened Surfaces
  import opened VerticalWindows
  import opened SubVolumes
  import opened AttributeMath

  datatype Attribute =
    VALUE | MIN | MINAT | MAX | MAXAT | MAXABS | MAXABSAT | MEAN | MEANABS | MEANPOS | MEANNEG
    | MEDIAN | RMS | VAR | SD | SUMPOS | SUMNEG

  predicate IsRoot(r: real, x: real) {
    r >= 0.0 && Product(r, r) == x
  }

  /** Routines of foreign libraries: the makima spline through points and values, the square root, and std::nth_element. */
  datatype Numerics = Numerics(spline: (seq<real>, seq<real>, real) -> real, sqrt: real -> real,
                               nthElement: (seq<real>, nat) -> seq<real>)
  {
    ghost predicate Valid() {
      && (forall s: seq<real>, m: nat :: m < |s| ==> IsNthElement(s, m, nthElement(s, m)))
      && (forall x :: x >= 0.0 ==> IsRoot(sqrt(x), x))
    }
  }

  /** A request for attributes along or between surfaces; store is what the cube store delivers at a position. */
  datatype Request = Request(meta: Metadata, reference: Surface, top: Surface, bottom: Surface,
                             attributes: seq<Attribute>, step: real, numerics: Numerics, store: Position -> real)
  {
    ghost predicate Valid() {
      && meta.Valid() && Compatible(reference, top, bottom)
      && attributes != [] && step > 0.0 && numerics.Valid()
      && forall i :: 0 <= i < |Plan()| ==> !Plan()[i].Failed?
    }

    function Plan(): (cells: seq<Cell>)
      requires meta.Valid() && Compatible(reference, top, bottom)
      ensures |cells| == Size()
    {
      Cells(meta, reference, top, bottom)
    }

    function Size(): nat {
      reference.grid.Size()
    }

    function SourceStep(): real
      requires meta.Valid()
    {
      meta.sample.Stepsize()
    }
  }

  // ---- one cell: what is fetched, and what is made of it

  function RawTop(req: Request, i: nat, topMargin: nat): real
    requires req.meta.Valid() && Compatible(req.reference, req.top, req.bottom)
    requires i < req.Size()
  {
    RawTopPosition(req.SourceStep(), req.meta.sample.min, req.top.values[i], topMargin)
  }

  /** Where sample j of cell i is read from the store. */
  function SampleVoxel(req: Request, i: nat, topMargin: nat, j: nat): Position
    requires req.meta.Valid() && Compatible(req.reference, req.top, req.bottom)
    requires i < req.Size()
  {
    FlatIndexInGrid(req.reference.grid, i);
    var ij := req.meta.worldToAnnotation(req.reference.grid.ToCdp(i));
    PlaceVoxel(req.meta,
               req.meta.iline.ToSamplePosition(ij.x),
               req.meta.xline.ToSamplePosition(ij.y),
               req.meta.sample.ToSamplePosition(RawTop(req, i, topMargin)) + j as real)
  }

  function PlaceVoxel(meta: Metadata, iline: real, xline: real, sample: real): Position
    requires meta.Valid()
  {
    [0.0, 0.0, 0.0][meta.iline.dimension := iline][meta.xline.dimension := xline][meta.sample.dimension := sample]
  }

  function Positions(step: real, topPosition: real, n: nat): (r: seq<real>)
    ensures |r| == n
  {
    seq(n, j => SamplePositionAt(step, topPosition, j))
  }

  predicate SplineAccepts(points: seq<real>, x: real) {
    |points| >= MIN_SAMPLES && points[0] <= x <= points[|points| - 1]
  }

  /** Depths of the raw samples of a cell. */
  function SourcePoints(req: Request, i: nat, topMargin: nat, n: nat): seq<real>
    requires req.meta.Valid() && Compatible(req.reference, req.top, req.bottom)
    requires i < req.Size()
  {
    Positions(req.SourceStep(), RawTop(req, i, topMargin), n)
  }

  /** Number of samples after resampling; never negative for ordered surfaces. */
  function TargetSize(req: Request, i: nat): nat
    requires req.meta.Valid() && Compatible(req.reference, req.top, req.bottom)
    requires req.step > 0.0
    requires i < req.Size() && Ordered(req.reference, req.top, req.bottom, i)
  {
    WindowSizeNotNegative(req.step, req.reference.values[i], req.top.values[i], req.bottom.values[i]);
    WindowSize(req.step, req.reference.values[i], req.top.values[i], req.bottom.values[i])
  }

  /** Depths of the resampled samples of a cell. */
  function TargetPoints(req: Request, i: nat): (r: seq<real>)
    requires req.meta.Valid() && Compatible(req.reference, req.top, req.bottom)
    requires req.step > 0.0
    requires i < req.Size() && Ordered(req.reference, req.top, req.bottom, i)
    ensures |r| == TargetSize(req, i)
  {
    Positions(req.step, ResampledTopPosition(req.step, req.reference.values[i], req.top.values[i]), TargetSize(req, i))
  }

  predicate AllAccepted(points: seq<real>, targets: seq<real>) {
    forall j :: 0 <= j < |targets| ==> SplineAccepts(points, targets[j])
  }

  function Splined(numerics: Numerics, points: seq<real>, samples: seq<real>, targets: seq<real>): (r: seq<real>)
    ensures |r| == |targets|
  {
    seq(|targets|, j requires 0 <= j < |targets| => numerics.spline(points, samples, targets[j]))
  }

  function AttributeOf(numerics: Numerics, attribute: Attribute, data: seq<real>, referenceIndex: nat,
                       step: real, topPosition: real): real
    requires referenceIndex < |data|
  {
    match attribute
    case VALUE => data[referenceIndex]
    case MIN => data[FirstMax(Negated, data)]
    case MINAT => SamplePositionAt(step, topPosition, FirstMax(Negated, data))
    case MAX => data[FirstMax(Identity, data)]
    case MAXAT => SamplePositionAt(step, topPosition, FirstMax(Identity, data))
    case MAXABS => MaxAbs(data)
    case MAXABSAT => SamplePositionAt(step, topPosition, FirstMax(Abs, data))
    case MEAN => Mean(data)
    case MEANABS => MeanAbs(data)
    case MEANPOS => MeanPos(data)
    case MEANNEG => MeanNeg(data)
    case MEDIAN => Median(data)
    case RMS => numerics.sqrt(MeanSquare(data))
    case VAR => Variance(data)
    case SD => numerics.sqrt(Variance(data))
    case SUMPOS => SumOf(PositivePart, data)
    case SUMNEG => SumOf(NegativePart, data)
  }

  /** The cell's raw samples can be resampled: the spline accepts every target depth. */
  ghost predicate CellOk(req: Request, i: nat)
    requires req.Valid()
    requires i < req.Size()
  {
    var cell := req.Plan()[i];
    if cell.Segment? then
      CellIsOrdered(req, i);
      AllAccepted(SourcePoints(req, i, cell.topMargin, cell.size), TargetPoints(req, i))
    else
      true
  }

  lemma CellIsOrdered(req: Request, i: nat)
    requires req.meta.Valid() && Compatible(req.reference, req.top, req.bottom)
    requires i < req.Size() && req.Plan()[i].Segment?
    ensures Ordered(req.reference, req.top, req.bottom, i)
    ensures req.Plan()[i].size >= MIN_SAMPLES
    ensures req.Plan()[i] == PlanCell(req.meta, req.reference, req.top, req.bottom, i)
  {
    CellAt(req.meta, req.reference, req.top, req.bottom, req.Size(), i);
    SegmentNotEmpty(req.meta, req.reference, req.top, req.bottom, i);
  }

  /** Value of an attribute in cell i, given the raw samples of the cell. */
  ghost function CellValue(req: Request, attribute: Attribute, i: nat, samples: seq<real>): real
    requires req.Valid()
    requires i < req.Size()
  {
    var cell := req.Plan()[i];
    if cell.Segment? then
      CellIsOrdered(req, i);
      var reference, top := req.reference.values[i], req.top.values[i];
      var points := SourcePoints(req, i, cell.topMargin, cell.size);
      ReferenceInWindow(req.step, reference, top, req.bottom.values[i]);
      AttributeOf(req.numerics, attribute, Splined(req.numerics, points, samples, TargetPoints(req, i)),
                  SamplesAbove(req.step, reference, top), req.step, ResampledTopPosition(req.step, reference, top))
    else
      req.reference.fill
  }

  // ---- properties of one cell

  /** Sample j of a cell is read from the store at exactly the depth that the spline is later told it has. */
  lemma FetchedWhereSplined(req: Request, i: nat, topMargin: nat, n: nat, j: nat)
    requires req.meta.Valid() && Compatible(req.reference, req.top, req.bottom)
    requires i < req.Size() && j < n
    ensures SampleVoxel(req, i, topMargin, j)[req.meta.sample.dimension]
            == req.meta.sample.ToSamplePosition(SourcePoints(req, i, topMargin, n)[j])
  {
    var sample := req.meta.sample;
    var first := FirstSample(sample, req.top.values[i], topMargin);
    WindowPositionOnAxis(sample, req.top.values[i], topMargin, j);
    WindowPositionOnAxis(sample, req.top.values[i], topMargin, 0);
    IndexOfPosition(sample, first);
    IndexOfPosition(sample, first + j);
    assert sample.PositionAt(first) == RawTop(req, i, topMargin);
  }

  /** Every sample of a planned segment is read inside the cube along both horizontal axes. */
  lemma VoxelsInsideCube(req: Request, i: nat, j: nat)
    requires req.meta.Valid() && Compatible(req.reference, req.top, req.bottom)
    requires i < req.Size() && req.Plan()[i].Segment? && j < req.Plan()[i].size
    ensures var v := SampleVoxel(req, i, req.Plan()[i].topMargin, j);
            && 0 <= v[req.meta.iline.dimension].Floor < req.meta.iline.nsamples
            && 0 <= v[req.meta.xline.dimension].Floor < req.meta.xline.nsamples
  {
    CellIsOrdered(req, i);
    CellOutcomes(req.meta, req.reference, req.top, req.bottom, i);
  }

  /** And on an axis of four samples or more also vertically, where it is the centre of a sample. */
  lemma VoxelsOnTrace(req: Request, i: nat, j: nat)
    requires req.meta.Valid() && Compatible(req.reference, req.top, req.bottom)
    requires i < req.Size() && req.Plan()[i].Segment? && j < req.Plan()[i].size
    requires req.meta.sample.nsamples >= 4
    ensures var k := FirstSample(req.meta.sample, req.top.values[i], req.Plan()[i].topMargin) + j;
            0 <= k < req.meta.sample.nsamples
            && SampleVoxel(req, i, req.Plan()[i].topMargin, j)[req.meta.sample.dimension] == k as real + 0.5
  {
    var sample, cell := req.meta.sample, req.Plan()[i];
    CellIsOrdered(req, i);
    FetchedWhereSplined(req, i, cell.topMargin, cell.size, j);
    NeverTooSmall(req.meta, req.reference, req.top, req.bottom, i);
    WindowSampleCentre(sample, req.top.values[i], cell.topMargin, cell.size, j);
  }

  /** The VALUE attribute is the spline at exactly the reference depth. */
  lemma ValueIsAtReference(req: Request, i: nat, samples: seq<real>)
    requires req.Valid()
    requires i < req.Size() && req.Plan()[i].Segment?
    ensures var cell := req.Plan()[i];
            CellValue(req, VALUE, i, samples)
            == req.numerics.spline(SourcePoints(req, i, cell.topMargin, cell.size), samples, req.reference.values[i])
  {
    CellIsOrdered(req, i);
    ReferenceInWindow(req.step, req.reference.values[i], req.top.values[i], req.bottom.values[i]);
  }

  lemma SourcePointsEnds(req: Request, i: nat)
    requires req.Valid()
    requires i < req.Size() && req.Plan()[i].Segment?
    ensures var cell := req.Plan()[i];
            var points := SourcePoints(req, i, cell.topMargin, cell.size);
            |points| >= MIN_SAMPLES
            && points[0] == RawTop(req, i, cell.topMargin)
            && points[|points| - 1]
               == RawBottomPosition(req.SourceStep(), req.meta.sample.min, req.bottom.values[i], cell.bottomMargin)
  {
    var cell := req.Plan()[i];
    var sample := req.meta.sample;
    CellIsOrdered(req, i);
    PlanCoversFour(sample, req.top.values[i], req.bottom.values[i]);
    PositionShift(req.SourceStep(), sample.min, FirstSample(sample, req.top.values[i], cell.topMargin), cell.size - 1);
  }

  /** A cell can be resampled exactly when its target depths lie within its outermost fetched samples. */
  lemma CellOkIff(req: Request, i: nat)
    requires req.Valid()
    requires i < req.Size() && req.Plan()[i].Segment?
    ensures var cell := req.Plan()[i];
            CellOk(req, i)
            <==> WithinSpline(req.step, req.reference.values[i], req.top.values[i], req.bottom.values[i],
                              RawTop(req, i, cell.topMargin),
                              RawBottomPosition(req.SourceStep(), req.meta.sample.min, req.bottom.values[i], cell.bottomMargin))
  {
    var cell := req.Plan()[i];
    CellIsOrdered(req, i);
    SourcePointsEnds(req, i);
    var targets := TargetPoints(req, i);
    assert forall j :: 0 <= j < |targets| ==>
      targets[j] == ResampledPosition(req.step, req.reference.values[i], req.top.values[i], j);
  }

  /** A window away from the trace ends, resampled no coarser than the trace, can always be resampled. */
  lemma InteriorCellOk(req: Request, i: nat)
    requires req.Valid()
    requires i < req.Size()
    requires req.meta.sample.nsamples >= 4 && req.step <= req.SourceStep()
    requires req.Plan()[i].Segment? ==>
               && req.meta.sample.min + Slack(req.SourceStep()) <= req.top.values[i]
               && req.bottom.values[i] <= req.meta.sample.max - Slack(req.SourceStep())
    ensures CellOk(req, i)
  {
    if req.Plan()[i].Segment? {
      CellIsOrdered(req, i);
      CellOkIff(req, i);
      InteriorWindowWithinSpline(req.meta.sample, req.step, req.reference.values[i], req.top.values[i], req.bottom.values[i]);
    }
  }
}
