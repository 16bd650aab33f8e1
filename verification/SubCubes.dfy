/**
 The box of a cube that a slice request selects: all of the cube, cut down by a list of bounds, and then to one
 line. The metadata of the answer is calculated from the same box.
 */
module SubCubes {
  import opened Layout
  import opened Options
  import opened RealMath
  import opened Axes
  import opened CubeMetadata

  datatype CoordinateSystem = Annotation | Index | Cdp

  /** An inclusive pair of line numbers along an axis. */
  datatype Bound = Bound(axisType: AxisType, system: CoordinateSystem, lower: int, upper: int)

  // ---- line numbers and voxels

  /** Index of an annotated line, if there is such a line. */
  function AnnotationToVoxel(axis: Axis, lineno: int): Option<int>
    requires axis.Accepted()
  {
    var voxelline := (lineno as real - axis.min) / axis.Stepsize();
    if lineno as real < axis.min || lineno as real > axis.max || voxelline.Floor as real != voxelline then None
    else Some(Truncate(voxelline))
  }

  function IndexToVoxel(axis: Axis, lineno: int): Option<int> {
    if lineno < 0 || lineno > axis.nsamples - 1 then None else Some(lineno)
  }

  function ToVoxel(axis: Axis, lineno: int, system: CoordinateSystem): Option<int>
    requires axis.Accepted()
  {
    match system
    case Annotation => AnnotationToVoxel(axis, lineno)
    case Index => IndexToVoxel(axis, lineno)
    case Cdp => None
  }

  /** A line number leads to index k exactly when k is on the axis and the number is what line k is called. */
  lemma ToVoxelIff(axis: Axis, lineno: int, system: CoordinateSystem, k: int)
    requires axis.Accepted()
    ensures ToVoxel(axis, lineno, system) == Some(k)
            <==> 0 <= k < axis.nsamples
                 && ((system.Annotation? && axis.PositionAt(k) == lineno as real) || (system.Index? && k == lineno))
  {
    if system.Annotation? {
      var x := axis.IndexOf(lineno as real);
      InRangeIff(axis, lineno as real);
      PositionOfIndex(axis, lineno as real);
      IndexOfPosition(axis, k);
      TruncateWhole(x, k);
    }
  }

  lemma TruncateWhole(x: real, k: int)
    ensures x == k as real <==> x.Floor as real == x && Truncate(x) == k
  {
  }

  // ---- boxes

  /** Half-open bounds per dimension; the store has room for six dimensions. */
  datatype Box = Box(lower: seq<int>, upper: seq<int>) {
    predicate Sized() {
      |lower| == 6 && |upper| == 6
    }

    /** A non-empty part of the cube. */
    predicate Inside(meta: Metadata)
      requires meta.Valid()
    {
      Sized() && forall t: AxisType :: InsideAlong(meta.AxisOf(t))
    }

    predicate InsideAlong(axis: Axis)
      requires Sized() && axis.dimension < 3
    {
      0 <= lower[axis.dimension] < upper[axis.dimension] <= axis.nsamples
    }

    function Extent(axis: Axis): int
      requires Sized() && axis.dimension < 3
    {
      upper[axis.dimension] - lower[axis.dimension]
    }

    function Set(dimension: nat, low: int, high: int): (r: Box)
      requires Sized() && dimension < 3
      ensures r.Sized()
    {
      Box(lower[dimension := low], upper[dimension := high])
    }
  }

  function WholeCube(meta: Metadata): (box: Box)
    requires meta.Valid()
    ensures box.Inside(meta)
  {
    Box([0, 0, 0, 0, 0, 0],
        [1, 1, 1, 1, 1, 1][meta.iline.dimension := meta.iline.nsamples]
                          [meta.xline.dimension := meta.xline.nsamples]
                          [meta.sample.dimension := meta.sample.nsamples])
  }

  /** Both line numbers of the bound exist. */
  predicate BoundExists(meta: Metadata, bound: Bound)
    requires meta.Valid()
  {
    ToVoxel(meta.AxisOf(bound.axisType), bound.lower, bound.system).Some?
    && ToVoxel(meta.AxisOf(bound.axisType), bound.upper, bound.system).Some?
  }

  function ApplyBound(meta: Metadata, box: Box, bound: Bound): (r: Box)
    requires meta.Valid() && box.Sized() && BoundExists(meta, bound)
    ensures r.Sized()
  {
    var axis := meta.AxisOf(bound.axisType);
    box.Set(axis.dimension, ToVoxel(axis, bound.lower, bound.system).value, ToVoxel(axis, bound.upper, bound.system).value + 1)
  }

  /** The bounds applied one after the other; None as soon as one does not exist. */
  function Constrained(meta: Metadata, box: Box, bounds: seq<Bound>): (r: Option<Box>)
    requires meta.Valid() && box.Sized()
    ensures r.Some? ==> r.value.Sized()
  {
    if bounds == [] then Some(box)
    else
      match Constrained(meta, box, bounds[..|bounds| - 1])
      case None => None
      case Some(b) =>
        var bound := bounds[|bounds| - 1];
        if BoundExists(meta, bound) then Some(ApplyBound(meta, b, bound)) else None
  }

  function Sliced(axis: Axis, box: Box, lineno: int, system: CoordinateSystem): (r: Option<Box>)
    requires axis.Accepted() && axis.dimension < 3 && box.Sized()
    ensures r.Some? ==> r.value.Sized()
  {
    match ToVoxel(axis, lineno, system)
    case None => None
    case Some(k) => Some(box.Set(axis.dimension, k, k + 1))
  }

  /** Bounds are refused before they reach a cube when one of them ends before it starts. */
  method CheckBounds(bounds: seq<Bound>) returns (ok: bool)
    ensures ok <==> forall i :: 0 <= i < |bounds| ==> bounds[i].lower <= bounds[i].upper
  {
    for i := 0 to |bounds|
      invariant forall j :: 0 <= j < i ==> bounds[j].lower <= bounds[j].upper
    {
      if bounds[i].upper < bounds[i].lower {
        return false;
      }
    }
    return true;
  }

  class SubCube {
    var lower: seq<int>
    var upper: seq<int>

    function AsBox(): Box
      reads this
    {
      Box(lower, upper)
    }

    constructor (meta: Metadata)
      requires meta.Valid()
      ensures AsBox() == WholeCube(meta)
    {
      lower := [0, 0, 0, 0, 0, 0];
      upper := [1, 1, 1, 1, 1, 1][meta.iline.dimension := meta.iline.nsamples]
                                 [meta.xline.dimension := meta.xline.nsamples]
                                 [meta.sample.dimension := meta.sample.nsamples];
    }

    method Constrain(meta: Metadata, bounds: seq<Bound>) returns (ok: bool)
      requires meta.Valid() && AsBox().Sized()
      modifies this
      ensures AsBox().Sized()
      ensures ok <==> Constrained(meta, old(AsBox()), bounds).Some?
      ensures ok ==> AsBox() == Constrained(meta, old(AsBox()), bounds).value
    {
      ghost var start := AsBox();
      for i := 0 to |bounds|
        invariant AsBox().Sized()
        invariant Constrained(meta, start, bounds[..i]) == Some(AsBox())
      {
        assert bounds[..i + 1][..i] == bounds[..i];
        var bound := bounds[i];
        var axis := meta.AxisOf(bound.axisType);
        var low := ToVoxel(axis, bound.lower, bound.system);
        var high := ToVoxel(axis, bound.upper, bound.system);
        if low.None? || high.None? {
          ConstrainedIff(meta, start, bounds);
          return false;
        }
        lower := lower[axis.dimension := low.value];
        upper := upper[axis.dimension := high.value + 1];
      }
      assert bounds[..|bounds|] == bounds;
      return true;
    }

    method SetSlice(axis: Axis, lineno: int, system: CoordinateSystem) returns (ok: bool)
      requires axis.Accepted() && axis.dimension < 3 && AsBox().Sized()
      modifies this
      ensures AsBox().Sized()
      ensures ok <==> Sliced(axis, old(AsBox()), lineno, system).Some?
      ensures ok ==> AsBox() == Sliced(axis, old(AsBox()), lineno, system).value
    {
      var voxelline := ToVoxel(axis, lineno, system);
      if voxelline.None? {
        return false;
      }
      lower := lower[axis.dimension := voxelline.value];
      upper := upper[axis.dimension := voxelline.value + 1];
      return true;
    }
  }

  // ---- what a list of bounds selects

  /** Constraining succeeds exactly when every single bound exists, whether or not a later one overrules it. */
  lemma {:induction false} ConstrainedIff(meta: Metadata, box: Box, bounds: seq<Bound>)
    requires meta.Valid() && box.Sized()
    ensures Constrained(meta, box, bounds).Some? <==> forall i :: 0 <= i < |bounds| ==> BoundExists(meta, bounds[i])
    decreases |bounds|
  {
    if bounds != [] {
      ConstrainedIff(meta, box, bounds[..|bounds| - 1]);
    }
  }

  /** The last bound along an axis. */
  function LastBound(bounds: seq<Bound>, t: AxisType): (r: Option<Bound>)
    ensures r.Some? ==> r.value in bounds && r.value.axisType == t
    ensures r.None? ==> forall i :: 0 <= i < |bounds| ==> bounds[i].axisType != t
  {
    if bounds == [] then None
    else if bounds[|bounds| - 1].axisType == t then Some(bounds[|bounds| - 1])
    else LastBound(bounds[..|bounds| - 1], t)
  }

  /** A bound along the axis, with none along it afterwards, is the last one. */
  lemma {:induction false} LastBoundIs(bounds: seq<Bound>, t: AxisType, i: nat)
    requires i < |bounds| && bounds[i].axisType == t && forall j :: i < j < |bounds| ==> bounds[j].axisType != t
    ensures LastBound(bounds, t) == Some(bounds[i])
    decreases |bounds|
  {
    if i < |bounds| - 1 {
      LastBoundIs(bounds[..|bounds| - 1], t, i);
    }
  }

  lemma DimensionsDiffer(meta: Metadata, t: AxisType, u: AxisType)
    requires meta.Valid()
    ensures meta.AxisOf(t).dimension == meta.AxisOf(u).dimension <==> t == u
  {
  }

  /** Along every axis only the last bound counts, and an axis without bounds keeps what it had. */
  lemma {:induction false} LastBoundWins(meta: Metadata, box: Box, bounds: seq<Bound>, t: AxisType)
    requires meta.Valid() && box.Sized()
    requires Constrained(meta, box, bounds).Some?
    ensures var r, axis, last := Constrained(meta, box, bounds).value, meta.AxisOf(t), LastBound(bounds, t);
            if last.Some? then
              ToVoxel(axis, last.value.lower, last.value.system) == Some(r.lower[axis.dimension])
              && ToVoxel(axis, last.value.upper, last.value.system) == Some(r.upper[axis.dimension] - 1)
            else
              r.lower[axis.dimension] == box.lower[axis.dimension] && r.upper[axis.dimension] == box.upper[axis.dimension]
    decreases |bounds|
  {
    if bounds != [] {
      var rest, bound := bounds[..|bounds| - 1], bounds[|bounds| - 1];
      LastBoundWins(meta, box, rest, t);
      DimensionsDiffer(meta, t, bound.axisType);
    }
  }

  predicate Ordered(bounds: seq<Bound>) {
    forall i :: 0 <= i < |bounds| ==> bounds[i].lower <= bounds[i].upper
  }

  lemma PositionsInOrder(axis: Axis, j: int, k: int)
    requires axis.Accepted()
    ensures j <= k <==> axis.PositionAt(j) <= axis.PositionAt(k)
  {
    ScaleLess(axis.Stepsize(), j as real, k as real);
  }

  lemma VoxelOrder(axis: Axis, m: int, n: int, system: CoordinateSystem, j: int, k: int)
    requires axis.Accepted() && m <= n
    requires ToVoxel(axis, m, system) == Some(j) && ToVoxel(axis, n, system) == Some(k)
    ensures 0 <= j <= k < axis.nsamples
  {
    ToVoxelIff(axis, m, system, j);
    ToVoxelIff(axis, n, system, k);
    PositionsInOrder(axis, j, k);
  }

  /** Whatever bounds are accepted, the box stays a non-empty part of the cube. */
  lemma ConstrainedStaysInside(meta: Metadata, box: Box, bounds: seq<Bound>)
    requires meta.Valid() && box.Inside(meta) && Ordered(bounds)
    requires Constrained(meta, box, bounds).Some?
    ensures Constrained(meta, box, bounds).value.Inside(meta)
  {
    var r := Constrained(meta, box, bounds).value;
    forall t: AxisType
      ensures r.InsideAlong(meta.AxisOf(t))
    {
      var axis, last := meta.AxisOf(t), LastBound(bounds, t);
      LastBoundWins(meta, box, bounds, t);
      if last.Some? {
        VoxelOrder(axis, last.value.lower, last.value.upper, last.value.system,
                   r.lower[axis.dimension], r.upper[axis.dimension] - 1);
      } else {
        assert box.InsideAlong(axis);
      }
    }
  }

  lemma SlicedStaysInside(meta: Metadata, t: AxisType, box: Box, lineno: int, system: CoordinateSystem)
    requires meta.Valid() && box.Inside(meta)
    requires Sliced(meta.AxisOf(t), box, lineno, system).Some?
    ensures var r := Sliced(meta.AxisOf(t), box, lineno, system).value;
            r.Inside(meta) && r.Extent(meta.AxisOf(t)) == 1
  {
    var r := Sliced(meta.AxisOf(t), box, lineno, system).value;
    ToVoxelIff(meta.AxisOf(t), lineno, system, r.lower[meta.AxisOf(t).dimension]);
    forall u: AxisType
      ensures r.InsideAlong(meta.AxisOf(u))
    {
      DimensionsDiffer(meta, t, u);
      assert box.InsideAlong(meta.AxisOf(u));
    }
  }

  // ---- bounds along the direction of the slice

  function Without(bounds: seq<Bound>, t: AxisType): seq<Bound> {
    if bounds == [] then []
    else if bounds[|bounds| - 1].axisType == t then Without(bounds[..|bounds| - 1], t)
    else Without(bounds[..|bounds| - 1], t) + [bounds[|bounds| - 1]]
  }

  /** Two boxes that agree except along one axis. */
  ghost predicate SameBut(a: Box, b: Box, dimension: nat)
    requires a.Sized() && b.Sized() && dimension < 3
  {
    forall d :: 0 <= d < 6 && d != dimension ==> a.lower[d] == b.lower[d] && a.upper[d] == b.upper[d]
  }

  lemma {:induction false} BoundsAlongOneAxis(meta: Metadata, box: Box, bounds: seq<Bound>, t: AxisType)
    requires meta.Valid() && box.Sized()
    requires Constrained(meta, box, bounds).Some?
    ensures Constrained(meta, box, Without(bounds, t)).Some?
    ensures SameBut(Constrained(meta, box, bounds).value, Constrained(meta, box, Without(bounds, t)).value, meta.AxisOf(t).dimension)
    decreases |bounds|
  {
    if bounds != [] {
      var rest, bound := bounds[..|bounds| - 1], bounds[|bounds| - 1];
      BoundsAlongOneAxis(meta, box, rest, t);
      DimensionsDiffer(meta, t, bound.axisType);
      if bound.axisType != t {
        assert (Without(rest, t) + [bound])[..|Without(rest, t)|] == Without(rest, t);
      }
    }
  }

  function SliceBox(meta: Metadata, bounds: seq<Bound>, t: AxisType, lineno: int, system: CoordinateSystem): (r: Option<Box>)
    requires meta.Valid()
    ensures r.Some? ==> r.value.Sized()
  {
    match Constrained(meta, WholeCube(meta), bounds)
    case None => None
    case Some(box) => Sliced(meta.AxisOf(t), box, lineno, system)
  }

  predicate AllExist(meta: Metadata, bounds: seq<Bound>, t: AxisType)
    requires meta.Valid()
  {
    forall i :: 0 <= i < |bounds| && bounds[i].axisType == t ==> BoundExists(meta, bounds[i])
  }

  /**
   Bounds along the direction of the slice have no effect on what is selected; but they are looked up like the
   others, so leaving them out gives the same answer if and only if all of them exist or the request fails anyway.
   */
  lemma SliceDirectionBoundsIff(meta: Metadata, bounds: seq<Bound>, t: AxisType, lineno: int, system: CoordinateSystem)
    requires meta.Valid()
    ensures SliceBox(meta, bounds, t, lineno, system) == SliceBox(meta, Without(bounds, t), t, lineno, system)
            <==> AllExist(meta, bounds, t) || SliceBox(meta, Without(bounds, t), t, lineno, system).None?
  {
    var whole := WholeCube(meta);
    WithoutExistIff(meta, whole, bounds, t);
    if Constrained(meta, whole, bounds).Some? {
      BoundsAlongOneAxis(meta, whole, bounds, t);
      SameWhenSliced(meta.AxisOf(t), Constrained(meta, whole, bounds).value,
                     Constrained(meta, whole, Without(bounds, t)).value, lineno, system);
    }
  }

  lemma SameWhenSliced(axis: Axis, x: Box, y: Box, lineno: int, system: CoordinateSystem)
    requires axis.Accepted() && axis.dimension < 3 && x.Sized() && y.Sized() && SameBut(x, y, axis.dimension)
    ensures Sliced(axis, x, lineno, system) == Sliced(axis, y, lineno, system)
  {
    match ToVoxel(axis, lineno, system)
    case None =>
    case Some(k) => assert x.Set(axis.dimension, k, k + 1) == y.Set(axis.dimension, k, k + 1);
  }

  lemma WithoutExistIff(meta: Metadata, box: Box, bounds: seq<Bound>, t: AxisType)
    requires meta.Valid() && box.Sized()
    ensures Constrained(meta, box, bounds).Some?
            <==> AllExist(meta, bounds, t) && Constrained(meta, box, Without(bounds, t)).Some?
  {
    ConstrainedIff(meta, box, bounds);
    ConstrainedIff(meta, box, Without(bounds, t));
    WithoutMembers(bounds, t);
    var rest := Without(bounds, t);
    if AllExist(meta, bounds, t) && forall i :: 0 <= i < |rest| ==> BoundExists(meta, rest[i]) {
      forall i | 0 <= i < |bounds|
        ensures BoundExists(meta, bounds[i])
      {
        if bounds[i].axisType != t {
          assert bounds[i] in rest;
        }
      }
    }
    if forall i :: 0 <= i < |bounds| ==> BoundExists(meta, bounds[i]) {
      forall i | 0 <= i < |rest|
        ensures BoundExists(meta, rest[i])
      {
        assert rest[i] in bounds;
      }
    }
  }

  lemma {:induction false} WithoutMembers(bounds: seq<Bound>, t: AxisType)
    ensures forall b :: b in Without(bounds, t) <==> b in bounds && b.axisType != t
    decreases |bounds|
  {
    if bounds != [] {
      WithoutMembers(bounds[..|bounds| - 1], t);
      assert bounds == bounds[..|bounds| - 1] + [bounds[|bounds| - 1]];
    }
  }

  /** A bound along the direction of the slice is not ignored when it ends outside the cube, whatever the cube. */
  lemma BoundAlongSliceIsRefused(meta: Metadata, t: AxisType)
    requires meta.Valid()
    ensures var bounds := [Bound(t, Index, 0, meta.AxisOf(t).nsamples)];
            SliceBox(meta, bounds, t, 0, Index).None? && SliceBox(meta, Without(bounds, t), t, 0, Index).Some?
  {
    var bounds := [Bound(t, Index, 0, meta.AxisOf(t).nsamples)];
    ConstrainedIff(meta, WholeCube(meta), bounds);
    WithoutMembers(bounds, t);
    assert !BoundExists(meta, bounds[0]);
    assert Without(bounds, t) == [];
  }

  /** Some line of the axis goes by that number. */
  ghost predicate HasLine(axis: Axis, lineno: int, system: CoordinateSystem)
    requires axis.Accepted()
  {
    exists k :: IsLine(axis, lineno, system, k)
  }

  /** Line k of the axis goes by that number: it is found at that position, or it is the k-th. */
  predicate IsLine(axis: Axis, lineno: int, system: CoordinateSystem, k: int)
    requires axis.Accepted()
  {
    0 <= k < axis.nsamples
    && ((system.Annotation? && axis.PositionAt(k) == lineno as real) || (system.Index? && k == lineno))
  }

  lemma HasLineIff(axis: Axis, lineno: int, system: CoordinateSystem)
    requires axis.Accepted()
    ensures ToVoxel(axis, lineno, system).Some? <==> HasLine(axis, lineno, system)
  {
    forall k
      ensures ToVoxel(axis, lineno, system) == Some(k) <==> IsLine(axis, lineno, system, k)
    {
      ToVoxelIff(axis, lineno, system, k);
    }
  }

  /** A box is found exactly when all the lines in question exist. */
  lemma SliceBoxIff(meta: Metadata, bounds: seq<Bound>, t: AxisType, lineno: int, system: CoordinateSystem)
    requires meta.Valid()
    ensures SliceBox(meta, bounds, t, lineno, system).Some?
            <==> HasLine(meta.AxisOf(t), lineno, system) && forall i :: 0 <= i < |bounds| ==>
                   var axis := meta.AxisOf(bounds[i].axisType);
                   HasLine(axis, bounds[i].lower, bounds[i].system) && HasLine(axis, bounds[i].upper, bounds[i].system)
  {
    ConstrainedIff(meta, WholeCube(meta), bounds);
    HasLineIff(meta.AxisOf(t), lineno, system);
    forall i | 0 <= i < |bounds|
      ensures var axis := meta.AxisOf(bounds[i].axisType);
              BoundExists(meta, bounds[i])
              <==> HasLine(axis, bounds[i].lower, bounds[i].system) && HasLine(axis, bounds[i].upper, bounds[i].system)
    {
      HasLineIff(meta.AxisOf(bounds[i].axisType), bounds[i].lower, bounds[i].system);
      HasLineIff(meta.AxisOf(bounds[i].axisType), bounds[i].upper, bounds[i].system);
    }
  }

  /** The box of a slice request, if the request is accepted. */
  method PlanSlice(meta: Metadata, bounds: seq<Bound>, t: AxisType, lineno: int, system: CoordinateSystem)
    returns (r: Option<Box>)
    requires meta.Valid()
    ensures r == if forall i :: 0 <= i < |bounds| ==> bounds[i].lower <= bounds[i].upper
                 then SliceBox(meta, bounds, t, lineno, system) else None
    ensures r.Some? ==> IsSlice(meta, r.value, t)
    ensures r.Some? <==> HasLine(meta.AxisOf(t), lineno, system) && forall i :: 0 <= i < |bounds| ==>
              var axis := meta.AxisOf(bounds[i].axisType);
              && bounds[i].lower <= bounds[i].upper
              && HasLine(axis, bounds[i].lower, bounds[i].system) && HasLine(axis, bounds[i].upper, bounds[i].system)
  {
    SliceBoxIff(meta, bounds, t, lineno, system);
    var ok := CheckBounds(bounds);
    if !ok {
      return None;
    }
    var subcube := new SubCube(meta);
    ok := subcube.Constrain(meta, bounds);
    if !ok {
      return None;
    }
    ConstrainedStaysInside(meta, WholeCube(meta), bounds);
    ghost var box := subcube.AsBox();
    ok := subcube.SetSlice(meta.AxisOf(t), lineno, system);
    if !ok {
      return None;
    }
    SlicedStaysInside(meta, t, box, lineno, system);
    return Some(subcube.AsBox());
  }

  // ---- metadata of a slice

  datatype AxisMetadata = AxisMetadata(min: real, max: real, samples: int)

  function DescribeAxis(axis: Axis, box: Box): AxisMetadata
    requires axis.Accepted() && axis.dimension < 3 && box.Sized()
  {
    AxisMetadata(axis.PositionAt(box.lower[axis.dimension]),
                 axis.PositionAt(box.upper[axis.dimension] - 1),
                 box.upper[axis.dimension] - box.lower[axis.dimension])
  }

  /** The two axes a slice lies along: x runs fastest. */
  function SliceAxes(t: AxisType): (AxisType, AxisType) {
    match t
    case Iline => (Sample, Xline)
    case Xline => (Sample, Iline)
    case Sample => (Xline, Iline)
  }

  function Shape(meta: Metadata, box: Box, t: AxisType): (int, int)
    requires meta.Valid() && box.Sized()
  {
    (box.Extent(meta.AxisOf(SliceAxes(t).1)), box.Extent(meta.AxisOf(SliceAxes(t).0)))
  }

  // ---- the buffer of a slice

  /** Numbers of a voxel's lines along the three dimensions of the store. */
  type VoxelIndex = v: seq<int> | |v| == 3 witness [0, 0, 0]

  /** Number of values in the buffer of a box. */
  function StoredCount(box: Box): int
    requires box.Sized()
  {
    (box.upper[2] - box.lower[2]) * (box.upper[1] - box.lower[1]) * (box.upper[0] - box.lower[0])
  }

  predicate NotEmpty(box: Box) {
    box.Sized() && forall d :: 0 <= d < 3 ==> box.lower[d] < box.upper[d]
  }

  /** The voxel whose value stands at place k of the buffer: dimension 0 runs fastest. */
  function VoxelAt(box: Box, k: nat): VoxelIndex
    requires NotEmpty(box)
  {
    var e0, e1 := box.upper[0] - box.lower[0], box.upper[1] - box.lower[1];
    [box.lower[0] + k % e0, box.lower[1] + k / e0 % e1, box.lower[2] + k / e0 / e1]
  }

  /** What the store delivers for a box. */
  function Buffer(box: Box, value: VoxelIndex -> real): (r: seq<real>)
    requires NotEmpty(box) && StoredCount(box) >= 0
    ensures |r| == StoredCount(box)
  {
    seq(StoredCount(box), k requires 0 <= k < StoredCount(box) => value(VoxelAt(box, k)))
  }

  /** The place of a voxel, given its distances from the corner of the box. */
  function PlaceInBox(j0: nat, j1: nat, j2: nat, e0: nat, e1: nat): nat {
    (j2 * e1 + j1) * e0 + j0
  }

  lemma PlaceInBoxFits(j0: nat, j1: nat, j2: nat, e0: nat, e1: nat, e2: nat)
    requires j0 < e0 && j1 < e1 && j2 < e2
    ensures PlaceInBox(j0, j1, j2, e0, e1) < e2 * e1 * e0
    ensures var k := PlaceInBox(j0, j1, j2, e0, e1); k % e0 == j0 && k / e0 % e1 == j1 && k / e0 / e1 == j2
  {
    RowAndColumnFit(j2, j1, e2, e1);
    RowAndColumnFit(j2 * e1 + j1, j0, e2 * e1, e0);
    RowAndColumn(j2, j1, e1);
    RowAndColumn(j2 * e1 + j1, j0, e0);
  }

  /** The voxel of a slice that lies r lines along y and c lines along x from the corner. */
  function SliceVoxel(meta: Metadata, box: Box, t: AxisType, r: nat, c: nat): VoxelIndex
    requires meta.Valid() && box.Sized()
  {
    var x, y := meta.AxisOf(SliceAxes(t).0).dimension, meta.AxisOf(SliceAxes(t).1).dimension;
    box.lower[..3][y := box.lower[y] + r][x := box.lower[x] + c]
  }

  /** Read row by row, with as many rows and columns as the shape says, the buffer runs through the slice line by line. */
  ghost predicate ShapeDescribes(meta: Metadata, box: Box, t: AxisType, value: VoxelIndex -> real)
    requires meta.Valid() && NotEmpty(box) && StoredCount(box) >= 0
  {
    var (rows, columns) := Shape(meta, box, t);
    forall r: nat, c: nat :: r < rows && c < columns ==> BufferHolds(meta, box, t, value, r, c, columns)
  }

  ghost predicate BufferHolds(meta: Metadata, box: Box, t: AxisType, value: VoxelIndex -> real, r: nat, c: nat, columns: nat)
    requires meta.Valid() && NotEmpty(box) && StoredCount(box) >= 0
  {
    var k := r * columns + c;
    0 <= k < |Buffer(box, value)| && Buffer(box, value)[k] == value(SliceVoxel(meta, box, t, r, c))
  }

  /** A box that is one line thick along the direction of the slice. */
  predicate IsSlice(meta: Metadata, box: Box, t: AxisType)
    requires meta.Valid()
  {
    box.Inside(meta) && box.Extent(meta.AxisOf(t)) == 1
  }

  /** The shape accounts for every value of the buffer. */
  lemma ShapeIsBufferSize(meta: Metadata, box: Box, t: AxisType)
    requires meta.Valid() && IsSlice(meta, box, t)
    ensures NotEmpty(box)
    ensures StoredCount(box) == Shape(meta, box, t).0 * Shape(meta, box, t).1 > 0
  {
    var x, y := SliceAxes(t).0, SliceAxes(t).1;
    assert box.InsideAlong(meta.AxisOf(t)) && box.InsideAlong(meta.AxisOf(x)) && box.InsideAlong(meta.AxisOf(y));
    CountWithout(box, meta.AxisOf(t).dimension, meta.AxisOf(x).dimension, meta.AxisOf(y).dimension);
  }

  /** s, x and y are the three dimensions of the store. */
  predicate ThreeDimensions(s: nat, x: nat, y: nat) {
    s < 3 && x < 3 && y < 3 && s != x && x != y && s != y
  }

  lemma CountWithout(box: Box, s: nat, x: nat, y: nat)
    requires box.Sized() && ThreeDimensions(s, x, y) && box.upper[s] == box.lower[s] + 1
    requires box.lower[x] < box.upper[x] && box.lower[y] < box.upper[y]
    ensures NotEmpty(box)
    ensures StoredCount(box) == (box.upper[y] - box.lower[y]) * (box.upper[x] - box.lower[x]) > 0
  {
    ExtentProduct(box.upper[0] - box.lower[0], box.upper[1] - box.lower[1], box.upper[2] - box.lower[2]);
  }

  lemma ExtentProduct(e0: nat, e1: nat, e2: nat)
    requires e0 > 0 && e1 > 0 && e2 > 0
    ensures e2 * e1 * e0 > 0
    ensures e0 == 1 ==> e2 * e1 * e0 == e2 * e1 == e1 * e2
    ensures e1 == 1 ==> e2 * e1 * e0 == e2 * e0 == e0 * e2
    ensures e2 == 1 ==> e2 * e1 * e0 == e1 * e0 == e0 * e1
  {
  }

  /** Where the voxels of a slice stand: row by row if x lies before y in the store, else column by column. */
  lemma SliceVoxelPlace(meta: Metadata, box: Box, t: AxisType, r: nat, c: nat)
    requires meta.Valid() && IsSlice(meta, box, t)
    requires r < Shape(meta, box, t).0 && c < Shape(meta, box, t).1
    ensures NotEmpty(box)
    ensures var (rows, columns) := Shape(meta, box, t);
            var k := if XBeforeY(meta, t) then r * columns + c else c * rows + r;
            0 <= k < StoredCount(box) && VoxelAt(box, k) == SliceVoxel(meta, box, t, r, c)
  {
    ShapeIsBufferSize(meta, box, t);
    VoxelPlace(box, meta.AxisOf(t).dimension, meta.AxisOf(SliceAxes(t).0).dimension, meta.AxisOf(SliceAxes(t).1).dimension, r, c);
  }

  lemma VoxelPlace(box: Box, s: nat, x: nat, y: nat, r: nat, c: nat)
    requires NotEmpty(box) && ThreeDimensions(s, x, y) && box.upper[s] == box.lower[s] + 1
    requires r < box.upper[y] - box.lower[y] && c < box.upper[x] - box.lower[x]
    ensures var rows, columns := box.upper[y] - box.lower[y], box.upper[x] - box.lower[x];
            var k := if x < y then r * columns + c else c * rows + r;
            0 <= k < StoredCount(box) && VoxelAt(box, k) == box.lower[..3][y := box.lower[y] + r][x := box.lower[x] + c]
  {
    var lo, hi := box.lower, box.upper;
    var v: VoxelIndex := lo[..3][y := lo[y] + r][x := lo[x] + c];
    var j0, j1, j2 := v[0] - lo[0], v[1] - lo[1], v[2] - lo[2];
    PlaceInBoxFits(j0, j1, j2, hi[0] - lo[0], hi[1] - lo[1], hi[2] - lo[2]);
    FlatPlace(j0, j1, j2, hi[0] - lo[0], hi[1] - lo[1]);
    assert VoxelAt(box, PlaceInBox(j0, j1, j2, hi[0] - lo[0], hi[1] - lo[1])) == v;
  }

  lemma FlatPlace(j0: nat, j1: nat, j2: nat, e0: nat, e1: nat)
    ensures e0 == 1 && j0 == 0 ==> PlaceInBox(j0, j1, j2, e0, e1) == j2 * e1 + j1
    ensures e1 == 1 && j1 == 0 ==> PlaceInBox(j0, j1, j2, e0, e1) == j2 * e0 + j0
    ensures j2 == 0 ==> PlaceInBox(j0, j1, j2, e0, e1) == j1 * e0 + j0
  {
  }

  /** The x axis of the slice lies before its y axis in the store. */
  predicate XBeforeY(meta: Metadata, t: AxisType) {
    meta.AxisOf(SliceAxes(t).0).dimension < meta.AxisOf(SliceAxes(t).1).dimension
  }

  /** Whatever the cube holds, the buffer is as the shape says if x lies before y in the store, or there is but one line. */
  lemma ShapeDescribesBuffer(meta: Metadata, box: Box, t: AxisType, value: VoxelIndex -> real)
    requires meta.Valid() && IsSlice(meta, box, t)
    requires XBeforeY(meta, t) || Shape(meta, box, t).0 == 1 || Shape(meta, box, t).1 == 1
    ensures NotEmpty(box) && StoredCount(box) >= 0 && ShapeDescribes(meta, box, t, value)
  {
    ShapeIsBufferSize(meta, box, t);
    var (rows, columns) := Shape(meta, box, t);
    forall r: nat, c: nat | r < rows && c < columns
      ensures BufferHolds(meta, box, t, value, r, c, columns)
    {
      SliceVoxelPlace(meta, box, t, r, c);
      OneLine(rows, columns, r, c);
    }
  }

  lemma OneLine(rows: nat, columns: nat, r: nat, c: nat)
    requires r < rows && c < columns
    ensures rows == 1 || columns == 1 ==> c * rows + r == r * columns + c
  {
  }

  /** Tells the lines of one dimension apart. */
  function LineNumber(d: nat): VoxelIndex -> real
    requires d < 3
  {
    (v: VoxelIndex) => v[d] as real
  }

  /** Otherwise it is not, for instance for a cube that holds its own line numbers. */
  lemma ShapeMisleads(meta: Metadata, box: Box, t: AxisType)
    requires meta.Valid() && IsSlice(meta, box, t)
    requires !XBeforeY(meta, t) && Shape(meta, box, t).0 > 1 && Shape(meta, box, t).1 > 1
    ensures NotEmpty(box) && StoredCount(box) >= 0
    ensures !ShapeDescribes(meta, box, t, LineNumber(meta.AxisOf(SliceAxes(t).0).dimension))
  {
    ShapeIsBufferSize(meta, box, t);
    var (rows, columns) := Shape(meta, box, t);
    var value := LineNumber(meta.AxisOf(SliceAxes(t).0).dimension);
    SliceVoxelPlace(meta, box, t, 1, 0);
    assert VoxelAt(box, 1) == SliceVoxel(meta, box, t, 1, 0);
    assert !BufferHolds(meta, box, t, value, 0, 1, columns);
  }

  /**
   For every cube, the shape in the metadata describes the contents of the buffer if and only if x lies before y in
   the store, or the slice is a single line.
   */
  lemma ShapeDescribesIff(meta: Metadata, box: Box, t: AxisType)
    requires meta.Valid() && IsSlice(meta, box, t)
    ensures NotEmpty(box) && StoredCount(box) >= 0
    ensures (forall value: VoxelIndex -> real :: ShapeDescribes(meta, box, t, value))
            <==> XBeforeY(meta, t) || Shape(meta, box, t).0 == 1 || Shape(meta, box, t).1 == 1
  {
    ShapeIsBufferSize(meta, box, t);
    if XBeforeY(meta, t) || Shape(meta, box, t).0 == 1 || Shape(meta, box, t).1 == 1 {
      forall value: VoxelIndex -> real
        ensures ShapeDescribes(meta, box, t, value)
      {
        ShapeDescribesBuffer(meta, box, t, value);
      }
    } else {
      assert box.InsideAlong(meta.AxisOf(SliceAxes(t).0)) && box.InsideAlong(meta.AxisOf(SliceAxes(t).1));
      ShapeMisleads(meta, box, t);
    }
  }

  /** In the usual order of axes, samples first and inlines last, that is every slice. */
  lemma UsualOrder(meta: Metadata, t: AxisType)
    requires meta.sample.dimension < meta.xline.dimension < meta.iline.dimension
    ensures XBeforeY(meta, t)
  {
  }

  /** With crosslines first, inlines second and samples last, the whole of any inline is misdescribed. */
  lemma CustomOrderMisleads(meta: Metadata, k: nat)
    requires meta.Valid() && k < meta.iline.nsamples
    requires meta.xline.dimension == 0 && meta.iline.dimension == 1 && meta.sample.dimension == 2
    ensures SliceBox(meta, [], Iline, k, Index).Some?
    ensures var box := SliceBox(meta, [], Iline, k, Index).value;
            NotEmpty(box) && StoredCount(box) >= 0 && !ShapeDescribes(meta, box, Iline, LineNumber(2))
  {
    SlicedStaysInside(meta, Iline, WholeCube(meta), k, Index);
    ShapeMisleads(meta, SliceBox(meta, [], Iline, k, Index).value, Iline);
  }

  /** A line of the axis was selected exactly when its position is between the minimum and the maximum described. */
  lemma DescribedLinesIff(axis: Axis, box: Box, k: int)
    requires axis.Accepted() && axis.dimension < 3 && box.Sized()
    ensures box.lower[axis.dimension] <= k < box.upper[axis.dimension]
            <==> DescribeAxis(axis, box).min <= axis.PositionAt(k) <= DescribeAxis(axis, box).max
  {
    PositionsInOrder(axis, box.lower[axis.dimension], k);
    PositionsInOrder(axis, k, box.upper[axis.dimension] - 1);
  }

  /** A slice keeps the constraints along the other axes. */
  lemma SliceKeepsOthers(meta: Metadata, box: Box, t: AxisType, lineno: int, system: CoordinateSystem, u: AxisType)
    requires meta.Valid() && u != t && box.Sized()
    requires Sliced(meta.AxisOf(t), box, lineno, system).Some?
    ensures var r, d := Sliced(meta.AxisOf(t), box, lineno, system).value, meta.AxisOf(u).dimension;
            r.lower[d] == box.lower[d] && r.upper[d] == box.upper[d]
  {
    DimensionsDiffer(meta, t, u);
  }

  /** What the metadata of an axis should say: the line numbers asked for, by name or by index. */
  predicate Repeats(described: AxisMetadata, axis: Axis, bound: Bound)
    requires axis.Accepted()
  {
    match bound.system
    case Annotation => described.min == bound.lower as real && described.max == bound.upper as real
    case Index => described == AxisMetadata(axis.PositionAt(bound.lower), axis.PositionAt(bound.upper),
                                            bound.upper - bound.lower + 1)
    case Cdp => false
  }

  lemma RepeatsVoxels(axis: Axis, bound: Bound, low: int, high: int)
    requires axis.Accepted()
    requires ToVoxel(axis, bound.lower, bound.system) == Some(low)
    requires ToVoxel(axis, bound.upper, bound.system) == Some(high)
    ensures Repeats(AxisMetadata(axis.PositionAt(low), axis.PositionAt(high), high + 1 - low), axis, bound)
  {
    ToVoxelIff(axis, bound.lower, bound.system, low);
    ToVoxelIff(axis, bound.upper, bound.system, high);
  }

  /** The metadata of an axis of the slice repeats its last bound, and the whole axis when there was no bound. */
  lemma DescribedAxisIsRequested(meta: Metadata, bounds: seq<Bound>, t: AxisType, lineno: int, system: CoordinateSystem,
                                 u: AxisType)
    requires meta.Valid() && u != t
    requires SliceBox(meta, bounds, t, lineno, system).Some?
    ensures var described := DescribeAxis(meta.AxisOf(u), SliceBox(meta, bounds, t, lineno, system).value);
            match LastBound(bounds, u)
            case None => described == AxisMetadata(meta.AxisOf(u).min, meta.AxisOf(u).max, meta.AxisOf(u).nsamples)
            case Some(bound) => Repeats(described, meta.AxisOf(u), bound)
  {
    var whole, axis := WholeCube(meta), meta.AxisOf(u);
    var box := Constrained(meta, whole, bounds).value;
    SliceKeepsOthers(meta, box, t, lineno, system, u);
    LastBoundWins(meta, whole, bounds, u);
    match LastBound(bounds, u)
    case None => DescribesWhole(meta, u);
    case Some(bound) =>
      RepeatsVoxels(axis, bound, box.lower[axis.dimension], box.upper[axis.dimension] - 1);
  }

  lemma DescribesWhole(meta: Metadata, u: AxisType)
    requires meta.Valid()
    ensures DescribeAxis(meta.AxisOf(u), WholeCube(meta))
            == AxisMetadata(meta.AxisOf(u).min, meta.AxisOf(u).max, meta.AxisOf(u).nsamples)
  {
    LastPosition(meta.AxisOf(u));
  }

  /** The slice itself lies at the line that was asked for. */
  lemma SliceLiesAtLine(meta: Metadata, bounds: seq<Bound>, t: AxisType, lineno: int, system: CoordinateSystem)
    requires meta.Valid()
    requires SliceBox(meta, bounds, t, lineno, system).Some?
    ensures var box, axis := SliceBox(meta, bounds, t, lineno, system).value, meta.AxisOf(t);
            box.upper[axis.dimension] == box.lower[axis.dimension] + 1
            && if system.Annotation? then axis.PositionAt(box.lower[axis.dimension]) == lineno as real
               else box.lower[axis.dimension] == lineno
  {
    var box, axis := SliceBox(meta, bounds, t, lineno, system).value, meta.AxisOf(t);
    ToVoxelIff(axis, lineno, system, box.lower[axis.dimension]);
  }
}
