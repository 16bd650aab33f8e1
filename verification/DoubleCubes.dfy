/**
 Reading from two cubes at once: each read is made from both, at positions shifted by the offsets of the
 intersection, and combined sample by sample with a binary operator.
 */
module DoubleCubes {
  import opened Layout
  import opened Options
  import opened RealMath
  import opened Axes
  import opened CubeIntersection

  /** value: what the store delivers at a position, whatever interpolation was asked for. */
  datatype Cube = Cube(iline: Axis, xline: Axis, sample: Axis, value: Position -> real) {

    /** Axes in IJK order. */
    function AxisOf(t: nat): Axis {
      if t == 0 then iline else if t == 1 then xline else sample
    }

    /** The dimension that each IJK axis takes up. */
    function Dimensions(): (dims: seq<nat>)
      ensures |dims| == 3
    {
      [iline.dimension, xline.dimension, sample.dimension]
    }

    predicate Valid() {
      iline.Accepted() && xline.Accepted() && sample.Accepted() && IsPermutation(Dimensions())
    }

    /** Position of a point given by its annotated iline, xline and sample coordinates. */
    function PositionOf(x: Position): (p: Position)
      requires Valid()
      ensures p[iline.dimension] == iline.ToSamplePosition(x[0])
      ensures p[xline.dimension] == xline.ToSamplePosition(x[1])
      ensures p[sample.dimension] == sample.ToSamplePosition(x[2])
    {
      Arrange(Dimensions(), [iline.ToSamplePosition(x[0]), xline.ToSamplePosition(x[1]), sample.ToSamplePosition(x[2])])
    }

    /** The seismic field: value at an annotated point. */
    function Field(x: Position): real
      requires Valid()
    {
      value(PositionOf(x))
    }
  }

  predicate IsPermutation(dims: seq<nat>) {
    && |dims| == 3 && dims[0] < 3 && dims[1] < 3 && dims[2] < 3
    && dims[0] != dims[1] && dims[1] != dims[2] && dims[0] != dims[2]
  }

  /** Coordinates in IJK order put in the order of the dimensions. */
  function Arrange(dims: seq<nat>, c: Position): Position
    requires IsPermutation(dims)
  {
    [0.0, 0.0, 0.0][dims[0] := c[0]][dims[1] := c[1]][dims[2] := c[2]]
  }

  /** Shifts a position by offsets in IJK order. */
  function Shift(dims: seq<nat>, zero: seq<int>, p: Position): (r: Position)
    requires IsPermutation(dims) && |zero| == 3
    ensures forall t :: 0 <= t < 3 ==> r[dims[t]] == p[dims[t]] + zero[t] as real
  {
    Arrange(dims, [p[dims[0]] + zero[0] as real, p[dims[1]] + zero[1] as real, p[dims[2]] + zero[2] as real])
  }

  // ---- the handle on two cubes

  /** Along one axis: index 0 of the intersection is index zeroA of cube a and zeroB of cube b, and it ends before either does. */
  predicate Aligned(axis: Axis, a: Axis, b: Axis, zeroA: int, zeroB: int) {
    && axis.Accepted() && a.Accepted() && b.Accepted()
    && axis.dimension == a.dimension == b.dimension
    && axis.Stepsize() == a.Stepsize() == b.Stepsize()
    && axis.min == a.PositionAt(zeroA) == b.PositionAt(zeroB)
    && 0 <= zeroA <= a.nsamples - axis.nsamples && 0 <= zeroB <= b.nsamples - axis.nsamples
  }

  /** Along one axis the cubes share at least two lines, and the intersection counts them right. */
  predicate CombinableAxis(a: Axis, b: Axis) {
    && OnOneRuler(a, b) && a.dimension == b.dimension
    && a.Stepsize() >= 1.0 && SharedSteps(a, b) >= 1 && CastIsHarmless(a, b)
  }

  lemma OffsetsFit(a: Axis, b: Axis)
    requires OnOneRuler(a, b)
    ensures ZeroInA(a, b) + SharedSteps(a, b) < a.nsamples && ZeroInB(a, b) + SharedSteps(a, b) < b.nsamples
  {
    OffsetFormulas(a, b);
  }

  lemma SharedAxis(a: Axis, b: Axis)
    requires CombinableAxis(a, b)
    ensures MakeDoubleAxis(a, b, a.dimension).Ok?
    ensures var axis := MakeDoubleAxis(a, b, a.dimension).axis;
            axis.nsamples == SharedSteps(a, b) + 1 && axis.Stepsize() == a.Stepsize() && axis.dimension == a.dimension
  {
    CountIff(a, b, a.dimension);
    SharedAxisCounted(a, b);
  }

  lemma SharedAxisCounted(a: Axis, b: Axis)
    requires OnOneRuler(a, b) && a.Stepsize() >= 1.0 && SharedSteps(a, b) >= 1
    requires var made := MakeAxis(a, b, a.dimension); made.Ok? && made.axis.nsamples == SharedSteps(a, b) + 1
    ensures MakeDoubleAxis(a, b, a.dimension).Ok?
    ensures MakeDoubleAxis(a, b, a.dimension).axis.Stepsize() == a.Stepsize()
  {
    IntersectionEnds(a, b, a.dimension);
    IntersectionStep(a, MakeAxis(a, b, a.dimension).axis, SharedSteps(a, b));
  }

  /** The axis and the offsets, each calculated in its own way, fit together. */
  lemma AxisAndOffsetsAreAligned(a: Axis, b: Axis)
    requires CombinableAxis(a, b)
    ensures MakeDoubleAxis(a, b, a.dimension).Ok?
    ensures Aligned(MakeDoubleAxis(a, b, a.dimension).axis, a, b, ZeroInA(a, b), ZeroInB(a, b))
  {
    SharedAxis(a, b);
    OffsetsAgreeWithAxis(a, b, a.dimension);
    OffsetsFit(a, b);
  }

  datatype Handle = Handle(a: Cube, b: Cube, iline: Axis, xline: Axis, sample: Axis,
                           zeroA: seq<int>, zeroB: seq<int>, op: (real, real) -> real)
  {
    /** Axes in IJK order. */
    function AxisOf(t: nat): Axis {
      if t == 0 then iline else if t == 1 then xline else sample
    }

    predicate Valid() {
      && a.Valid() && b.Valid() && |zeroA| == 3 && |zeroB| == 3
      && Aligned(iline, a.iline, b.iline, zeroA[0], zeroB[0])
      && Aligned(xline, a.xline, b.xline, zeroA[1], zeroB[1])
      && Aligned(sample, a.sample, b.sample, zeroA[2], zeroB[2])
    }

    function Dims(): (dims: seq<nat>)
      requires Valid()
      ensures IsPermutation(dims) && dims == a.Dimensions() == b.Dimensions()
    {
      a.Dimensions()
    }

    function InA(p: Position): Position
      requires Valid()
    {
      Shift(Dims(), zeroA, p)
    }

    function InB(p: Position): Position
      requires Valid()
    {
      Shift(Dims(), zeroB, p)
    }

    /** The virtual cube: what a read at p has to deliver. */
    function Combined(): (c: Cube)
      requires Valid()
      ensures c.Valid()
    {
      Cube(iline, xline, sample, (p: Position) requires Valid() => op(a.value(InA(p)), b.value(InB(p))))
    }
  }

  /** Along axis t the cubes have the same dimension, and an intersection that passes validation. */
  predicate AxisMade(a: Cube, b: Cube, t: nat)
    requires a.Valid() && b.Valid()
  {
    a.AxisOf(t).dimension == b.AxisOf(t).dimension && MakeDoubleAxis(a.AxisOf(t), b.AxisOf(t), a.AxisOf(t).dimension).Ok?
  }

  /** The handle on two cubes: three intersections, and the offsets that the coordinate transformer calculates. */
  ghost predicate IsHandleOf(h: Handle, a: Cube, b: Cube, op: (real, real) -> real)
    requires a.Valid() && b.Valid()
  {
    && h.a == a && h.b == b && h.op == op && |h.zeroA| == 3 && |h.zeroB| == 3
    && forall t :: 0 <= t < 3 ==>
         && a.AxisOf(t).dimension == b.AxisOf(t).dimension
         && MakeDoubleAxis(a.AxisOf(t), b.AxisOf(t), a.AxisOf(t).dimension) == Ok(h.AxisOf(t))
         && h.zeroA[t] == ZeroInA(a.AxisOf(t), b.AxisOf(t)) && h.zeroB[t] == ZeroInB(a.AxisOf(t), b.AxisOf(t))
  }

  /** Combines the cubes axis after axis, and refuses them at the first that cannot be combined. */
  method MakeHandle(a: Cube, b: Cube, op: (real, real) -> real) returns (r: Option<Handle>)
    requires a.Valid() && b.Valid()
    ensures r.Some? <==> forall t :: 0 <= t < 3 ==> AxisMade(a, b, t)
    ensures r.Some? ==> IsHandleOf(r.value, a, b, op)
  {
    var axes, zeroA, zeroB := [], [], [];
    for t := 0 to 3
      invariant |axes| == |zeroA| == |zeroB| == t
      invariant forall u :: 0 <= u < t ==>
                  && AxisMade(a, b, u)
                  && MakeDoubleAxis(a.AxisOf(u), b.AxisOf(u), a.AxisOf(u).dimension) == Ok(axes[u])
                  && zeroA[u] == ZeroInA(a.AxisOf(u), b.AxisOf(u)) && zeroB[u] == ZeroInB(a.AxisOf(u), b.AxisOf(u))
    {
      var axisA, axisB := a.AxisOf(t), b.AxisOf(t);
      var made := MakeDoubleAxis(axisA, axisB, axisA.dimension);
      if axisA.dimension != axisB.dimension || !made.Ok? {
        assert !AxisMade(a, b, t);
        return None;
      }
      axes := axes + [made.axis];
      zeroA := zeroA + [ZeroInA(axisA, axisB)];
      zeroB := zeroB + [ZeroInB(axisA, axisB)];
    }
    return Some(Handle(a, b, axes[0], axes[1], axes[2], zeroA, zeroB, op));
  }

  /** Of an intersection that passes validation, axis and offsets fit together exactly when its lines are counted right. */
  lemma AlignedIff(a: Axis, b: Axis)
    requires a.Accepted() && b.Accepted() && a.dimension == b.dimension
    requires MakeDoubleAxis(a, b, a.dimension).Ok?
    ensures Aligned(MakeDoubleAxis(a, b, a.dimension).axis, a, b, ZeroInA(a, b), ZeroInB(a, b)) <==> CombinableAxis(a, b)
  {
    var axis := MakeDoubleAxis(a, b, a.dimension).axis;
    MadeMeansShared(a, b);
    if Aligned(axis, a, b, ZeroInA(a, b), ZeroInB(a, b)) {
      StaysInsideIff(a, b, a.dimension);
      assert StaysInside(axis.nsamples, a, b);
    }
    if CombinableAxis(a, b) {
      AxisAndOffsetsAreAligned(a, b);
    }
  }

  lemma MadeMeansShared(a: Axis, b: Axis)
    requires a.Accepted() && b.Accepted()
    requires MakeDoubleAxis(a, b, a.dimension).Ok?
    ensures OnOneRuler(a, b) && a.Stepsize() >= 1.0 && SharedSteps(a, b) >= 1
  {
    if a.Stepsize() < 1.0 {
      StepBelowOne(a, b, a.dimension);
    }
    AcceptedIff(a, b, a.dimension);
  }

  /** The handle that is made is one whose reads are right if and only if the lines are counted right along every axis. */
  lemma HandleIsValidIff(h: Handle, a: Cube, b: Cube, op: (real, real) -> real)
    requires a.Valid() && b.Valid() && IsHandleOf(h, a, b, op)
    ensures h.Valid() <==> forall t :: 0 <= t < 3 ==> CombinableAxis(a.AxisOf(t), b.AxisOf(t))
  {
    AlignedIff(a.AxisOf(0), b.AxisOf(0));
    AlignedIff(a.AxisOf(1), b.AxisOf(1));
    AlignedIff(a.AxisOf(2), b.AxisOf(2));
    assert h.AxisOf(0) == h.iline && h.AxisOf(1) == h.xline && h.AxisOf(2) == h.sample;
    assert h.Valid() <==> CombinableAxis(a.AxisOf(0), b.AxisOf(0)) && CombinableAxis(a.AxisOf(1), b.AxisOf(1))
                          && CombinableAxis(a.AxisOf(2), b.AxisOf(2));
  }

  // ---- the field of the virtual cube

  lemma ShiftedSamplePosition(axis: Axis, a: Axis, zero: int, x: real)
    requires axis.Accepted() && a.Accepted() && axis.Stepsize() == a.Stepsize()
    requires axis.min == a.PositionAt(zero)
    ensures axis.ToSamplePosition(x) + zero as real == a.ToSamplePosition(x)
  {
    var step := a.Stepsize();
    assert x - a.min == (x - axis.min) + step * zero as real;
    SplitQuotient(x - axis.min, step * zero as real, step);
    ScaleThenDivide(zero as real, step);
  }

  lemma SplitQuotient(x: real, y: real, k: real)
    requires k != 0.0
    ensures (x + y) / k == x / k + y / k
  {
  }

  lemma PlaceShifted(dims: seq<nat>, zero: seq<int>, c: Position)
    requires IsPermutation(dims) && |zero| == 3
    ensures Shift(dims, zero, Arrange(dims, c))
            == Arrange(dims, [c[0] + zero[0] as real, c[1] + zero[1] as real, c[2] + zero[2] as real])
  {
  }

  lemma SamePointInA(h: Handle, x: Position)
    requires h.Valid()
    ensures h.InA(h.Combined().PositionOf(x)) == h.a.PositionOf(x)
  {
    ShiftedSamplePosition(h.iline, h.a.iline, h.zeroA[0], x[0]);
    ShiftedSamplePosition(h.xline, h.a.xline, h.zeroA[1], x[1]);
    ShiftedSamplePosition(h.sample, h.a.sample, h.zeroA[2], x[2]);
    PlaceShifted(h.Dims(), h.zeroA,
                 [h.iline.ToSamplePosition(x[0]), h.xline.ToSamplePosition(x[1]), h.sample.ToSamplePosition(x[2])]);
  }

  lemma SamePointInB(h: Handle, x: Position)
    requires h.Valid()
    ensures h.InB(h.Combined().PositionOf(x)) == h.b.PositionOf(x)
  {
    ShiftedSamplePosition(h.iline, h.b.iline, h.zeroB[0], x[0]);
    ShiftedSamplePosition(h.xline, h.b.xline, h.zeroB[1], x[1]);
    ShiftedSamplePosition(h.sample, h.b.sample, h.zeroB[2], x[2]);
    PlaceShifted(h.Dims(), h.zeroB,
                 [h.iline.ToSamplePosition(x[0]), h.xline.ToSamplePosition(x[1]), h.sample.ToSamplePosition(x[2])]);
  }

  /** The field of the virtual cube is the operator applied, point by point, to the fields of the two cubes. */
  lemma FieldIsPointwise(h: Handle, x: Position)
    requires h.Valid()
    ensures h.Combined().Field(x) == h.op(h.a.Field(x), h.b.Field(x))
  {
    SamePointInA(h, x);
    SamePointInB(h, x);
  }

  // ---- reads

  /** Adds the offsets to one position, dimension by dimension. */
  method ToCubePosition(dims: seq<nat>, zero: seq<int>, p: Position) returns (r: Position)
    requires IsPermutation(dims) && |zero| == 3
    ensures r == Shift(dims, zero, p)
  {
    r := [0.0, 0.0, 0.0];
    for t := 0 to 3
      invariant forall u :: 0 <= u < t ==> r[dims[u]] == p[dims[u]] + zero[u] as real
    {
      r := r[dims[t] := p[dims[t]] + zero[t] as real];
    }
  }

  method ToCubePositions(dims: seq<nat>, zero: seq<int>, positions: seq<Position>) returns (r: seq<Position>)
    requires IsPermutation(dims) && |zero| == 3
    ensures |r| == |positions| && forall v :: 0 <= v < |r| ==> r[v] == Shift(dims, zero, positions[v])
  {
    r := [];
    for v := 0 to |positions|
      invariant |r| == v && forall u :: 0 <= u < v ==> r[u] == Shift(dims, zero, positions[u])
    {
      var p := ToCubePosition(dims, zero, positions[v]);
      r := r + [p];
    }
  }

  /** Combines two buffers sample by sample, in place. */
  method InplaceOperator(op: (real, real) -> real, bufferA: array<real>, bufferB: seq<real>)
    requires bufferA.Length == |bufferB|
    modifies bufferA
    ensures forall k :: 0 <= k < bufferA.Length ==> bufferA[k] == op(old(bufferA[k]), bufferB[k])
  {
    for i := 0 to bufferA.Length
      invariant forall k :: 0 <= k < bufferA.Length ==>
                  bufferA[k] == if k < i then op(old(bufferA[k]), bufferB[k]) else old(bufferA[k])
    {
      bufferA[i] := op(bufferA[i], bufferB[i]);
    }
  }

  /** A single cube's samples at given positions. */
  function SingleSamples(cube: Cube, positions: seq<Position>): (r: seq<real>)
    ensures |r| == |positions|
  {
    seq(|positions|, k requires 0 <= k < |positions| => cube.value(positions[k]))
  }

  method Fill(buffer: array<real>, values: seq<real>)
    requires buffer.Length == |values|
    modifies buffer
    ensures buffer[..] == values
  {
    for k := 0 to |values|
      invariant buffer[..k] == values[..k]
    {
      buffer[k] := values[k];
    }
    assert buffer[..|values|] == buffer[..];
  }

  /** What has to stand in the buffer after both reads have been combined. */
  lemma CombinedSamples(h: Handle, positions: seq<Position>, positionsA: seq<Position>, positionsB: seq<Position>, buffer: seq<real>)
    requires h.Valid()
    requires |positions| == |positionsA| == |positionsB| == |buffer|
    requires forall k :: 0 <= k < |positions| ==> positionsA[k] == h.InA(positions[k]) && positionsB[k] == h.InB(positions[k])
    requires forall k :: 0 <= k < |positions| ==>
               buffer[k] == h.op(SingleSamples(h.a, positionsA)[k], SingleSamples(h.b, positionsB)[k])
    ensures buffer == SingleSamples(h.Combined(), positions)
  {
  }

  /** Samples read from both cubes are those of the virtual cube. */
  method ReadSamples(h: Handle, samples: seq<Position>, buffer: array<real>)
    requires h.Valid()
    requires buffer.Length == |samples|
    modifies buffer
    ensures forall k :: 0 <= k < buffer.Length ==>
              buffer[k] == h.op(h.a.value(h.InA(samples[k])), h.b.value(h.InB(samples[k])))
  {
    var samplesA := ToCubePositions(h.Dims(), h.zeroA, samples);
    var samplesB := ToCubePositions(h.Dims(), h.zeroB, samples);
    Combine(h, samplesA, samplesB, buffer);
  }

  /** Reads cube a into the buffer, cube b into a second one, and combines the two. */
  method Combine(h: Handle, positionsA: seq<Position>, positionsB: seq<Position>, buffer: array<real>)
    requires buffer.Length == |positionsA| == |positionsB|
    modifies buffer
    ensures forall k :: 0 <= k < buffer.Length ==>
              buffer[k] == h.op(SingleSamples(h.a, positionsA)[k], SingleSamples(h.b, positionsB)[k])
  {
    Fill(buffer, SingleSamples(h.a, positionsA));
    ghost var first := buffer[..];
    var bufferB := SingleSamples(h.b, positionsB);
    InplaceOperator(h.op, buffer, bufferB);
    assert forall k :: 0 <= k < buffer.Length ==> first[k] == SingleSamples(h.a, positionsA)[k];
  }

  // ---- boxes

  /** A corner of a box, one index per dimension. */
  type Corner = v: seq<int> | |v| == 3 witness [0, 0, 0]

  function ShiftCorner(dims: seq<nat>, zero: seq<int>, c: Corner): Corner
    requires IsPermutation(dims) && |zero| == 3
  {
    [0, 0, 0][dims[0] := c[dims[0]] + zero[0]][dims[1] := c[dims[1]] + zero[1]][dims[2] := c[dims[2]] + zero[2]]
  }

  function Extent(lower: Corner, upper: Corner): Corner {
    [upper[0] - lower[0], upper[1] - lower[1], upper[2] - lower[2]]
  }

  /** Centres of the samples of a box; order is how the store walks through a box of a given extent. */
  function BoxPositions(order: Corner -> seq<Corner>, lower: Corner, upper: Corner): (r: seq<Position>)
    ensures |r| == |order(Extent(lower, upper))|
  {
    var steps := order(Extent(lower, upper));
    seq(|steps|, k requires 0 <= k < |steps| => Centre(lower, steps[k]))
  }

  function Centre(lower: Corner, step: Corner): Position {
    [(lower[0] + step[0]) as real + 0.5, (lower[1] + step[1]) as real + 0.5, (lower[2] + step[2]) as real + 0.5]
  }

  /** Shifting the corners of a box shifts its samples and keeps their number and order. */
  lemma BoxShifts(dims: seq<nat>, zero: seq<int>, order: Corner -> seq<Corner>, lower: Corner, upper: Corner)
    requires IsPermutation(dims) && |zero| == 3
    ensures var shifted := BoxPositions(order, ShiftCorner(dims, zero, lower), ShiftCorner(dims, zero, upper));
            var box := BoxPositions(order, lower, upper);
            |shifted| == |box| && forall k :: 0 <= k < |box| ==> shifted[k] == Shift(dims, zero, box[k])
  {
    assert Extent(ShiftCorner(dims, zero, lower), ShiftCorner(dims, zero, upper)) == Extent(lower, upper);
  }

  /** The annotated point of a voxel: the positions of its three lines. */
  function VoxelPoint(h: Handle, lower: Corner, step: Corner): Position
    requires h.Valid()
  {
    [h.iline.PositionAt(lower[h.iline.dimension] + step[h.iline.dimension]),
     h.xline.PositionAt(lower[h.xline.dimension] + step[h.xline.dimension]),
     h.sample.PositionAt(lower[h.sample.dimension] + step[h.sample.dimension])]
  }

  lemma CentreOfVoxel(h: Handle, lower: Corner, step: Corner)
    requires h.Valid()
    ensures Centre(lower, step) == h.Combined().PositionOf(VoxelPoint(h, lower, step))
  {
    LineCentre(h.iline, lower[h.iline.dimension] + step[h.iline.dimension]);
    LineCentre(h.xline, lower[h.xline.dimension] + step[h.xline.dimension]);
    LineCentre(h.sample, lower[h.sample.dimension] + step[h.sample.dimension]);
  }

  lemma BoxSample(h: Handle, lower: Corner, step: Corner)
    requires h.Valid()
    ensures h.Combined().value(Centre(lower, step))
            == h.op(h.a.Field(VoxelPoint(h, lower, step)), h.b.Field(VoxelPoint(h, lower, step)))
  {
    CentreOfVoxel(h, lower, step);
    FieldIsPointwise(h, VoxelPoint(h, lower, step));
  }

  /** Shifts the box into both cubes, reads it from both, and combines. */
  method CombineBoxes(h: Handle, order: Corner -> seq<Corner>, lower: Corner, upper: Corner, buffer: array<real>)
    requires h.Valid()
    requires buffer.Length == |order(Extent(lower, upper))|
    modifies buffer
    ensures forall k :: 0 <= k < buffer.Length ==>
              buffer[k] == h.Combined().value(Centre(lower, order(Extent(lower, upper))[k]))
  {
    var dims := h.Dims();
    BoxShifts(dims, h.zeroA, order, lower, upper);
    BoxShifts(dims, h.zeroB, order, lower, upper);
    var boxA := BoxPositions(order, ShiftCorner(dims, h.zeroA, lower), ShiftCorner(dims, h.zeroA, upper));
    var boxB := BoxPositions(order, ShiftCorner(dims, h.zeroB, lower), ShiftCorner(dims, h.zeroB, upper));
    Combine(h, boxA, boxB, buffer);
    CombinedSamples(h, BoxPositions(order, lower, upper), boxA, boxB, buffer[..]);
  }

  /** A box read from both cubes holds, voxel by voxel in the order of the store, both fields combined at the same lines. */
  method ReadSubcube(h: Handle, order: Corner -> seq<Corner>, lower: Corner, upper: Corner, buffer: array<real>)
    requires h.Valid()
    requires buffer.Length == |order(Extent(lower, upper))|
    modifies buffer
    ensures var steps := order([upper[0] - lower[0], upper[1] - lower[1], upper[2] - lower[2]]);
            buffer.Length == |steps| && forall k :: 0 <= k < |steps| ==>
              var l := seq(3, d requires 0 <= d < 3 => lower[d] + steps[k][d]);
              var x: Position := [h.iline.PositionAt(l[h.iline.dimension]), h.xline.PositionAt(l[h.xline.dimension]),
                                  h.sample.PositionAt(l[h.sample.dimension])];
              buffer[k] == h.op(h.a.Field(x), h.b.Field(x))
  {
    CombineBoxes(h, order, lower, upper, buffer);
    ghost var steps := order(Extent(lower, upper));
    forall k | 0 <= k < |steps|
      ensures buffer[k] == h.op(h.a.Field(VoxelPoint(h, lower, steps[k])), h.b.Field(VoxelPoint(h, lower, steps[k])))
    {
      BoxSample(h, lower, steps[k]);
    }
  }

  // ---- traces

  /** The whole trace of a cube at a horizontal position. */
  function Trace(cube: Cube, p: Position): (r: seq<real>)
    requires cube.sample.nsamples >= 0 && cube.sample.dimension < 3
    ensures |r| == cube.sample.nsamples
  {
    seq(cube.sample.nsamples, k requires 0 <= k < cube.sample.nsamples =>
      cube.value(p[cube.sample.dimension := k as real + 0.5]))
  }

  function Traces(cube: Cube, coordinates: seq<Position>): (r: seq<seq<real>>)
    requires cube.sample.nsamples >= 0 && cube.sample.dimension < 3
    ensures |r| == |coordinates|
    ensures forall t :: 0 <= t < |r| ==> r[t] == Trace(cube, coordinates[t])
  {
    seq(|coordinates|, t requires 0 <= t < |coordinates| => Trace(cube, coordinates[t]))
  }

  /** Copies the part of trace i behind the parts copied before. */
  method CopyTrace(ghost traces: seq<seq<real>>, ghost parts: seq<seq<real>>, source: seq<real>, length: nat,
                   start: nat, n: nat, i: nat, target: array<real>)
    requires start + n <= length && i < |traces| == |parts|
    requires forall t :: 0 <= t < |traces| ==> |traces[t]| == length
    requires parts[i] == traces[i][start..start + n]
    requires source == Flat(traces, |traces|)
    requires Multiple(n, i) + n <= target.Length && target[..Multiple(n, i)] == Flat(parts, i)
    modifies target
    ensures target[..Multiple(n, i) + n] == Flat(parts, i) + parts[i]
  {
    PartOfFlat(traces, length, start, n, i);
    var src, dst := Multiple(length, i) + start, Multiple(n, i);
    CopyPart(target, dst, source[src..src + n], Flat(parts, i));
  }

  /** Cuts the same part out of every trace. Source and target are flat. */
  method ExtractPart(ghost traces: seq<seq<real>>, ghost parts: seq<seq<real>>, source: seq<real>, length: nat,
                     start: nat, n: nat, target: array<real>)
    requires length > 0 && start + n <= length
    requires |parts| == |traces|
    requires forall t :: 0 <= t < |traces| ==> |traces[t]| == length && parts[t] == traces[t][start..start + n]
    requires source == Flat(traces, |traces|)
    requires target.Length == Multiple(n, |traces|)
    modifies target
    ensures target[..] == Flat(parts, |parts|)
  {
    FlatSize(traces, length, |traces|);
    QuotientOfMultiple(length, |traces|);
    var ntraces := Quotient(|source|, length);
    for i := 0 to ntraces
      invariant Multiple(n, i) <= target.Length
      invariant target[..Multiple(n, i)] == Flat(parts, i)
    {
      MultipleOrder(n, i + 1, ntraces);
      CopyTrace(traces, parts, source, length, start, n, i, target);
    }
    assert target[..target.Length] == target[..];
  }

  lemma PartOfFlat(traces: seq<seq<real>>, length: nat, start: nat, n: nat, i: nat)
    requires i < |traces| && start + n <= length
    requires forall t :: 0 <= t < |traces| ==> |traces[t]| == length
    ensures Multiple(length, i) + start + n <= |Flat(traces, |traces|)|
    ensures Flat(traces, |traces|)[Multiple(length, i) + start..Multiple(length, i) + start + n] == traces[i][start..start + n]
  {
    FlatSlice(traces, length, |traces|, i);
    SliceOfSlice(Flat(traces, |traces|), Multiple(length, i), Multiple(length, i + 1), start, n);
  }

  lemma SliceOfSlice(s: seq<real>, lo: nat, hi: nat, start: nat, n: nat)
    requires lo <= hi <= |s| && start + n <= hi - lo
    ensures s[lo..hi][start..start + n] == s[lo + start..lo + start + n]
  {
    var x, y := s[lo..hi][start..start + n], s[lo + start..lo + start + n];
    assert forall k :: 0 <= k < n ==> x[k] == y[k];
  }

  method CopyPart(target: array<real>, dst: nat, part: seq<real>, ghost done: seq<real>)
    requires dst + |part| <= target.Length && target[..dst] == done
    modifies target
    ensures target[..dst + |part|] == done + part
  {
    for k := 0 to |part|
      invariant target[..dst + k] == done + part[..k]
    {
      target[dst + k] := part[k];
    }
    assert part[..|part|] == part;
  }

  /** Setting the sample coordinate before or after the shift is the same, up to the offset. */
  lemma ShiftedTracePosition(dims: seq<nat>, zero: seq<int>, p: Position, k: int)
    requires IsPermutation(dims) && |zero| == 3
    ensures Shift(dims, zero, p[dims[2] := k as real + 0.5])
            == Shift(dims, zero, p)[dims[2] := (zero[2] + k) as real + 0.5]
  {
  }

  /** Sample k of the virtual trace is found zero[2] samples further down the trace of the cube. */
  lemma TracePart(cube: Cube, dims: seq<nat>, zero: seq<int>, p: Position, k: nat)
    requires IsPermutation(dims) && |zero| == 3
    requires cube.sample.dimension == dims[2] && 0 <= zero[2] + k < cube.sample.nsamples
    ensures Trace(cube, Shift(dims, zero, p))[zero[2] + k] == cube.value(Shift(dims, zero, p[dims[2] := k as real + 0.5]))
  {
    ShiftedTracePosition(dims, zero, p, k);
  }

  /** What the reads of traces need to know of a handle. */
  lemma SampleRoom(h: Handle)
    requires h.Valid()
    ensures IsPermutation(h.Dims())
    ensures h.Dims()[2] == h.sample.dimension == h.a.sample.dimension == h.b.sample.dimension
    ensures 0 <= h.zeroA[2] && h.zeroA[2] + h.sample.nsamples <= h.a.sample.nsamples
    ensures 0 <= h.zeroB[2] && h.zeroB[2] + h.sample.nsamples <= h.b.sample.nsamples
    ensures h.sample.nsamples >= 2
  {
  }

  lemma CombinedValue(h: Handle, p: Position)
    requires h.Valid()
    ensures h.Combined().value(p) == h.op(h.a.value(h.InA(p)), h.b.value(h.InB(p)))
  {
  }

  lemma TracePartInA(h: Handle, p: Position, k: nat)
    requires h.Valid() && k < h.sample.nsamples
    ensures h.zeroA[2] + k < |Trace(h.a, h.InA(p))|
    ensures Trace(h.a, h.InA(p))[h.zeroA[2] + k] == h.a.value(h.InA(p[h.sample.dimension := k as real + 0.5]))
  {
    SampleRoom(h);
    TracePart(h.a, h.Dims(), h.zeroA, p, k);
  }

  lemma TracePartInB(h: Handle, p: Position, k: nat)
    requires h.Valid() && k < h.sample.nsamples
    ensures h.zeroB[2] + k < |Trace(h.b, h.InB(p))|
    ensures Trace(h.b, h.InB(p))[h.zeroB[2] + k] == h.b.value(h.InB(p[h.sample.dimension := k as real + 0.5]))
  {
    SampleRoom(h);
    TracePart(h.b, h.Dims(), h.zeroB, p, k);
  }

  /** A trace of the virtual cube combines a part of each cube's trace, sample by sample. */
  lemma CombinedTrace(h: Handle, p: Position, k: nat)
    requires h.Valid() && k < h.sample.nsamples
    ensures h.zeroA[2] + k < |Trace(h.a, h.InA(p))| && h.zeroB[2] + k < |Trace(h.b, h.InB(p))|
    ensures Trace(h.Combined(), p)[k] == h.op(Trace(h.a, h.InA(p))[h.zeroA[2] + k], Trace(h.b, h.InB(p))[h.zeroB[2] + k])
  {
    TracePartInA(h, p, k);
    TracePartInB(h, p, k);
    CombinedValue(h, p[h.sample.dimension := k as real + 0.5]);
    TraceSample(h.Combined(), p, k);
  }

  lemma TraceSample(cube: Cube, p: Position, k: nat)
    requires k < cube.sample.nsamples && cube.sample.dimension < 3
    ensures Trace(cube, p)[k] == cube.value(p[cube.sample.dimension := k as real + 0.5])
  {
  }

  ghost predicate Pointwise(op: (real, real) -> real, x: seq<real>, y: seq<real>, z: seq<real>) {
    |x| == |y| == |z| && forall k :: 0 <= k < |z| ==> z[k] == op(x[k], y[k])
  }

  lemma {:induction false} FlatPointwise(op: (real, real) -> real, xs: seq<seq<real>>, ys: seq<seq<real>>, zs: seq<seq<real>>, n: nat)
    requires n <= |xs| == |ys| == |zs|
    requires forall t :: 0 <= t < n ==> Pointwise(op, xs[t], ys[t], zs[t])
    ensures Pointwise(op, Flat(xs, n), Flat(ys, n), Flat(zs, n))
  {
    if n > 0 {
      FlatPointwise(op, xs, ys, zs, n - 1);
      assert Pointwise(op, xs[n - 1], ys[n - 1], zs[n - 1]);
    }
  }

  /** One trace, cut from both cubes and combined. */
  lemma CombinedPart(h: Handle, p: Position)
    requires h.Valid()
    ensures var n := h.sample.nsamples;
            && h.zeroA[2] + n <= |Trace(h.a, h.InA(p))| && h.zeroB[2] + n <= |Trace(h.b, h.InB(p))|
            && Pointwise(h.op, Trace(h.a, h.InA(p))[h.zeroA[2]..h.zeroA[2] + n], Trace(h.b, h.InB(p))[h.zeroB[2]..h.zeroB[2] + n],
                         Trace(h.Combined(), p))
  {
    SampleRoom(h);
    forall k | 0 <= k < h.sample.nsamples
      ensures Trace(h.Combined(), p)[k] == h.op(Trace(h.a, h.InA(p))[h.zeroA[2] + k], Trace(h.b, h.InB(p))[h.zeroB[2] + k])
    {
      CombinedTrace(h, p, k);
    }
  }

  /** The part of each trace to use starts at the first trace's shifted sample coordinate, rounded; that is the offset itself. */
  lemma ExtractStart(dims: seq<nat>, zero: seq<int>, p: Position)
    requires IsPermutation(dims) && |zero| == 3 && zero[2] >= 0
    requires p[dims[2]] == 0.0
    ensures Truncate(Shift(dims, zero, p)[dims[2]] + 0.5) == zero[2]
  {
    assert Shift(dims, zero, p)[dims[2]] == zero[2] as real;
  }

  /** All traces of one cube, each cut to the shared samples. */
  method ReadParts(cube: Cube, dims: seq<nat>, zero: seq<int>, coordinates: seq<Position>, n: nat, buffer: array<real>)
    requires IsPermutation(dims) && |zero| == 3 && cube.sample.dimension == dims[2]
    requires 0 <= zero[2] && zero[2] + n <= cube.sample.nsamples && cube.sample.nsamples > 0
    requires |coordinates| >= 1 && coordinates[0][dims[2]] == 0.0
    requires buffer.Length == Multiple(n, |coordinates|)
    modifies buffer
    ensures buffer[..] == Flat(TraceParts(cube, dims, zero, coordinates, n), |coordinates|)
  {
    var shifted := ToCubePositions(dims, zero, coordinates);
    var traces := Traces(cube, shifted);
    ExtractStart(dims, zero, coordinates[0]);
    var start := Truncate(shifted[0][dims[2]] + 0.5);
    ExtractPart(traces, TraceParts(cube, dims, zero, coordinates, n), Flat(traces, |traces|), cube.sample.nsamples, start, n, buffer);
  }

  function TraceParts(cube: Cube, dims: seq<nat>, zero: seq<int>, coordinates: seq<Position>, n: nat): (r: seq<seq<real>>)
    requires IsPermutation(dims) && |zero| == 3 && cube.sample.dimension == dims[2]
    requires 0 <= zero[2] && zero[2] + n <= cube.sample.nsamples
    ensures |r| == |coordinates|
    ensures forall t :: 0 <= t < |r| ==> r[t] == Trace(cube, Shift(dims, zero, coordinates[t]))[zero[2]..zero[2] + n]
  {
    seq(|coordinates|, t requires 0 <= t < |coordinates| =>
      Trace(cube, Shift(dims, zero, coordinates[t]))[zero[2]..zero[2] + n])
  }

  /** The handle's dimensions and offsets leave room for the shared samples in both traces. */
  predicate HasRoom(h: Handle) {
    && h.a.sample.dimension == h.b.sample.dimension && h.sample.nsamples >= 0
    && IsPermutation(h.a.Dimensions()) && |h.zeroA| == 3 && |h.zeroB| == 3
    && 0 <= h.zeroA[2] && h.zeroA[2] + h.sample.nsamples <= h.a.sample.nsamples
    && 0 <= h.zeroB[2] && h.zeroB[2] + h.sample.nsamples <= h.b.sample.nsamples
    && h.sample.dimension < 3
  }

  function PartsOfA(h: Handle, coordinates: seq<Position>): seq<seq<real>>
    requires HasRoom(h)
  {
    TraceParts(h.a, h.a.Dimensions(), h.zeroA, coordinates, h.sample.nsamples)
  }

  function PartsOfB(h: Handle, coordinates: seq<Position>): seq<seq<real>>
    requires HasRoom(h)
  {
    TraceParts(h.b, h.a.Dimensions(), h.zeroB, coordinates, h.sample.nsamples)
  }

  lemma CombinedTraces(h: Handle, coordinates: seq<Position>, virtual: seq<seq<real>>)
    requires h.Valid() && HasRoom(h)
    requires virtual == Traces(h.Combined(), coordinates)
    ensures Pointwise(h.op, Flat(PartsOfA(h, coordinates), |coordinates|), Flat(PartsOfB(h, coordinates), |coordinates|),
                      Flat(virtual, |coordinates|))
  {
    forall t | 0 <= t < |coordinates|
      ensures Pointwise(h.op, PartsOfA(h, coordinates)[t], PartsOfB(h, coordinates)[t], virtual[t])
    {
      CombinedPart(h, coordinates[t]);
    }
    FlatPointwise(h.op, PartsOfA(h, coordinates), PartsOfB(h, coordinates), virtual, |coordinates|);
  }

  /** The shared samples of every trace, read from both cubes and combined. */
  method CombineTraces(h: Handle, coordinates: seq<Position>, buffer: array<real>)
    requires HasRoom(h) && h.a.sample.nsamples > 0 && h.b.sample.nsamples > 0
    requires |coordinates| >= 1 && coordinates[0][h.a.sample.dimension] == 0.0
    requires buffer.Length == Multiple(h.sample.nsamples, |coordinates|)
    modifies buffer
    ensures Pointwise(h.op, Flat(PartsOfA(h, coordinates), |coordinates|), Flat(PartsOfB(h, coordinates), |coordinates|), buffer[..])
  {
    var n, dims := h.sample.nsamples, h.a.Dimensions();
    ReadParts(h.a, dims, h.zeroA, coordinates, n, buffer);
    var bufferB := new real[buffer.Length];
    ReadParts(h.b, dims, h.zeroB, coordinates, n, bufferB);
    ApplyOperator(h.op, buffer, bufferB, Flat(PartsOfA(h, coordinates), |coordinates|));
  }

  method ApplyOperator(op: (real, real) -> real, bufferA: array<real>, bufferB: array<real>, ghost first: seq<real>)
    requires bufferA.Length == bufferB.Length && bufferA != bufferB && bufferA[..] == first
    modifies bufferA
    ensures Pointwise(op, first, bufferB[..], bufferA[..])
  {
    InplaceOperator(op, bufferA, bufferB[..]);
  }

  /** Traces read from both cubes, and cut to the samples they share, are those of the virtual cube. */
  method ReadTraces(h: Handle, coordinates: seq<Position>, buffer: array<real>)
    requires h.Valid()
    requires |coordinates| >= 1 && coordinates[0][h.sample.dimension] == 0.0
    requires buffer.Length == Multiple(h.sample.nsamples, |coordinates|)
    modifies buffer
    ensures buffer[..] == Flat(Traces(h.Combined(), coordinates), |coordinates|)
  {
    SampleRoom(h);
    CombineTraces(h, coordinates, buffer);
    ghost var virtual := Traces(h.Combined(), coordinates);
    CombinedTraces(h, coordinates, virtual);
    PointwiseUnique(h.op, Flat(PartsOfA(h, coordinates), |coordinates|), Flat(PartsOfB(h, coordinates), |coordinates|),
                    Flat(virtual, |coordinates|), buffer[..]);
  }

  lemma PointwiseUnique(op: (real, real) -> real, x: seq<real>, y: seq<real>, z: seq<real>, w: seq<real>)
    requires Pointwise(op, x, y, z) && Pointwise(op, x, y, w)
    ensures z == w
  {
  }

  // ---- swapping the cubes

  /** The same lines are shared whichever cube comes first, and the offsets change places. */
  lemma SwappedAxis(a: Axis, b: Axis)
    requires OnOneRuler(a, b) && a.dimension == b.dimension
    ensures OnOneRuler(b, a)
    ensures MakeDoubleAxis(b, a, b.dimension) == MakeDoubleAxis(a, b, a.dimension)
    ensures ZeroInA(b, a) == ZeroInB(a, b) && ZeroInB(b, a) == ZeroInA(a, b)
  {
    MakeAxisSwaps(a, b, a.dimension);
    SwappedOffsets(a, b);
  }

  lemma SwappedOffsets(a: Axis, b: Axis)
    requires OnOneRuler(a, b) && OnOneRuler(b, a)
    ensures ZeroInA(b, a) == ZeroInB(a, b) && ZeroInB(b, a) == ZeroInA(a, b)
  {
    ApartSwaps(a, b);
    OffsetFormulas(a, b);
    OffsetFormulas(b, a);
  }

  lemma MadeSwaps(a: Cube, b: Cube, t: nat)
    requires a.Valid() && b.Valid() && AxisMade(a, b, t)
    ensures AxisMade(b, a, t)
    ensures MakeDoubleAxis(b.AxisOf(t), a.AxisOf(t), b.AxisOf(t).dimension)
         == MakeDoubleAxis(a.AxisOf(t), b.AxisOf(t), a.AxisOf(t).dimension)
    ensures ZeroInA(b.AxisOf(t), a.AxisOf(t)) == ZeroInB(a.AxisOf(t), b.AxisOf(t))
    ensures ZeroInB(b.AxisOf(t), a.AxisOf(t)) == ZeroInA(a.AxisOf(t), b.AxisOf(t))
  {
    MadeMeansShared(a.AxisOf(t), b.AxisOf(t));
    SwappedAxis(a.AxisOf(t), b.AxisOf(t));
  }

  /** The handle made from the cubes the other way round has the same axes, and the offsets the other way round. */
  lemma SwappedHandle(h: Handle, g: Handle, a: Cube, b: Cube, op: (real, real) -> real)
    requires a.Valid() && b.Valid() && IsHandleOf(h, a, b, op) && IsHandleOf(g, b, a, op)
    ensures g == Handle(b, a, h.iline, h.xline, h.sample, h.zeroB, h.zeroA, op)
  {
    forall t | 0 <= t < 3
      ensures g.AxisOf(t) == h.AxisOf(t) && g.zeroA[t] == h.zeroB[t] && g.zeroB[t] == h.zeroA[t]
    {
      assert AxisMade(a, b, t);
      MadeSwaps(a, b, t);
    }
    assert g.AxisOf(0) == h.AxisOf(0) && g.AxisOf(1) == h.AxisOf(1) && g.AxisOf(2) == h.AxisOf(2);
  }

  /** With a commutative operator, such as the sum or the product, both handles read the same virtual cube. */
  lemma CommutativeSwap(h: Handle, g: Handle, a: Cube, b: Cube, op: (real, real) -> real, p: Position)
    requires a.Valid() && b.Valid() && IsHandleOf(h, a, b, op) && IsHandleOf(g, b, a, op) && h.Valid()
    requires forall x, y :: op(x, y) == op(y, x)
    ensures g.Valid()
    ensures g.iline == h.iline && g.xline == h.xline && g.sample == h.sample
    ensures g.Combined().value(p) == h.Combined().value(p)
  {
    SwappedHandle(h, g, a, b, op);
    CombinedValue(h, p);
    CombinedValue(g, p);
    var u, v := h.a.value(h.InA(p)), h.b.value(h.InB(p));
    assert op(u, v) == op(v, u);
  }
}
