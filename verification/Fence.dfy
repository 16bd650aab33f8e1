/** A fence: the traces below a list of points, with a fill value for the points outside the cube. */
module Fence {
  import opened Options
  import opened Layout
  import opened Axes
  import opened DoubleCubes
  import opened Surfaces

  /** A point, with its annotated iline as x and xline as y, more than half a step away from the cube. */
  predicate Outside(cube: Cube, at: Point)
    requires cube.Valid()
  {
    !cube.iline.InRangeWithMargin(at.x) || !cube.xline.InRangeWithMargin(at.y)
  }

  function CoordinateOf(cube: Cube, at: Point): Position
    requires cube.Valid()
  {
    [0.0, 0.0, 0.0][cube.iline.dimension := cube.iline.ToSamplePosition(at.x)]
                   [cube.xline.dimension := cube.xline.ToSamplePosition(at.y)]
  }

  /** What a fence should hold at sample k below a point. */
  function FenceValue(cube: Cube, at: Point, fill: Option<real>, k: nat): real
    requires cube.Valid() && (Outside(cube, at) ==> fill.Some?)
  {
    if Outside(cube, at) then fill.value else cube.Field([at.x, at.y, cube.sample.PositionAt(k)])
  }

  /** All that is needed for a value below every point. */
  predicate Servable(cube: Cube, points: seq<Point>, fill: Option<real>)
    requires cube.Valid()
  {
    fill.Some? || forall i :: 0 <= i < |points| ==> !Outside(cube, points[i])
  }

  function FenceTrace(cube: Cube, at: Point, fill: Option<real>): (r: seq<real>)
    requires cube.Valid() && (Outside(cube, at) ==> fill.Some?)
    ensures |r| == cube.sample.nsamples
  {
    seq(cube.sample.nsamples, k requires 0 <= k < cube.sample.nsamples => FenceValue(cube, at, fill, k))
  }

  /** What a fence should hold. */
  function FenceTraces(cube: Cube, points: seq<Point>, fill: Option<real>): (r: seq<seq<real>>)
    requires cube.Valid() && Servable(cube, points, fill)
    ensures |r| == |points|
  {
    seq(|points|, i requires 0 <= i < |points| => FenceTrace(cube, points[i], fill))
  }

  /** The trace below a point holds the field at the point, at the depth of each sample. */
  lemma TraceIsField(cube: Cube, at: Point, k: nat)
    requires cube.Valid() && k < cube.sample.nsamples
    ensures Trace(cube, CoordinateOf(cube, at))[k] == cube.Field([at.x, at.y, cube.sample.PositionAt(k)])
  {
    IndexOfPosition(cube.sample, k);
    assert CoordinateOf(cube, at)[cube.sample.dimension := k as real + 0.5]
        == cube.PositionOf([at.x, at.y, cube.sample.PositionAt(k)]);
  }

  // ---- fill values

  function Blanked(traces: seq<seq<real>>, blank: seq<real>, indices: seq<nat>): (r: seq<seq<real>>)
    ensures |r| == |traces|
    ensures forall i :: 0 <= i < |r| ==> r[i] == if i in indices then blank else traces[i]
  {
    seq(|traces|, i requires 0 <= i < |traces| => if i in indices then blank else traces[i])
  }

  lemma BlankOne(traces: seq<seq<real>>, blank: seq<real>, indices: seq<nat>, j: nat)
    requires j < |indices| && indices[j] < |traces|
    ensures Blanked(traces, blank, indices[..j + 1]) == Blanked(traces, blank, indices[..j])[indices[j] := blank]
  {
    assert indices[..j + 1] == indices[..j] + [indices[j]];
  }

  /** Replacing one part of a flat layout. */
  lemma {:induction false} FlatUpdate(parts: seq<seq<real>>, k: nat, n: nat, a: nat, part: seq<real>)
    requires a < n <= |parts| && |part| == k
    requires forall i :: 0 <= i < |parts| ==> |parts[i]| == k
    ensures |Flat(parts, n)| == Multiple(k, n) && Multiple(k, a) + k <= Multiple(k, n)
    ensures Flat(parts[a := part], n) == Overwritten(Flat(parts, n), Multiple(k, a), part)
    decreases n
  {
    FlatSize(parts, k, n);
    FlatSize(parts, k, n - 1);
    MultipleOrder(k, a, n);
    if a < n - 1 {
      FlatUpdate(parts, k, n - 1, a, part);
      MultipleOrder(k, a, n - 1);
      OverwrittenLeft(Flat(parts, n - 1), parts[n - 1], Multiple(k, a), part);
    } else {
      FlatSame(parts, a, part);
      OverwrittenRight(Flat(parts, a), parts[a], part);
    }
  }

  function Overwritten(s: seq<real>, start: nat, part: seq<real>): (r: seq<real>)
    requires start + |part| <= |s|
    ensures |r| == |s|
  {
    s[..start] + part + s[start + |part|..]
  }

  lemma OverwrittenLeft(s: seq<real>, t: seq<real>, start: nat, part: seq<real>)
    requires start + |part| <= |s|
    ensures Overwritten(s + t, start, part) == Overwritten(s, start, part) + t
  {
    DropFromConcat(s, t, start + |part|);
    assert (s + t)[..start] == s[..start];
  }

  lemma OverwrittenRight(s: seq<real>, t: seq<real>, part: seq<real>)
    requires |part| == |t|
    ensures Overwritten(s + t, |s|, part) == s + part
  {
    assert (s + t)[..|s|] == s;
  }

  lemma {:induction false} FlatSame(parts: seq<seq<real>>, n: nat, part: seq<real>)
    requires n < |parts|
    ensures Flat(parts[n := part], n) == Flat(parts, n)
  {
    FlatAgree(parts, parts[n := part], n);
  }

  lemma {:induction false} FlatAgree(x: seq<seq<real>>, y: seq<seq<real>>, n: nat)
    requires n <= |x| && n <= |y| && forall i :: 0 <= i < n ==> x[i] == y[i]
    ensures Flat(x, n) == Flat(y, n)
  {
    if n > 0 {
      FlatAgree(x, y, n - 1);
    }
  }

  method Overwrite(dst: array<real>, start: nat, part: seq<real>)
    requires start + |part| <= dst.Length
    modifies dst
    ensures dst[..] == Overwritten(old(dst[..]), start, part)
  {
    for k := 0 to |part|
      invariant forall i :: 0 <= i < dst.Length ==> dst[i] == if start <= i < start + k then part[i - start] else old(dst[i])
    {
      dst[start + k] := part[k];
    }
  }

  /** Writes n fill values at each recorded place. A trace that was recorded twice is written twice. */
  method WriteFillvalue(dst: array<real>, novals: seq<nat>, n: nat, fill: real,
                        ghost traces: seq<seq<real>>, ghost indices: seq<nat>)
    requires forall i :: 0 <= i < |traces| ==> |traces[i]| == n
    requires |indices| == |novals|
    requires forall j :: 0 <= j < |novals| ==> indices[j] < |traces| && novals[j] == Multiple(n, indices[j])
    requires dst[..] == Flat(traces, |traces|)
    modifies dst
    ensures dst[..] == Flat(Blanked(traces, seq(n, _ => fill), indices), |traces|)
  {
    var blank := seq(n, _ => fill);
    assert Blanked(traces, blank, indices[..0]) == traces;
    for j := 0 to |novals|
      invariant dst[..] == Flat(Blanked(traces, blank, indices[..j]), |traces|)
    {
      FlatUpdate(Blanked(traces, blank, indices[..j]), n, |traces|, indices[j], blank);
      BlankOne(traces, blank, indices, j);
      Overwrite(dst, novals[j], blank);
    }
    assert indices[..|novals|] == indices;
  }

  // ---- fences

  /** The points of which a fill value has to be written: all those outside, and no others. */
  ghost predicate Recorded(cube: Cube, points: seq<Point>, n: nat, novals: seq<nat>, indices: seq<nat>)
    requires cube.Valid() && n <= |points|
  {
    && |indices| == |novals|
    && (forall j :: 0 <= j < |novals| ==> indices[j] < n && novals[j] == Multiple(cube.sample.nsamples, indices[j]))
    && forall i :: 0 <= i < n ==> (i in indices <==> Outside(cube, points[i]))
  }

  /** Coordinates of any system, as annotated positions. */
  function Annotated(transform: Point -> Point, coordinates: seq<Point>): (points: seq<Point>)
    ensures |points| == |coordinates|
    ensures forall i :: 0 <= i < |points| ==> points[i] == transform(coordinates[i])
  {
    seq(|coordinates|, i requires 0 <= i < |coordinates| => transform(coordinates[i]))
  }

  /** Checks every point and finds its place in the cube. */
  method LocatePoints(cube: Cube, points: seq<Point>, fill: Option<real>)
    returns (ok: bool, coords: seq<Position>, novals: seq<nat>, ghost indices: seq<nat>)
    requires cube.Valid()
    ensures ok <==> Servable(cube, points, fill)
    ensures ok ==> |coords| == |points| && Recorded(cube, points, |points|, novals, indices)
    ensures ok ==> forall i :: 0 <= i < |points| ==> coords[i] == CoordinateOf(cube, points[i])
    ensures ok && fill.None? ==> novals == []
  {
    coords, novals, indices := [], [], [];
    for i := 0 to |points|
      invariant |coords| == i && Recorded(cube, points, i, novals, indices)
      invariant forall j :: 0 <= j < i ==> coords[j] == CoordinateOf(cube, points[j])
      invariant fill.None? ==> novals == [] && forall j :: 0 <= j < i ==> !Outside(cube, points[j])
    {
      if fill.None? && Outside(cube, points[i]) {
        return false, coords, novals, indices;
      }
      novals, indices := RecordPoint(cube, points, i, novals, indices);
      coords := coords + [CoordinateOf(cube, points[i])];
    }
    return true, coords, novals, indices;
  }

  /** A point outside in both directions is recorded twice. */
  method RecordPoint(cube: Cube, points: seq<Point>, i: nat, novals: seq<nat>, ghost indices: seq<nat>)
    returns (novals': seq<nat>, ghost indices': seq<nat>)
    requires cube.Valid() && i < |points| && Recorded(cube, points, i, novals, indices)
    ensures Recorded(cube, points, i + 1, novals', indices')
    ensures !Outside(cube, points[i]) ==> novals' == novals
  {
    var at, start := points[i], Multiple(cube.sample.nsamples, i);
    novals', indices' := novals, indices;
    if !cube.iline.InRangeWithMargin(at.x) {
      novals', indices' := novals' + [start], indices' + [i];
    }
    if !cube.xline.InRangeWithMargin(at.y) {
      novals', indices' := novals' + [start], indices' + [i];
    }
  }

  lemma BlankedIsFence(cube: Cube, points: seq<Point>, fill: Option<real>, coords: seq<Position>,
                       novals: seq<nat>, indices: seq<nat>, blank: seq<real>)
    requires cube.Valid() && Servable(cube, points, fill)
    requires |coords| == |points| && Recorded(cube, points, |points|, novals, indices)
    requires forall i :: 0 <= i < |points| ==> coords[i] == CoordinateOf(cube, points[i])
    requires fill.Some? ==> |blank| == cube.sample.nsamples && forall k :: 0 <= k < |blank| ==> blank[k] == fill.value
    ensures Blanked(Traces(cube, coords), blank, indices) == FenceTraces(cube, points, fill)
  {
    var blanked := Blanked(Traces(cube, coords), blank, indices);
    forall i | 0 <= i < |points|
      ensures blanked[i] == FenceTrace(cube, points[i], fill)
    {
      if !Outside(cube, points[i]) {
        TraceIsFence(cube, points[i], fill);
      }
    }
  }

  lemma TraceIsFence(cube: Cube, at: Point, fill: Option<real>)
    requires cube.Valid() && !Outside(cube, at)
    ensures Trace(cube, CoordinateOf(cube, at)) == FenceTrace(cube, at, fill)
  {
    forall k | 0 <= k < cube.sample.nsamples
      ensures Trace(cube, CoordinateOf(cube, at))[k] == FenceTrace(cube, at, fill)[k]
    {
      TraceIsField(cube, at, k);
    }
  }

  /** Puts fill values over what was read, where there are points outside. */
  method FillOutside(cube: Cube, points: seq<Point>, fill: Option<real>, coords: seq<Position>,
                     novals: seq<nat>, ghost indices: seq<nat>, data: array<real>)
    requires cube.Valid() && Servable(cube, points, fill)
    requires |coords| == |points| && Recorded(cube, points, |points|, novals, indices)
    requires forall i :: 0 <= i < |points| ==> coords[i] == CoordinateOf(cube, points[i])
    requires fill.Some? || novals == []
    requires data[..] == Flat(Traces(cube, coords), |coords|)
    modifies data
    ensures data[..] == Flat(FenceTraces(cube, points, fill), |points|)
  {
    ghost var value := if fill.Some? then fill.value else 0.0;
    ghost var blank: seq<real> := seq(cube.sample.nsamples, _ => value);
    BlankedIsFence(cube, points, fill, coords, novals, indices, blank);
    if novals != [] {
      WriteFillvalue(data, novals, cube.sample.nsamples, fill.value, Traces(cube, coords), indices);
      assert blank == seq(cube.sample.nsamples, _ => fill.value);
    } else {
      assert Blanked(Traces(cube, coords), blank, indices) == Traces(cube, coords);
    }
  }

  // ---- what a caller finds in a fence

  /** In both directions the line nearest to the point, halves rounded up, is a line of the cube. */
  predicate NearLines(cube: Cube, at: Point)
    requires cube.Valid()
  {
    && 0 <= cube.iline.ToSamplePosition(at.x).Floor < cube.iline.nsamples
    && 0 <= cube.xline.ToSamplePosition(at.y).Floor < cube.xline.nsamples
  }

  lemma OutsideIff(cube: Cube, at: Point)
    requires cube.Valid()
    ensures Outside(cube, at) <==> !NearLines(cube, at)
  {
    MarginIff(cube.iline, at.x);
    MarginIff(cube.xline, at.y);
  }

  /** A point can be served when it is near lines of the cube, or else there is a fill value. */
  lemma ServableIff(cube: Cube, points: seq<Point>, fill: Option<real>)
    requires cube.Valid()
    ensures Servable(cube, points, fill) <==> forall i :: 0 <= i < |points| ==> NearLines(cube, points[i]) || fill.Some?
  {
    forall i | 0 <= i < |points|
      ensures Outside(cube, points[i]) <==> !NearLines(cube, points[i])
    {
      OutsideIff(cube, points[i]);
    }
  }

  /** Sample k below a point: the field there, or the fill value where the cube has no lines near the point. */
  predicate SampleBelow(cube: Cube, at: Point, fill: Option<real>, k: nat, v: real)
    requires cube.Valid()
  {
    if NearLines(cube, at) then v == cube.Field([at.x, at.y, cube.sample.PositionAt(k)])
    else fill.Some? && v == fill.value
  }

  /** Likewise for two cubes: both fields, combined. */
  predicate SampleBelowBoth(h: Handle, at: Point, fill: Option<real>, k: nat, v: real)
    requires h.Valid()
  {
    var x := [at.x, at.y, h.sample.PositionAt(k)];
    if NearLines(h.Combined(), at) then v == h.op(h.a.Field(x), h.b.Field(x))
    else fill.Some? && v == fill.value
  }

  ghost predicate FenceBelow(cube: Cube, at: Point, fill: Option<real>, row: seq<real>)
    requires cube.Valid()
  {
    |row| == cube.sample.nsamples && forall k :: 0 <= k < |row| ==> SampleBelow(cube, at, fill, k, row[k])
  }

  ghost predicate FenceBelowBoth(h: Handle, at: Point, fill: Option<real>, row: seq<real>)
    requires h.Valid()
  {
    |row| == h.sample.nsamples && forall k :: 0 <= k < |row| ==> SampleBelowBoth(h, at, fill, k, row[k])
  }

  lemma TraceIsBelow(cube: Cube, at: Point, fill: Option<real>)
    requires cube.Valid() && (Outside(cube, at) ==> fill.Some?)
    ensures FenceBelow(cube, at, fill, FenceTrace(cube, at, fill))
  {
    OutsideIff(cube, at);
  }

  lemma SampleBelowIsBoth(h: Handle, at: Point, fill: Option<real>, k: nat, v: real)
    requires h.Valid() && SampleBelow(h.Combined(), at, fill, k, v)
    ensures SampleBelowBoth(h, at, fill, k, v)
  {
    FieldIsPointwise(h, [at.x, at.y, h.sample.PositionAt(k)]);
  }

  lemma BelowBoth(h: Handle, at: Point, fill: Option<real>, row: seq<real>)
    requires h.Valid() && FenceBelow(h.Combined(), at, fill, row)
    ensures FenceBelowBoth(h, at, fill, row)
  {
    forall k | 0 <= k < |row|
      ensures SampleBelowBoth(h, at, fill, k, row[k])
    {
      SampleBelowIsBoth(h, at, fill, k, row[k]);
    }
  }

  /** Row i of the data belongs to the point. */
  ghost predicate RowBelow(cube: Cube, at: Point, fill: Option<real>, data: seq<real>, i: nat)
    requires cube.Valid()
  {
    Multiple(cube.sample.nsamples, i + 1) <= |data| && FenceBelow(cube, at, fill, RowOf(data, cube.sample.nsamples, i))
  }

  ghost predicate RowBelowBoth(h: Handle, at: Point, fill: Option<real>, data: seq<real>, i: nat)
    requires h.Valid()
  {
    Multiple(h.sample.nsamples, i + 1) <= |data| && FenceBelowBoth(h, at, fill, RowOf(data, h.sample.nsamples, i))
  }

  /** What is found below every point, row by row. */
  ghost predicate FenceRows(cube: Cube, points: seq<Point>, fill: Option<real>, data: seq<real>)
    requires cube.Valid()
  {
    forall i :: 0 <= i < |points| ==> RowBelow(cube, points[i], fill, data, i)
  }

  ghost predicate FenceRowsBoth(h: Handle, points: seq<Point>, fill: Option<real>, data: seq<real>)
    requires h.Valid()
  {
    forall i :: 0 <= i < |points| ==> RowBelowBoth(h, points[i], fill, data, i)
  }

  lemma RowIsBelow(cube: Cube, points: seq<Point>, fill: Option<real>, data: seq<real>, i: nat)
    requires cube.Valid() && Servable(cube, points, fill) && i < |points|
    requires data == Flat(FenceTraces(cube, points, fill), |points|)
    ensures RowBelow(cube, points[i], fill, data, i)
  {
    FlatSlice(FenceTraces(cube, points, fill), cube.sample.nsamples, |points|, i);
    TraceIsBelow(cube, points[i], fill);
  }

  lemma RowsAreBelow(cube: Cube, points: seq<Point>, fill: Option<real>, data: seq<real>)
    requires cube.Valid() && Servable(cube, points, fill)
    requires data == Flat(FenceTraces(cube, points, fill), |points|)
    ensures FenceRows(cube, points, fill, data)
  {
    forall i | 0 <= i < |points|
      ensures RowBelow(cube, points[i], fill, data, i)
    {
      RowIsBelow(cube, points, fill, data, i);
    }
  }

  lemma RowsAreBelowBoth(h: Handle, points: seq<Point>, fill: Option<real>, data: seq<real>)
    requires h.Valid() && FenceRows(h.Combined(), points, fill, data)
    ensures FenceRowsBoth(h, points, fill, data)
  {
    forall i | 0 <= i < |points|
      ensures RowBelowBoth(h, points[i], fill, data, i)
    {
      assert RowBelow(h.Combined(), points[i], fill, data, i);
      BelowBoth(h, points[i], fill, RowOf(data, h.sample.nsamples, i));
    }
  }

  /** A fence through one cube. */
  method FenceThrough(cube: Cube, transform: Point -> Point, coordinates: seq<Point>, fill: Option<real>)
    returns (ok: bool, data: array<real>)
    requires cube.Valid()
    ensures ok <==> Servable(cube, Annotated(transform, coordinates), fill)
    ensures ok ==> data[..] == Flat(FenceTraces(cube, Annotated(transform, coordinates), fill), |coordinates|)
    ensures ok ==> FenceRows(cube, Annotated(transform, coordinates), fill, data[..])
  {
    var points := Annotated(transform, coordinates);
    var coords, novals;
    ghost var indices;
    ok, coords, novals, indices := LocatePoints(cube, points, fill);
    if !ok {
      data := new real[0];
      return;
    }
    var read := Flat(Traces(cube, coords), |coords|);
    data := new real[|read|](i requires 0 <= i < |read| => read[i]);
    assert data[..] == read;
    FillOutside(cube, points, fill, coords, novals, indices, data);
    RowsAreBelow(cube, points, fill, data[..]);
  }

  /** A fence through two cubes is a fence through the virtual cube that combines them. */
  method FenceThroughBoth(h: Handle, transform: Point -> Point, coordinates: seq<Point>, fill: Option<real>)
    returns (ok: bool, data: array<real>)
    requires h.Valid() && |coordinates| >= 1
    ensures ok <==> Servable(h.Combined(), Annotated(transform, coordinates), fill)
    ensures ok ==> data[..] == Flat(FenceTraces(h.Combined(), Annotated(transform, coordinates), fill), |coordinates|)
    ensures ok ==> FenceRowsBoth(h, Annotated(transform, coordinates), fill, data[..])
  {
    var points := Annotated(transform, coordinates);
    var cube := h.Combined();
    var coords, novals;
    ghost var indices;
    ok, coords, novals, indices := LocatePoints(cube, points, fill);
    if !ok {
      data := new real[0];
      return;
    }
    assert coords[0] == CoordinateOf(cube, points[0]);
    data := new real[Multiple(cube.sample.nsamples, |coords|)];
    ReadTraces(h, coords, data);
    FillOutside(cube, points, fill, coords, novals, indices, data);
    RowsAreBelow(cube, points, fill, data[..]);
    RowsAreBelowBoth(h, points, fill, data[..]);
  }
}
