/** The loops that fetch samples into a sub-volume and calculate attributes from it into the output buffer. */
module AttributeCalculation {
  import opened Layout
  import opened RealMath
  import opened Blueprints
  import opened SubVolumes
  import opened AttributeMath
  import opened Attributes

  /** The positions of a segment's samples. */
  method SamplePositions(step: real, topPosition: real, size: nat) returns (positions: seq<real>)
    ensures positions == Positions(step, topPosition, size)
  {
    positions := [];
    for index := 0 to size
      invariant positions == Positions(step, topPosition, index)
    {
      positions := positions + [SamplePositionAt(step, topPosition, index)];
    }
  }

  /** A view of one segment of a sub-volume, moved from cell to cell. */
  class RawSegment {
    const step: real
    const zero: real
    var top: real
    var topMargin: nat
    var begin: nat
    var end: nat

    constructor (step: real, zero: real, top: real, topMargin: nat, begin: nat, end: nat)
      ensures this.step == step && this.zero == zero && this.top == top && this.topMargin == topMargin
      ensures this.begin == begin && this.end == end
    {
      this.step, this.zero := step, zero;
      this.top, this.topMargin, this.begin, this.end := top, topMargin, begin, end;
    }

    method Reinitialize(top: real, topMargin: nat, begin: nat, end: nat)
      modifies this
      ensures this.top == top && this.topMargin == topMargin && this.begin == begin && this.end == end
    {
      this.top, this.topMargin, this.begin, this.end := top, topMargin, begin, end;
    }
  }

  /** std::vector::resize: keeps the first elements and pads with zeros. */
  function Resized(s: seq<real>, n: nat): (r: seq<real>)
    ensures |r| == n
  {
    if n <= |s| then s[..n] else s + seq(n - |s|, _ => 0.0)
  }

  /** The resampled samples of one cell. The same object serves every cell, and keeps old samples when it is resized. */
  class ResampledSegment {
    const step: real
    var reference: real
    var top: real
    var bottom: real
    var data: seq<real>

    ghost predicate Valid()
      reads this
    {
      step > 0.0 && top <= reference <= bottom && |data| == WindowSize(step, reference, top, bottom)
    }

    constructor (reference: real, top: real, bottom: real, step: real)
      requires step > 0.0 && top <= reference <= bottom
      ensures Valid() && this.step == step
      ensures this.reference == reference && this.top == top && this.bottom == bottom
    {
      WindowSizeNotNegative(step, reference, top, bottom);
      this.reference, this.top, this.bottom, this.step := reference, top, bottom, step;
      data := Resized([], WindowSize(step, reference, top, bottom));
    }

    method Reinitialize(reference: real, top: real, bottom: real)
      requires step > 0.0 && top <= reference <= bottom
      modifies this
      ensures Valid()
      ensures this.reference == reference && this.top == top && this.bottom == bottom
    {
      WindowSizeNotNegative(step, reference, top, bottom);
      this.reference, this.top, this.bottom := reference, top, bottom;
      data := Resized(data, WindowSize(step, reference, top, bottom));
    }
  }

  /**
   Resamples src into dst, or fails where the spline does not reach. On success nothing of what dst held
   before is left.
   */
  method Resample(numerics: Numerics, src: RawSegment, source: array<real>, dst: ResampledSegment) returns (ok: bool)
    requires src.step > 0.0 && src.begin <= src.end <= source.Length
    requires dst.Valid()
    modifies dst`data
    ensures dst.Valid()
    ensures var points := Positions(src.step, RawTopPosition(src.step, src.zero, src.top, src.topMargin), src.end - src.begin);
            var targets := Positions(dst.step, ResampledTopPosition(dst.step, dst.reference, dst.top), |dst.data|);
            && (ok <==> AllAccepted(points, targets))
            && (ok ==> dst.data == Splined(numerics, points, source[src.begin..src.end], targets))
  {
    var points := SamplePositions(src.step, RawTopPosition(src.step, src.zero, src.top, src.topMargin), src.end - src.begin);
    var targets := SamplePositions(dst.step, ResampledTopPosition(dst.step, dst.reference, dst.top), |dst.data|);
    var samples := source[src.begin..src.end];
    for j := 0 to |targets|
      invariant |dst.data| == |targets| && dst.Valid()
      invariant forall k :: 0 <= k < j ==> SplineAccepts(points, targets[k])
      invariant forall k :: 0 <= k < j ==> dst.data[k] == numerics.spline(points, samples, targets[k])
    {
      if !SplineAccepts(points, targets[j]) {
        return false;
      }
      dst.data := dst.data[j := numerics.spline(points, samples, targets[j])];
    }
    return true;
  }

  method Compute(numerics: Numerics, attribute: Attribute, segment: ResampledSegment) returns (value: real)
    requires numerics.Valid() && segment.Valid()
    requires 0 <= SamplesAbove(segment.step, segment.reference, segment.top) < |segment.data|
    ensures value == AttributeOf(numerics, attribute, segment.data,
                                 SamplesAbove(segment.step, segment.reference, segment.top), segment.step,
                                 ResampledTopPosition(segment.step, segment.reference, segment.top))
  {
    var data := segment.data;
    var step, top := segment.step, ResampledTopPosition(segment.step, segment.reference, segment.top);
    match attribute
    case VALUE => value := data[SamplesAbove(segment.step, segment.reference, segment.top)];
    case MIN =>
      var k := MaxElement(Negated, data);
      value := data[k];
    case MINAT =>
      var k := MaxElement(Negated, data);
      value := SamplePositionAt(step, top, k);
    case MAX =>
      var k := MaxElement(Identity, data);
      value := data[k];
    case MAXAT =>
      var k := MaxElement(Identity, data);
      value := SamplePositionAt(step, top, k);
    case MAXABS =>
      var k := MaxElement(Abs, data);
      value := Abs(data[k]);
    case MAXABSAT =>
      var k := MaxAbsIndex(data);
      value := SamplePositionAt(step, top, k);
    case MEAN =>
      var sum := Accumulate(Identity, data);
      value := sum / |data| as real;
    case MEANABS =>
      var sum := Accumulate(Abs, data);
      value := sum / |data| as real;
    case MEANPOS =>
      var sum, count := AccumulateWhere(IsPositive, PositivePart, data);
      value := if count > 0 then sum / count as real else 0.0;
    case MEANNEG =>
      var sum, count := AccumulateWhere(IsNegative, NegativePart, data);
      value := if count > 0 then sum / count as real else 0.0;
    case MEDIAN =>
      value := MedianFrom(data, numerics.nthElement(data, |data| / 2));
    case RMS =>
      var sum := Accumulate(Squared, data);
      value := numerics.sqrt(sum / |data| as real);
    case VAR =>
      value := ComputeVariance(data);
    case SD =>
      var variance := ComputeVariance(data);
      value := numerics.sqrt(variance);
    case SUMPOS =>
      value := Accumulate(PositivePart, data);
    case SUMNEG =>
      value := Accumulate(NegativePart, data);
  }

  method ComputeVariance(data: seq<real>) returns (value: real)
    requires data != []
    ensures value == Variance(data)
  {
    var sum := Accumulate(Identity, data);
    var mean := sum / |data| as real;
    var deviations := Accumulate(SquaredDeviation(mean), data);
    value := deviations / |data| as real;
  }

  // ---- the calculation loop

  /** The sub-volume was built for this request. */
  ghost predicate BuiltFor(sv: SubVolume, req: Request)
    reads sv, sv.offsets
  {
    && req.Valid() && sv.Built(req.Plan())
    && sv.reference == req.reference && sv.top == req.top && sv.bottom == req.bottom
    && sv.step == req.SourceStep() && sv.zero == req.meta.sample.min
  }

  lemma SegmentBounds(sv: SubVolume, req: Request, i: nat)
    requires BuiltFor(sv, req) && i < req.Size()
    ensures i + 1 < sv.offsets.Length
    ensures sv.offsets[i] <= sv.offsets[i + 1] <= sv.data.Length
    ensures sv.offsets[i + 1] - sv.offsets[i] == SegmentSize(req.Plan()[i])
    ensures sv.IsEmpty(i) <==> !req.Plan()[i].Segment?
    ensures req.Plan()[i].Segment? ==> sv.TopMargin(i) == req.Plan()[i].topMargin
  {
    OffsetsOrdered(sv, req.Plan());
    AccessorsAgree(sv, req.meta, i);
    CellAt(req.meta, req.reference, req.top, req.bottom, req.Size(), i);
  }

  /** The raw samples of every cell, as they stand in the data array. */
  ghost function Stored(sv: SubVolume, req: Request): (r: seq<seq<real>>)
    reads sv, sv.offsets, sv.data
    requires BuiltFor(sv, req)
    ensures |r| == req.Size()
    ensures forall i :: 0 <= i < |r| ==> (SegmentBounds(sv, req, i); r[i] == sv.data[sv.offsets[i]..sv.offsets[i + 1]])
  {
    seq(req.Size(), i requires 0 <= i < req.Size() && BuiltFor(sv, req) reads sv, sv.offsets, sv.data =>
      SegmentBounds(sv, req, i); sv.data[sv.offsets[i]..sv.offsets[i + 1]])
  }

  /** One attribute over the whole surface, calculated from the samples of each cell. */
  ghost function AttributeMap(req: Request, a: nat, stored: seq<seq<real>>): (r: seq<real>)
    requires req.Valid() && a < |req.attributes| && |stored| == req.Size()
    ensures |r| == req.Size()
  {
    seq(req.Size(), i requires 0 <= i < req.Size() => CellValue(req, req.attributes[a], i, stored[i]))
  }

  ghost function AttributeMaps(req: Request, stored: seq<seq<real>>, n: nat): (r: seq<seq<real>>)
    requires req.Valid() && n <= |req.attributes| && |stored| == req.Size()
    ensures |r| == n
    ensures forall a :: 0 <= a < n ==> r[a] == AttributeMap(req, a, stored)
  {
    if n == 0 then [] else AttributeMaps(req, stored, n - 1) + [AttributeMap(req, n - 1, stored)]
  }

  /** The whole output: the maps of all attributes one after the other. */
  ghost function Maps(req: Request, stored: seq<seq<real>>): (r: seq<real>)
    requires req.Valid() && |stored| == req.Size()
    ensures |r| == Multiple(req.Size(), |req.attributes|)
  {
    var maps := AttributeMaps(req, stored, |req.attributes|);
    FlatSize(maps, req.Size(), |maps|);
    Flat(maps, |maps|)
  }

  lemma MapsAt(req: Request, stored: seq<seq<real>>, a: nat, i: nat)
    requires req.Valid() && a < |req.attributes| && |stored| == req.Size() && i < req.Size()
    ensures Place(req.Size(), a, i) < |Maps(req, stored)|
    ensures Maps(req, stored)[Place(req.Size(), a, i)] == CellValue(req, req.attributes[a], i, stored[i])
  {
    var maps := AttributeMaps(req, stored, |req.attributes|);
    FlatSlice(maps, req.Size(), |maps|, a);
    var lo, hi := Multiple(req.Size(), a), Multiple(req.Size(), a + 1);
    assert Flat(maps, |maps|)[lo..hi][i] == maps[a][i];
  }

  /** The two buffers agree on every attribute of cell j. */
  ghost predicate SameCell(size: nat, n: nat, before: seq<real>, after: seq<real>, j: nat)
    requires j < size && |before| == |after| == Multiple(size, n)
  {
    forall a :: 0 <= a < n ==> SameAt(size, n, before, after, j, a)
  }

  ghost predicate SameAt(size: nat, n: nat, before: seq<real>, after: seq<real>, j: nat, a: nat)
    requires j < size && a < n && |before| == |after| == Multiple(size, n)
  {
    PlaceInside(size, n, a, j);
    before[Place(size, a, j)] == after[Place(size, a, j)]
  }

  lemma UpdateKeepsOthers(size: nat, n: nat, before: seq<real>, i: nat, a: nat, v: real, j: nat, b: nat)
    requires i < size && j < size && a < n && b < n && |before| == Multiple(size, n)
    requires a != b || i != j
    ensures Place(size, a, i) < |before|
    ensures SameAt(size, n, before, before[Place(size, a, i) := v], j, b)
  {
    PlaceInside(size, n, a, i);
    PlaceInside(size, n, b, j);
    PlacesApart(size, a, i, b, j);
  }

  /** One bounds-checked write into the map of one attribute. */
  method WriteAttribute(out: array<real>, size: nat, a: nat, index: nat, value: real) returns (ok: bool)
    requires Multiple(size, a + 1) <= out.Length
    modifies out
    ensures ok <==> index < size
    ensures ok ==> Place(size, a, index) < out.Length && out[..] == old(out[..])[Place(size, a, index) := value]
    ensures ok ==> HoldsAt(out[..], size, a, index, value)
    ensures !ok ==> out[..] == old(out[..])
  {
    if index >= size {
      return false;
    }
    out[Place(size, a, index)] := value;
    return true;
  }

  /** The value that each attribute of a cell gets: the fill value where there is no segment. */
  method CellAttribute(req: Request, i: nat, a: nat, empty: bool, segment: ResampledSegment, ghost samples: seq<real>)
    returns (value: real)
    requires req.Valid() && i < req.Size() && a < |req.attributes|
    requires empty <==> !req.Plan()[i].Segment?
    requires !empty ==> segment.Valid() && Holds(req, i, segment, samples)
    ensures value == CellValue(req, req.attributes[a], i, samples)
    ensures empty ==> value == req.reference.fill
  {
    if empty {
      return req.reference.fill;
    }
    ReferenceInWindow(segment.step, segment.reference, segment.top, segment.bottom);
    value := Compute(req.numerics, req.attributes[a], segment);
  }

  /** Writes every attribute of cell i. */
  method WriteCell(req: Request, i: nat, empty: bool, segment: ResampledSegment, out: array<real>, ghost stored: seq<seq<real>>)
    returns (ok: bool)
    requires req.Valid() && i < req.Size() == |stored|
    requires out.Length == Multiple(req.Size(), |req.attributes|)
    requires empty <==> !req.Plan()[i].Segment?
    requires !empty ==> segment.Valid() && Holds(req, i, segment, stored[i])
    modifies out
    ensures ok
    ensures SameCell(req.Size(), |req.attributes|, Maps(req, stored), out[..], i)
    ensures SameOutside(req.Size(), |req.attributes|, old(out[..]), out[..], i, i + 1)
    ensures empty ==> forall a: nat :: a < |req.attributes| ==> HoldsAt(out[..], req.Size(), a, i, req.reference.fill)
  {
    var size, n := req.Size(), |req.attributes|;
    ghost var want := Maps(req, stored);
    ghost var first := out[..];
    ok := true;
    for a := 0 to n
      invariant ok
      invariant forall b :: 0 <= b < a ==> SameAt(size, n, want, out[..], i, b)
      invariant SameOutside(size, n, first, out[..], i, i + 1)
    {
      ghost var before := out[..];
      var value := CellAttribute(req, i, a, empty, segment, stored[i]);
      MultipleOrder(size, a + 1, n);
      ok := WriteAttribute(out, size, a, i, value);
      MapsAt(req, stored, a, i);
      WriteKeeps(size, n, want, first, before, out[..], i, a, value);
    }
    if empty {
      EmptyCellFilled(req, stored, out[..], i);
    }
  }

  /** Where a buffer agrees with the maps, a cell without a segment holds the fill value in every map. */
  lemma EmptyCellFilled(req: Request, stored: seq<seq<real>>, out: seq<real>, i: nat)
    requires req.Valid() && i < req.Size() == |stored| && !req.Plan()[i].Segment?
    requires |out| == Multiple(req.Size(), |req.attributes|)
    requires SameCell(req.Size(), |req.attributes|, Maps(req, stored), out, i)
    ensures forall a: nat :: a < |req.attributes| ==> HoldsAt(out, req.Size(), a, i, req.reference.fill)
  {
    forall a: nat | a < |req.attributes|
      ensures HoldsAt(out, req.Size(), a, i, req.reference.fill)
    {
      MapsAt(req, stored, a, i);
      assert SameAt(req.Size(), |req.attributes|, Maps(req, stored), out, i, a);
    }
  }

  lemma WriteKeeps(size: nat, n: nat, want: seq<real>, first: seq<real>, before: seq<real>, after: seq<real>,
                   i: nat, a: nat, v: real)
    requires i < size && a < n
    requires |want| == |first| == |before| == |after| == Multiple(size, n)
    requires Place(size, a, i) < |before| && after == before[Place(size, a, i) := v]
    requires want[Place(size, a, i)] == v
    requires forall b :: 0 <= b < a ==> SameAt(size, n, want, before, i, b)
    requires SameOutside(size, n, first, before, i, i + 1)
    ensures forall b :: 0 <= b < a + 1 ==> SameAt(size, n, want, after, i, b)
    ensures SameOutside(size, n, first, after, i, i + 1)
  {
    forall b | 0 <= b < a
      ensures SameAt(size, n, want, after, i, b)
    {
      assert SameAt(size, n, want, before, i, b);
      UpdateKeepsOthers(size, n, before, i, a, v, i, b);
    }
    forall j, b | 0 <= j < size && j != i && 0 <= b < n
      ensures SameAt(size, n, first, after, j, b)
    {
      assert SameCell(size, n, first, before, j);
      assert SameAt(size, n, first, before, j, b);
      UpdateKeepsOthers(size, n, before, i, a, v, j, b);
    }
  }

  /** The segment object stands for cell i, resampled from the given samples. */
  ghost predicate Holds(req: Request, i: nat, segment: ResampledSegment, samples: seq<real>)
    reads segment
    requires req.Valid() && i < req.Size() && req.Plan()[i].Segment?
  {
    CellIsOrdered(req, i);
    var cell := req.Plan()[i];
    && segment.step == req.step && segment.reference == req.reference.values[i]
    && segment.top == req.top.values[i] && segment.bottom == req.bottom.values[i]
    && segment.data == Splined(req.numerics, SourcePoints(req, i, cell.topMargin, cell.size), samples, TargetPoints(req, i))
  }

  ghost predicate RangeOk(req: Request, from: nat, to: nat)
    requires req.Valid() && to <= req.Size()
  {
    forall i :: from <= i < to ==> CellOk(req, i)
  }

  ghost predicate SameInside(size: nat, n: nat, before: seq<real>, after: seq<real>, from: nat, to: nat)
    requires to <= size && |before| == |after| == Multiple(size, n)
  {
    forall i :: from <= i < to ==> SameCell(size, n, before, after, i)
  }

  ghost predicate SameOutside(size: nat, n: nat, before: seq<real>, after: seq<real>, from: nat, to: nat)
    requires |before| == |after| == Multiple(size, n)
  {
    forall j :: 0 <= j < size && !(from <= j < to) ==> SameCell(size, n, before, after, j)
  }

  /** Points both segment objects at cell i and resamples. */
  method ResampleCell(sv: SubVolume, req: Request, i: nat, src: RawSegment, dst: ResampledSegment, ghost samples: seq<real>)
    returns (ok: bool)
    requires BuiltFor(sv, req) && i < req.Size() && req.Plan()[i].Segment?
    requires i + 1 < sv.offsets.Length && sv.offsets[i] <= sv.offsets[i + 1] <= sv.data.Length
    requires samples == sv.data[sv.offsets[i]..sv.offsets[i + 1]]
    requires src.step == sv.step && src.zero == sv.zero && dst.step == req.step
    modifies src, dst
    ensures ok <==> CellOk(req, i)
    ensures ok ==> dst.Valid() && Holds(req, i, dst, samples)
  {
    SegmentBounds(sv, req, i);
    CellIsOrdered(req, i);
    src.Reinitialize(sv.top.values[i], sv.TopMargin(i), sv.offsets[i], sv.offsets[i + 1]);
    dst.Reinitialize(sv.reference.values[i], sv.top.values[i], sv.bottom.values[i]);
    ok := Resample(req.numerics, src, sv.data, dst);
  }

  /** One round of the loop below. */
  method CalcCell(sv: SubVolume, req: Request, i: nat, src: RawSegment, dst: ResampledSegment, out: array<real>)
    returns (ok: bool)
    requires BuiltFor(sv, req) && i < req.Size()
    requires out.Length == Multiple(req.Size(), |req.attributes|) && out != sv.data
    requires src.step == sv.step && src.zero == sv.zero && dst.step == req.step
    modifies src, dst, out
    ensures ok <==> CellOk(req, i)
    ensures ok ==> SameCell(req.Size(), |req.attributes|, Maps(req, Stored(sv, req)), out[..], i)
    ensures SameOutside(req.Size(), |req.attributes|, old(out[..]), out[..], i, i + 1)
  {
    SegmentBounds(sv, req, i);
    ghost var stored := Stored(sv, req);
    var empty := sv.IsEmpty(i);
    if !empty {
      ok := ResampleCell(sv, req, i, src, dst, stored[i]);
      if !ok {
        return;
      }
    }
    ok := WriteCell(req, i, empty, dst, out, stored);
  }

  /**
   Calculates every attribute of the cells [from, to), reusing two segment objects, and stops at the first cell
   that cannot be resampled. Each cell gets what fresh objects would have given, empty cells get the fill value,
   and no other cell is touched.
   */
  method CalcAttributes(sv: SubVolume, req: Request, from: nat, to: nat, out: array<real>) returns (ok: bool)
    requires BuiltFor(sv, req)
    requires from < to <= req.Size()
    requires out.Length == Multiple(req.Size(), |req.attributes|) && out != sv.data
    modifies out
    ensures ok <==> RangeOk(req, from, to)
    ensures ok ==> SameInside(req.Size(), |req.attributes|, Maps(req, Stored(sv, req)), out[..], from, to)
    ensures SameOutside(req.Size(), |req.attributes|, old(out[..]), out[..], from, to)
    ensures ok ==> forall i: nat, a: nat :: from <= i < to && a < |req.attributes| && sv.offsets[i] == sv.offsets[i + 1] ==>
              HoldsAt(out[..], req.Size(), a, i, sv.reference.fill)
  {
    SegmentBounds(sv, req, from);
    var src := new RawSegment(sv.step, sv.zero, sv.top.values[from], sv.TopMargin(from), sv.offsets[from], sv.offsets[from + 1]);
    var dst := new ResampledSegment(0.0, 0.0, 0.0, req.step);
    ok := CalcRange(sv, req, from, to, src, dst, out);
    if ok {
      EmptyCellsFilled(sv, req, from, to, out[..]);
    }
  }

  lemma EmptyCellsFilled(sv: SubVolume, req: Request, from: nat, to: nat, out: seq<real>)
    requires BuiltFor(sv, req) && from < to <= req.Size()
    requires |out| == Multiple(req.Size(), |req.attributes|)
    requires SameInside(req.Size(), |req.attributes|, Maps(req, Stored(sv, req)), out, from, to)
    ensures forall i: nat, a: nat :: from <= i < to && a < |req.attributes| && sv.offsets[i] == sv.offsets[i + 1] ==>
              HoldsAt(out, req.Size(), a, i, sv.reference.fill)
  {
    forall i: nat, a: nat | from <= i < to && a < |req.attributes| && sv.offsets[i] == sv.offsets[i + 1]
      ensures HoldsAt(out, req.Size(), a, i, sv.reference.fill)
    {
      SegmentBounds(sv, req, i);
      EmptyCellFilled(req, Stored(sv, req), out, i);
    }
  }

  /** The loop over the cells. */
  method CalcRange(sv: SubVolume, req: Request, from: nat, to: nat, src: RawSegment, dst: ResampledSegment, out: array<real>)
    returns (ok: bool)
    requires BuiltFor(sv, req)
    requires from < to <= req.Size()
    requires out.Length == Multiple(req.Size(), |req.attributes|) && out != sv.data
    requires src.step == sv.step && src.zero == sv.zero && dst.step == req.step
    modifies src, dst, out
    ensures ok <==> RangeOk(req, from, to)
    ensures ok ==> SameInside(req.Size(), |req.attributes|, Maps(req, Stored(sv, req)), out[..], from, to)
    ensures SameOutside(req.Size(), |req.attributes|, old(out[..]), out[..], from, to)
  {
    var size, n := req.Size(), |req.attributes|;
    ghost var stored := Stored(sv, req);
    ghost var want := Maps(req, stored);
    ghost var first := out[..];
    for i := from to to
      invariant RangeOk(req, from, i)
      invariant SameInside(size, n, want, out[..], from, i)
      invariant SameOutside(size, n, first, out[..], from, i)
    {
      ghost var before := out[..];
      var done := CalcCell(sv, req, i, src, dst, out);
      assert Stored(sv, req) == stored;
      KeepOutside(size, n, first, before, out[..], from, i, to);
      RangeOkNext(req, from, i, to);
      if !done {
        return false;
      }
      KeepInside(size, n, want, before, out[..], from, i);
    }
    return true;
  }

  lemma RangeOkNext(req: Request, from: nat, i: nat, to: nat)
    requires req.Valid() && from <= i < to <= req.Size()
    requires RangeOk(req, from, i)
    ensures RangeOk(req, from, i + 1) <==> CellOk(req, i)
    ensures RangeOk(req, from, to) ==> CellOk(req, i)
  {
  }

  lemma KeepOutside(size: nat, n: nat, first: seq<real>, before: seq<real>, after: seq<real>, from: nat, i: nat, to: nat)
    requires from <= i < to <= size
    requires |first| == |before| == |after| == Multiple(size, n)
    requires SameOutside(size, n, first, before, from, i)
    requires SameOutside(size, n, before, after, i, i + 1)
    ensures SameOutside(size, n, first, after, from, i + 1)
    ensures SameOutside(size, n, first, after, from, to)
  {
    forall j, a | 0 <= j < size && !(from <= j < i + 1) && 0 <= a < n
      ensures SameAt(size, n, first, after, j, a)
    {
      assert SameCell(size, n, first, before, j) && SameCell(size, n, before, after, j);
      assert SameAt(size, n, first, before, j, a) && SameAt(size, n, before, after, j, a);
    }
  }

  lemma KeepInside(size: nat, n: nat, want: seq<real>, before: seq<real>, after: seq<real>, from: nat, i: nat)
    requires from <= i < size
    requires |want| == |before| == |after| == Multiple(size, n)
    requires SameInside(size, n, want, before, from, i)
    requires SameOutside(size, n, before, after, i, i + 1)
    requires SameCell(size, n, want, after, i)
    ensures SameInside(size, n, want, after, from, i + 1)
  {
    forall j, a | from <= j < i && 0 <= a < n
      ensures SameAt(size, n, want, after, j, a)
    {
      assert SameCell(size, n, want, before, j) && SameCell(size, n, before, after, j);
      assert SameAt(size, n, want, before, j, a) && SameAt(size, n, before, after, j, a);
    }
  }
}
