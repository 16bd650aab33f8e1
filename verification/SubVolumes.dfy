/**
 The sub-volume around a horizon: for every cell of the surface a segment of samples, all segments
 laid out one after the other in one data array. A table of offsets says where each segment starts,
 and a sparse map holds the top margins that differ from the preferred one.
 */
module SubVolumes {
  import opened Axes
  import opened Blueprints
  import opened CubeMetadata
  import opened Surfaces
  import opened VerticalWindows

  datatype Error = GridMismatch | PlanesNotOrdered | OutOfVerticalBounds(row: nat, col: nat) | SegmentTooSmall

  datatype Result<T> = Success(value: T) | Failure(error: Error)

  /** What a cell of the surface contributes: nothing, an error, or a segment. */
  datatype Cell = Empty | Failed(error: Error) | Segment(topMargin: nat, bottomMargin: nat, size: nat)

  predicate Compatible(reference: Surface, top: Surface, bottom: Surface) {
    && reference.Valid() && top.Valid() && bottom.Valid()
    && reference.grid.SameAs(top.grid) && reference.grid.SameAs(bottom.grid)
  }

  predicate AnyFill(reference: Surface, top: Surface, bottom: Surface, i: nat)
    requires Compatible(reference, top, bottom)
    requires i < reference.grid.Size()
  {
    reference.IsFill(i) || top.IsFill(i) || bottom.IsFill(i)
  }

  predicate Ordered(reference: Surface, top: Surface, bottom: Surface, i: nat)
    requires Compatible(reference, top, bottom)
    requires i < reference.grid.Size()
  {
    top.values[i] <= reference.values[i] <= bottom.values[i]
  }

  function PlanCell(meta: Metadata, reference: Surface, top: Surface, bottom: Surface, i: nat): Cell
    requires meta.Valid() && Compatible(reference, top, bottom)
    requires i < reference.grid.Size()
  {
    FlatIndexInGrid(reference.grid, i);
    if AnyFill(reference, top, bottom, i) then Empty
    else if !Ordered(reference, top, bottom, i) then Failed(PlanesNotOrdered)
    else if !meta.HasTraceAt(reference.grid.ToCdp(i)) then Empty
    else if !meta.sample.InRange(top.values[i]) || !meta.sample.InRange(bottom.values[i]) then
      Failed(OutOfVerticalBounds(reference.grid.Row(i), reference.grid.Col(i)))
    else
      PlanCoversFour(meta.sample, top.values[i], bottom.values[i]);
      match PlanWindow(meta.sample, top.values[i], bottom.values[i])
      case TooSmall => Failed(SegmentTooSmall)
      case Window(topMargin, bottomMargin, size) => Segment(topMargin, bottomMargin, size)
  }

  /**
   What becomes of a cell, in terms of the depths in it and of where it lies. It lies inside the cube when the line
   nearest to it, halves rounded up, exists in both directions.
   */
  lemma CellOutcomes(meta: Metadata, reference: Surface, top: Surface, bottom: Surface, i: nat)
    requires meta.Valid() && Compatible(reference, top, bottom)
    requires i < reference.grid.Size()
    ensures reference.grid.ncols > 0
    ensures var cell, ij := PlanCell(meta, reference, top, bottom, i), meta.worldToAnnotation(reference.grid.ToCdp(i));
            var r, t, b := reference.values[i], top.values[i], bottom.values[i];
            var missing := r == reference.fill || t == top.fill || b == bottom.fill;
            var inside := 0 <= meta.iline.ToSamplePosition(ij.x).Floor < meta.iline.nsamples
                          && 0 <= meta.xline.ToSamplePosition(ij.y).Floor < meta.xline.nsamples;
            var onTrace := meta.sample.min <= t && b <= meta.sample.max;
            && (cell.Empty? <==> missing || (t <= r <= b && !inside))
            && (cell == Failed(PlanesNotOrdered) <==> !missing && !(t <= r <= b))
            && (cell == Failed(OutOfVerticalBounds(i / reference.grid.ncols, i % reference.grid.ncols))
                <==> !missing && t <= r <= b && inside && !onTrace)
            && (cell.Segment? || cell == Failed(SegmentTooSmall) <==> !missing && t <= r <= b && inside && onTrace)
            && (cell == Failed(SegmentTooSmall) ==> meta.sample.nsamples < 4)
  {
    FlatIndexInGrid(reference.grid, i);
    var ij := meta.worldToAnnotation(reference.grid.ToCdp(i));
    MarginIff(meta.iline, ij.x);
    MarginIff(meta.xline, ij.y);
    if meta.sample.nsamples >= 4 {
      NeverTooSmall(meta, reference, top, bottom, i);
    }
  }

  /** What each of the first n cells contributes. */
  function CellsUpTo(meta: Metadata, reference: Surface, top: Surface, bottom: Surface, n: nat): (cells: seq<Cell>)
    requires meta.Valid() && Compatible(reference, top, bottom)
    requires n <= reference.grid.Size()
    ensures |cells| == n
  {
    if n == 0 then [] else CellsUpTo(meta, reference, top, bottom, n - 1) + [PlanCell(meta, reference, top, bottom, n - 1)]
  }

  function Cells(meta: Metadata, reference: Surface, top: Surface, bottom: Surface): (cells: seq<Cell>)
    requires meta.Valid() && Compatible(reference, top, bottom)
    ensures |cells| == reference.grid.Size()
  {
    CellsUpTo(meta, reference, top, bottom, reference.grid.Size())
  }

  lemma {:induction false} CellAt(meta: Metadata, reference: Surface, top: Surface, bottom: Surface, n: nat, i: nat)
    requires meta.Valid() && Compatible(reference, top, bottom)
    requires i < n <= reference.grid.Size()
    ensures CellsUpTo(meta, reference, top, bottom, n)[i] == PlanCell(meta, reference, top, bottom, i)
    decreases n
  {
    if i < n - 1 {
      CellAt(meta, reference, top, bottom, n - 1, i);
    }
  }

  function SegmentSize(cell: Cell): nat {
    if cell.Segment? then cell.size else 0
  }

  /** Number of samples in the segments of the first n cells. */
  function Offset(cells: seq<Cell>, n: nat): nat
    requires n <= |cells|
  {
    if n == 0 then 0 else Offset(cells, n - 1) + SegmentSize(cells[n - 1])
  }

  lemma {:induction false} OffsetMonotone(cells: seq<Cell>, m: nat, n: nat)
    requires m <= n <= |cells|
    ensures Offset(cells, m) <= Offset(cells, n)
  {
    if m < n {
      OffsetMonotone(cells, m, n - 1);
    }
  }

  /** A planned segment is at least four samples, so it is never mistaken for an empty cell. */
  lemma SegmentNotEmpty(meta: Metadata, reference: Surface, top: Surface, bottom: Surface, i: nat)
    requires meta.Valid() && Compatible(reference, top, bottom)
    requires i < reference.grid.Size()
    ensures var cell := PlanCell(meta, reference, top, bottom, i); cell.Segment? ==> cell.size >= MIN_SAMPLES
  {
    PlanCoversFour(meta.sample, top.values[i], bottom.values[i]);
  }

  /** With four samples or more on the axis, planning can fail only on disordered planes or on depths off the axis. */
  lemma NeverTooSmall(meta: Metadata, reference: Surface, top: Surface, bottom: Surface, i: nat)
    requires meta.Valid() && Compatible(reference, top, bottom)
    requires i < reference.grid.Size()
    requires meta.sample.nsamples >= 4
    ensures PlanCell(meta, reference, top, bottom, i) != Failed(SegmentTooSmall)
    ensures var cell := PlanCell(meta, reference, top, bottom, i);
            cell.Segment? ==> WindowOnAxis(meta.sample, top.values[i], cell.topMargin, cell.size)
  {
    if !AnyFill(reference, top, bottom, i)
       && Ordered(reference, top, bottom, i)
       && meta.sample.InRange(top.values[i]) && meta.sample.InRange(bottom.values[i]) {
      PlanSoundIffFourSamples(meta.sample, top.values[i], bottom.values[i]);
    }
  }

  class SubVolume {
    const reference: Surface
    const top: Surface
    const bottom: Surface
    /** Step and first position of the samples axis. */
    const step: real
    const zero: real

    var offsets: array<nat>
    var topMargins: map<nat, nat>
    var data: array<real>

    /** The first n cells are laid out as `cells` says. */
    ghost predicate BuiltUpTo(cells: seq<Cell>, n: nat)
      reads this, offsets
    {
      && n <= |cells| == reference.grid.Size()
      && offsets.Length == |cells| + 1
      && (forall i :: 0 <= i <= n ==> offsets[i] == Offset(cells, i))
      && (forall i :: 0 <= i < n ==> !cells[i].Failed?)
      && (forall i: nat :: i in topMargins <==> i < n && cells[i].Segment? && cells[i].topMargin != PREFERRED_MARGIN)
      && (forall i: nat :: i in topMargins ==> topMargins[i] == cells[i].topMargin)
    }

    /** The whole surface is laid out, and the data array holds exactly the segments. */
    ghost predicate Built(cells: seq<Cell>)
      reads this, offsets
    {
      BuiltUpTo(cells, |cells|) && data.Length == Offset(cells, |cells|) && step > 0.0
    }

    constructor (reference: Surface, top: Surface, bottom: Surface, step: real, zero: real)
      ensures this.reference == reference && this.top == top && this.bottom == bottom
      ensures this.step == step && this.zero == zero
      ensures topMargins == map[]
      ensures fresh(offsets) && offsets.Length == reference.grid.Size() + 1
      ensures fresh(data)
    {
      this.reference, this.top, this.bottom := reference, top, bottom;
      this.step, this.zero := step, zero;
      offsets := new nat[reference.grid.Size() + 1];
      topMargins := map[];
      data := new real[0];
    }

    /** Lays out cell i without data. */
    method SkipCell(i: nat, ghost cells: seq<Cell>)
      requires BuiltUpTo(cells, i) && i < |cells|
      requires cells[i].Empty?
      modifies offsets
      ensures BuiltUpTo(cells, i + 1)
    {
      offsets[i + 1] := offsets[i];
    }

    /** Lays out cell i with a segment, noting its top margin only when that is not the preferred one. */
    method AddSegment(i: nat, topMargin: nat, size: nat, isTopAtypical: bool, ghost cells: seq<Cell>)
      requires BuiltUpTo(cells, i) && i < |cells|
      requires cells[i].Segment? && cells[i].topMargin == topMargin && cells[i].size == size
      requires isTopAtypical <==> topMargin != PREFERRED_MARGIN
      modifies offsets, `topMargins
      ensures BuiltUpTo(cells, i + 1)
    {
      if isTopAtypical {
        topMargins := topMargins[i := topMargin];
      }
      offsets[i + 1] := offsets[i] + size;
    }

    function TopMargin(i: nat): nat
      reads this
    {
      if i in topMargins then topMargins[i] else PREFERRED_MARGIN
    }

    function NSamples(from: nat, to: nat): int
      reads this, offsets
      requires from < offsets.Length && to < offsets.Length
    {
      offsets[to] as int - offsets[from] as int
    }

    predicate IsEmpty(i: nat)
      reads this, offsets
      requires i + 1 < offsets.Length
    {
      offsets[i] == offsets[i + 1]
    }
  }

  /**
   What the accessors say of a sub-volume agrees with what was planned for each cell: emptiness, number of samples,
   and the top margin, whether it was stored in the sparse map or left out as the preferred one.
   */
  lemma AccessorsAgree(sv: SubVolume, meta: Metadata, i: nat)
    requires meta.Valid() && Compatible(sv.reference, sv.top, sv.bottom)
    requires sv.Built(Cells(meta, sv.reference, sv.top, sv.bottom))
    requires i < sv.reference.grid.Size()
    ensures var cell := PlanCell(meta, sv.reference, sv.top, sv.bottom, i);
            && (sv.IsEmpty(i) <==> cell.Empty?)
            && sv.NSamples(i, i + 1) == (if cell.Segment? then cell.size else 0)
            && (cell.Segment? ==> sv.TopMargin(i) == cell.topMargin)
    ensures sv.reference.grid.ncols > 0
    ensures var ij := meta.worldToAnnotation(sv.reference.grid.ToCdp(i));
            sv.IsEmpty(i) <==>
              || sv.reference.values[i] == sv.reference.fill
              || sv.top.values[i] == sv.top.fill
              || sv.bottom.values[i] == sv.bottom.fill
              || !(0 <= meta.iline.ToSamplePosition(ij.x).Floor < meta.iline.nsamples)
              || !(0 <= meta.xline.ToSamplePosition(ij.y).Floor < meta.xline.nsamples)
  {
    var cells := Cells(meta, sv.reference, sv.top, sv.bottom);
    CellOutcomes(meta, sv.reference, sv.top, sv.bottom, i);
    SegmentNotEmpty(meta, sv.reference, sv.top, sv.bottom, i);
    CellAt(meta, sv.reference, sv.top, sv.bottom, |cells|, i);
    assert sv.offsets[i] == Offset(cells, i) && sv.offsets[i + 1] == Offset(cells, i + 1);
    assert !cells[i].Failed?;
  }

  lemma OffsetsOrdered(sv: SubVolume, cells: seq<Cell>)
    requires sv.Built(cells)
    ensures forall i, j :: 0 <= i <= j < sv.offsets.Length ==> sv.offsets[i] <= sv.offsets[j]
    ensures forall i :: 0 <= i < sv.offsets.Length ==> sv.offsets[i] <= sv.data.Length
  {
    forall i, j | 0 <= i <= j < sv.offsets.Length
      ensures sv.offsets[i] <= sv.offsets[j]
    {
      OffsetMonotone(cells, i, j);
    }
  }

  /**
   Builds the sub-volume, or reports the error of the first cell that has one. It succeeds exactly when
   the three grids agree and no cell fails.
   */
  method MakeSubvolume(meta: Metadata, reference: Surface, top: Surface, bottom: Surface)
    returns (r: Result<SubVolume>)
    requires meta.Valid()
    requires reference.Valid() && top.Valid() && bottom.Valid()
    ensures r == Failure(GridMismatch) <==> !Compatible(reference, top, bottom)
    ensures Compatible(reference, top, bottom) ==>
              var cells := Cells(meta, reference, top, bottom);
              && (r.Success? <==> forall i :: 0 <= i < |cells| ==> !cells[i].Failed?)
              && (r.Failure? ==> exists i :: 0 <= i < |cells| && cells[i] == Failed(r.error)
                                             && forall j :: 0 <= j < i ==> !cells[j].Failed?)
              && (r.Success? ==> fresh(r.value) && fresh(r.value.offsets) && fresh(r.value.data) && r.value.Built(cells))
    ensures r.Success? ==>
              && r.value.reference == reference && r.value.top == top && r.value.bottom == bottom
              && r.value.step == meta.sample.Stepsize() && r.value.zero == meta.sample.min
  {
    if !(reference.grid.SameAs(top.grid) && reference.grid.SameAs(bottom.grid)) {
      return Failure(GridMismatch);
    }
    var sample := meta.sample;
    var step, zero := sample.Stepsize(), sample.min;
    var sv := new SubVolume(reference, top, bottom, step, zero);
    ghost var cells := Cells(meta, reference, top, bottom);
    var size := reference.grid.Size();
    sv.offsets[0] := 0;
    for i := 0 to size
      invariant fresh(sv) && fresh(sv.offsets)
      invariant sv.BuiltUpTo(cells, i)
    {
      FlatIndexInGrid(reference.grid, i);
      CellAt(meta, reference, top, bottom, |cells|, i);
      var referenceDepth, topDepth, bottomDepth := reference.values[i], top.values[i], bottom.values[i];
      if referenceDepth == reference.fill || topDepth == top.fill || bottomDepth == bottom.fill {
        sv.SkipCell(i, cells);
        continue;
      }
      if referenceDepth < topDepth || referenceDepth > bottomDepth {
        return Failure(PlanesNotOrdered);
      }
      var ij := meta.worldToAnnotation(reference.grid.ToCdp(i));
      if !meta.iline.InRangeWithMargin(ij.x) || !meta.xline.InRangeWithMargin(ij.y) {
        sv.SkipCell(i, cells);
        continue;
      }
      if !sample.InRange(topDepth) || !sample.InRange(bottomDepth) {
        return Failure(OutOfVerticalBounds(reference.grid.Row(i), reference.grid.Col(i)));
      }
      var plan, isTopAtypical := ChooseWindow(sample, topDepth, bottomDepth);
      if plan.TooSmall? {
        return Failure(SegmentTooSmall);
      }
      sv.AddSegment(i, plan.topMargin, plan.size, isTopAtypical, cells);
    }
    sv.data := new real[sv.offsets[size]];
    return Success(sv);
  }
}
