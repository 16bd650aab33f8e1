/**
 What a caller finds in the maps of attributes, cell by cell: the fill value where there is nothing to calculate
 from, and elsewhere the attributes of a window of splined samples around the reference depth.
 */
module MapContents {
  import opened Layout
  import opened SubVolumes
  import opened Attributes
  import opened AttributeCalculation
  import opened AttributeLaws
  import opened Pipeline
  import S = Scheduler

  /** The maps that CalculateSequentially leaves, and of which the concurrent calculation returns the slices. */
  ghost function RequestMaps(req: Request): seq<real>
    requires req.Valid()
  {
    Maps(req, SampleLists(req, req.Size()))
  }

  lemma MapsHold(req: Request, a: nat, i: nat)
    requires req.Valid() && a < |req.attributes| && i < req.Size()
    ensures HoldsAt(RequestMaps(req), req.Size(), a, i, CellValue(req, req.attributes[a], i, CellSamples(req, i)))
  {
    MapsAt(req, SampleLists(req, req.Size()), a, i);
  }

  /** A cell with a missing depth, or outside the cube along either horizontal axis, holds the fill value of the reference. */
  lemma MissingCell(req: Request, a: nat, i: nat)
    requires req.Valid() && a < |req.attributes| && i < req.Size()
    requires var ij := req.meta.worldToAnnotation(req.reference.grid.ToCdp(i));
             || req.reference.values[i] == req.reference.fill
             || req.top.values[i] == req.top.fill
             || req.bottom.values[i] == req.bottom.fill
             || !(0 <= req.meta.iline.ToSamplePosition(ij.x).Floor < req.meta.iline.nsamples)
             || !(0 <= req.meta.xline.ToSamplePosition(ij.y).Floor < req.meta.xline.nsamples)
    ensures HoldsAt(RequestMaps(req), req.Size(), a, i, req.reference.fill)
  {
    CellAt(req.meta, req.reference, req.top, req.bottom, req.Size(), i);
    CellOutcomes(req.meta, req.reference, req.top, req.bottom, i);
    MapsHold(req, a, i);
  }

  /**
   Every other cell holds the attribute of a window. The window has a sample at the reference depth and at every
   depth a whole number of steps away from it that lies between the boundaries, up to a thousandth of a step. Each
   sample is the spline, at its depth, through the fetched samples of the cell.
   */
  lemma SegmentCell(req: Request, a: nat, i: nat) returns (w: Window)
    requires req.Valid() && a < |req.attributes| && i < req.Size()
    requires var ij := req.meta.worldToAnnotation(req.reference.grid.ToCdp(i));
             && req.reference.values[i] != req.reference.fill
             && req.top.values[i] != req.top.fill
             && req.bottom.values[i] != req.bottom.fill
             && 0 <= req.meta.iline.ToSamplePosition(ij.x).Floor < req.meta.iline.nsamples
             && 0 <= req.meta.xline.ToSamplePosition(ij.y).Floor < req.meta.xline.nsamples
    ensures w.Valid() && w.numerics == req.numerics && w.step == req.step
    ensures HoldsAt(RequestMaps(req), req.Size(), a, i, w.Get(req.attributes[a]))
    ensures w.Spans(req.reference.values[i], req.top.values[i], req.bottom.values[i])
    ensures w.Depth(w.referenceIndex) == req.reference.values[i]
    ensures req.Plan()[i].Segment? && |CellSamples(req, i)| == req.Plan()[i].size
    ensures forall j: nat :: j < |w.data| ==>
              var points := SourcePoints(req, i, req.Plan()[i].topMargin, req.Plan()[i].size);
              w.data[j] == req.numerics.spline(points, CellSamples(req, i), w.Depth(j))
  {
    CellAt(req.meta, req.reference, req.top, req.bottom, req.Size(), i);
    CellOutcomes(req.meta, req.reference, req.top, req.bottom, i);
    MapsHold(req, a, i);
    w := CellWindow(req, i, CellSamples(req, i), req.attributes[a]);
  }

  /** Whatever the interleaving, the buffer of a successful concurrent calculation holds the same in every cell. */
  lemma ConcurrentCell(req: Request, fetch: S.Fetch, s: S.State, actions: seq<S.Action>, a: nat, i: nat, v: real)
    requires req.Valid() && Fetches(req, fetch) && req.Size() > 0
    requires a < |req.attributes| && i < req.Size()
    requires JobOf(req, fetch).Valid() && S.Initial(JobOf(req, fetch), s)
    requires S.IsRun(JobOf(req, fetch), s, actions)
    requires S.After(JobOf(req, fetch), s, actions).main == S.Returned(true)
    requires HoldsAt(RequestMaps(req), req.Size(), a, i, v)
    ensures HoldsAt(S.Values(S.After(JobOf(req, fetch), s, actions).out), req.Size(), a, i, v)
  {
    ConcurrentMatchesSequential(req, fetch, s, actions, a);
    SliceCell(S.After(JobOf(req, fetch), s, actions).out, RequestMaps(req), req.Size(), a, i);
  }

  lemma SliceCell(out: seq<S.Slot>, maps: seq<real>, size: nat, a: nat, i: nat)
    requires i < size
    requires Multiple(size, a + 1) <= |out| && Multiple(size, a + 1) <= |maps|
    requires S.Values(out[Multiple(size, a)..Multiple(size, a + 1)]) == maps[Multiple(size, a)..Multiple(size, a + 1)]
    ensures Place(size, a, i) < |S.Values(out)| && Place(size, a, i) < |maps|
    ensures S.Values(out)[Place(size, a, i)] == maps[Place(size, a, i)]
  {
    var lo, hi := Multiple(size, a), Multiple(size, a + 1);
    assert S.Values(out[lo..hi])[i] == out[lo + i].value;
    assert maps[lo..hi][i] == maps[lo + i];
  }

  /** In particular it holds the fill value in every map where there is nothing to calculate from. */
  lemma ConcurrentMissingCell(req: Request, fetch: S.Fetch, s: S.State, actions: seq<S.Action>, a: nat, i: nat)
    requires req.Valid() && Fetches(req, fetch) && req.Size() > 0
    requires a < |req.attributes| && i < req.Size()
    requires JobOf(req, fetch).Valid() && S.Initial(JobOf(req, fetch), s)
    requires S.IsRun(JobOf(req, fetch), s, actions)
    requires S.After(JobOf(req, fetch), s, actions).main == S.Returned(true)
    requires var ij := req.meta.worldToAnnotation(req.reference.grid.ToCdp(i));
             || req.reference.values[i] == req.reference.fill
             || req.top.values[i] == req.top.fill
             || req.bottom.values[i] == req.bottom.fill
             || !(0 <= req.meta.iline.ToSamplePosition(ij.x).Floor < req.meta.iline.nsamples)
             || !(0 <= req.meta.xline.ToSamplePosition(ij.y).Floor < req.meta.xline.nsamples)
    ensures HoldsAt(S.Values(S.After(JobOf(req, fetch), s, actions).out), req.Size(), a, i, req.reference.fill)
  {
    MissingCell(req, a, i);
    ConcurrentCell(req, fetch, s, actions, a, i, req.reference.fill);
  }
}
