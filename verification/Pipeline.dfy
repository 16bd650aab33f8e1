/**
 A whole attribute request: surfaces in, one map per attribute out. Ties the concurrent calculation to the
 sequential loops, and the surfaces a caller passes in to what can go wrong on the way.
 */
module Pipeline {
  import opened Layout
  import opened Options
  import opened Blueprints
  import opened CubeMetadata
  import opened Surfaces
  import opened SubVolumes
  import opened Attributes
  import opened AttributeCalculation
  import opened Fetching
  import S = Scheduler
  import Safety = SchedulerSafety
  import Results = SchedulerResults
  import A = Alignment
  import H = Horizons

  // ---- samples of each cell

  function CellSamples(req: Request, i: nat): (r: seq<real>)
    requires req.meta.Valid() && Compatible(req.reference, req.top, req.bottom)
    requires i < req.Size()
    ensures |r| == SegmentSize(req.Plan()[i])
  {
    Reads(req.store, CellVoxels(req, i))
  }

  /** What the store delivers for each of the first n cells. */
  function SampleLists(req: Request, n: nat): (r: seq<seq<real>>)
    requires req.meta.Valid() && Compatible(req.reference, req.top, req.bottom)
    requires n <= req.Size()
    ensures |r| == n
    ensures forall i :: 0 <= i < n ==> r[i] == CellSamples(req, i)
  {
    if n == 0 then [] else SampleLists(req, n - 1) + [CellSamples(req, n - 1)]
  }

  /** The slots of the data array between two offsets hold exactly the samples of the cell there. */
  lemma SlotsOfCell(req: Request, i: nat)
    requires req.meta.Valid() && Compatible(req.reference, req.top, req.bottom)
    requires i < req.Size()
    ensures Offset(req.Plan(), i) <= Offset(req.Plan(), i + 1) <= |StoreValues(req)|
    ensures StoreValues(req)[Offset(req.Plan(), i)..Offset(req.Plan(), i + 1)] == CellSamples(req, i)
  {
    var lists := VoxelLists(req, req.Size());
    FlatCut(lists, i, req.Size());
    CellBounds(req, i);
    ReadsSlice(req.store, Voxels(req, req.Size()), Offset(req.Plan(), i), Offset(req.Plan(), i + 1));
  }

  lemma CellBounds(req: Request, i: nat)
    requires req.meta.Valid() && Compatible(req.reference, req.top, req.bottom)
    requires i < req.Size()
    ensures var lists := VoxelLists(req, req.Size());
            |Flat(lists, i)| == Offset(req.Plan(), i) && |Flat(lists, i + 1)| == Offset(req.Plan(), i + 1)
  {
    assert Voxels(req, i) == Flat(VoxelLists(req, req.Size()), i);
    assert Voxels(req, i + 1) == Flat(VoxelLists(req, req.Size()), i + 1);
  }

  // ---- the sequential program

  lemma {:induction false} FindPlace(size: nat, n: nat, k: nat) returns (a: nat, i: nat)
    requires k < Multiple(size, n)
    ensures a < n && i < size && Place(size, a, i) == k
  {
    if k < Multiple(size, n - 1) {
      a, i := FindPlace(size, n - 1, k);
    } else {
      a, i := n - 1, k - Multiple(size, n - 1);
    }
  }

  /** Buffers that agree in every cell are equal. */
  lemma SameEverywhere(size: nat, n: nat, x: seq<real>, y: seq<real>)
    requires |x| == |y| == Multiple(size, n)
    requires SameInside(size, n, x, y, 0, size)
    ensures x == y
  {
    forall k | 0 <= k < |x|
      ensures x[k] == y[k]
    {
      var a, i := FindPlace(size, n, k);
      assert SameCell(size, n, x, y, i);
      assert SameAt(size, n, x, y, i, a);
    }
  }

  lemma StoredIsFetched(sv: SubVolume, req: Request)
    requires BuiltFor(sv, req)
    requires sv.data[..] == StoreValues(req)
    ensures Stored(sv, req) == SampleLists(req, req.Size())
  {
    forall i | 0 <= i < req.Size()
      ensures Stored(sv, req)[i] == SampleLists(req, req.Size())[i]
    {
      SegmentBounds(sv, req, i);
      SlotsOfCell(req, i);
      assert sv.data[sv.offsets[i]..sv.offsets[i + 1]] == sv.data[..][sv.offsets[i]..sv.offsets[i + 1]];
    }
  }

  /** Fetches everything, then calculates everything, in one piece. */
  method CalculateSequentially(sv: SubVolume, req: Request, out: array<real>) returns (ok: bool)
    requires BuiltFor(sv, req) && req.Size() > 0
    requires out.Length == Multiple(req.Size(), |req.attributes|) && out != sv.data
    modifies sv.data, out
    ensures ok <==> RangeOk(req, 0, req.Size())
    ensures ok ==> out[..] == Maps(req, SampleLists(req, req.Size()))
  {
    var size := req.Size();
    var outcome := FetchSubvolume(sv, req, 0, size, Answered);
    assert sv.data[..] == StoreValues(req);
    StoredIsFetched(sv, req);
    ok := CalcAttributes(sv, req, 0, size, out);
    if ok {
      SameEverywhere(size, |req.attributes|, Maps(req, SampleLists(req, size)), out[..]);
    }
  }

  // ---- the concurrent program

  ghost function OffsetTable(req: Request): (r: seq<nat>)
    requires req.meta.Valid() && Compatible(req.reference, req.top, req.bottom)
    ensures |r| == req.Size() + 1
    ensures forall i :: 0 <= i < |r| ==> r[i] == Offset(req.Plan(), i)
  {
    seq(req.Size() + 1, i requires 0 <= i <= req.Size() => Offset(req.Plan(), i))
  }

  /** The slots are filled, in one pass or in two, with what the store of the request delivers. */
  ghost predicate Fetches(req: Request, fetch: S.Fetch)
    requires req.Valid()
  {
    forall k: nat :: k < |StoreValues(req)| ==> fetch.SampleAt(k) == StoreValues(req)[k]
  }

  /** From one cube, in one pass. */
  ghost function SingleFetch(req: Request): (fetch: S.Fetch)
    requires req.Valid()
    ensures Fetches(req, fetch)
  {
    S.Single((k: nat) => if k < |StoreValues(req)| then StoreValues(req)[k] else 0.0)
  }

  /** The request as the workers see it. */
  ghost function JobOf(req: Request, fetch: S.Fetch): S.Job
    requires req.Valid()
  {
    S.Job(req.reference.grid.nrows, req.reference.grid.ncols, |req.attributes|, OffsetTable(req),
          fetch,
          (i: nat) => i < req.Size() && CellOk(req, i),
          (a: nat, i: nat, samples: seq<real>) =>
            if a < |req.attributes| && i < req.Size() then CellValue(req, req.attributes[a], i, samples) else 0.0)
  }

  lemma SizeIsMultiple(grid: Grid)
    ensures Multiple(grid.nrows, grid.ncols) == grid.Size()
    ensures grid.Size() > 0 ==> grid.nrows > 0 && grid.ncols > 0
  {
    MultipleIsProduct(grid.nrows, grid.ncols);
  }

  lemma JobIsValid(req: Request, fetch: S.Fetch)
    requires req.Valid() && req.Size() > 0
    ensures JobOf(req, fetch).Valid() && JobOf(req, fetch).HSize() == req.Size()
  {
    SizeIsMultiple(req.reference.grid);
    forall i, j | 0 <= i <= j < |OffsetTable(req)|
      ensures OffsetTable(req)[i] <= OffsetTable(req)[j]
    {
      OffsetMonotone(req.Plan(), i, j);
    }
  }

  lemma JobExpects(req: Request, fetch: S.Fetch, a: nat, i: nat)
    requires req.Valid() && Fetches(req, fetch) && req.Size() > 0
    requires a < |req.attributes| && i < req.Size()
    ensures JobOf(req, fetch).Valid() && JobOf(req, fetch).HSize() == req.Size()
    ensures JobOf(req, fetch).Expected(a, i) == CellValue(req, req.attributes[a], i, CellSamples(req, i))
  {
    JobIsValid(req, fetch);
    JobSamples(req, fetch, i);
  }

  lemma JobSamples(req: Request, fetch: S.Fetch, i: nat)
    requires req.Valid() && Fetches(req, fetch) && i < req.Size()
    requires JobOf(req, fetch).Valid() && JobOf(req, fetch).HSize() == req.Size()
    ensures JobOf(req, fetch).Samples(i) == CellSamples(req, i)
  {
    SlotsOfCell(req, i);
    SamplesOfSlots(JobOf(req, fetch), i, StoreValues(req));
  }

  /** Where the slots hold the given values, the samples of a cell are the values between its offsets. */
  lemma SamplesOfSlots(job: S.Job, i: nat, values: seq<real>)
    requires job.Valid() && i < job.HSize() && job.offsets[i + 1] <= |values|
    requires forall k: nat :: k < |values| ==> job.fetch.SampleAt(k) == values[k]
    ensures job.Samples(i) == values[job.offsets[i]..job.offsets[i + 1]]
  {
  }

  lemma MapsSlice(req: Request, stored: seq<seq<real>>, a: nat)
    requires req.Valid() && a < |req.attributes| && |stored| == req.Size()
    ensures Multiple(req.Size(), a) <= Multiple(req.Size(), a + 1) <= Multiple(req.Size(), |req.attributes|)
    ensures Maps(req, stored)[Multiple(req.Size(), a)..Multiple(req.Size(), a + 1)] == AttributeMap(req, a, stored)
  {
    FlatSlice(AttributeMaps(req, stored, |req.attributes|), req.Size(), |req.attributes|, a);
  }

  /** The map that the workers are to produce is the map of the request. */
  lemma JobMap(req: Request, fetch: S.Fetch, a: nat)
    requires req.Valid() && Fetches(req, fetch) && req.Size() > 0 && a < |req.attributes|
    ensures JobOf(req, fetch).Valid()
    ensures Results.SequentialMap(JobOf(req, fetch), a) == AttributeMap(req, a, SampleLists(req, req.Size()))
  {
    JobIsValid(req, fetch);
    forall i | 0 <= i < req.Size()
      ensures Results.SequentialMap(JobOf(req, fetch), a)[i] == AttributeMap(req, a, SampleLists(req, req.Size()))[i]
    {
      JobExpects(req, fetch, a, i);
    }
  }

  /**
   Whatever the interleaving, when the concurrent calculation returns successfully, the slice it returns for each
   attribute is that of the buffer which CalculateSequentially leaves.
   */
  lemma ConcurrentMatchesSequential(req: Request, fetch: S.Fetch, s: S.State, actions: seq<S.Action>, a: nat)
    requires req.Valid() && Fetches(req, fetch) && req.Size() > 0 && a < |req.attributes|
    requires JobOf(req, fetch).Valid() && S.Initial(JobOf(req, fetch), s)
    requires S.IsRun(JobOf(req, fetch), s, actions)
    requires S.After(JobOf(req, fetch), s, actions).main == S.Returned(true)
    ensures var end := S.After(JobOf(req, fetch), s, actions);
            var lo, hi := Multiple(req.Size(), a), Multiple(req.Size(), a + 1);
            && lo <= hi <= |end.out| && hi <= Multiple(req.Size(), |req.attributes|)
            && S.Values(end.out[lo..hi]) == Maps(req, SampleLists(req, req.Size()))[lo..hi]
  {
    var job := JobOf(req, fetch);
    JobIsValid(req, fetch);
    Results.ParallelEqualsSequential(job, s, actions, a);
    MapsSlice(req, SampleLists(req, req.Size()), a);
    JobMap(req, fetch, a);
  }

  /** Every window keeps a thousandth of a step away from both ends of the trace. */
  ghost predicate AwayFromEnds(req: Request)
    requires req.Valid()
  {
    forall i :: 0 <= i < req.Size() && req.Plan()[i].Segment? ==>
      && req.meta.sample.min + Slack(req.SourceStep()) <= req.top.values[i]
      && req.bottom.values[i] <= req.meta.sample.max - Slack(req.SourceStep())
  }

  /** And it returns successfully exactly when CalculateSequentially does, as long as no read is refused. */
  lemma ConcurrentSucceedsIff(req: Request, fetch: S.Fetch, s: S.State, actions: seq<S.Action>)
    requires req.Valid() && req.Size() > 0
    requires JobOf(req, fetch).Valid() && S.Initial(JobOf(req, fetch), s)
    requires S.IsRun(JobOf(req, fetch), s, actions) && Results.NoReadFails(actions)
    requires S.After(JobOf(req, fetch), s, actions).main.Returned?
    ensures S.After(JobOf(req, fetch), s, actions).main.ok <==> RangeOk(req, 0, req.Size())
  {
    JobIsValid(req, fetch);
    CellsOkIff(req, fetch);
    Results.SucceedsIff(JobOf(req, fetch), s, actions);
  }

  lemma CellsOkIff(req: Request, fetch: S.Fetch)
    requires req.Valid()
    ensures Safety.CellsOk(JobOf(req, fetch), 0, req.Size()) <==> RangeOk(req, 0, req.Size())
  {
    forall i: nat | i < req.Size()
      ensures JobOf(req, fetch).cellOk(i) <==> CellOk(req, i)
    {
    }
  }

  /** With windows away from the trace ends, resampled no coarser than the trace, only a refused read makes a request fail. */
  lemma InteriorRequestSucceeds(req: Request, fetch: S.Fetch, s: S.State, actions: seq<S.Action>)
    requires req.Valid() && req.Size() > 0
    requires req.meta.sample.nsamples >= 4 && req.step <= req.SourceStep() && AwayFromEnds(req)
    requires JobOf(req, fetch).Valid() && S.Initial(JobOf(req, fetch), s)
    requires S.IsRun(JobOf(req, fetch), s, actions) && Results.NoReadFails(actions)
    ensures var end := S.After(JobOf(req, fetch), s, actions); end.main.Returned? ==> end.main.ok
  {
    var job := JobOf(req, fetch);
    JobIsValid(req, fetch);
    forall i | 0 <= i < job.HSize()
      ensures job.cellOk(i)
    {
      InteriorCellOk(req, i);
    }
    Safety.InitialInv(job, s);
    Results.SucceedsUnlessRefused(job, s, actions);
  }

  // ---- what can go wrong with the surfaces

  /** Between two surfaces that alignment accepts, on a trace of four samples or more, the only error left is a depth off the axis. */
  lemma BetweenFailsOnlyOffAxis(meta: Metadata, primary: Surface, matches: seq<Option<real>>, i: nat)
    requires meta.Valid() && meta.sample.nsamples >= 4
    requires primary.Valid() && |matches| == primary.grid.Size() && i < |matches|
    requires !A.CrossedWithin(primary.values, matches, |matches|)
    ensures var aligned := A.AlignedSurface(primary, matches);
            var (top, bottom) := if A.AboveWithin(primary.values, matches, |matches|) then (primary, aligned)
                                 else (aligned, primary);
            Compatible(primary, top, bottom)
            && var cell := PlanCell(meta, primary, top, bottom, i);
               cell.Failed? ==>
                 cell.error.OutOfVerticalBounds?
                 && (!meta.sample.InRange(primary.values[i]) || !meta.sample.InRange(aligned.values[i]))
  {
    A.UncrossedSurfacesAreOrdered(primary, matches, i);
    var aligned := A.AlignedSurface(primary, matches);
    if A.AboveWithin(primary.values, matches, |matches|) {
      NeverTooSmall(meta, primary, primary, aligned, i);
    } else {
      NeverTooSmall(meta, primary, aligned, primary, i);
    }
  }

  /** Along one surface likewise. */
  lemma AlongFailsOnlyOffAxis(meta: Metadata, reference: Surface, above: real, below: real, i: nat)
    requires meta.Valid() && meta.sample.nsamples >= 4
    requires reference.Valid() && i < reference.grid.Size()
    requires above >= 0.0 && below >= 0.0
    ensures var top, bottom := H.ShiftedSurface(reference, -above), H.ShiftedSurface(reference, below);
            Compatible(reference, top, bottom)
            && var cell := PlanCell(meta, reference, top, bottom, i);
               cell.Failed? ==>
                 cell.error.OutOfVerticalBounds?
                 && (reference.values[i] - above < meta.sample.min || reference.values[i] + below > meta.sample.max)
  {
    H.AlongSurfacesAreOrdered(reference, above, below, i);
    var top, bottom := H.ShiftedSurface(reference, -above), H.ShiftedSurface(reference, below);
    NeverTooSmall(meta, reference, top, bottom, i);
  }
}
