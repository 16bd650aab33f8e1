/** Attribute requests in terms of the seismic field, of one cube or of two combined cubes. */
module DoubleAttributes {
  import opened Axes
  import opened Surfaces
  import opened SubVolumes
  import opened Attributes
  import opened AttributeCalculation
  import opened Fetching
  import opened Layout
  import opened Pipeline
  import D = DoubleCubes
  import S = Scheduler

  /** The request is made to this cube. */
  ghost predicate ReadsFrom(req: Request, cube: D.Cube) {
    && req.meta.iline == cube.iline && req.meta.xline == cube.xline && req.meta.sample == cube.sample
    && forall v: Position :: req.store(v) == cube.value(v)
  }

  /** The annotated point where sample k of a cell belongs: below the node of the surface, at the k-th source depth. */
  function SamplePoint(req: Request, i: nat, k: nat): Position
    requires req.meta.Valid() && Compatible(req.reference, req.top, req.bottom)
    requires i < req.Size() && req.Plan()[i].Segment? && k < req.Plan()[i].size
  {
    FlatIndexInGrid(req.reference.grid, i);
    var ij := req.meta.worldToAnnotation(req.reference.grid.ToCdp(i));
    [ij.x, ij.y, SourcePoints(req, i, req.Plan()[i].topMargin, req.Plan()[i].size)[k]]
  }

  lemma VoxelOfPoint(req: Request, cube: D.Cube, i: nat, k: nat)
    requires req.meta.Valid() && Compatible(req.reference, req.top, req.bottom) && ReadsFrom(req, cube) && cube.Valid()
    requires i < req.Size() && req.Plan()[i].Segment? && k < req.Plan()[i].size
    ensures SampleVoxel(req, i, req.Plan()[i].topMargin, k) == cube.PositionOf(SamplePoint(req, i, k))
  {
    FetchedWhereSplined(req, i, req.Plan()[i].topMargin, req.Plan()[i].size, k);
  }

  /** Every sample that attributes are calculated from is the field at the point where it belongs. */
  lemma SampleIsField(req: Request, cube: D.Cube, i: nat, k: nat)
    requires req.meta.Valid() && Compatible(req.reference, req.top, req.bottom) && ReadsFrom(req, cube) && cube.Valid()
    requires i < req.Size() && req.Plan()[i].Segment? && k < req.Plan()[i].size
    ensures CellSamples(req, i)[k] == cube.Field(SamplePoint(req, i, k))
  {
    VoxelOfPoint(req, cube, i, k);
  }

  /** With two cubes, it is the operator applied to both fields at that point. */
  lemma SampleCombinesFields(req: Request, h: D.Handle, i: nat, k: nat)
    requires req.meta.Valid() && Compatible(req.reference, req.top, req.bottom)
    requires h.Valid() && ReadsFrom(req, h.Combined())
    requires i < req.Size() && req.Plan()[i].Segment? && k < req.Plan()[i].size
    ensures CellSamples(req, i)[k] == h.op(h.a.Field(SamplePoint(req, i, k)), h.b.Field(SamplePoint(req, i, k)))
  {
    SampleIsField(req, h.Combined(), i, k);
    D.FieldIsPointwise(h, SamplePoint(req, i, k));
  }

  /** Two cubes fill a slot in two passes: with the first cube's sample, and then with both samples combined. */
  ghost function DoubleFetch(req: Request, h: D.Handle): S.Fetch
    requires req.Valid() && h.Valid()
  {
    var voxels := Voxels(req, req.Size());
    S.Double((k: nat) => if k < |voxels| then h.a.value(h.InA(voxels[k])) else 0.0,
             (k: nat, x: real) => if k < |voxels| then h.op(x, h.b.value(h.InB(voxels[k]))) else 0.0)
  }

  /** They leave what the virtual cube holds, so all that is said of concurrent requests holds for two cubes as well. */
  lemma DoubleFetchIsFetched(req: Request, h: D.Handle)
    requires req.Valid() && h.Valid() && ReadsFrom(req, h.Combined())
    ensures Fetches(req, DoubleFetch(req, h)) && DoubleFetch(req, h).Passes() == 2
  {
    var voxels, fetch := Voxels(req, req.Size()), DoubleFetch(req, h);
    forall k: nat | k < |StoreValues(req)|
      ensures fetch.SampleAt(k) == StoreValues(req)[k]
    {
      D.CombinedValue(h, voxels[k]);
    }
  }

  /** In particular, concurrent requests to two cubes return what the sequential program leaves. */
  lemma DoubleConcurrentMatchesSequential(req: Request, h: D.Handle, s: S.State, actions: seq<S.Action>, a: nat)
    requires req.Valid() && h.Valid() && ReadsFrom(req, h.Combined()) && req.Size() > 0 && a < |req.attributes|
    requires var job := JobOf(req, DoubleFetch(req, h));
             job.Valid() && S.Initial(job, s) && S.IsRun(job, s, actions) && S.After(job, s, actions).main == S.Returned(true)
    ensures var end := S.After(JobOf(req, DoubleFetch(req, h)), s, actions);
            var lo, hi := Multiple(req.Size(), a), Multiple(req.Size(), a + 1);
            && lo <= hi <= |end.out| && hi <= Multiple(req.Size(), |req.attributes|)
            && S.Values(end.out[lo..hi]) == Maps(req, SampleLists(req, req.Size()))[lo..hi]
  {
    DoubleFetchIsFetched(req, h);
    ConcurrentMatchesSequential(req, DoubleFetch(req, h), s, actions, a);
  }
}
