/** Reading the samples of a range of cells from the cube store into the data array of a sub-volume. */
module Fetching {
  import opened Layout
  import opened Axes
  import opened Blueprints
  import opened Surfaces
  import opened SubVolumes
  import opened Attributes
  import opened AttributeCalculation

  /** A read is answered, or refused; and then the slots it was to fill hold anything, as when the first of two cubes was read. */
  datatype Read = Answered | Refused(left: nat -> real)

  datatype Outcome = Fetched | BadRange | CountMismatch | ReadRefused

  /** Where the samples of cell i are read. */
  function CellVoxels(req: Request, i: nat): (r: seq<Position>)
    requires req.meta.Valid() && Compatible(req.reference, req.top, req.bottom)
    requires i < req.Size()
    ensures |r| == SegmentSize(req.Plan()[i])
  {
    var cell := req.Plan()[i];
    if cell.Segment? then seq(cell.size, j requires 0 <= j < cell.size => SampleVoxel(req, i, cell.topMargin, j)) else []
  }

  /** The voxels of each of the first n cells. */
  function VoxelLists(req: Request, n: nat): (r: seq<seq<Position>>)
    requires req.meta.Valid() && Compatible(req.reference, req.top, req.bottom)
    requires n <= req.Size()
    ensures |r| == n
    ensures forall i :: 0 <= i < n ==> r[i] == CellVoxels(req, i)
  {
    if n == 0 then [] else VoxelLists(req, n - 1) + [CellVoxels(req, n - 1)]
  }

  lemma {:induction false} FlatLength<T>(parts: seq<seq<T>>, cells: seq<Cell>, n: nat)
    requires n <= |parts| == |cells|
    requires forall i :: 0 <= i < n ==> |parts[i]| == SegmentSize(cells[i])
    ensures |Flat(parts, n)| == Offset(cells, n)
  {
    if n > 0 {
      FlatLength(parts, cells, n - 1);
    }
  }

  /** Where the slots of the data array are read, for the first n cells. */
  function Voxels(req: Request, n: nat): (r: seq<Position>)
    requires req.meta.Valid() && Compatible(req.reference, req.top, req.bottom)
    requires n <= req.Size()
    ensures |r| == Offset(req.Plan(), n)
  {
    FlatLength(VoxelLists(req, req.Size()), req.Plan(), n);
    Flat(VoxelLists(req, req.Size()), n)
  }

  lemma VoxelsPrefix(req: Request, m: nat, n: nat)
    requires req.meta.Valid() && Compatible(req.reference, req.top, req.bottom)
    requires m <= n <= req.Size()
    ensures Voxels(req, m) <= Voxels(req, n)
  {
    FlatPrefix(VoxelLists(req, req.Size()), m, n);
  }

  /** What the store delivers for each slot of the data array. */
  function StoreValues(req: Request): (r: seq<real>)
    requires req.meta.Valid() && Compatible(req.reference, req.top, req.bottom)
    ensures |r| == Offset(req.Plan(), req.Size())
  {
    Reads(req.store, Voxels(req, req.Size()))
  }

  function Reads(store: Position -> real, voxels: seq<Position>): (r: seq<real>)
    ensures |r| == |voxels|
  {
    seq(|voxels|, k requires 0 <= k < |voxels| => store(voxels[k]))
  }

  lemma ReadsSlice(store: Position -> real, voxels: seq<Position>, lo: nat, hi: nat)
    requires lo <= hi <= |voxels|
    ensures Reads(store, voxels)[lo..hi] == Reads(store, voxels[lo..hi])
  {
  }

  /** The positions for one cell, appended to those found so far. An empty cell adds none. */
  method AppendCell(sv: SubVolume, req: Request, i: nat, samples: array<Position>, cur: nat, ghost done: seq<Position>)
    returns (next: nat)
    requires BuiltFor(sv, req) && i < req.Size()
    requires cur + |CellVoxels(req, i)| <= samples.Length
    requires samples[..cur] == done
    modifies samples
    ensures next == cur + |CellVoxels(req, i)|
    ensures samples[..next] == done + CellVoxels(req, i)
  {
    SegmentBounds(sv, req, i);
    FlatIndexInGrid(req.reference.grid, i);
    next := cur;
    if sv.IsEmpty(i) {
      return;
    }
    var meta := req.meta;
    var ij := meta.worldToAnnotation(sv.reference.grid.ToCdp(i));
    var iline, xline := meta.iline.ToSamplePosition(ij.x), meta.xline.ToSamplePosition(ij.y);
    var k := meta.sample.ToSamplePosition(RawTopPosition(sv.step, sv.zero, sv.top.values[i], sv.TopMargin(i)));
    var size := sv.NSamples(i, i + 1);
    for idx := 0 to size
      invariant next == cur + idx
      invariant samples[..next] == done + CellVoxels(req, i)[..idx]
    {
      samples[next] := PlaceVoxel(meta, iline, xline, k + idx as real);
      assert samples[next] == CellVoxels(req, i)[idx];
      next := next + 1;
    }
    assert CellVoxels(req, i)[..size] == CellVoxels(req, i);
  }

  /** The positions for the cells [from, to) are a slice of all positions, cut at the offsets. */
  lemma VoxelsBetween(req: Request, from: nat, to: nat)
    requires req.meta.Valid() && Compatible(req.reference, req.top, req.bottom)
    requires from <= to <= req.Size()
    ensures var between := Between(VoxelLists(req, req.Size()), from, to);
            Offset(req.Plan(), from) + |between| == Offset(req.Plan(), to)
            && between == Voxels(req, to)[Offset(req.Plan(), from)..]
  {
    BetweenIsRest(VoxelLists(req, req.Size()), from, to);
    assert |Voxels(req, from)| == Offset(req.Plan(), from) && |Voxels(req, to)| == Offset(req.Plan(), to);
  }

  ghost predicate AreCellVoxels(req: Request, parts: seq<seq<Position>>)
    requires req.meta.Valid() && Compatible(req.reference, req.top, req.bottom)
  {
    |parts| == req.Size() && forall i :: 0 <= i < |parts| ==> parts[i] == CellVoxels(req, i)
  }

  /** All positions for the cells [from, to): as many as there is room for, so that the array never overflows. */
  method CollectVoxels(sv: SubVolume, req: Request, ghost parts: seq<seq<Position>>, from: nat, to: nat, nsamples: nat)
    returns (samples: array<Position>, cur: nat)
    requires BuiltFor(sv, req) && AreCellVoxels(req, parts)
    requires from < to <= |parts| && nsamples == |Between(parts, from, to)|
    ensures fresh(samples) && samples.Length == nsamples == cur
    ensures samples[..] == Between(parts, from, to)
  {
    samples := new Position[nsamples](_ => [0.0, 0.0, 0.0]);
    cur := 0;
    for i := from to to
      invariant cur == |Between(parts, from, i)| <= nsamples
      invariant samples[..cur] == Between(parts, from, i)
    {
      BetweenRoom(parts, from, i, to);
      cur := AppendCell(sv, req, i, samples, cur, Between(parts, from, i));
    }
    assert samples[..cur] == samples[..];
  }

  /** Nothing has changed but the slots [lo, hi). */
  ghost predicate Kept(before: seq<real>, after: seq<real>, lo: nat, hi: nat) {
    |before| == |after| && forall k :: 0 <= k < |after| && !(lo <= k < hi) ==> after[k] == before[k]
  }

  /** The slots [lo, hi) hold the given values. */
  ghost predicate Filled(values: seq<real>, data: seq<real>, lo: nat, hi: nat) {
    |values| == |data| && lo <= hi <= |data| && forall k :: lo <= k < hi ==> data[k] == values[k]
  }

  /**
   Fills the slots of the cells [from, to) with what the store delivers there, and touches no other slot.
   The count of positions always matches the offset table.
   */
  method FetchSubvolume(sv: SubVolume, req: Request, from: nat, to: nat, read: Read) returns (outcome: Outcome)
    requires BuiltFor(sv, req) && from < to
    modifies sv.data
    ensures outcome.BadRange? <==> to > req.Size()
    ensures !outcome.CountMismatch?
    ensures !outcome.BadRange? ==> (outcome.ReadRefused? <==> read.Refused? && sv.offsets[from] < sv.offsets[to])
    ensures outcome.BadRange? ==> sv.data[..] == old(sv.data[..])
    ensures !outcome.BadRange? ==> Kept(old(sv.data[..]), sv.data[..], sv.offsets[from], sv.offsets[to])
    ensures outcome.Fetched? ==> Filled(StoreValues(req), sv.data[..], sv.offsets[from], sv.offsets[to])
  {
    if to > sv.reference.grid.Size() {
      return BadRange;
    }
    ReadyToFetch(sv, req, from, to);
    var nsamples := sv.NSamples(from, to);
    if nsamples == 0 {
      return Fetched;
    }
    outcome := FetchRange(sv, req, VoxelLists(req, req.Size()), from, to, nsamples, StoreValues(req), read);
  }

  /** Offsets, positions and values of the cells [from, to) fit together. */
  lemma ReadyToFetch(sv: SubVolume, req: Request, from: nat, to: nat)
    requires BuiltFor(sv, req) && from < to <= req.Size()
    ensures AreCellVoxels(req, VoxelLists(req, req.Size()))
    ensures to < sv.offsets.Length && sv.offsets[from] <= sv.offsets[to] <= sv.data.Length == |StoreValues(req)|
    ensures sv.offsets[to] - sv.offsets[from] == |Between(VoxelLists(req, req.Size()), from, to)|
    ensures StoreValues(req)[sv.offsets[from]..sv.offsets[to]] == Reads(req.store, Between(VoxelLists(req, req.Size()), from, to))
  {
    SlotsOfRange(req, from, to, Between(VoxelLists(req, req.Size()), from, to));
    BuiltOffsets(sv, req, from, to);
  }

  lemma BuiltOffsets(sv: SubVolume, req: Request, from: nat, to: nat)
    requires BuiltFor(sv, req) && from < to <= req.Size()
    ensures to < sv.offsets.Length && sv.offsets[from] == Offset(req.Plan(), from) && sv.offsets[to] == Offset(req.Plan(), to)
    ensures sv.data.Length == |StoreValues(req)| == Offset(req.Plan(), req.Size())
  {
  }

  /** Collects the positions of the cells [from, to), compares their number with the room for them, and reads. */
  method FetchRange(sv: SubVolume, req: Request, ghost parts: seq<seq<Position>>, from: nat, to: nat, nsamples: nat,
                    ghost values: seq<real>, read: Read)
    returns (outcome: Outcome)
    requires BuiltFor(sv, req) && AreCellVoxels(req, parts)
    requires from < to <= |parts| && nsamples == |Between(parts, from, to)|
    requires sv.offsets[from] + nsamples <= sv.data.Length == |values|
    requires values[sv.offsets[from]..sv.offsets[from] + nsamples] == Reads(req.store, Between(parts, from, to))
    modifies sv.data
    ensures outcome == if read.Refused? then ReadRefused else Fetched
    ensures Kept(old(sv.data[..]), sv.data[..], sv.offsets[from], sv.offsets[from] + nsamples)
    ensures outcome.Fetched? ==> Filled(values, sv.data[..], sv.offsets[from], sv.offsets[from] + nsamples)
  {
    var samples, cur := CollectVoxels(sv, req, parts, from, to, nsamples);
    if cur != nsamples {
      return CountMismatch;
    }
    if read.Refused? {
      LeaveSlots(read.left, sv.data, sv.offsets[from], nsamples);
      return ReadRefused;
    }
    ReadSlots(req.store, samples, sv.data, sv.offsets[from], values);
    return Fetched;
  }

  /** Slot by slot, the voxels collected for the cells [from, to) are those of the data array. */
  lemma SlotsOfRange(req: Request, from: nat, to: nat, voxels: seq<Position>)
    requires req.meta.Valid() && Compatible(req.reference, req.top, req.bottom)
    requires from <= to <= req.Size() && voxels == Between(VoxelLists(req, req.Size()), from, to)
    ensures Offset(req.Plan(), from) + |voxels| == Offset(req.Plan(), to) <= Offset(req.Plan(), req.Size())
    ensures StoreValues(req)[Offset(req.Plan(), from)..Offset(req.Plan(), to)] == Reads(req.store, voxels)
  {
    VoxelsBetween(req, from, to);
    VoxelsPrefix(req, to, req.Size());
    var lo, hi := Offset(req.Plan(), from), Offset(req.Plan(), to);
    PrefixSlice(Voxels(req, to), Voxels(req, req.Size()), lo);
    ReadsSlice(req.store, Voxels(req, req.Size()), lo, hi);
  }

  /** What a refused read leaves behind. */
  method LeaveSlots(left: nat -> real, data: array<real>, start: nat, n: nat)
    requires start + n <= data.Length
    modifies data
    ensures forall k :: 0 <= k < data.Length ==> data[k] == if start <= k < start + n then left(k) else old(data[k])
  {
    for i := 0 to n
      invariant forall k :: 0 <= k < data.Length ==> data[k] == if start <= k < start + i then left(k) else old(data[k])
    {
      data[start + i] := left(start + i);
    }
  }

  /** Reads a range of slots, of which the values are known. */
  method ReadSlots(store: Position -> real, samples: array<Position>, data: array<real>, start: nat, ghost values: seq<real>)
    requires start + samples.Length <= data.Length == |values|
    requires values[start..start + samples.Length] == Reads(store, samples[..])
    modifies data
    ensures forall k :: 0 <= k < data.Length ==>
              data[k] == if start <= k < start + samples.Length then values[k] else old(data[k])
  {
    ReadSamples(store, samples, data, start);
    assert forall k :: start <= k < start + samples.Length ==> values[k] == values[start..start + samples.Length][k - start];
  }

  /** The store fills part of a buffer, one value per position. */
  method ReadSamples(store: Position -> real, samples: array<Position>, data: array<real>, start: nat)
    requires start + samples.Length <= data.Length
    modifies data
    ensures forall m :: 0 <= m < data.Length ==>
              data[m] == if start <= m < start + samples.Length then store(samples[m - start]) else old(data[m])
  {
    for k := 0 to samples.Length
      invariant forall m :: 0 <= m < data.Length ==>
                  data[m] == if start <= m < start + k then store(samples[m - start]) else old(data[m])
    {
      data[start + k] := store(samples[k]);
    }
  }
}
