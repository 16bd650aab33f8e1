# A verified model of oneseismic-api

oneseismic-api serves slices, fences and attributes of seismic cubes. A client asks for attributes along one
horizon, or between two; for the traces below a line of points; or for a slice of the cube. The cube may also be
a virtual one, made of two cubes and a binary operator. This project models the calculations behind those answers
in Dafny and proves what the service relies on. `dafny verify dfyconfig.toml` checks all of it.

What the main theorems say, from the outside in:

- **The concurrent calculation.** `getAttributes` starts one worker per chunk of the surface, without locks, under
  a bounded channel, with a second bounded channel for the outcomes. In every interleaving no worker blocks on a
  channel, some step is possible until the call returns, the number of running workers is bounded, and runs are
  finite. A call that succeeds returns the sequential result, with every slot of the output written exactly once and
  every slot of the fetched data once for each cube, and afterwards nobody touches the shared memory
  (`SchedulerResults.ParallelEqualsSequential`, `Pipeline.ConcurrentMatchesSequential`,
  `Pipeline.ConcurrentSucceedsIff`, `SchedulerResults.QuietAfterReturn`).
- **The sub-volume.** The samples to fetch for each cell are planned with tolerant rounding and margins. Planning
  keeps every sample on the trace if and only if the trace has at least four samples
  (`VerticalWindows.PlanSoundIffFourSamples`), the offset table and the sparse margins agree with the plan, and the
  sample-count error of the fetch cannot occur (`Fetching.FetchSubvolume`).
- **Resampling.** The reference depth is always one of the resampled positions, and the exact condition under which
  a resampled window stays inside the domain of the spline is given and proved (`Blueprints.WithinSplineIff`).
- **Attributes.** The reused segment objects give what fresh ones would (`AttributeCalculation.CalcAttributes`), the
  median has the middle rank whatever the partial sort leaves (`AttributeMath.MedianFrom`), and the seventeen
  attributes of every window satisfy the laws that tie them together (`AttributeLaws`).
- **The maps.** In whatever way they were calculated, the maps hold the fill value where there is nothing to calculate
  from, and elsewhere the attributes of the complete window around the reference depth
  (`MapContents.MissingCell`, `MapContents.SegmentCell`, `MapContents.ConcurrentCell`).
- **Alignment.** A cell is compared with the closest node of the second surface under an exact condition on where it
  lies (`Alignment.ClosestValueUsedIff`), crossing surfaces are found at the first cell that shows it, and surfaces
  that do not cross reach the calculation in order.
- **Two cubes.** The intersection holds exactly the shared lines under an exact condition on the step
  (`CubeIntersection.IntersectionSoundIff`, `DoubleCubes.HandleIsValidIff`), and then every read of the virtual cube,
  and every attribute sample, is the operator applied to both fields at the same annotated point
  (`DoubleCubes.ReadTraces`, `DoubleAttributes.SampleCombinesFields`).
- **Slices, fences and the cache.** What a list of bounds selects, and when the metadata describes the contents of the
  buffer (`SubCubes.ShapeDescribesIff`); fill values in exactly the traces outside the cube; and exactly when a reply
  depends on the cache, in every interleaving, with arbitrary evictions and delays
  (`RequestCache.CachedEqualsCacheless`).

## Conventions

- Floating point numbers are real numbers; rotations are pairs (cos, sin) on the unit circle.
- The cube store, the makima spline, the square root and `std::nth_element` are parameters. Nothing is assumed of
  them but that a spline needs four points and a position between its first and its last, that a square root is one,
  and that `std::nth_element` rearranges and partitions.
- A box is stored with dimension 0 running fastest.
- The store counts sample positions from half a step before the first line, so that line k is at k + 1/2.
- Any read may be refused, at any time.
- Multiplications that only count places (`Layout.Multiple`) are repeated additions, proved equal to products.

## Where the code and its documentation differ

The model follows the code. Each of these is stated as an exact condition and, where it fails, with an input:

- An axis with two or three samples passes validation, but windows on it are refused or planned past its end
  (`VerticalWindows.PlanSoundIffFourSamples`, `VerticalWindows.ThreeSampleAxisOverruns`).
- The step is cast to an integer when the samples of an intersection are counted, so some steps that are not whole
  give too many samples, and steps below one a number that is not defined (`CubeIntersection.IntersectionSoundIff`,
  `CubeIntersection.StepOfOneAndAHalf`, `CubeIntersection.StepBelowOne`).
- Near the ends of a trace there may be no margin, and the tolerance can then ask the spline for a point just
  outside its domain (`Blueprints.WithinSplineIff`, `Blueprints.ZeroMarginEscapesSpline`).
- A depth that becomes the fill value when shifted is taken for missing (`Horizons.OnlyFillIsMissingIff`,
  `Horizons.ShiftOntoFill`), and so is a depth of a secondary surface that equals the fill value of the primary
  (`Alignment.OnlyUnmatchedIsMissingIff`, `Alignment.DepthMeetsOtherFill`).
- Bounds along the direction of a slice are said to be ignored; they have no effect on the result, but they are
  looked up, and the request fails if they do not exist (`SubCubes.SliceDirectionBoundsIff`,
  `SubCubes.BoundAlongSliceIsRefused`).
- The shape of a slice is given as if the axes of the cube were stored in the usual order, samples first and inlines
  last; other orders are accepted, and some of their slices then come out transposed (`SubCubes.ShapeDescribesIff`,
  `SubCubes.CustomOrderMisleads`).
- The closest point of a secondary surface is said to be used for every point of the primary; where that lies more
  than half a step outside the secondary grid the cell is left without data (`Alignment.ClosestValueUsedIff`,
  `Alignment.ClosestNodeIsNotUsed`).
- A cached answer is given to whoever counts as authorized, also when the data can no longer be opened, as for a file
  that is gone (`RequestCache.CachedEqualsCacheless`, `RequestCache.UnopenedIsServed`).

## Model

| member | source | states |
|---|---|---|
| `RealMath.FloorWithToleranceIff` | internal/core/subvolume.cpp:14-21 | The tolerant floor of x is n exactly when n - 0.001 < x <= n + 0.999. |
| `RealMath.CeilWithToleranceIff` | internal/core/subvolume.cpp:23-30 | The tolerant ceiling of x is n exactly when n - 0.999 <= x < n + 0.001. |
| `RealMath.CeilMirrorsFloor` | internal/core/subvolume.cpp:14-30 | The two tolerant roundings are mirror images of each other. |
| `RealMath.RoundIsNearest` | internal/core/cppapi_data.cpp:396-397 | Rounding gives an integer with no other integer closer. |
| `Axes.InRangeIff` | internal/core/axis.cpp:55-57 | A coordinate is in range exactly when its distance from the first line is between zero and the number of steps of the axis. |
| `Axes.PositionInRangeIff` | internal/core/axis.cpp:55-57 | The position of line k is in range exactly when k is the index of a line. |
| `Axes.MarginIff` | internal/core/axis.cpp:59-62 | The half-open margin leaves exactly the coordinates whose nearest line, halves rounded up, is on the axis. |
| `Axes.LineCentre` | internal/core/axis.cpp:64-66 | The store finds line k at k + 1/2. |
| `Blueprints.RoundUpBounds` | internal/core/subvolume.hpp:100-102 | The sample rounded up to falls short of the boundary by less than the tolerance, and passes it by less than one step. |
| `Blueprints.RoundDownBounds` | internal/core/subvolume.hpp:89-91 | The sample rounded down to passes the boundary by less than the tolerance, and falls short of it by less than one step. |
| `Blueprints.WindowSizeNotNegative` | internal/core/subvolume.hpp:71-74 | Ordered boundaries never give a negative number of samples (which an unsigned size would turn into a huge one). |
| `Blueprints.ReferenceInWindow` | internal/core/subvolume.hpp:200-246 | For top <= reference <= bottom the resampled window holds the reference, at the index counted from the top, at exactly the reference depth. |
| `Blueprints.ResampledPositionsBetweenEnds` | internal/core/subvolume.hpp:214-233 | Every resampled position lies between the top and the bottom position of the window. |
| `Blueprints.ResampledOvershoot` | internal/core/subvolume.hpp:214-233 | No resampled position leaves [top, bottom] by as much as the tolerance times the step. |
| `Blueprints.ResampledWindowIff` | internal/core/subvolume.hpp:200-246 | A depth m steps from the reference is in the resampled window, at the index m counted from that of the reference, exactly when it lies between the boundaries, up to a thousandth of a step. |
| `Blueprints.WithinSplineIff` | internal/core/subvolume.cpp:198-229 | The resampled window stays within the outermost source samples if and only if no whole number of steps from the reference slips past them inside the tolerance. |
| `Blueprints.MarginsKeepWithinSpline` | internal/core/subvolume.hpp:148-166 | With a margin of one sample on both sides, and a step no coarser than the source step, the spline is never asked for a point outside its domain. |
| `Blueprints.ZeroMarginEscapesSpline` | internal/core/subvolume.cpp:222-228 | Counterexample without a margin: the spline is asked for a point above its first sample. |
| `VerticalWindows.CalculateMargin` | internal/core/subvolume.cpp:118-134 | The loop finds the widest margin, up to the preferred one, whose outermost sample is on the axis (zero if there is none). |
| `VerticalWindows.Margin` | internal/core/subvolume.cpp:118-134 | Its result is the widest margin that fits: it fits or is zero, and no wider one up to the preferred margin fits. |
| `VerticalWindows.ChooseWindow` | internal/core/subvolume.cpp:136-173 | The step by step choice of margins is the planned window, and the flag that decides about storing the top margin is set exactly when it is not the preferred one. |
| `VerticalWindows.PlanCoversFour` | internal/core/subvolume.cpp:142-173 | Every planned window has at least four samples, and as many as there are between its outermost samples. |
| `VerticalWindows.PlanIsClampedWindow` | internal/core/subvolume.cpp:118-173 | On an axis with four samples or more the plan is an independently defined window: the boundary samples widened by two, cut at the ends of the axis, and then widened on the free side to four. |
| `VerticalWindows.PlanSoundIffFourSamples` | internal/core/subvolume.cpp:118-173 | For depths on the axis, planning succeeds with every sample on the axis if and only if the axis has at least four samples. |
| `VerticalWindows.TooSmallIff` | internal/core/subvolume.cpp:149-156 | The "too small" error is raised exactly for axes under four samples with both margins cut; so it is unreachable for all others. |
| `VerticalWindows.ThreeSampleAxisOverruns` | internal/core/subvolume.cpp:158-166 | On an axis of three samples a window at the first sample is planned past the last sample of the axis. |
| `VerticalWindows.ThreeSampleAxisExists` | internal/core/metadatahandle.cpp:81-98 | Such an axis passes metadata validation. |
| `VerticalWindows.WindowOnAxisIff` | internal/core/subvolume.hpp:148-166 | A window lies on the axis exactly when its first sample number leaves room for its size. |
| `VerticalWindows.WindowSampleCentre` | internal/core/cppapi_data.cpp:282-287 | Every sample of a window on the axis is found by the store at the centre of that sample. |
| `VerticalWindows.InteriorWindowWithinSpline` | internal/core/subvolume.cpp:118-173 | A window a thousandth of a step away from both trace ends, resampled no coarser than the trace, stays inside the fetched samples. |
| `Surfaces.FlatIndexInGrid` | internal/core/regularsurface.cpp:75-106 | A flat index below the size has a row and a column in the grid, and they lead back to it. |
| `Surfaces.NodeIndexInSurface` | internal/core/regularsurface.cpp:130-144 | A row and a column in the grid have a flat index below the size, and it leads back to them. |
| `Surfaces.CellPosition` | internal/core/regularsurface.cpp:87-106 | The cell in row r and column c lies r and c increments from the origin, turned by the angle. |
| `Surfaces.SameAsIff` | internal/core/regularsurface.cpp:67-73 | Grids compare equal exactly when they have as many rows and columns, with every node in the same place. |
| `Surfaces.InverseUndoesForward` | internal/core/regularsurface.cpp:23-65 | For every rotation and non-zero increments, going from grid to world coordinates and back is the identity. |
| `Surfaces.ForwardUndoesInverse` | internal/core/regularsurface.cpp:23-65 | Likewise from world to grid coordinates and back. |
| `Surfaces.DistanceInGridCoordinates` | internal/core/regularsurface.cpp:87-112 | World distance to a node is the distance in grid coordinates, weighted with the increments. |
| `Surfaces.RoundedNodeIsNearest` | internal/core/cppapi_data.cpp:394-397 | Rounding both grid coordinates of a world point gives a node that no other node of the lattice beats in world distance, for any rotation and any increments. |
| `SubVolumes.MakeSubvolume` | internal/core/subvolume.cpp:37-178 | Succeeds exactly when the grids agree and no cell fails; otherwise reports the error of the first failing cell; on success the offset table is the prefix sum of the planned segment sizes and the sparse margins are those used in planning. |
| `SubVolumes.CellOutcomes` | internal/core/subvolume.cpp:68-178 | When a cell is empty, fails with which error, or gets a segment, in terms of its depths, the fill values, the nearest lines of both horizontal axes and the ends of the trace. |
| `SubVolumes.SubVolume.constructor` | internal/core/subvolume.hpp:518-527 | One offset more than there are cells. |
| `SubVolumes.SubVolume.SkipCell` | internal/core/subvolume.cpp:76-100 | A skipped cell repeats the offset, and the table is correct for one cell more. |
| `SubVolumes.SubVolume.AddSegment` | internal/core/subvolume.cpp:168-173 | A segment adds its size to the offset and its top margin to the sparse map only when that is not the preferred one; the table is correct for one cell more. |
| `SubVolumes.AccessorsAgree` | internal/core/subvolume.hpp:468-495 | The accessors give back what was planned: a cell is empty exactly when a surface holds its fill value there or the nearest line in either horizontal direction, halves rounded up, does not exist; size and top margin are those of the plan. |
| `SubVolumes.OffsetsOrdered` | internal/core/subvolume.hpp:486-499 | Offsets never decrease and never leave the data array. |
| `SubVolumes.SegmentNotEmpty` | internal/core/subvolume.hpp:493-495 | A planned segment is never mistaken for an empty cell. |
| `SubVolumes.NeverTooSmall` | internal/core/subvolume.cpp:118-173 | With four samples or more on the axis no cell is too small, and all samples of a segment are on the axis. |
| `Alignment.CrossoverValidator.constructor` | internal/core/cppapi_data.cpp:352-372 | No order has been seen at first. |
| `Alignment.CrossoverValidator.HaveCrossed` | internal/core/cppapi_data.cpp:352-372 | Remembers both orders, and reports a pair exactly when it is strict and both orders have occurred. |
| `Alignment.MatchCell` | internal/core/cppapi_data.cpp:390-413 | A cell without data, or more than half a step outside the secondary grid, has no partner; any other has what the closest node of the secondary grid holds, if it holds a depth. |
| `Alignment.ClosestNodeUsedIff` | api/handlers/attributes.go:197-207 | The node looked at is one of the secondary grid, and none is closer in world distance, if and only if the cell lies within half a row and half a column of that grid. |
| `Alignment.ClosestNodeIsClosest` | internal/core/regularsurface.cpp:108-112 | Wherever a cell lies, the closest node of the bounded grid is the rounded one, cut at the edges. |
| `Alignment.ClosestValueUsedIff` | internal/core/cppapi_data.cpp:394-413 | A cell with data gets what the closest node holds if and only if it lies within that half step, or the closest node has no data either. |
| `Alignment.ClosestNodeIsNotUsed` | internal/core/cppapi_data.cpp:399-404 | Input that fails: over a secondary surface of one node, the second node of the primary is left without a depth. |
| `Alignment.OnlyUnmatchedIsMissingIff` | internal/core/core_attributes.go:135-144 | Between two surfaces exactly the cells without data in one of them are skipped if and only if no matched depth equals the fill value of the primary. |
| `Alignment.DepthMeetsOtherFill` | internal/core/cppapi_data.cpp:413 | Input that fails: a secondary depth that is the fill value of the primary. |
| `Alignment.AlignSurfaces` | internal/core/cppapi_data.cpp:376-425 | Fails exactly when some cells order the surfaces one way and some the other, at the row and column of the first cell where both have been seen; otherwise every cell holds its partner or fill, and the flag tells whether the primary is above somewhere. |
| `Alignment.UncrossedSurfacesAreOrdered` | internal/core/core_attributes.go:160-169 | Surfaces that do not cross, swapped the way the flag tells, satisfy top <= reference <= bottom in every cell with data. |
| `Alignment.ChosenNodeIsNearest` | internal/core/cppapi_data.cpp:394-406 | The node looked at is nearest in world distance among all nodes of the secondary grid. |
| `Alignment.SameGridIsCopied` | internal/core/cppapi_data.cpp:389-413 | A secondary surface on the primary grid is copied cell for cell, apart from fill. |
| `Horizons.FillRow` | internal/core/core.go:367-373 | One row is shifted and appended, fill values unshifted. |
| `Horizons.ToCdata` | internal/core/core.go:351-376 | The depth in row i and column j stands at i times the number of columns plus j, shifted unless it is the fill value; or the first row is named whose length differs from that of row 0. |
| `Horizons.RowsShiftTogether` | internal/core/core.go:357-374 | Shifting row by row is shifting the flattened horizon. |
| `Horizons.AlongSurfacesAreOrdered` | internal/core/core_attributes.go:47-89 | The three surfaces made from one horizon are ordered in every cell with data. |
| `Horizons.OnlyFillIsMissingIff` | internal/core/core.go:368-372 | Exactly the cells without data are skipped if and only if no shifted depth equals the fill value. |
| `Horizons.ShiftOntoFill` | internal/core/core.go:368-372 | Counterexample: a depth whose shifted value is the fill value. |
| `Fetching.AppendCell` | internal/core/cppapi_data.cpp:269-289 | Adds one position per sample of a cell, and none for an empty cell. |
| `Fetching.CollectVoxels` | internal/core/cppapi_data.cpp:266-289 | Collects the positions of all cells of the range, in order, and exactly fills the array. |
| `Fetching.FetchRange` | internal/core/cppapi_data.cpp:266-304 | The number of collected positions always equals the number of slots; a refused read may leave anything in the slots of the range, but no other slot is written. |
| `Fetching.FetchSubvolume` | internal/core/cppapi_data.cpp:243-305 | Each slot of the range gets what the store holds at its position, unless the read is refused; no other slot changes in either case; the sample-count mismatch error cannot occur. |
| `Fetching.ReadSamples` | internal/core/cppapi_data.cpp:298-304 | The store fills the slots from the given start, one per position. |
| `Fetching.SlotsOfRange` | internal/core/cppapi_data.cpp:262-289 | Slot by slot, positions collected for a range are those that the offset table assigns to the range. |
| `AttributeMath.Accumulate` | internal/core/attribute.cpp:90-103 | The running sum is the sum over all samples. |
| `AttributeMath.SumConcat` | internal/core/attribute.cpp:89-103 | A sum is made up of the sums of its parts, down to single samples. |
| `AttributeMath.AccumulateWhere` | internal/core/attribute.cpp:105-135 | Sum and number of the samples with a given sign, in one pass. |
| `AttributeMath.MeanSquareSplits` | internal/core/attribute.cpp:161-191 | The square of the root mean square is the square of the mean plus the variance. |
| `AttributeMath.AbsoluteSplits` | internal/core/attribute.cpp:199-217 | The sums of positive and negative samples add up to the sum, and their difference is the sum of absolute values. |
| `AttributeMath.MeanAbsFromSums` | internal/core/attribute.cpp:97-103 | n times the mean of absolute values is the sum of positive samples less the sum of negative ones. |
| `AttributeMath.MaxElement` | internal/core/attribute.cpp:21-50 | Finds the first sample with the largest key. |
| `AttributeMath.FirstMax` | internal/core/attribute.cpp:21-63 | The first sample with the largest key: no key is larger, and all earlier ones are smaller. |
| `AttributeMath.FirstMaxUnique` | internal/core/attribute.cpp:21-63 | There is only one such sample. |
| `AttributeMath.FindAbs` | internal/core/attribute.cpp:78-85 | Finds the first sample with the given absolute value, or the end. |
| `AttributeMath.MaxAbsIndex` | internal/core/attribute.cpp:73-88 | The search by value always succeeds, at the first sample with the largest absolute value. |
| `AttributeMath.RankUnique` | internal/core/attribute.cpp:137-159 | Only one value has a given rank among the samples, in whatever order they are. |
| `AttributeMath.RankIff` | internal/core/attribute.cpp:137-159 | A value has rank k when at most k samples are smaller and more than k are not larger, as sets of places. |
| `AttributeMath.MedianRanks` | internal/core/attribute.cpp:137-159 | The median of sorted samples, by ranks among the samples as they came. |
| `AttributeMath.SettledElement` | internal/core/attribute.cpp:149-151 | The middle element that any correct partial sort leaves is the middle of the fully sorted samples. |
| `AttributeMath.LargestBefore` | internal/core/attribute.cpp:152-154 | The largest element it leaves before the middle is the one before the middle of the sorted samples. |
| `AttributeMath.MedianFrom` | internal/core/attribute.cpp:137-159 | For an odd count the result has the middle rank among the samples, for an even count it is half way between the two samples of middle rank, whatever the partial sort leaves. |
| `AttributeLaws.Extremes` | internal/core/attribute.cpp:13-40 | MIN and MAX are samples and bound all samples, the VALUE at the reference among them. |
| `AttributeLaws.MinimumDepth` | internal/core/attribute.cpp:27-34 | MINAT is the depth of the first sample with the minimum. |
| `AttributeLaws.MaximumDepth` | internal/core/attribute.cpp:42-50 | MAXAT is the depth of the first sample with the maximum. |
| `AttributeLaws.MaxAbsDepth` | internal/core/attribute.cpp:73-88 | MAXABSAT is the depth of the first sample with the largest absolute value. |
| `AttributeLaws.MaxAbsFromExtremes` | internal/core/attribute.cpp:52-71 | MAXABS is the larger of MAX and minus MIN. |
| `AttributeLaws.MeanBetween` | internal/core/attribute.cpp:90-95 | MEAN is between MIN and MAX. |
| `AttributeLaws.MeanAndSums` | internal/core/attribute.cpp:90-95 | n times MEAN is SUMPOS plus SUMNEG. |
| `AttributeLaws.MeanAbsAndSums` | internal/core/attribute.cpp:97-103 | n times MEANABS is SUMPOS less SUMNEG. |
| `AttributeLaws.MeanPosAndSum` | internal/core/attribute.cpp:105-119 | MEANPOS times the number of samples above zero is SUMPOS; zero when there are none. |
| `AttributeLaws.MeanNegAndSum` | internal/core/attribute.cpp:121-135 | MEANNEG times the number of samples below zero is SUMNEG; zero when there are none. |
| `AttributeLaws.MedianBetween` | internal/core/attribute.cpp:137-159 | MEDIAN is between MIN and MAX. |
| `AttributeLaws.MedianInTheMiddle` | internal/core/attribute.cpp:137-159 | MEDIAN has the middle rank, or lies half way between the two samples of middle rank. |
| `AttributeLaws.RmsFromMeanAndVar` | internal/core/attribute.cpp:161-170 | The square of RMS is the square of MEAN plus VAR. |
| `AttributeLaws.RmsAndSquares` | internal/core/attribute.cpp:161-170 | The square of RMS times the number of samples is the sum of their squares. |
| `AttributeLaws.VarAndSd` | internal/core/attribute.cpp:172-197 | VAR is never negative, zero exactly when MIN equals MAX, and the square of SD. |
| `Attributes.FetchedWhereSplined` | internal/core/cppapi_data.cpp:282-287 | Each sample is read at exactly the depth that the spline is later told it has. |
| `Attributes.VoxelsInsideCube` | internal/core/cppapi_data.cpp:269-296 | Every sample of a planned segment is read inside the cube along both horizontal axes. |
| `Attributes.VoxelsOnTrace` | internal/core/cppapi_data.cpp:282-287 | On a trace of four samples or more it is read inside the cube vertically as well, at the centre of a sample. |
| `Attributes.ValueIsAtReference` | internal/core/attribute.cpp:13-19 | The VALUE attribute is the spline at exactly the reference depth. |
| `Attributes.CellOkIff` | internal/core/subvolume.cpp:198-229 | A cell can be resampled exactly when its resampled window lies within its outermost source samples. |
| `Attributes.InteriorCellOk` | internal/core/subvolume.cpp:198-229 | Windows away from the trace ends, resampled no coarser than the trace, can always be resampled. |
| `AttributeCalculation.SamplePositions` | internal/core/subvolume.hpp:268-277 | The loop gives the positions of all samples of a segment, evenly spaced from its top. |
| `AttributeCalculation.RawSegment.Reinitialize` | internal/core/subvolume.hpp:337-349 | A reused source segment becomes the one of the new cell. |
| `AttributeCalculation.RawSegment.constructor` | internal/core/subvolume.hpp:321-335 | A source segment of one cell. |
| `AttributeCalculation.ResampledSegment.constructor` | internal/core/subvolume.hpp:392-400 | A resampled segment with room for exactly its window. |
| `AttributeCalculation.ResampledSegment.Reinitialize` | internal/core/subvolume.hpp:402-406 | A reused resampled segment has the new boundaries and exactly the room they need. |
| `AttributeCalculation.Resample` | internal/core/subvolume.cpp:198-229 | On success the destination holds the spline at all its positions and nothing of what it held before; it succeeds exactly when all of them are in the domain of the spline. |
| `AttributeCalculation.Compute` | internal/core/attribute.cpp:13-217 | Each attribute, calculated the way the program does, is the value its name promises for the resampled samples. |
| `AttributeCalculation.ComputeVariance` | internal/core/attribute.cpp:174-183 | The two passes give the variance. |
| `AttributeCalculation.WriteAttribute` | internal/core/attribute.hpp:21-29 | The bounds check lets through exactly the cells of the surface, and a write changes the one slot of that attribute and cell. |
| `AttributeCalculation.WriteCell` | internal/core/attribute.cpp:232-246 | All attributes of a cell are written, the fill value of the reference surface where the cell is empty, and no other cell changes. |
| `AttributeCalculation.ResampleCell` | internal/core/attribute.cpp:239-241 | Reinitializing the two reused objects and resampling gives what fresh objects for that cell would hold. |
| `AttributeCalculation.CalcRange` | internal/core/attribute.cpp:231-247 | The loop, with whatever the two reused objects hold at its start. |
| `AttributeCalculation.CalcAttributes` | internal/core/attribute.cpp:219-248 | Every cell of the range gets the values of fresh objects; every attribute of an empty one gets the fill value of the reference surface; nothing outside the range changes; it fails exactly when a cell of the range cannot be resampled. |
| `AttributeLaws.CellWindow` | internal/core/attribute.cpp:219-248 | What is written for a cell with a segment is the attribute of a window around the reference depth, complete between the boundaries, whose samples are the spline at their depths. |
| `Layout.HoldsAtIff` | internal/core/attribute.hpp:21-29 | Attribute a of cell i is held at a times the number of cells plus i. |
| `Scheduler.ChunkLimits` | internal/core/core_attributes.go:263-302 | The chunks are ncols consecutive non-empty blocks that end at nrows times ncols. |
| `Scheduler.ErrsCapacityFormula` | internal/core/core_attributes.go:271 | The errs channel has room for one report per chunk, and one more. |
| `Scheduler.PlacesDiffer` | internal/core/capi.cpp:374-378 | Two different (attribute, cell) pairs never share a place in the output buffer. |
| `SchedulerSafety.InitialInv` | internal/core/core_attributes.go:251-274 | The invariant holds at the start, whatever the buffers hold. |
| `SchedulerSafety.StepKeepsInv` | internal/core/core_attributes.go:274-311 | Every step of the main routine and of any worker keeps the invariant: chunks handed out, channel contents, and what each worker has written. |
| `SchedulerSafety.RunKeepsInv` | internal/core/core_attributes.go:274-311 | The invariant holds after every interleaving. |
| `SchedulerSafety.WorkerFrame` | internal/core/capi.cpp:380-396 | A worker does not notice what happens outside its own chunk. |
| `SchedulerSafety.WorkerKeepsMemory` | internal/core/capi.cpp:380-396 | A step of one worker changes no slot of another worker's chunk, in the fetched data or in the output. |
| `SchedulerSafety.WorkersNeverBlock` | internal/core/core_attributes.go:293-294 | No worker ever blocks on reporting or on giving back its place. |
| `SchedulerSafety.NoDeadlock` | internal/core/core_attributes.go:274-311 | Until the call returns some step is enabled. |
| `SchedulerSafety.BoundedConcurrency` | internal/core/core_attributes.go:257-275 | In every run at most max(nrows / 2, 1) workers run at any time, and while chunks are left the main routine waits exactly when that many do. |
| `SchedulerResults.StepLowersRank` | internal/core/core_attributes.go:274-311 | Every step lowers a rank that is never negative. |
| `SchedulerResults.RunsAreBounded` | internal/core/core_attributes.go:274-311 | So no interleaving is longer than the rank of its first state. |
| `SchedulerResults.StuckMeansReturned` | internal/core/core_attributes.go:304-323 | A run that cannot go on has returned, and no worker is left behind. |
| `SchedulerResults.ReturnedMeansAllReported` | internal/core/core_attributes.go:304-315 | The call returns only after every chunk has reported, and successfully exactly when none failed. |
| `SchedulerResults.QuietAfterReturn` | internal/core/core_attributes.go:238 | Once the call has returned no worker touches the sub-volume or the buffer again, so the sub-volume can be freed. |
| `SchedulerResults.ParallelEqualsSequential` | internal/core/core_attributes.go:211-323 | After every successful interleaving the slice returned for each attribute is the sequential result; every slot of the buffer was written exactly once, and every slot of the sub-volume once for each cube it is read from. |
| `SchedulerResults.SucceedsUnlessRefused` | internal/core/core_attributes.go:280-315 | Without refused reads, and with cells that can all be resampled, no interleaving fails. |
| `SchedulerResults.SucceedsIff` | internal/core/core_attributes.go:280-315 | Without refused reads a call succeeds exactly when every cell can be resampled. |
| `SchedulerResults.RefusedReadIsReturned` | internal/core/core_attributes.go:293-315 | A refused read is never lost: however the run goes on, the call does not succeed. |
| `Pipeline.CalculateSequentially` | internal/core/capi.cpp:380-396 | Fetching and calculating everything in one piece leaves the maps of all attributes, from what the store holds for each cell, and fails exactly when some cell cannot be resampled. |
| `Pipeline.SingleFetch` | internal/core/cppapi_data.cpp:298-304 | One cube fills every slot, in one pass, with what the store holds there. |
| `Pipeline.ConcurrentMatchesSequential` | internal/core/core_attributes.go:211-323 | Whatever the interleaving, and whether slots are filled from one cube or from two, a successful concurrent call returns the maps that the sequential program leaves. |
| `MapContents.MissingCell` | internal/core/attribute.cpp:219-248 | In the maps of a request a cell with a missing depth, or outside the cube along either horizontal axis, holds the fill value of the reference surface. |
| `MapContents.SegmentCell` | internal/core/attribute.cpp:219-248 | Every other cell holds the attribute of a window with a sample at each whole number of steps from the reference between the boundaries, each the spline at its depth through the fetched samples. |
| `MapContents.ConcurrentCell` | internal/core/core_attributes.go:211-323 | Cell by cell, a successful concurrent call leaves what the maps of the request hold. |
| `MapContents.ConcurrentMissingCell` | internal/core/core_attributes.go:211-323 | So it leaves the fill value wherever a depth is missing or the cell lies outside the cube. |
| `Pipeline.ConcurrentSucceedsIff` | internal/core/core_attributes.go:280-315 | And it succeeds exactly when the sequential program does, as long as no read is refused. |
| `Pipeline.SlotsOfCell` | internal/core/subvolume.hpp:474-484 | The slots between two offsets hold exactly the samples of that cell. |
| `Pipeline.InteriorRequestSucceeds` | internal/core/core_attributes.go:211-323 | With windows away from the trace ends and a step no coarser than the trace, only a refused read makes a request fail. |
| `Pipeline.BetweenFailsOnlyOffAxis` | internal/core/subvolume.cpp:85-116 | Between surfaces that alignment accepts, on an axis of four samples or more, the "not ordered" and "too small" errors are unreachable: a cell fails only for a depth off the axis. |
| `Pipeline.AlongFailsOnlyOffAxis` | internal/core/subvolume.cpp:85-116 | Along one horizon likewise. |
| `DoubleAttributes.SampleIsField` | internal/core/cppapi_data.cpp:269-304 | Every sample that attributes are calculated from is the seismic field below the surface node, at the depth where the sample belongs. |
| `DoubleAttributes.SampleCombinesFields` | internal/core/datahandle.cpp:352-398 | With two cubes it is the operator applied to both fields at that point. |
| `DoubleAttributes.DoubleFetchIsFetched` | internal/core/datahandle.cpp:379-397 | Filling a slot from the first cube and then combining in place leaves what the virtual cube holds. |
| `DoubleAttributes.DoubleConcurrentMatchesSequential` | internal/core/core_attributes.go:211-323 | So concurrent requests to two cubes, whose slots are written twice, return the sequential maps of the virtual cube. |
| `CubeIntersection.IntersectionEnds` | internal/core/metadatahandle.cpp:197-202 | The ends of the intersection are the first and the last line that both axes have. |
| `CubeIntersection.CountIff` | internal/core/metadatahandle.cpp:200 | The calculated number of samples is never too small, and right exactly when the cast of the step to an int is harmless. |
| `CubeIntersection.AcceptedIff` | internal/core/metadatahandle.cpp:81-98 | Axes on one ruler are accepted exactly when they share two lines or more. |
| `CubeIntersection.OutcomeIff` | internal/core/metadatahandle.cpp:164-203 | When each outcome of combining two axes is returned, in terms of names, units, steps, whether the lines of one continue those of the other, and whether two lines are shared. |
| `CubeIntersection.SharedLinesIff` | internal/core/metadatahandle.cpp:164-203 | The intersection holds exactly the lines of both axes if and only if the error of the cast, summed over the shared steps, stays below one cast step. |
| `CubeIntersection.IntersectionSoundIff` | internal/core/metadatahandle.cpp:164-203 | Accepted with exactly the shared lines if and only if the step is at least one, two lines are shared, and the cast is harmless. |
| `CubeIntersection.StepBelowOne` | internal/core/metadatahandle.cpp:200 | For steps below one, however many lines are shared, and for no others, the count is converted from a quotient that is not finite, which leaves it undefined. |
| `CubeIntersection.WholeStepsAreHarmless` | internal/core/metadatahandle.cpp:200 | For whole steps the cast is always harmless. |
| `CubeIntersection.StepOfOneAndAHalf` | internal/core/metadatahandle.cpp:200 | Input that fails: lines 0, 1.5 and 3, combined with themselves, are given four samples. |
| `CubeIntersection.MakeAxisSwaps` | internal/core/metadatahandle.cpp:164-203 | The intersection does not depend on which cube comes first. |
| `CubeIntersection.OffsetsAgreeWithAxis` | internal/core/coordinate_transformer.hpp:84-95 | The offsets, calculated elsewhere, are in their cubes, one of them is zero, and both lead to the first line of the intersection. |
| `CubeIntersection.StaysInsideIff` | internal/core/coordinate_transformer.hpp:84-95 | Offset by them, every line of the intersection is inside both cubes under the very condition that makes the lines right. |
| `DoubleCubes.AxisAndOffsetsAreAligned` | internal/core/coordinate_transformer.hpp:58-96 | Axis and offsets, each calculated in its own way, describe the same lines. |
| `DoubleCubes.MakeHandle` | internal/core/metadatahandle.cpp:286-311 | A handle is made exactly when along every axis the dimensions agree and the intersection passes validation; it has those intersections, and the offsets of the transformer. |
| `DoubleCubes.AlignedIff` | internal/core/coordinate_transformer.hpp:84-95 | Of an intersection that passes validation, axis and offsets describe the same lines if and only if the lines are counted right. |
| `DoubleCubes.HandleIsValidIff` | internal/core/datahandle.cpp:184-200 | So a handle reads the virtual cube rightly if and only if the lines are counted right along every axis. |
| `DoubleCubes.FieldIsPointwise` | internal/core/coordinate_transformer.hpp:129-151 | The field of the virtual cube is the operator applied to both fields at the same annotated point, for any order of dimensions. |
| `DoubleCubes.SamePointInA` | internal/core/coordinate_transformer.hpp:129-136 | A position of the intersection and the shifted position in cube a are the same annotated point. |
| `DoubleCubes.SamePointInB` | internal/core/coordinate_transformer.hpp:144-151 | Likewise in cube b. |
| `DoubleCubes.ToCubePosition` | internal/core/coordinate_transformer.hpp:129-151 | The loop shifts each dimension by the offset of its axis. |
| `DoubleCubes.InplaceOperator` | internal/core/datahandle.cpp:400-422 | Combines two buffers sample by sample, in place. |
| `DoubleCubes.ReadSamples` | internal/core/datahandle.cpp:352-398 | Each sample is the operator applied to what both cubes hold at the shifted positions. |
| `DoubleCubes.ReadSubcube` | internal/core/datahandle.cpp:230-262 | Each place of the buffer holds the operator applied to both fields at the lines of its voxel, for any order in which the store lays out a box of given extents. |
| `DoubleCubes.ExtractPart` | internal/core/datahandle.cpp:331-344 | Cuts the same part out of every trace, always in bounds, into consecutive parts. |
| `DoubleCubes.ReadTraces` | internal/core/datahandle.cpp:268-329 | Traces read from both cubes, cut to the shared samples, and combined, are those of the virtual cube. |
| `DoubleCubes.SwappedAxis` | internal/core/metadatahandle.cpp:164-203 | Swapping the cubes leaves the axes unchanged. |
| `DoubleCubes.SwappedOffsets` | internal/core/coordinate_transformer.hpp:84-95 | Swapping the cubes swaps the offsets. |
| `DoubleCubes.SwappedHandle` | internal/core/datahandle.cpp:184-200 | The handle made from the cubes the other way round has the same axes, and the offsets the other way round. |
| `DoubleCubes.CommutativeSwap` | internal/core/datahandle.cpp:400-422 | For commutative operators, sums and products among them, the handles made from the cubes in either order read the same virtual cube. |
| `SubCubes.ToVoxelIff` | internal/core/subcube.cpp:13-71 | A line number leads to index k exactly when k is on the axis and the number is what line k is called in that coordinate system. |
| `SubCubes.CheckBounds` | internal/core/core_slice.go:13-37 | Refuses exactly the lists in which the upper line of a bound is less than its lower. |
| `SubCubes.SubCube.constructor` | internal/core/subcube.cpp:75-83 | Starts with the whole cube. |
| `SubCubes.SubCube.Constrain` | internal/core/subcube.cpp:86-101 | Applies the bounds one after the other, and fails at the first that does not exist. |
| `SubCubes.SubCube.SetSlice` | internal/core/subcube.cpp:103-112 | Cuts the box down to one line, if there is such a line. |
| `SubCubes.ConstrainedIff` | internal/core/subcube.cpp:86-101 | Constraining succeeds exactly when every single bound exists, overruled or not. |
| `SubCubes.LastBoundWins` | internal/core/subcube.cpp:90-100 | Along every axis only the last bound counts, end included, and an axis without bounds keeps what it had. |
| `SubCubes.LastBoundIs` | internal/core/subcube.cpp:90-100 | The last bound along an axis is the one with none along that axis after it. |
| `SubCubes.ConstrainedStaysInside` | internal/core/subcube.cpp:86-101 | Whatever bounds are accepted, 0 <= lower < upper <= samples along every axis. |
| `SubCubes.SlicedStaysInside` | internal/core/subcube.cpp:103-112 | A slice keeps that, and is one line thick. |
| `SubCubes.SliceDirectionBoundsIff` | api/handlers/slice.go:87-93 | Leaving out the bounds along the slice direction gives the same answer if and only if they all exist or the rest fails anyway. |
| `SubCubes.BoundAlongSliceIsRefused` | internal/core/subcube.cpp:90-96 | Counterexample for every cube: a bound along the slice direction that is not ignored. |
| `SubCubes.PlanSlice` | internal/core/cppapi_data.cpp:151-153 | The whole of it: a request is accepted exactly when no bound ends before it starts and all lines it names exist, and selects a non-empty box one line thick, the one that the list of bounds describes. |
| `SubCubes.SliceBoxIff` | internal/core/subcube.cpp:54-112 | A box is found exactly when the line of the slice and both lines of every bound exist, by position or by index. |
| `SubCubes.ShapeIsBufferSize` | internal/core/cppapi_metadata.cpp:169-188 | The shape in the metadata accounts for every value of the buffer. |
| `SubCubes.ShapeDescribesIff` | internal/core/cppapi_metadata.cpp:169-188 | For every cube, the value in row r and column c of a buffer of that shape is the one r lines along y and c lines along x, if and only if the x axis lies before the y axis in the store, or the slice is a single line. |
| `SubCubes.ShapeDescribesBuffer` | internal/core/cppapi_metadata.cpp:169-188 | Under that condition the buffer is as the shape says, whatever the cube holds. |
| `SubCubes.ShapeMisleads` | internal/core/cppapi_metadata.cpp:169-188 | Without it a cube that holds its own line numbers shows the difference. |
| `SubCubes.UsualOrder` | internal/core/cppapi_metadata.cpp:178-188 | With the sample axis first and the inline axis last, every direction meets it. |
| `SubCubes.CustomOrderMisleads` | testdata/well_known/transform_well_known.py:38-45 | Input that fails: with crosslines first, inlines second and samples last, every inline is misdescribed. |
| `SubCubes.DescribedLinesIff` | internal/core/cppapi_metadata.cpp:46-69 | A line was selected exactly when its position is between the minimum and maximum of the metadata. |
| `SubCubes.DescribedAxisIsRequested` | internal/core/cppapi_metadata.cpp:46-69 | Minimum and maximum repeat the requested line numbers of the last bound, or are those of the whole axis. |
| `SubCubes.SliceLiesAtLine` | internal/core/subcube.cpp:103-112 | The slice lies at the line that was asked for. |
| `Fence.TraceIsField` | internal/core/cppapi_data.cpp:221-235 | The trace below a point holds the field at that point, at the depth of each sample. |
| `Fence.WriteFillvalue` | internal/core/cppapi_data.cpp:107-121 | Blanks exactly the recorded traces, also when one is recorded twice. |
| `Fence.RecordPoint` | internal/core/cppapi_data.cpp:203-219 | A point is recorded exactly when it is outside in one direction at least. |
| `Fence.LocatePoints` | internal/core/cppapi_data.cpp:197-223 | Fails exactly when there is no fill value and a point is outside; records exactly the points outside. |
| `Fence.ServableIff` | internal/core/cppapi_data.cpp:197-219 | Points can be served exactly when each is near lines of the cube in both directions, or there is a fill value. |
| `Fence.FillOutside` | internal/core/cppapi_data.cpp:236-238 | Fill in exactly the traces of points outside, source data elsewhere. |
| `Fence.FenceThrough` | internal/core/cppapi_data.cpp:163-240 | Below each point the samples are the field at their depths, or fill where the nearest line of either horizontal axis, halves rounded up, does not exist; without a fill value it succeeds exactly when there is no such point. |
| `Fence.FenceThroughBoth` | internal/core/cppapi_data.cpp:163-240 | Likewise for two cubes, with the operator applied to both fields. |
| `Layout.RowOfIs` | internal/core/cppapi_data.cpp:197-219 | The samples below point i are the stretch that starts at i times the number of samples of a trace. |
| `RequestCache.Endpoint.constructor` | internal/cache/cache.go:38-41 | Starts with an empty cache. |
| `RequestCache.Endpoint.MakeDataRequest` | api/handlers/endpoint.go:72-118 | The reply and what is stored, case by case: errors of connections and of the key, a stored answer exactly when it is found and every connection may read, an error of the handle, and otherwise what is calculated, stored if it is an answer. |
| `RequestCache.StepKeepsCache` | api/handlers/endpoint.go:84-117 | Arrivals, completions, delayed and dropped writes, and evictions all leave nothing but right answers in the cache. |
| `RequestCache.StepKeepsReplies` | api/handlers/endpoint.go:84-117 | And every reply is the one of a server without a cache, or, from the cache, the one an authorized reader gets who can open the data. |
| `RequestCache.ServedDiffersIff` | api/handlers/endpoint.go:89-107 | A reply differs from the one without a cache exactly when the answer is found, the reader is authorized, and yet no handle could be opened. |
| `RequestCache.CachedEqualsCacheless` | api/handlers/endpoint.go:84-117 | In every interleaving of requests with arbitrary evictions, a reply differs from the one of a server without a cache if and only if it came from the cache while no handle could be opened; and then it is the one that server gives as soon as one can be. |
| `RequestCache.CacheIsInvisible` | api/handlers/endpoint.go:84-117 | So where whoever may read can also open, no reply tells whether there is a cache. |
| `RequestCache.UnopenedIsServed` | internal/core/connection.go:156-158 | Run that shows the difference: a reader who counts as authorized is answered from the cache although nothing can be opened. |
| `RequestCache.WrongAnswerIsServed` | api/handlers/endpoint.go:84-117 | If two requests with one key have different answers there is a run that serves the wrong one; so keys must determine answers. |
| `RequestCache.EveryRequestIsAnswered` | api/handlers/endpoint.go:72-118 | Every request has been answered or can be finished with a reply. |
| `RequestCache.UnauthorizedGetsNothingCached` | api/handlers/endpoint.go:90-102 | The reply to a reader who lacks authorization for one connection does not depend on the cache. |
| `RequestKeys.EncodeIff` | internal/cache/cache.go:125-139 | Two values of one type have the same encoding exactly when their fields agree, up to optional fields that are set to zero in one and not set in the other. |
| `RequestKeys.FenceEncodingIff` | api/handlers/fence.go:119-141 | Fence requests have the same key material exactly when they differ in nothing but their access tokens. |
| `RequestKeys.PlainFenceEncodingIff` | api/handlers/fence.go:119-125 | Without the flag exactly "no fill value" and "fill value 0" would be confused. |
| `RequestKeys.FenceKeysDetermine` | api/handlers/fence.go:127-141 | With a collision-free hash, fence keys determine answers. |
| `RequestKeys.PlainFenceKeysDetermineIff` | api/handlers/fence.go:119-125 | Without the flag they would if and only if a fill value of zero never made a difference to an answer. |
| `RequestKeys.EncodeSetIff` | internal/cache/cache.go:125-139 | Where all optional fields are set, different values have different encodings, although zeros are left out. |
| `RequestKeys.SliceEncodingIff` | api/handlers/slice.go:100-109 | Slice requests have the same key material exactly when they differ in nothing but their access tokens. |
| `RequestKeys.SliceKeysDetermine` | api/handlers/slice.go:100-109 | With a collision-free hash, slice keys determine answers. |
| `RequestKeys.AttributeEncodingIff` | api/handlers/attributes.go:156-165 | Attribute requests along a surface and between surfaces have the same key material exactly when they differ in nothing but their access tokens. |
| `RequestKeys.AttributeKeysDetermine` | api/handlers/attributes.go:237-246 | With a collision-free hash, attribute keys determine answers. |

## Left out

- Rounding, NaN and overflow of floating point and integer types: positions are exact reals and counts unbounded integers.
- Trigonometry: that an angle in degrees yields a point on the unit circle is taken for granted.
- OpenVDS, Boost and Ristretto internals: the store, the spline and the cache are parameters or nondeterministic.
- A step of zero in an attribute request, which stands for the step of the trace, and a negative one, which is refused before anything is calculated.
- Lookup tables of enumerations and strings, and the check of vertical axis names and units: each is settled by reading one branch.
- The corners of slices in the metadata, and the metadata of whole cubes, fences and attributes.
- HTTP routing, parsing, multipart responses, logging, metrics, connections and access tokens beyond whether they may read.
- Memory management across the C interface, and the texts of errors: only which error is raised is kept.
- That requests of different endpoints never share a key, because their types are named in the encoding.
- The comparison of coordinate reference system, origin and line spacing of two cubes before they are combined.
- Fetching.FetchRange: does not promise that a refused read leaves the slots of its range as they were, because a handle on two cubes may have filled them from the first.
- Fetching.FetchSubvolume: likewise.
- DoubleCubes.ReadTraces: requires at least one trace, because the position of the first one is read to find where to cut; an empty fence is refused before.
- CubeIntersection.StepBelowOne: does not say what becomes of an undefined count, because the language leaves that open; `CountNotFinite` stands for it.
- RequestCache.CachedEqualsCacheless: assumes that data does not change and that answers do not depend on access tokens; that keys determine answers is shown to be needed (`RequestCache.WrongAnswerIsServed`).
