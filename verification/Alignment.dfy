/**
 Two horizons become the top and the bottom of a window: the secondary surface is brought onto the grid
 of the primary one, cell by cell from its nearest node, and the two must not cross.
 */
module Alignment {
  import opened Options
  import opened RealMath
  import opened Surfaces
  import opened SubVolumes

  datatype Outcome = Aligned(primaryIsTop: bool) | GridsDiffer | SurfacesIntersect(row: nat, col: nat)

  /** Row and column, possibly out of bounds, of the secondary node chosen for cell i of the primary surface. */
  function SecondaryNode(primary: Surface, secondary: Surface, i: nat): (int, int)
    requires primary.Valid() && secondary.Valid()
    requires i < primary.grid.Size()
  {
    FlatIndexInGrid(primary.grid, i);
    var position := secondary.grid.FromCdp(primary.grid.ToCdp(i));
    (Round(position.x), Round(position.y))
  }

  predicate NodeInBounds(grid: Grid, node: (int, int)) {
    0 <= node.0 < grid.nrows && 0 <= node.1 < grid.ncols
  }

  function ValueAt(surface: Surface, node: (int, int)): real
    requires surface.Valid()
    requires NodeInBounds(surface.grid, node)
  {
    NodeIndexInSurface(surface.grid, node.0, node.1);
    surface.values[node.0 * surface.grid.ncols + node.1]
  }

  /** The secondary value that cell i of the primary surface is compared with, when both surfaces have one. */
  function Match(primary: Surface, secondary: Surface, i: nat): Option<real>
    requires primary.Valid() && secondary.Valid()
    requires i < primary.grid.Size()
  {
    var node := SecondaryNode(primary, secondary, i);
    if primary.IsFill(i) || !NodeInBounds(secondary.grid, node) || ValueAt(secondary, node) == secondary.fill then None
    else Some(ValueAt(secondary, node))
  }

  function Matches(primary: Surface, secondary: Surface): (r: seq<Option<real>>)
    requires primary.Valid() && secondary.Valid()
    ensures |r| == primary.grid.Size()
    ensures forall i :: 0 <= i < |r| ==> r[i] == Match(primary, secondary, i)
  {
    seq(primary.grid.Size(), i requires 0 <= i < primary.grid.Size() => Match(primary, secondary, i))
  }

  function OrElse(m: Option<real>, fill: real): real {
    if m.Some? then m.value else fill
  }

  /** Some cell among the first n has its depth strictly above, or below, the depth it is compared with. */
  ghost predicate AboveWithin(depths: seq<real>, matches: seq<Option<real>>, n: nat)
    requires n <= |depths| == |matches|
  {
    exists i :: 0 <= i < n && matches[i].Some? && depths[i] < matches[i].value
  }

  ghost predicate BelowWithin(depths: seq<real>, matches: seq<Option<real>>, n: nat)
    requires n <= |depths| == |matches|
  {
    exists i :: 0 <= i < n && matches[i].Some? && depths[i] > matches[i].value
  }

  /** Both strict orders occur among the first n cells. */
  ghost predicate CrossedWithin(depths: seq<real>, matches: seq<Option<real>>, n: nat)
    requires n <= |depths| == |matches|
  {
    AboveWithin(depths, matches, n) && BelowWithin(depths, matches, n)
  }

  class CrossoverValidator {
    var primaryIsTop: bool
    var primaryIsBottom: bool

    constructor ()
      ensures !primaryIsTop && !primaryIsBottom
    {
      primaryIsTop, primaryIsBottom := false, false;
    }

    /** Takes one pair of depths into account; true when this pair shows that both orders have occurred. */
    method HaveCrossed(primary: real, secondary: real) returns (crossed: bool)
      modifies this
      ensures primaryIsTop == (old(primaryIsTop) || primary < secondary)
      ensures primaryIsBottom == (old(primaryIsBottom) || primary > secondary)
      ensures crossed <==> primary != secondary && primaryIsTop && primaryIsBottom
    {
      if primary > secondary {
        primaryIsBottom := true;
      } else if primary < secondary {
        primaryIsTop := true;
      } else {
        return false;
      }
      return primaryIsTop == primaryIsBottom;
    }
  }

  /**
   Writes the secondary values onto the primary grid. Fails exactly when some cells order the surfaces one way
   and some the other, and then at the first cell where both orders have been seen.
   */
  method AlignSurfaces(primary: Surface, secondary: Surface, alignedGrid: Grid, alignedFill: real, aligned: array<real>)
    returns (outcome: Outcome)
    requires primary.Valid() && secondary.Valid()
    requires aligned.Length == alignedGrid.Size()
    modifies aligned
    ensures outcome.GridsDiffer? <==> !primary.grid.SameAs(alignedGrid)
    ensures var matches := Matches(primary, secondary);
            && (!outcome.GridsDiffer? ==> (outcome.SurfacesIntersect? <==> CrossedWithin(primary.values, matches, |matches|)))
            && (outcome.SurfacesIntersect? ==>
                  exists i :: 0 <= i < |matches| && primary.grid.ncols > 0
                    && CrossedWithin(primary.values, matches, i + 1) && !CrossedWithin(primary.values, matches, i)
                    && outcome == SurfacesIntersect(i / primary.grid.ncols, i % primary.grid.ncols))
            && (outcome.Aligned? ==>
                  && (outcome.primaryIsTop <==> AboveWithin(primary.values, matches, |matches|))
                  && aligned.Length == |matches|
                  && forall i :: 0 <= i < |matches| ==>
                       aligned[i] == if matches[i].Some? then matches[i].value else alignedFill)
  {
    if !primary.grid.SameAs(alignedGrid) {
      return GridsDiffer;
    }
    var surfaces := new CrossoverValidator();
    ghost var matches := Matches(primary, secondary);
    var depths := primary.values;
    for i := 0 to primary.grid.Size()
      invariant forall j :: 0 <= j < i ==> aligned[j] == OrElse(matches[j], alignedFill)
      invariant surfaces.primaryIsTop <==> AboveWithin(depths, matches, i)
      invariant surfaces.primaryIsBottom <==> BelowWithin(depths, matches, i)
      invariant !CrossedWithin(depths, matches, i)
    {
      FlatIndexInGrid(primary.grid, i);
      var value := MatchCell(primary, secondary, i);
      assert value == matches[i];
      if value.None? {
        aligned[i] := alignedFill;
      } else {
        aligned[i] := value.value;
        var crossed := surfaces.HaveCrossed(depths[i], aligned[i]);
        if crossed {
          assert CrossedWithin(depths, matches, i + 1);
          return SurfacesIntersect(primary.grid.Row(i), primary.grid.Col(i));
        }
      }
    }
    return Aligned(surfaces.primaryIsTop);
  }

  /**
   Looks up the secondary value of a cell. A cell without data, or more than half a step outside the secondary
   grid, has none; any other has what the closest node holds.
   */
  method MatchCell(primary: Surface, secondary: Surface, i: nat) returns (value: Option<real>)
    requires primary.Valid() && secondary.Valid()
    requires i < primary.grid.Size()
    ensures value == Match(primary, secondary, i)
    ensures value == if primary.IsFill(i) || !InReach(secondary.grid, InSecondary(primary, secondary, i)) then None
                     else ClosestValue(primary, secondary, i)
  {
    InReachIff(secondary.grid, InSecondary(primary, secondary, i));
    if primary.fill == primary.values[i] {
      return None;
    }
    var (row, col) := SecondaryNode(primary, secondary, i);
    if row < 0 || row >= secondary.grid.nrows || col < 0 || col >= secondary.grid.ncols {
      return None;
    }
    var secondaryValue := ValueAt(secondary, (row, col));
    if secondary.fill == secondaryValue {
      return None;
    }
    return Some(secondaryValue);
  }

  /** The surface that alignment produces: the primary grid and fill value, with the matched depths. */
  function AlignedSurface(primary: Surface, matches: seq<Option<real>>): (r: Surface)
    requires primary.Valid()
    requires |matches| == primary.grid.Size()
    ensures r.Valid() && r.grid == primary.grid && r.fill == primary.fill
    ensures forall i :: 0 <= i < |r.values| ==>
              r.values[i] == if matches[i].Some? then matches[i].value else primary.fill
  {
    Surface(seq(|matches|, i requires 0 <= i < |matches| => OrElse(matches[i], primary.fill)), primary.fill, primary.grid)
  }

  /** Surfaces that do not cross, taken as top and bottom the way round that alignment tells, are ordered in every cell with data. */
  lemma UncrossedSurfacesAreOrdered(primary: Surface, matches: seq<Option<real>>, i: nat)
    requires primary.Valid()
    requires |matches| == primary.grid.Size()
    requires i < |matches|
    requires !CrossedWithin(primary.values, matches, |matches|)
    ensures var aligned := AlignedSurface(primary, matches);
            var (top, bottom) := if AboveWithin(primary.values, matches, |matches|) then (primary, aligned)
                                 else (aligned, primary);
            Compatible(primary, top, bottom)
            && (AnyFill(primary, top, bottom, i) || Ordered(primary, top, bottom, i))
  {
    var depths := primary.values;
    if matches[i].Some? {
      assert depths[i] < matches[i].value ==> AboveWithin(depths, matches, |matches|);
      assert depths[i] > matches[i].value ==> BelowWithin(depths, matches, |matches|);
    }
  }

  /** Exactly the cells in which one of the surfaces has no depth count as missing. */
  ghost predicate OnlyUnmatchedIsMissing(primary: Surface, secondary: Surface)
    requires primary.Valid() && secondary.Valid()
  {
    var matches := Matches(primary, secondary);
    var aligned := AlignedSurface(primary, matches);
    forall i :: 0 <= i < |matches| ==> (AnyFill(primary, primary, aligned, i) <==> matches[i].None?)
  }

  /**
   A cell is also taken for missing when the secondary depth happens to equal the fill value of the primary. So only
   cells without data are, if and only if no depth that is matched does.
   */
  lemma OnlyUnmatchedIsMissingIff(primary: Surface, secondary: Surface)
    requires primary.Valid() && secondary.Valid()
    ensures OnlyUnmatchedIsMissing(primary, secondary)
            <==> forall i :: 0 <= i < primary.grid.Size() ==> Match(primary, secondary, i) != Some(primary.fill)
  {
    var matches := Matches(primary, secondary);
    var aligned := AlignedSurface(primary, matches);
    forall i | 0 <= i < |matches|
      ensures (AnyFill(primary, primary, aligned, i) <==> matches[i].None?) <==> Match(primary, secondary, i) != Some(primary.fill)
    {
      assert aligned.values[i] == OrElse(matches[i], primary.fill);
    }
  }

  /** A secondary depth of 4 under a primary depth of 10 whose surface uses 4 for missing: the cell has both, and is skipped. */
  lemma DepthMeetsOtherFill(grid: Grid)
    requires grid.Valid() && grid.nrows == 1 && grid.ncols == 1
    ensures var primary, secondary := Surface([10.0], 4.0, grid), Surface([4.0], -1.0, grid);
            Match(primary, secondary, 0) == Some(4.0) && !OnlyUnmatchedIsMissing(primary, secondary)
  {
    var primary, secondary := Surface([10.0], 4.0, grid), Surface([4.0], -1.0, grid);
    SameGridIsCopied(primary, secondary, 0);
    OnlyUnmatchedIsMissingIff(primary, secondary);
  }

  /** The node looked at is nearest, in world distance, among all nodes of the secondary grid. */
  lemma ChosenNodeIsNearest(primary: Surface, secondary: Surface, i: nat, row: int, col: int)
    requires primary.Valid() && secondary.Valid()
    requires i < primary.grid.Size() && primary.grid.ncols > 0
    ensures var node := SecondaryNode(primary, secondary, i);
            DistanceSquared(primary.grid.ToCdp(i), secondary.grid.NodeToCdp(node.0, node.1))
            <= DistanceSquared(primary.grid.ToCdp(i), secondary.grid.NodeToCdp(row, col))
  {
    RoundedNodeIsNearest(secondary.grid, primary.grid.ToCdp(i), row, col);
  }

  // ---- the closest node

  /** Where cell i of the primary surface lies, in rows and columns of the secondary grid. */
  function InSecondary(primary: Surface, secondary: Surface, i: nat): Point
    requires primary.Valid() && secondary.Valid()
    requires i < primary.grid.Size()
  {
    FlatIndexInGrid(primary.grid, i);
    secondary.grid.FromCdp(primary.grid.ToCdp(i))
  }

  /** Less than half a row and half a column outside the grid. */
  predicate InReach(grid: Grid, q: Point) {
    -0.5 < q.x < grid.nrows as real - 0.5 && -0.5 < q.y < grid.ncols as real - 0.5
  }

  /** No node of the secondary grid is closer to cell i of the primary surface, in world distance, than this one of them. */
  ghost predicate IsClosest(primary: Surface, secondary: Surface, i: nat, node: (int, int))
    requires primary.Valid() && secondary.Valid()
    requires i < primary.grid.Size()
  {
    FlatIndexInGrid(primary.grid, i);
    NodeInBounds(secondary.grid, node)
    && forall row, col :: NodeInBounds(secondary.grid, (row, col)) ==>
         DistanceSquared(primary.grid.ToCdp(i), secondary.grid.NodeToCdp(node.0, node.1))
         <= DistanceSquared(primary.grid.ToCdp(i), secondary.grid.NodeToCdp(row, col))
  }

  lemma InReachIff(grid: Grid, q: Point)
    ensures NodeInBounds(grid, (Round(q.x), Round(q.y))) <==> InReach(grid, q)
  {
  }

  /** The node looked at is the closest one of the grid if and only if the cell lies within half a step of the grid. */
  lemma ClosestNodeUsedIff(primary: Surface, secondary: Surface, i: nat)
    requires primary.Valid() && secondary.Valid()
    requires i < primary.grid.Size()
    ensures IsClosest(primary, secondary, i, SecondaryNode(primary, secondary, i))
            <==> InReach(secondary.grid, InSecondary(primary, secondary, i))
  {
    FlatIndexInGrid(primary.grid, i);
    var node := SecondaryNode(primary, secondary, i);
    InReachIff(secondary.grid, InSecondary(primary, secondary, i));
    if NodeInBounds(secondary.grid, node) {
      forall row, col | NodeInBounds(secondary.grid, (row, col))
        ensures DistanceSquared(primary.grid.ToCdp(i), secondary.grid.NodeToCdp(node.0, node.1))
             <= DistanceSquared(primary.grid.ToCdp(i), secondary.grid.NodeToCdp(row, col))
      {
        ChosenNodeIsNearest(primary, secondary, i, row, col);
      }
    }
  }

  function Clamp(k: int, n: nat): int {
    if k < 0 then 0 else if k >= n then n - 1 else k
  }

  /** The closest node of the grid, wherever the cell lies. */
  function ClosestNode(primary: Surface, secondary: Surface, i: nat): (int, int)
    requires primary.Valid() && secondary.Valid()
    requires i < primary.grid.Size()
  {
    var q := InSecondary(primary, secondary, i);
    (Clamp(Round(q.x), secondary.grid.nrows), Clamp(Round(q.y), secondary.grid.ncols))
  }

  lemma ClampedIsNearest(x: real, n: nat, m: int)
    requires 0 <= m < n
    ensures Abs(x - Clamp(Round(x), n) as real) <= Abs(x - m as real)
  {
    RoundIsNearest(x, m);
  }

  lemma ClosestNodeIsClosest(primary: Surface, secondary: Surface, i: nat)
    requires primary.Valid() && secondary.Valid()
    requires i < primary.grid.Size()
    requires secondary.grid.nrows > 0 && secondary.grid.ncols > 0
    ensures IsClosest(primary, secondary, i, ClosestNode(primary, secondary, i))
  {
    FlatIndexInGrid(primary.grid, i);
    var g, p, node := secondary.grid, primary.grid.ToCdp(i), ClosestNode(primary, secondary, i);
    var q := g.FromCdp(p);
    forall row, col | NodeInBounds(g, (row, col))
      ensures DistanceSquared(p, g.NodeToCdp(node.0, node.1)) <= DistanceSquared(p, g.NodeToCdp(row, col))
    {
      ClampedIsNearest(q.x, g.nrows, row);
      ClampedIsNearest(q.y, g.ncols, col);
      NearerInGrid(g.xinc, g.yinc, q, node.0, node.1, row, col);
      DistanceInGridCoordinates(g, p, node.0, node.1);
      DistanceInGridCoordinates(g, p, row, col);
    }
  }

  /** What the closest node of the secondary surface holds, if it holds a depth. */
  function ClosestValue(primary: Surface, secondary: Surface, i: nat): Option<real>
    requires primary.Valid() && secondary.Valid()
    requires i < primary.grid.Size()
    requires secondary.grid.nrows > 0 && secondary.grid.ncols > 0
  {
    var value := ValueAt(secondary, ClosestNode(primary, secondary, i));
    if value == secondary.fill then None else Some(value)
  }

  /**
   A cell with data is compared with what the closest node of the secondary surface holds if and only if it lies
   within half a step of the secondary grid, or the closest node has no data either.
   */
  lemma ClosestValueUsedIff(primary: Surface, secondary: Surface, i: nat)
    requires primary.Valid() && secondary.Valid()
    requires i < primary.grid.Size() && !primary.IsFill(i)
    requires secondary.grid.nrows > 0 && secondary.grid.ncols > 0
    ensures Match(primary, secondary, i) == ClosestValue(primary, secondary, i)
            <==> InReach(secondary.grid, InSecondary(primary, secondary, i)) || ClosestValue(primary, secondary, i).None?
  {
    InReachIff(secondary.grid, InSecondary(primary, secondary, i));
  }

  /** Over a secondary surface of one node, the second node of the primary is left without a depth. */
  lemma ClosestNodeIsNotUsed(primary: Surface, secondary: Surface)
    requires primary.Valid() && secondary.Valid()
    requires secondary.grid.nrows == 1 && secondary.grid.ncols == 1 && primary.grid == secondary.grid.(ncols := 2)
    requires !primary.IsFill(1) && !secondary.IsFill(0)
    ensures IsClosest(primary, secondary, 1, (0, 0)) && ClosestValue(primary, secondary, 1) == Some(secondary.values[0])
    ensures Match(primary, secondary, 1) == None
  {
    assert primary.grid.ToCdp(1) == secondary.grid.Transformation().Apply(Point(0.0, 1.0));
    InverseUndoesForward(secondary.grid, Point(0.0, 1.0));
    ClosestNodeIsClosest(primary, secondary, 1);
  }

  /** A secondary surface on the primary grid is copied cell for cell. */
  lemma SameGridIsCopied(primary: Surface, secondary: Surface, i: nat)
    requires primary.Valid() && secondary.Valid()
    requires primary.grid.SameAs(secondary.grid)
    requires i < primary.grid.Size()
    ensures Match(primary, secondary, i)
            == if primary.values[i] == primary.fill || secondary.values[i] == secondary.fill then None
               else Some(secondary.values[i])
  {
    FlatIndexInGrid(primary.grid, i);
    var row, col := primary.grid.Row(i), primary.grid.Col(i);
    assert primary.grid.ToCdp(i) == secondary.grid.Transformation().Apply(Point(row as real, col as real));
    InverseUndoesForward(secondary.grid, Point(row as real, col as real));
    RoundOfInteger(row);
    RoundOfInteger(col);
    assert SecondaryNode(primary, secondary, i) == (row, col);
  }
}
