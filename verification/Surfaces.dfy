/**
 Regular surfaces: values over a finite grid that an affine map (scaling, rotation, translation)
 places in the world.
 */
module Surfaces {
  import opened Layout
  import opened RealMath

  datatype Point = Point(x: real, y: real)

  datatype Affine = Affine(a00: real, a01: real, a02: real, a10: real, a11: real, a12: real) {
    function Apply(p: Point): Point {
      Point(a00 * p.x + a01 * p.y + a02, a10 * p.x + a11 * p.y + a12)
    }
  }

  /** A rotation angle, by its cosine and sine. */
  datatype Angle = Angle(cos: real, sin: real) {
    predicate Valid() {
      cos * cos + sin * sin == 1.0
    }
  }

  function FromRotation(xori: real, yori: real, xinc: real, yinc: real, rot: Angle): Affine {
    Affine(xinc * rot.cos, -yinc * rot.sin, xori,
           xinc * rot.sin, yinc * rot.cos, yori)
  }

  function InverseFromRotation(xori: real, yori: real, xinc: real, yinc: real, rot: Angle): Affine
    requires xinc != 0.0 && yinc != 0.0
  {
    Affine(rot.cos / xinc, rot.sin / xinc, -(rot.sin * yori + rot.cos * xori) / xinc,
           -rot.sin / yinc, rot.cos / yinc, (rot.sin * xori - rot.cos * yori) / yinc)
  }

  datatype Grid = Grid(xori: real, yori: real, xinc: real, yinc: real, rot: Angle, nrows: nat, ncols: nat) {

    predicate Valid() {
      rot.Valid() && xinc != 0.0 && yinc != 0.0
    }

    function Transformation(): Affine {
      FromRotation(xori, yori, xinc, yinc, rot)
    }

    function InverseTransformation(): Affine
      requires Valid()
    {
      InverseFromRotation(xori, yori, xinc, yinc, rot)
    }

    function Size(): nat {
      ncols * nrows
    }

    function Row(i: nat): nat
      requires ncols > 0
    {
      i / ncols
    }

    function Col(i: nat): nat
      requires ncols > 0
    {
      i % ncols
    }

    /** World position of a grid node, which may lie outside the bounds of the grid. */
    function NodeToCdp(row: int, col: int): Point {
      Transformation().Apply(Point(row as real, col as real))
    }

    function ToCdp(i: nat): Point
      requires ncols > 0
    {
      NodeToCdp(Row(i), Col(i))
    }

    function FromCdp(p: Point): Point
      requires Valid()
    {
      InverseTransformation().Apply(p)
    }

    /** The comparison the program makes: equal transformations and equal bounds. */
    predicate SameAs(other: Grid) {
      Transformation() == other.Transformation() && nrows == other.nrows && ncols == other.ncols
    }
  }

  datatype Surface = Surface(values: seq<real>, fill: real, grid: Grid) {
    predicate Valid() {
      grid.Valid() && |values| == grid.Size()
    }

    predicate IsFill(i: nat)
      requires i < |values|
    {
      values[i] == fill
    }
  }

  // ---- index arithmetic

  lemma FlatIndexInGrid(grid: Grid, i: nat)
    requires i < grid.Size()
    ensures grid.ncols > 0 && grid.Row(i) < grid.nrows && grid.Col(i) < grid.ncols
    ensures grid.Row(i) * grid.ncols + grid.Col(i) == i
  {
    if grid.Row(i) >= grid.nrows {
      MultiplyOrder(grid.nrows, grid.Row(i), grid.ncols);
    }
  }

  lemma NodeIndexInSurface(grid: Grid, row: nat, col: nat)
    requires row < grid.nrows && col < grid.ncols
    ensures row * grid.ncols + col < grid.Size()
    ensures grid.Row(row * grid.ncols + col) == row && grid.Col(row * grid.ncols + col) == col
  {
    RowAndColumn(row, col, grid.ncols);
    RowAndColumnFit(row, col, grid.nrows, grid.ncols);
  }

  /** Grids count as the same exactly when they have as many rows and columns, with every node in the same place. */
  lemma SameAsIff(g: Grid, h: Grid)
    ensures g.SameAs(h)
            <==> g.nrows == h.nrows && g.ncols == h.ncols
                 && forall row, col :: g.NodeToCdp(row, col) == h.NodeToCdp(row, col)
  {
    if forall row, col :: g.NodeToCdp(row, col) == h.NodeToCdp(row, col) {
      assert g.NodeToCdp(0, 0) == h.NodeToCdp(0, 0);
      assert g.NodeToCdp(1, 0) == h.NodeToCdp(1, 0);
      assert g.NodeToCdp(0, 1) == h.NodeToCdp(0, 1);
    }
  }

  // ---- the two maps undo each other

  /** The inverse map in one piece per coordinate: un-translate, un-rotate, un-scale. */
  lemma InverseFormula(g: Grid, p: Point)
    requires g.Valid()
    ensures g.FromCdp(p).x == (g.rot.cos * (p.x - g.xori) + g.rot.sin * (p.y - g.yori)) / g.xinc
    ensures g.FromCdp(p).y == (-g.rot.sin * (p.x - g.xori) + g.rot.cos * (p.y - g.yori)) / g.yinc
  {
    var c, s := g.rot.cos, g.rot.sin;
    CombineOver(g.xinc, c, p.x, s, p.y, -(s * g.yori + c * g.xori));
    CombineOver(g.yinc, -s, p.x, c, p.y, s * g.xori - c * g.yori);
    ShiftOut(c, p.x, g.xori, s, p.y, g.yori);
    ShiftOut(-s, p.x, g.xori, c, p.y, g.yori);
  }

  lemma CombineOver(k: real, a: real, x: real, b: real, y: real, d: real)
    requires k != 0.0
    ensures a / k * x + b / k * y + d / k == (a * x + b * y + d) / k
  {
  }

  lemma ShiftOut(a: real, x: real, x0: real, b: real, y: real, y0: real)
    ensures a * (x - x0) + b * (y - y0) == a * x + b * y + -(b * y0 + a * x0)
  {
  }

  /** Rotating (u, v) by an angle gives (dx, dy); rotating back gives (u, v) again, and the length stays. */
  lemma RotateBack(rot: Angle, u: real, v: real, dx: real, dy: real)
    requires rot.Valid()
    requires dx == u * rot.cos - v * rot.sin && dy == u * rot.sin + v * rot.cos
    ensures rot.cos * dx + rot.sin * dy == u
    ensures -rot.sin * dx + rot.cos * dy == v
    ensures dx * dx + dy * dy == u * u + v * v
  {
    var c, s := rot.cos, rot.sin;
    assert c * dx + s * dy == u * (c * c + s * s);
    assert -s * dx + c * dy == v * (c * c + s * s);
    assert dx * dx + dy * dy == (u * u + v * v) * (c * c + s * s);
  }

  /** The forward map on a vector already scaled to (u, v): rotate, then translate. */
  lemma ForwardFormula(g: Grid, p: Point, u: real, v: real)
    requires u == g.xinc * p.x && v == g.yinc * p.y
    ensures g.Transformation().Apply(p).x == u * g.rot.cos - v * g.rot.sin + g.xori
    ensures g.Transformation().Apply(p).y == u * g.rot.sin + v * g.rot.cos + g.yori
  {
    SwapFactors(g.xinc, g.rot.cos, p.x);
    SwapFactors(g.xinc, g.rot.sin, p.x);
    SwapFactors(-g.yinc, g.rot.sin, p.y);
    SwapFactors(g.yinc, g.rot.cos, p.y);
    assert (-g.yinc * p.y) * g.rot.sin == -(v * g.rot.sin);
  }

  /** The cell in a row and a column lies at the node that many increments from the origin, turned by the angle. */
  lemma CellPosition(g: Grid, row: nat, col: nat)
    requires row < g.nrows && col < g.ncols
    ensures row * g.ncols + col < g.Size()
    ensures var u, v := g.xinc * row as real, g.yinc * col as real;
            g.ToCdp(row * g.ncols + col)
            == Point(u * g.rot.cos - v * g.rot.sin + g.xori, u * g.rot.sin + v * g.rot.cos + g.yori)
  {
    NodeIndexInSurface(g, row, col);
    ForwardFormula(g, Point(row as real, col as real), g.xinc * row as real, g.yinc * col as real);
  }

  lemma SwapFactors(a: real, b: real, c: real)
    ensures a * b * c == (a * c) * b
  {
  }

  lemma InverseUndoesForward(g: Grid, p: Point)
    requires g.Valid()
    ensures g.FromCdp(g.Transformation().Apply(p)) == p
  {
    var q := g.Transformation().Apply(p);
    var u, v := g.xinc * p.x, g.yinc * p.y;
    ForwardFormula(g, p, u, v);
    InverseFormula(g, q);
    RotateBack(g.rot, u, v, q.x - g.xori, q.y - g.yori);
    ScaleThenDivide(p.x, g.xinc);
    ScaleThenDivide(p.y, g.yinc);
  }

  lemma ForwardUndoesInverse(g: Grid, p: Point)
    requires g.Valid()
    ensures g.Transformation().Apply(g.FromCdp(p)) == p
  {
    var dx, dy := p.x - g.xori, p.y - g.yori;
    var c, s := g.rot.cos, g.rot.sin;
    var u, v := c * dx + s * dy, -s * dx + c * dy;
    var q := g.FromCdp(p);
    InverseFormula(g, p);
    DivideThenScale(u, g.xinc);
    DivideThenScale(v, g.yinc);
    ForwardFormula(g, q, u, v);
    RotateForth(g.rot, dx, dy, u, v);
  }

  lemma RotateForth(rot: Angle, dx: real, dy: real, u: real, v: real)
    requires rot.Valid()
    requires u == rot.cos * dx + rot.sin * dy && v == -rot.sin * dx + rot.cos * dy
    ensures u * rot.cos - v * rot.sin == dx
    ensures u * rot.sin + v * rot.cos == dy
  {
    var c, s := rot.cos, rot.sin;
    assert u * c - v * s == dx * (c * c + s * s);
    assert u * s + v * c == dy * (c * c + s * s);
  }

  // ---- distances

  function Square(x: real): real {
    x * x
  }

  function DistanceSquared(p: Point, q: Point): real {
    Square(p.x - q.x) + Square(p.y - q.y)
  }

  /** The same distance in grid coordinates, each direction weighted by its increment. */
  function GridDistanceSquared(xinc: real, yinc: real, q: Point, row: int, col: int): real {
    Square(xinc * (q.x - row as real)) + Square(yinc * (q.y - col as real))
  }

  /** World distance to a node can be read off in grid coordinates: rotation and translation do not change it. */
  lemma DistanceInGridCoordinates(g: Grid, p: Point, row: int, col: int)
    requires g.Valid()
    ensures DistanceSquared(p, g.NodeToCdp(row, col)) == GridDistanceSquared(g.xinc, g.yinc, g.FromCdp(p), row, col)
  {
    var q := g.FromCdp(p);
    var n := g.NodeToCdp(row, col);
    ForwardUndoesInverse(g, p);
    ForwardFormula(g, q, g.xinc * q.x, g.yinc * q.y);
    ForwardFormula(g, Point(row as real, col as real), g.xinc * row as real, g.yinc * col as real);
    RotatedDifference(g.rot, g.xinc * q.x, g.xinc * row as real, g.yinc * q.y, g.yinc * col as real);
    Distribute(g.xinc, q.x, row as real);
    Distribute(g.yinc, q.y, col as real);
    RotateBack(g.rot, g.xinc * (q.x - row as real), g.yinc * (q.y - col as real), p.x - n.x, p.y - n.y);
  }

  lemma RotatedDifference(rot: Angle, u: real, u': real, v: real, v': real)
    ensures (u * rot.cos - v * rot.sin) - (u' * rot.cos - v' * rot.sin) == (u - u') * rot.cos - (v - v') * rot.sin
    ensures (u * rot.sin + v * rot.cos) - (u' * rot.sin + v' * rot.cos) == (u - u') * rot.sin + (v - v') * rot.cos
  {
  }

  lemma SquareOrder(a: real, b: real)
    requires Abs(a) <= Abs(b)
    ensures Square(a) <= Square(b)
  {
    MultiplyBounds(Abs(a), Abs(b));
  }

  lemma MultiplyBounds(a: real, b: real)
    requires 0.0 <= a <= b
    ensures a * a <= b * b
  {
    assert a * a <= a * b;
    assert a * b <= b * b;
  }

  lemma WeightedSquares(k: real, a: real, b: real)
    requires Abs(a) <= Abs(b)
    ensures Square(k * a) <= Square(k * b)
  {
    SquareOrder(a, b);
    SquareOrder(0.0, k);
    NonNegativeScale(Square(k), Square(a), Square(b));
    SquareOfProduct(k, a);
    SquareOfProduct(k, b);
  }

  lemma SquareOfProduct(a: real, b: real)
    ensures Square(a * b) == Square(a) * Square(b)
  {
  }

  /** A node that is nearer in each direction is nearer. */
  lemma NearerInGrid(xinc: real, yinc: real, q: Point, r: int, c: int, row: int, col: int)
    requires Abs(q.x - r as real) <= Abs(q.x - row as real) && Abs(q.y - c as real) <= Abs(q.y - col as real)
    ensures GridDistanceSquared(xinc, yinc, q, r, c) <= GridDistanceSquared(xinc, yinc, q, row, col)
  {
    WeightedSquares(xinc, q.x - r as real, q.x - row as real);
    WeightedSquares(yinc, q.y - c as real, q.y - col as real);
  }

  lemma RoundedIsNearestInGrid(xinc: real, yinc: real, q: Point, row: int, col: int)
    ensures GridDistanceSquared(xinc, yinc, q, Round(q.x), Round(q.y)) <= GridDistanceSquared(xinc, yinc, q, row, col)
  {
    RoundIsNearest(q.x, row);
    RoundIsNearest(q.y, col);
    NearerInGrid(xinc, yinc, q, Round(q.x), Round(q.y), row, col);
  }

  /**
   Rounding the grid coordinates of a world point selects a node nearest to it in world distance,
   among all nodes of the (unbounded) lattice, whatever the rotation and the sign and size of the increments.
   */
  lemma RoundedNodeIsNearest(g: Grid, p: Point, row: int, col: int)
    requires g.Valid()
    ensures DistanceSquared(p, g.NodeToCdp(Round(g.FromCdp(p).x), Round(g.FromCdp(p).y)))
            <= DistanceSquared(p, g.NodeToCdp(row, col))
  {
    var q := g.FromCdp(p);
    DistanceInGridCoordinates(g, p, row, col);
    DistanceInGridCoordinates(g, p, Round(q.x), Round(q.y));
    RoundedIsNearestInGrid(g.xinc, g.yinc, q, row, col);
  }
}
