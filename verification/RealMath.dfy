/**
 Rounding of real numbers to integers, as the vertical window arithmetic and the surface
 alignment use it: the plain and the tolerant floor and ceiling, and rounding half away from zero.
 */
module RealMath {

  const TOLERANCE: real := 0.001

  function Abs(x: real): (r: real)
    ensures r >= 0.0
  {
    if x < 0.0 then -x else x
  }

  function Ceil(x: real): (n: int)
    ensures n as real - 1.0 < x <= n as real
  {
    -((-x).Floor)
  }

  /** The largest integer below x, or the next one up when x is within TOLERANCE of it. */
  function FloorWithTolerance(x: real): int {
    if Abs(Ceil(x) as real - x) < TOLERANCE then Ceil(x) else x.Floor
  }

  /** The smallest integer above x, or the next one down when x is within TOLERANCE of it. */
  function CeilWithTolerance(x: real): int {
    if Abs(x - x.Floor as real) < TOLERANCE then x.Floor else Ceil(x)
  }

  /** std::lround: to the nearest integer, halves away from zero. */
  function Round(x: real): int {
    if x >= 0.0 then (x + 0.5).Floor else -((-x + 0.5).Floor)
  }

  /** Conversion of a floating-point number to int: truncation toward zero. */
  function Truncate(x: real): int {
    if x >= 0.0 then x.Floor else Ceil(x)
  }

  /** The tolerant floor is exactly the integer whose half-open window, shifted down by the tolerance, holds x. */
  lemma FloorWithToleranceIff(x: real, n: int)
    ensures n == FloorWithTolerance(x) <==> n as real - 0.001 < x <= n as real + 0.999
  {
    var f := FloorWithTolerance(x);
    assert f as real - TOLERANCE < x <= f as real + 1.0 - TOLERANCE;
  }

  lemma CeilWithToleranceIff(x: real, n: int)
    ensures n == CeilWithTolerance(x) <==> n as real - 0.999 <= x < n as real + 0.001
  {
    var c := CeilWithTolerance(x);
    assert c as real - 1.0 + TOLERANCE <= x < c as real + TOLERANCE;
  }

  lemma CeilMirrorsFloor(x: real)
    ensures CeilWithTolerance(x) == -FloorWithTolerance(-x)
  {
    FloorWithToleranceIff(-x, -CeilWithTolerance(x));
    CeilWithToleranceIff(x, CeilWithTolerance(x));
  }

  /** No integer is closer to x than Round(x). */
  lemma RoundIsNearest(x: real, m: int)
    ensures Abs(x - Round(x) as real) <= Abs(x - m as real)
    ensures Abs(x - Round(x) as real) <= 0.5
  {
    var r := Round(x);
    assert r as real - 0.5 <= x <= r as real + 0.5;
    if m < r {
      assert m as real <= r as real - 1.0;
    } else if m > r {
      assert m as real >= r as real + 1.0;
    }
  }

  lemma RoundOfInteger(n: int)
    ensures Round(n as real) == n
  {
  }

  // ---- multiplication and division, one fact at a time

  /** Multiplication, for statements in which the factors are calculated. */
  function Product(x: real, y: real): real {
    x * y
  }

  lemma ScaleLess(k: real, x: real, y: real)
    requires k > 0.0
    ensures x < y <==> k * x < k * y
    ensures x <= y <==> k * x <= k * y
  {
  }

  lemma NonNegativeScale(k: real, x: real, y: real)
    requires k >= 0.0 && x <= y
    ensures k * x <= k * y && x * k <= y * k
  {
  }

  lemma DivideThenScale(x: real, k: real)
    requires k != 0.0
    ensures k * (x / k) == x
  {
  }

  lemma DivideOrder(x: real, y: real, k: real)
    requires k > 0.0
    ensures x <= y <==> x / k <= y / k
    ensures x < y <==> x / k < y / k
  {
    ScaleLess(k, x / k, y / k);
  }

  lemma Distribute(k: real, x: real, y: real)
    ensures k * (x + y) == k * x + k * y
    ensures k * (x - y) == k * x - k * y
  {
  }

  lemma ScaleThenDivide(x: real, k: real)
    requires k != 0.0
    ensures (k * x) / k == x
    ensures (x * k) / k == x
  {
  }
}
