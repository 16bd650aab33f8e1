/**
 The virtual cube made of two cubes: along each axis the lines that both have. The axis and the offsets into the
 two cubes are calculated by different parts of the program, and have to describe the same lines.
 */
module CubeIntersection {
  import opened RealMath
  import opened Axes

  datatype AxisResult =
    | Ok(axis: Axis)
    | NameMismatch | UnitMismatch | StepsizeMismatch | NoSharedLines
    | CountNotFinite
    | TooFewSamples | StepsizeNotPositive

  function Max(a: int, b: int): int { if a < b then b else a }
  function Min(a: int, b: int): int { if a < b then a else b }

  /** Distance from the first line of a to the first line of b, in steps. */
  function StepsApart(a: Axis, b: Axis): real
    requires a.Accepted()
  {
    (b.min - a.min) / a.Stepsize()
  }

  /**
   The step is cast to int before dividing by it. A step below one becomes zero, the floating point quotient is then
   not finite, and converting it to the int that counts the samples has no defined result: CountNotFinite stands for
   whatever follows from that.
   */
  function MakeAxis(a: Axis, b: Axis, dimension: nat): AxisResult
    requires a.Accepted() && b.Accepted()
  {
    if a.name != b.name then NameMismatch
    else if a.unit != b.unit then UnitMismatch
    else if a.Stepsize() != b.Stepsize() then StepsizeMismatch
    else if StepsApart(a, b).Floor as real != StepsApart(a, b) then NoSharedLines
    else if Truncate(a.Stepsize()) == 0 then CountNotFinite
    else
      Ok(Axis(LaterStart(a, b), EarlierEnd(a, b), CastCount(Overlap(a, b), a.Stepsize()), a.name, a.unit, dimension))
  }

  function LaterStart(a: Axis, b: Axis): real { if a.min < b.min then b.min else a.min }
  function EarlierEnd(a: Axis, b: Axis): real { if b.max < a.max then b.max else a.max }

  function Overlap(a: Axis, b: Axis): real { EarlierEnd(a, b) - LaterStart(a, b) }

  function CastCount(span: real, step: real): int
    requires Truncate(step) != 0
  {
    Truncate(1.0 + span / Truncate(step) as real)
  }

  /** The axis after the validation that follows. */
  function MakeDoubleAxis(a: Axis, b: Axis, dimension: nat): (r: AxisResult)
    requires a.Accepted() && b.Accepted()
    ensures r.Ok? ==> r.axis.Accepted() && MakeAxis(a, b, dimension) == r
  {
    var made := MakeAxis(a, b, dimension);
    if !made.Ok? then made
    else if made.axis.nsamples < 2 then TooFewSamples
    else if made.axis.Stepsize() <= 0.0 then StepsizeNotPositive
    else made
  }

  // ---- the two axes on one ruler

  /** The axes can be laid on one ruler: equal steps, and a whole number of them apart. */
  predicate OnOneRuler(a: Axis, b: Axis) {
    && a.Accepted() && b.Accepted()
    && a.name == b.name && a.unit == b.unit
    && a.Stepsize() == b.Stepsize()
    && StepsApart(a, b).Floor as real == StepsApart(a, b)
  }

  /** Number, in a, of the first line of b. */
  function Apart(a: Axis, b: Axis): int
    requires a.Accepted()
  {
    StepsApart(a, b).Floor
  }

  /** Numbers, in a, of the first and last line that both have, if there are any. */
  function FirstShared(a: Axis, b: Axis): int
    requires a.Accepted()
  {
    Max(0, Apart(a, b))
  }

  function LastShared(a: Axis, b: Axis): int
    requires a.Accepted()
  {
    Min(a.nsamples - 1, Apart(a, b) + b.nsamples - 1)
  }

  /** Number of steps from the first to the last shared line; negative if there are none. */
  function SharedSteps(a: Axis, b: Axis): int
    requires a.Accepted()
  {
    LastShared(a, b) - FirstShared(a, b)
  }

  lemma PositionOrder(a: Axis, j: int, k: int)
    requires a.Accepted()
    ensures j <= k <==> a.PositionAt(j) <= a.PositionAt(k)
    ensures j < k <==> a.PositionAt(j) < a.PositionAt(k)
    ensures j == k <==> a.PositionAt(j) == a.PositionAt(k)
  {
    ScaleLess(a.Stepsize(), j as real, k as real);
  }

  lemma PositionSpan(a: Axis, j: int, k: int)
    requires a.nsamples != 1
    ensures a.PositionAt(k) - a.PositionAt(j) == a.Stepsize() * (k - j) as real
  {
    Distribute(a.Stepsize(), k as real, j as real);
  }

  /** Line k of b is line k + Apart(a, b) of a. */
  lemma SameLine(a: Axis, b: Axis, k: int)
    requires OnOneRuler(a, b)
    ensures b.PositionAt(k) == a.PositionAt(Apart(a, b) + k)
  {
    DivideThenScale(b.min - a.min, a.Stepsize());
    Distribute(a.Stepsize(), Apart(a, b) as real, k as real);
  }

  lemma StepsApartSwaps(a: Axis, b: Axis)
    requires a.Accepted() && b.Accepted() && a.Stepsize() == b.Stepsize()
    ensures StepsApart(b, a) == -StepsApart(a, b)
  {
    NegateQuotient(a.min, b.min, a.Stepsize());
  }

  lemma NegateQuotient(x: real, y: real, k: real)
    requires k != 0.0
    ensures (x - y) / k == -((y - x) / k)
  {
  }

  lemma FloorOfWhole(x: real)
    requires x.Floor as real == x
    ensures (-x).Floor == -x.Floor
  {
  }

  lemma ApartSwaps(a: Axis, b: Axis)
    requires OnOneRuler(a, b)
    ensures OnOneRuler(b, a) && Apart(b, a) == -Apart(a, b)
  {
    StepsApartSwaps(a, b);
    FloorOfWhole(StepsApart(a, b));
  }

  lemma StartIsFirstShared(a: Axis, b: Axis)
    requires OnOneRuler(a, b)
    ensures LaterStart(a, b) == a.PositionAt(FirstShared(a, b))
  {
    SameLine(a, b, 0);
    PositionOrder(a, 0, Apart(a, b));
  }

  lemma EndIsLastShared(a: Axis, b: Axis)
    requires OnOneRuler(a, b)
    ensures EarlierEnd(a, b) == a.PositionAt(LastShared(a, b))
  {
    SameLine(a, b, b.nsamples - 1);
    LastPosition(a);
    LastPosition(b);
    PositionOrder(a, a.nsamples - 1, Apart(a, b) + b.nsamples - 1);
  }

  /** The ends of the intersection are the first and last shared line. */
  lemma IntersectionEnds(a: Axis, b: Axis, dimension: nat)
    requires OnOneRuler(a, b) && Truncate(a.Stepsize()) != 0
    ensures MakeAxis(a, b, dimension).Ok?
    ensures var axis := MakeAxis(a, b, dimension).axis;
            axis.min == a.PositionAt(FirstShared(a, b)) && axis.max == a.PositionAt(LastShared(a, b))
            && axis.max - axis.min == a.Stepsize() * SharedSteps(a, b) as real
            && axis.name == a.name && axis.unit == a.unit && axis.dimension == dimension
  {
    SharedSpan(a, b);
  }

  lemma SharedSpan(a: Axis, b: Axis)
    requires OnOneRuler(a, b)
    ensures LaterStart(a, b) == a.PositionAt(FirstShared(a, b)) && EarlierEnd(a, b) == a.PositionAt(LastShared(a, b))
    ensures Overlap(a, b) == Span(a.Stepsize(), SharedSteps(a, b))
  {
    StartIsFirstShared(a, b);
    EndIsLastShared(a, b);
    PositionSpan(a, FirstShared(a, b), LastShared(a, b));
  }

  /** The intersection does not depend on which cube comes first. */
  lemma MakeAxisSwaps(a: Axis, b: Axis, dimension: nat)
    requires OnOneRuler(a, b)
    ensures OnOneRuler(b, a) && MakeAxis(b, a, dimension) == MakeAxis(a, b, dimension)
  {
    ApartSwaps(a, b);
    assert LaterStart(b, a) == LaterStart(a, b) && EarlierEnd(b, a) == EarlierEnd(a, b);
  }

  // ---- the number of samples

  /** The rounding error of the cast, summed over k steps, stays below one cast step. */
  predicate CastIsHarmlessFor(step: real, k: int) {
    k as real * (step - Truncate(step) as real) < Truncate(step) as real
  }

  predicate CastIsHarmless(a: Axis, b: Axis)
    requires a.Accepted()
  {
    CastIsHarmlessFor(a.Stepsize(), SharedSteps(a, b))
  }

  /** q stands for k steps divided by the step cast to an int. */
  lemma CastQuotient(step: real, c: real, k: real, q: real)
    requires 1.0 <= c <= step
    requires c * q == step * k
    ensures k >= 0.0 ==> k <= q && (q < k + 1.0 <==> k * (step - c) < c)
    ensures k <= 0.0 ==> q <= k
  {
    if k >= 0.0 {
      assert c * k <= c * q by { NonNegativeScale(k, c, step); }
      ScaleLess(c, k, q);
      assert c * (k + 1.0) == c * k + c by { Distribute(c, k, 1.0); }
      ScaleLess(c, q, k + 1.0);
      assert k * (step - c) == c * q - c * k by { Distribute(k, step, c); }
    } else {
      assert c * q <= c * k by { NonNegativeScale(-k, c, step); }
      ScaleLess(c, q, k);
    }
    if k == 0.0 {
      ScaleLess(c, q, 0.0);
    }
  }

  lemma TruncateBounds(q: real, k: int, n: int)
    requires n == Truncate(1.0 + q)
    ensures k >= 0 && k as real <= q ==> n >= k + 1 && (n == k + 1 <==> q < k as real + 1.0)
    ensures q <= 0.0 ==> n <= 1
  {
  }

  function Span(step: real, k: int): real {
    step * k as real
  }

  /** n is never too small for k steps, and right exactly when the cast is harmless. */
  predicate Counts(step: real, k: int, n: int) {
    && (k >= 0 ==> n >= k + 1 && (n == k + 1 <==> CastIsHarmlessFor(step, k)))
    && (k <= 0 ==> n <= 1)
  }

  /** The number of samples calculated for a span of k steps. */
  lemma CountFromSpan(step: real, k: int, n: int)
    requires step >= 1.0 && n == CastCount(Span(step, k), step)
    ensures Counts(step, k, n)
  {
    var c, span := Truncate(step) as real, Span(step, k);
    DivideThenScale(span, c);
    CastQuotient(step, c, k as real, span / c);
    TruncateBounds(span / c, k, n);
  }

  lemma IntersectionCount(a: Axis, b: Axis, dimension: nat)
    requires OnOneRuler(a, b) && Truncate(a.Stepsize()) != 0
    ensures MakeAxis(a, b, dimension).Ok?
    ensures MakeAxis(a, b, dimension).axis.nsamples == CastCount(Span(a.Stepsize(), SharedSteps(a, b)), a.Stepsize())
  {
    SharedSpan(a, b);
  }

  /** The calculated number of samples is never short, and is right exactly when the cast is harmless. */
  lemma CountIff(a: Axis, b: Axis, dimension: nat)
    requires OnOneRuler(a, b) && a.Stepsize() >= 1.0
    ensures MakeAxis(a, b, dimension).Ok? && Counts(a.Stepsize(), SharedSteps(a, b), MakeAxis(a, b, dimension).axis.nsamples)
  {
    IntersectionCount(a, b, dimension);
    CountFromSpan(a.Stepsize(), SharedSteps(a, b), MakeAxis(a, b, dimension).axis.nsamples);
  }

  /** Cubes that share fewer than two lines along an axis are rejected, and all others accepted. */
  lemma AcceptedIff(a: Axis, b: Axis, dimension: nat)
    requires OnOneRuler(a, b) && a.Stepsize() >= 1.0
    ensures MakeDoubleAxis(a, b, dimension).Ok? <==> SharedSteps(a, b) >= 1
  {
    CountIff(a, b, dimension);
    IntersectionEnds(a, b, dimension);
    var axis := MakeAxis(a, b, dimension).axis;
    if SharedSteps(a, b) >= 1 {
      ScaleLess(a.Stepsize(), 0.0, SharedSteps(a, b) as real);
      DivideOrder(0.0, axis.max - axis.min, (axis.nsamples - 1) as real);
    }
  }

  // ---- the lines of the intersection

  ghost predicate HoldsSharedLines(axis: Axis, a: Axis, b: Axis)
    requires axis.Accepted() && a.Accepted() && b.Accepted()
  {
    forall x :: axis.HasLine(x) <==> a.HasLine(x) && b.HasLine(x)
  }

  /** x is a line of both exactly when it is one of the lines of a from the first to the last shared one. */
  lemma SharedLineIff(a: Axis, b: Axis, x: real)
    requires OnOneRuler(a, b)
    ensures a.HasLine(x) && b.HasLine(x)
            <==> exists k :: FirstShared(a, b) <= k <= LastShared(a, b) && x == a.PositionAt(k)
  {
    var o := Apart(a, b);
    if a.HasLine(x) && b.HasLine(x) {
      var j :| 0 <= j < a.nsamples && x == a.PositionAt(j);
      var k :| 0 <= k < b.nsamples && x == b.PositionAt(k);
      SameLine(a, b, k);
      PositionOrder(a, j, o + k);
      assert FirstShared(a, b) <= j <= LastShared(a, b);
    }
    if exists k :: FirstShared(a, b) <= k <= LastShared(a, b) && x == a.PositionAt(k) {
      var k :| FirstShared(a, b) <= k <= LastShared(a, b) && x == a.PositionAt(k);
      SameLine(a, b, k - o);
      assert b.PositionAt(k - o) == x;
    }
  }

  /** The right number of samples gives the right step. */
  lemma IntersectionStep(a: Axis, axis: Axis, k: int)
    requires a.Accepted() && axis.nsamples == k + 1 >= 2
    requires axis.max - axis.min == a.Stepsize() * k as real
    ensures axis.Stepsize() == a.Stepsize()
  {
    ScaleThenDivide(a.Stepsize(), k as real);
  }

  /** With the right number of samples, line k of the intersection is line k after the first shared one. */
  lemma IntersectionLine(a: Axis, b: Axis, axis: Axis, k: int)
    requires a.Accepted() && axis.Accepted()
    requires axis.min == a.PositionAt(FirstShared(a, b)) && axis.Stepsize() == a.Stepsize()
    ensures axis.PositionAt(k) == a.PositionAt(FirstShared(a, b) + k)
  {
    Distribute(a.Stepsize(), FirstShared(a, b) as real, k as real);
  }

  lemma SharedLinesWhenCounted(a: Axis, b: Axis, axis: Axis)
    requires OnOneRuler(a, b) && axis.Accepted()
    requires axis.nsamples == SharedSteps(a, b) + 1
    requires axis.min == a.PositionAt(FirstShared(a, b)) && axis.Stepsize() == a.Stepsize()
    ensures HoldsSharedLines(axis, a, b)
  {
    forall x
      ensures axis.HasLine(x) <==> a.HasLine(x) && b.HasLine(x)
    {
      SharedLineIff(a, b, x);
      if axis.HasLine(x) {
        var k :| 0 <= k < axis.nsamples && x == axis.PositionAt(k);
        IntersectionLine(a, b, axis, k);
        assert FirstShared(a, b) <= FirstShared(a, b) + k <= LastShared(a, b);
      }
      if a.HasLine(x) && b.HasLine(x) {
        var k :| FirstShared(a, b) <= k <= LastShared(a, b) && x == a.PositionAt(k);
        IntersectionLine(a, b, axis, k - FirstShared(a, b));
        assert x == axis.PositionAt(k - FirstShared(a, b));
      }
    }
  }

  lemma NoLineBetween(a: Axis, j: int, x: real)
    requires a.Accepted()
    requires a.PositionAt(j) < x < a.PositionAt(j + 1)
    ensures !a.HasLine(x)
  {
    if a.HasLine(x) {
      var k :| 0 <= k < a.nsamples && x == a.PositionAt(k);
      PositionOrder(a, j, k);
      PositionOrder(a, k, j + 1);
    }
  }

  /** Too many samples make the step too short. */
  lemma ShorterStep(a: Axis, axis: Axis, k: int)
    requires a.Accepted() && axis.nsamples > k + 1 >= 2
    requires axis.max - axis.min == a.Stepsize() * k as real
    ensures 0.0 < axis.Stepsize() < a.Stepsize()
  {
    var n, step := (axis.nsamples - 1) as real, a.Stepsize();
    ScaleLess(step, 0.0, k as real);
    ScaleLess(step, k as real, n);
    DivideOrder(0.0, step * k as real, n);
    DivideOrder(step * k as real, step * n, n);
    ScaleThenDivide(step, n);
  }

  /** Then line 1 falls between two lines of the cube. */
  lemma StrayLine(a: Axis, first: int, axis: Axis, k: int)
    requires a.Accepted() && axis.nsamples > k + 1 >= 2
    requires axis.min == a.PositionAt(first) && axis.max - axis.min == a.Stepsize() * k as real
    ensures axis.HasLine(axis.PositionAt(1)) && !a.HasLine(axis.PositionAt(1))
  {
    ShorterStep(a, axis, k);
    assert axis.PositionAt(1) == axis.min + axis.Stepsize();
    PositionSpan(a, first, first + 1);
    NoLineBetween(a, first, axis.PositionAt(1));
  }

  lemma SharedLinesIffCounted(a: Axis, b: Axis, axis: Axis)
    requires OnOneRuler(a, b) && axis.Accepted()
    requires axis.nsamples >= SharedSteps(a, b) + 1 >= 2
    requires axis.min == a.PositionAt(FirstShared(a, b))
    requires axis.max - axis.min == a.Stepsize() * SharedSteps(a, b) as real
    ensures HoldsSharedLines(axis, a, b) <==> axis.nsamples == SharedSteps(a, b) + 1
  {
    if axis.nsamples == SharedSteps(a, b) + 1 {
      IntersectionStep(a, axis, SharedSteps(a, b));
      SharedLinesWhenCounted(a, b, axis);
    } else {
      StrayLine(a, FirstShared(a, b), axis, SharedSteps(a, b));
    }
  }

  /**
   The intersection holds exactly the lines that both cubes have if and only if the cast of the step is harmless:
   always for whole steps, and for others as long as few enough lines are shared.
   */
  lemma SharedLinesIff(a: Axis, b: Axis, dimension: nat)
    requires OnOneRuler(a, b) && a.Stepsize() >= 1.0 && SharedSteps(a, b) >= 1
    ensures MakeDoubleAxis(a, b, dimension).Ok?
    ensures HoldsSharedLines(MakeDoubleAxis(a, b, dimension).axis, a, b) <==> CastIsHarmless(a, b)
  {
    AcceptedIff(a, b, dimension);
    CountIff(a, b, dimension);
    IntersectionEnds(a, b, dimension);
    SharedLinesIffCounted(a, b, MakeAxis(a, b, dimension).axis);
  }

  /** The count is undefined for steps below one, however many lines are shared, and for no others. */
  lemma StepBelowOne(a: Axis, b: Axis, dimension: nat)
    requires a.Accepted() && b.Accepted()
    ensures MakeDoubleAxis(a, b, dimension) == CountNotFinite <==> OnOneRuler(a, b) && a.Stepsize() < 1.0
  {
    assert Truncate(a.Stepsize()) == 0 <==> a.Stepsize() < 1.0;
  }

  predicate IsLine(a: Axis, n: int, x: real)
    requires a.Accepted()
  {
    a.PositionAt(n) == x
  }

  /** Both axes have the lines x and y. */
  ghost predicate SharePair(a: Axis, b: Axis, x: real, y: real)
    requires a.Accepted() && b.Accepted()
  {
    x < y && a.HasLine(x) && b.HasLine(x) && a.HasLine(y) && b.HasLine(y)
  }

  /** A whole number of steps apart: the lines of a, continued in both directions, meet the first line of b. */
  lemma WholeStepsIff(a: Axis, b: Axis)
    requires a.Accepted() && b.Accepted()
    ensures StepsApart(a, b).Floor as real == StepsApart(a, b) <==> exists n :: IsLine(a, n, b.min)
  {
    PositionOfIndex(a, b.min);
    if StepsApart(a, b).Floor as real == StepsApart(a, b) {
      assert IsLine(a, StepsApart(a, b).Floor, b.min);
    }
    if n :| IsLine(a, n, b.min) {
      IndexOfPosition(a, n);
    }
  }

  lemma TwoSharedIff(a: Axis, b: Axis)
    requires OnOneRuler(a, b)
    ensures SharedSteps(a, b) >= 1 <==> exists x, y :: SharePair(a, b, x, y)
  {
    var first, last := FirstShared(a, b), LastShared(a, b);
    if SharedSteps(a, b) >= 1 {
      SharedLineIff(a, b, a.PositionAt(first));
      SharedLineIff(a, b, a.PositionAt(last));
      PositionOrder(a, first, last);
      assert SharePair(a, b, a.PositionAt(first), a.PositionAt(last));
    }
    if x, y :| SharePair(a, b, x, y) {
      SharedLineIff(a, b, x);
      SharedLineIff(a, b, y);
      var j :| first <= j <= last && x == a.PositionAt(j);
      var k :| first <= k <= last && y == a.PositionAt(k);
      PositionOrder(a, j, k);
    }
  }

  /** When each outcome is returned. A step that is not positive is never found at the end. */
  lemma OutcomeIff(a: Axis, b: Axis, dimension: nat)
    requires a.Accepted() && b.Accepted()
    ensures var r := MakeDoubleAxis(a, b, dimension);
            var alike := a.name == b.name && a.unit == b.unit && a.Stepsize() == b.Stepsize();
            var ruler := alike && exists n :: IsLine(a, n, b.min);
            var shared := exists x, y :: SharePair(a, b, x, y);
            && (r == NameMismatch <==> a.name != b.name)
            && (r == UnitMismatch <==> a.name == b.name && a.unit != b.unit)
            && (r == StepsizeMismatch <==> a.name == b.name && a.unit == b.unit && a.Stepsize() != b.Stepsize())
            && (r == NoSharedLines <==> alike && !ruler)
            && (r == CountNotFinite <==> ruler && a.Stepsize() < 1.0)
            && (r == TooFewSamples <==> ruler && a.Stepsize() >= 1.0 && !shared)
            && (r.Ok? <==> ruler && a.Stepsize() >= 1.0 && shared)
  {
    WholeStepsIff(a, b);
    if OnOneRuler(a, b) {
      TwoSharedIff(a, b);
      if a.Stepsize() >= 1.0 {
        CountIff(a, b, dimension);
        AcceptedIff(a, b, dimension);
      }
    }
    StepBelowOne(a, b, dimension);
  }

  /** All in all, two axes on one ruler are combined as they should be under a condition that callers can check. */
  lemma IntersectionSoundIff(a: Axis, b: Axis, dimension: nat)
    requires OnOneRuler(a, b)
    ensures MakeDoubleAxis(a, b, dimension).Ok? && HoldsSharedLines(MakeDoubleAxis(a, b, dimension).axis, a, b)
            <==> a.Stepsize() >= 1.0 && SharedSteps(a, b) >= 1 && CastIsHarmless(a, b)
  {
    if a.Stepsize() < 1.0 {
      StepBelowOne(a, b, dimension);
    } else {
      AcceptedIff(a, b, dimension);
      if SharedSteps(a, b) >= 1 {
        SharedLinesIff(a, b, dimension);
      }
    }
  }

  lemma WholeStepsAreHarmless(a: Axis, b: Axis)
    requires OnOneRuler(a, b)
    requires a.Stepsize() == Truncate(a.Stepsize()) as real
    ensures a.Stepsize() >= 1.0 && CastIsHarmless(a, b)
  {
  }

  /** A cube with lines 0, 1.5 and 3, combined with itself, is given four samples instead of three. */
  lemma StepOfOneAndAHalf(a: Axis)
    requires a.min == 0.0 && a.max == 3.0 && a.nsamples == 3
    ensures a.Accepted() && OnOneRuler(a, a) && SharedSteps(a, a) == 2 && !CastIsHarmless(a, a)
    ensures MakeDoubleAxis(a, a, a.dimension) == Ok(a.(nsamples := 4))
  {
    StepOf(a, 1.5);
    StepOf(a.(nsamples := 4), 1.0);
    ThreeOverOneAndAHalf();
    WithItself(a);
    MakeFromItself(a, 1.5);
  }

  lemma StepOf(a: Axis, step: real)
    requires a.nsamples >= 2 && a.max - a.min == step * (a.nsamples - 1) as real
    ensures a.Stepsize() == step
  {
    ScaleThenDivide(step, (a.nsamples - 1) as real);
  }

  lemma MakeFromItself(a: Axis, step: real)
    requires a.Accepted() && a.Stepsize() == step && Truncate(step) != 0
    ensures MakeAxis(a, a, a.dimension) == Ok(a.(nsamples := CastCount(Overlap(a, a), step)))
  {
    WithItself(a);
  }

  lemma WithItself(a: Axis)
    requires a.Accepted()
    ensures OnOneRuler(a, a) && Apart(a, a) == 0 && SharedSteps(a, a) == a.nsamples - 1
    ensures LaterStart(a, a) == a.min && EarlierEnd(a, a) == a.max && Overlap(a, a) == a.max - a.min
  {
    assert StepsApart(a, a) == 0.0;
  }

  lemma ThreeOverOneAndAHalf()
    ensures Truncate(1.5) == 1 && CastCount(3.0, 1.5) == 4 && !CastIsHarmlessFor(1.5, 2)
  {
    assert Truncate(1.5) as real == 1.0;
    assert 3.0 / 1.0 == 3.0;
  }

  // ---- offsets into the two cubes

  /** Index of a's line nearest to an annotated position. */
  function IndexAt(a: Axis, x: real): int
    requires a.Accepted()
  {
    Round(a.IndexOf(x))
  }

  /** Index, in a, of line 0 of the intersection: that of b's line 0, unless it lies before a. */
  function ZeroInA(a: Axis, b: Axis): int
    requires a.Accepted() && b.Accepted()
  {
    var bZero := IndexAt(a, b.PositionAt(0));
    if bZero >= 0 then bZero else 0
  }

  /** Index, in b, of that same line. */
  function ZeroInB(a: Axis, b: Axis): int
    requires a.Accepted() && b.Accepted()
  {
    IndexAt(b, a.PositionAt(ZeroInA(a, b)))
  }

  lemma IndexAtLine(a: Axis, k: int)
    requires a.Accepted()
    ensures IndexAt(a, a.PositionAt(k)) == k
  {
    IndexOfPosition(a, k);
    RoundOfInteger(k);
  }

  lemma OffsetFormulas(a: Axis, b: Axis)
    requires OnOneRuler(a, b)
    ensures ZeroInA(a, b) == Max(0, Apart(a, b)) && ZeroInB(a, b) == Max(0, -Apart(a, b))
  {
    SameLine(a, b, 0);
    IndexAtLine(a, Apart(a, b));
    var zero := ZeroInA(a, b);
    SameLine(a, b, zero - Apart(a, b));
    IndexAtLine(b, zero - Apart(a, b));
  }

  /** Both offsets are in their cube, one of them is zero, and both lead to the first line of the intersection. */
  lemma OffsetsAgreeWithAxis(a: Axis, b: Axis, dimension: nat)
    requires OnOneRuler(a, b) && a.Stepsize() >= 1.0 && SharedSteps(a, b) >= 1
    ensures MakeDoubleAxis(a, b, dimension).Ok?
    ensures 0 <= ZeroInA(a, b) < a.nsamples && 0 <= ZeroInB(a, b) < b.nsamples
    ensures ZeroInA(a, b) == 0 || ZeroInB(a, b) == 0
    ensures var axis := MakeDoubleAxis(a, b, dimension).axis;
            a.PositionAt(ZeroInA(a, b)) == axis.min == b.PositionAt(ZeroInB(a, b))
  {
    OffsetFormulas(a, b);
    AcceptedIff(a, b, dimension);
    IntersectionEnds(a, b, dimension);
    SameLine(a, b, ZeroInB(a, b));
  }

  predicate InBoth(a: Axis, b: Axis, k: int)
    requires a.Accepted() && b.Accepted()
  {
    0 <= ZeroInA(a, b) + k < a.nsamples && 0 <= ZeroInB(a, b) + k < b.nsamples
  }

  /** Every index of the intersection, shifted by the offsets, is an index of both cubes. */
  ghost predicate StaysInside(nsamples: int, a: Axis, b: Axis)
    requires a.Accepted() && b.Accepted()
  {
    forall k :: 0 <= k < nsamples ==> InBoth(a, b, k)
  }

  lemma InBothIff(a: Axis, b: Axis, k: int)
    requires OnOneRuler(a, b)
    requires k >= 0
    ensures InBoth(a, b, k) <==> k <= SharedSteps(a, b)
  {
    OffsetFormulas(a, b);
  }

  /** The intersection stays inside both cubes under the very condition that makes its lines right. */
  lemma StaysInsideIff(a: Axis, b: Axis, dimension: nat)
    requires OnOneRuler(a, b) && a.Stepsize() >= 1.0 && SharedSteps(a, b) >= 1
    ensures MakeDoubleAxis(a, b, dimension).Ok?
    ensures StaysInside(MakeDoubleAxis(a, b, dimension).axis.nsamples, a, b) <==> CastIsHarmless(a, b)
  {
    AcceptedIff(a, b, dimension);
    CountIff(a, b, dimension);
    var n := MakeAxis(a, b, dimension).axis.nsamples;
    forall k | 0 <= k < n
      ensures InBoth(a, b, k) <==> k <= SharedSteps(a, b)
    {
      InBothIff(a, b, k);
    }
    InBothIff(a, b, SharedSteps(a, b) + 1);
  }
}
