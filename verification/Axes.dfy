/** An annotated axis of a cube: evenly spaced lines from min to max. */
module Axes {
  import opened RealMath

  /** A position in a cube store, one coordinate per dimension; the centre of the first sample is at one half. */
  type Position = v: seq<real> | |v| == 3 witness [0.0, 0.0, 0.0]

  datatype Axis = Axis(min: real, max: real, nsamples: int, name: string, unit: string, dimension: nat) {

    function Stepsize(): real
      requires nsamples != 1
    {
      (max - min) / (nsamples - 1) as real
    }

    predicate InRange(x: real) {
      min <= x && max >= x
    }

    /** Half a step of slack on both sides, closed below and open above. */
    predicate InRangeWithMargin(x: real)
      requires nsamples != 1
    {
      min - 0.5 * Stepsize() <= x && max + 0.5 * Stepsize() > x
    }

    /** What metadata validation demands of every axis: two values at least, and a positive step. */
    predicate Accepted() {
      nsamples >= 2 && Stepsize() > 0.0
    }

    /** Annotated position of line k. */
    function PositionAt(k: int): real
      requires nsamples != 1
    {
      min + Stepsize() * k as real
    }

    /** Distance from the first line, in steps. */
    function IndexOf(x: real): real
      requires Accepted()
    {
      (x - min) / Stepsize()
    }

    /** The volume store counts sample positions from the edge of the first sample, half a step before its centre. */
    function ToSamplePosition(x: real): real
      requires Accepted()
    {
      IndexOf(x) + 0.5
    }

    /** x is the position of one of the lines of the axis. */
    ghost predicate HasLine(x: real)
      requires nsamples != 1
    {
      exists k :: 0 <= k < nsamples && x == PositionAt(k)
    }
  }

  lemma LastPosition(axis: Axis)
    requires axis.Accepted()
    ensures axis.PositionAt(axis.nsamples - 1) == axis.max
    ensures axis.min < axis.max
  {
    DivideThenScale(axis.max - axis.min, (axis.nsamples - 1) as real);
  }

  lemma IndexOfPosition(axis: Axis, k: int)
    requires axis.Accepted()
    ensures axis.IndexOf(axis.PositionAt(k)) == k as real
  {
    ScaleThenDivide(k as real, axis.Stepsize());
  }

  lemma PositionOfIndex(axis: Axis, x: real)
    requires axis.Accepted()
    ensures axis.min + axis.Stepsize() * axis.IndexOf(x) == x
  {
    DivideThenScale(x - axis.min, axis.Stepsize());
  }

  /** Being in range is being between index 0 and the last index. */
  lemma InRangeIff(axis: Axis, x: real)
    requires axis.Accepted()
    ensures axis.InRange(x) <==> 0.0 <= axis.IndexOf(x) <= (axis.nsamples - 1) as real
  {
    LastPosition(axis);
    PositionOfIndex(axis, x);
    ScaleLess(axis.Stepsize(), 0.0, axis.IndexOf(x));
    ScaleLess(axis.Stepsize(), axis.IndexOf(x), (axis.nsamples - 1) as real);
  }

  lemma PositionInRangeIff(axis: Axis, k: int)
    requires axis.Accepted()
    ensures axis.InRange(axis.PositionAt(k)) <==> 0 <= k < axis.nsamples
  {
    IndexOfPosition(axis, k);
    InRangeIff(axis, axis.PositionAt(k));
  }

  /** The margin leaves exactly the coordinates whose nearest line, with halves rounded up, is on the axis. */
  lemma MarginIff(axis: Axis, x: real)
    requires axis.Accepted()
    ensures axis.InRangeWithMargin(x) <==> 0 <= axis.ToSamplePosition(x).Floor < axis.nsamples
  {
    MarginInSteps(axis, x);
  }

  lemma MarginInSteps(axis: Axis, x: real)
    requires axis.Accepted()
    ensures axis.InRangeWithMargin(x) <==> -0.5 <= axis.IndexOf(x) < axis.nsamples as real - 0.5
  {
    var step, index, last := axis.Stepsize(), axis.IndexOf(x), (axis.nsamples - 1) as real;
    PositionOfIndex(axis, x);
    LastPosition(axis);
    StepsBetween(axis.min, axis.max, x, step, index, last);
  }

  lemma StepsBetween(min: real, max: real, x: real, step: real, index: real, last: real)
    requires step > 0.0 && x == min + step * index && max == min + step * last
    ensures min - 0.5 * step <= x && max + 0.5 * step > x <==> -0.5 <= index && index < last + 0.5
  {
    ScaleLess(step, -0.5, index);
    ScaleLess(step, index, last + 0.5);
    Distribute(step, last, 0.5);
  }

  /** The store finds line k at its centre. */
  lemma LineCentre(axis: Axis, k: int)
    requires axis.Accepted()
    ensures axis.ToSamplePosition(axis.PositionAt(k)) == k as real + 0.5
  {
    IndexOfPosition(axis, k);
  }
}
