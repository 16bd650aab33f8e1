/** How the attributes of one window of samples are tied together, for every window. */
module AttributeLaws {
  import opened RealMath
  import opened Blueprints
  import opened AttributeMath
  import opened Attributes

  /** A resampled window: its samples, the index of its reference, its step and the depth of its first sample. */
  datatype Window = Window(numerics: Numerics, data: seq<real>, referenceIndex: nat, step: real, top: real) {
    predicate Valid() {
      referenceIndex < |data|
    }

    function Get(attribute: Attribute): real
      requires Valid()
    {
      AttributeOf(numerics, attribute, data, referenceIndex, step, top)
    }

    function Depth(k: nat): real {
      SamplePositionAt(step, top, k)
    }

    /** A depth m steps from the reference has a sample exactly when it lies between the boundaries, up to a thousandth of a step. */
    predicate Covers(reference: real, top: real, bottom: real, m: int) {
      var depth := reference + step * m as real;
      && (0 <= referenceIndex + m < |data| <==> top - 0.001 * step < depth < bottom + 0.001 * step)
      && (0 <= referenceIndex + m < |data| ==> Depth(referenceIndex + m) == depth)
    }

    /** So do all depths a whole number of steps from the reference. */
    ghost predicate Spans(reference: real, top: real, bottom: real) {
      forall m: int :: Covers(reference, top, bottom, m)
    }
  }

  // ---- the window of a cell

  /** The samples of w are those of the resampled window between the boundaries. */
  predicate Resamples(w: Window, reference: real, top: real, bottom: real) {
    && w.step > 0.0 && |w.data| == WindowSize(w.step, reference, top, bottom)
    && w.referenceIndex == SamplesAbove(w.step, reference, top)
    && w.top == ResampledTopPosition(w.step, reference, top)
  }

  lemma ResampledCovers(w: Window, reference: real, top: real, bottom: real, m: int)
    requires Resamples(w, reference, top, bottom)
    ensures w.Covers(reference, top, bottom, m)
  {
    ResampledWindowIff(w.step, reference, top, bottom, m);
  }

  lemma ResampledSpans(w: Window, reference: real, top: real, bottom: real)
    requires Resamples(w, reference, top, bottom)
    ensures w.Spans(reference, top, bottom)
  {
    forall m: int
      ensures w.Covers(reference, top, bottom, m)
    {
      ResampledCovers(w, reference, top, bottom, m);
    }
  }

  /** What is calculated in a cell with a segment is the attribute of the resampled window of that cell. */
  lemma CellWindow(req: Request, i: nat, samples: seq<real>, attribute: Attribute) returns (w: Window)
    requires req.Valid() && i < req.Size() && req.Plan()[i].Segment?
    ensures w.Valid() && w.numerics == req.numerics && w.step == req.step
    ensures CellValue(req, attribute, i, samples) == w.Get(attribute)
    ensures w.Spans(req.reference.values[i], req.top.values[i], req.bottom.values[i])
    ensures w.Depth(w.referenceIndex) == req.reference.values[i]
    ensures forall j: nat :: j < |w.data| ==>
              var points := SourcePoints(req, i, req.Plan()[i].topMargin, req.Plan()[i].size);
              w.data[j] == req.numerics.spline(points, samples, w.Depth(j))
  {
    var cell, step := req.Plan()[i], req.step;
    var reference, top, bottom := req.reference.values[i], req.top.values[i], req.bottom.values[i];
    CellIsOrdered(req, i);
    ReferenceInWindow(step, reference, top, bottom);
    var points := SourcePoints(req, i, cell.topMargin, cell.size);
    w := Window(req.numerics, Splined(req.numerics, points, samples, TargetPoints(req, i)),
                SamplesAbove(step, reference, top), step, ResampledTopPosition(step, reference, top));
    ResampledSpans(w, reference, top, bottom);
  }

  // ---- extremes and where they are

  /** MIN and MAX are samples, and bounds of all samples. */
  lemma Extremes(w: Window, j: nat)
    requires w.Valid() && j < |w.data|
    ensures w.Get(MIN) <= w.data[j] <= w.Get(MAX)
    ensures w.Get(MIN) in w.data && w.Get(MAX) in w.data
    ensures w.Get(MIN) <= w.Get(VALUE) <= w.Get(MAX)
  {
    var low, high := FirstMax(Negated, w.data), FirstMax(Identity, w.data);
    assert Negated(w.data[j]) <= Negated(w.data[low]) && Identity(w.data[j]) <= Identity(w.data[high]);
    var v := w.data[w.referenceIndex];
    assert Negated(v) <= Negated(w.data[low]) && Identity(v) <= Identity(w.data[high]);
  }

  /** x is attained by sample k, and by no sample before it. */
  predicate FirstAt(data: seq<real>, f: real -> real, x: real, k: nat) {
    k < |data| && f(data[k]) == x && forall j :: 0 <= j < k ==> f(data[j]) != x
  }

  /** MINAT is the depth of the first sample with the minimum. */
  lemma MinimumDepth(w: Window)
    requires w.Valid()
    ensures exists k :: FirstAt(w.data, Identity, w.Get(MIN), k) && w.Get(MINAT) == w.Depth(k)
  {
    var low := FirstMax(Negated, w.data);
    assert forall j :: 0 <= j < low ==> Negated(w.data[j]) < Negated(w.data[low]);
    assert FirstAt(w.data, Identity, w.Get(MIN), low);
  }

  /** MAXAT is the depth of the first sample with the maximum. */
  lemma MaximumDepth(w: Window)
    requires w.Valid()
    ensures exists k :: FirstAt(w.data, Identity, w.Get(MAX), k) && w.Get(MAXAT) == w.Depth(k)
  {
    assert FirstAt(w.data, Identity, w.Get(MAX), FirstMax(Identity, w.data));
  }

  /** MAXABSAT is the depth of the first sample with the largest absolute value. */
  lemma MaxAbsDepth(w: Window)
    requires w.Valid()
    ensures exists k :: FirstAt(w.data, Abs, w.Get(MAXABS), k) && w.Get(MAXABSAT) == w.Depth(k)
  {
    assert FirstAt(w.data, Abs, w.Get(MAXABS), FirstMax(Abs, w.data));
  }

  /** The largest absolute value is that of the maximum or of the minimum. */
  lemma MaxAbsFromExtremes(w: Window)
    requires w.Valid()
    ensures w.Get(MAXABS) == if w.Get(MAX) >= -w.Get(MIN) then w.Get(MAX) else -w.Get(MIN)
  {
    var low, high, far := FirstMax(Negated, w.data), FirstMax(Identity, w.data), FirstMax(Abs, w.data);
    assert Abs(w.data[low]) <= Abs(w.data[far]) && Abs(w.data[high]) <= Abs(w.data[far]);
    Extremes(w, far);
  }

  // ---- sums and means

  lemma {:induction false} SumBounds(s: seq<real>, lo: real, hi: real)
    requires forall j :: 0 <= j < |s| ==> lo <= s[j] <= hi
    ensures |s| as real * lo <= SumOf(Identity, s) <= |s| as real * hi
  {
    if s != [] {
      var n := |s| - 1;
      SumBounds(s[..n], lo, hi);
      OneMore(n as real, lo);
      OneMore(n as real, hi);
    }
  }

  lemma OneMore(n: real, x: real)
    ensures (n + 1.0) * x == n * x + x
  {
  }

  /** A mean is between bounds of the samples. */
  lemma MeanBounds(s: seq<real>, lo: real, hi: real)
    requires s != [] && forall j :: 0 <= j < |s| ==> lo <= s[j] <= hi
    ensures lo <= Mean(s) <= hi
  {
    var n := |s| as real;
    SumBounds(s, lo, hi);
    DivideThenScale(SumOf(Identity, s), n);
    ScaleLess(n, lo, Mean(s));
    ScaleLess(n, Mean(s), hi);
  }

  lemma MeanBetween(w: Window)
    requires w.Valid()
    ensures w.Get(MIN) <= w.Get(MEAN) <= w.Get(MAX)
  {
    forall j | 0 <= j < |w.data|
      ensures w.Get(MIN) <= w.data[j] <= w.Get(MAX)
    {
      Extremes(w, j);
    }
    MeanBounds(w.data, w.Get(MIN), w.Get(MAX));
  }

  lemma {:induction false} PartSigns(s: seq<real>)
    ensures SumOf(NegativePart, s) <= 0.0 <= SumOf(PositivePart, s)
    ensures CountOf(IsPositive, s) == 0 ==> SumOf(PositivePart, s) == 0.0
    ensures CountOf(IsNegative, s) == 0 ==> SumOf(NegativePart, s) == 0.0
  {
    if s != [] {
      PartSigns(s[..|s| - 1]);
    }
  }

  lemma MeanWhereTimesCount(sum: real, count: nat)
    requires count == 0 ==> sum == 0.0
    ensures count as real * MeanWhere(sum, count) == sum
  {
    if count > 0 {
      DivideThenScale(sum, count as real);
    }
  }

  lemma MeanFromParts(s: seq<real>)
    requires s != []
    ensures |s| as real * Mean(s) == SumOf(PositivePart, s) + SumOf(NegativePart, s)
  {
    AbsoluteSplits(s);
    DivideThenScale(SumOf(Identity, s), |s| as real);
  }

  /** The mean, times the number of samples, is made up of the two sums of signed samples. */
  lemma MeanAndSums(w: Window)
    requires w.Valid()
    ensures |w.data| as real * w.Get(MEAN) == w.Get(SUMPOS) + w.Get(SUMNEG)
  {
    MeanFromParts(w.data);
  }

  /** The mean of absolute values, times the number of samples, is their difference. */
  lemma MeanAbsAndSums(w: Window)
    requires w.Valid()
    ensures |w.data| as real * w.Get(MEANABS) == w.Get(SUMPOS) - w.Get(SUMNEG)
  {
    MeanAbsFromSums(w.data);
  }

  /** The mean of the positive samples, times their number, is their sum; also when there are none. */
  lemma MeanPosAndSum(w: Window)
    requires w.Valid()
    ensures |set j: nat | j < |w.data| && w.data[j] > 0.0| as real * w.Get(MEANPOS) == w.Get(SUMPOS) >= 0.0
    ensures (forall j :: 0 <= j < |w.data| ==> w.data[j] <= 0.0) ==> w.Get(MEANPOS) == 0.0
  {
    CountIsCardinality(IsPositive, w.data);
    assert Where(IsPositive, w.data) == set j: nat | j < |w.data| && w.data[j] > 0.0;
    PartSigns(w.data);
    MeanWhereTimesCount(SumOf(PositivePart, w.data), CountOf(IsPositive, w.data));
  }

  lemma MeanNegAndSum(w: Window)
    requires w.Valid()
    ensures |set j: nat | j < |w.data| && w.data[j] < 0.0| as real * w.Get(MEANNEG) == w.Get(SUMNEG) <= 0.0
    ensures (forall j :: 0 <= j < |w.data| ==> w.data[j] >= 0.0) ==> w.Get(MEANNEG) == 0.0
  {
    CountIsCardinality(IsNegative, w.data);
    assert Where(IsNegative, w.data) == set j: nat | j < |w.data| && w.data[j] < 0.0;
    PartSigns(w.data);
    MeanWhereTimesCount(SumOf(NegativePart, w.data), CountOf(IsNegative, w.data));
  }

  // ---- median and spread

  /** The median is between the extremes. */
  lemma MedianBetween(w: Window)
    requires w.Valid()
    ensures w.Get(MIN) <= w.Get(MEDIAN) <= w.Get(MAX)
  {
    forall j | 0 <= j < |w.data|
      ensures w.Get(MIN) <= w.data[j] <= w.Get(MAX)
    {
      Extremes(w, j);
    }
    MedianBounds(w.data, w.Get(MIN), w.Get(MAX));
  }

  /** And it has the middle rank among the samples, or lies half way between the two of middle rank. */
  lemma MedianInTheMiddle(w: Window)
    requires w.Valid()
    ensures |w.data| % 2 == 1 ==> HasRank(w.data, |w.data| / 2, w.Get(MEDIAN))
    ensures |w.data| % 2 == 0 ==> exists v, u :: HalfWay(w.data, w.Get(MEDIAN), v, u)
  {
    MedianRanks(w.data);
    assert w.Get(MEDIAN) == Median(w.data);
  }

  lemma MedianBounds(s: seq<real>, lo: real, hi: real)
    requires s != [] && forall j :: 0 <= j < |s| ==> lo <= s[j] <= hi
    ensures lo <= Median(s) <= hi
  {
    var sorted := Sort(s);
    forall k | 0 <= k < |sorted|
      ensures lo <= sorted[k] <= hi
    {
      assert sorted[k] in multiset(sorted);
      assert sorted[k] in multiset(s);
    }
  }

  lemma {:induction false} SquaresNotNegative(s: seq<real>, m: real)
    ensures SumOf(SquaredDeviation(m), s) >= 0.0
    ensures SumOf(SquaredDeviation(m), s) == 0.0 ==> forall j :: 0 <= j < |s| ==> s[j] == m
    ensures (forall j :: 0 <= j < |s| ==> s[j] == m) ==> SumOf(SquaredDeviation(m), s) == 0.0
  {
    if s != [] {
      var init, x := s[..|s| - 1], s[|s| - 1];
      SquaresNotNegative(init, m);
      DeviationSign(x, m);
      assert forall j :: 0 <= j < |init| ==> init[j] == s[j];
    }
  }

  lemma DeviationSign(x: real, m: real)
    ensures SquaredDeviation(m)(x) >= 0.0 && (SquaredDeviation(m)(x) == 0.0 <==> x == m)
  {
    SquareSign(x - m);
    assert SquaredDeviation(m)(x) == Product(x - m, x - m);
  }

  lemma ProductSign(x: real, y: real)
    ensures x > 0.0 && y > 0.0 ==> Product(x, y) > 0.0
    ensures x < 0.0 && y < 0.0 ==> Product(x, y) > 0.0
    ensures x == 0.0 || y == 0.0 ==> Product(x, y) == 0.0
  {
  }

  lemma SquareSign(x: real)
    ensures Product(x, x) >= 0.0 && (Product(x, x) == 0.0 <==> x == 0.0)
  {
    ProductSign(x, x);
  }

  lemma QuotientSign(x: real, n: real)
    requires n > 0.0 && x >= 0.0
    ensures x / n >= 0.0 && (x / n == 0.0 <==> x == 0.0)
  {
    DivideThenScale(x, n);
    ScaleLess(n, 0.0, x / n);
    ScaleLess(n, x / n, 0.0);
  }

  lemma VarianceSign(s: seq<real>)
    requires s != []
    ensures Variance(s) >= 0.0
    ensures Variance(s) == 0.0 <==> forall j :: 0 <= j < |s| ==> s[j] == Mean(s)
  {
    SquaresNotNegative(s, Mean(s));
    QuotientSign(SumOf(SquaredDeviation(Mean(s)), s), |s| as real);
  }

  /** The square of RMS is the square of MEAN plus VAR. */
  lemma RmsFromMeanAndVar(w: Window)
    requires w.Valid() && w.numerics.Valid()
    ensures w.Get(RMS) >= 0.0 && Product(w.Get(RMS), w.Get(RMS)) == Product(w.Get(MEAN), w.Get(MEAN)) + w.Get(VAR)
  {
    MeanSquareIs(w.data);
    assert IsRoot(w.numerics.sqrt(MeanSquare(w.data)), MeanSquare(w.data));
  }

  /** Times the number of samples, it is the sum of their squares. */
  lemma RmsAndSquares(w: Window)
    requires w.Valid() && w.numerics.Valid()
    ensures |w.data| as real * Product(w.Get(RMS), w.Get(RMS)) == SumOf((x: real) => x * x, w.data)
  {
    MeanSquareIs(w.data);
    assert IsRoot(w.numerics.sqrt(MeanSquare(w.data)), MeanSquare(w.data));
    DivideThenScale(SumOf(Squared, w.data), |w.data| as real);
    SumsAgree(Squared, (x: real) => x * x, w.data);
  }

  lemma {:induction false} SumsAgree(f: real -> real, g: real -> real, s: seq<real>)
    requires forall j :: 0 <= j < |s| ==> f(s[j]) == g(s[j])
    ensures SumOf(f, s) == SumOf(g, s)
  {
    if s != [] {
      SumsAgree(f, g, s[..|s| - 1]);
    }
  }

  lemma MeanSquareIs(s: seq<real>)
    requires s != []
    ensures MeanSquare(s) == Product(Mean(s), Mean(s)) + Variance(s) >= 0.0
  {
    MeanSquareSplits(s);
    VarianceSign(s);
    SquareSign(Mean(s));
  }

  /** VAR is never negative, and zero exactly when all samples are the same; it is the square of SD. */
  lemma VarAndSd(w: Window)
    requires w.Valid() && w.numerics.Valid()
    ensures w.Get(SD) >= 0.0 && Product(w.Get(SD), w.Get(SD)) == w.Get(VAR)
    ensures w.Get(VAR) >= 0.0 && (w.Get(VAR) == 0.0 <==> w.Get(MIN) == w.Get(MAX))
  {
    VarianceSign(w.data);
    ConstantIff(w);
  }

  lemma ConstantIff(w: Window)
    requires w.Valid()
    ensures (forall j :: 0 <= j < |w.data| ==> w.data[j] == Mean(w.data)) <==> w.Get(MIN) == w.Get(MAX)
  {
    MeanBetween(w);
    forall j | 0 <= j < |w.data|
      ensures w.Get(MIN) <= w.data[j] <= w.Get(MAX)
    {
      Extremes(w, j);
    }
    Extremes(w, 0);
  }
}
