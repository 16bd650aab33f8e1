/** The statistics calculated over one vertical window of samples. */
module AttributeMath {
  import opened RealMath

  // ---- accumulation

  /** f summed over the samples, first to last. */
  function SumOf(f: real -> real, s: seq<real>): real {
    if s == [] then 0.0 else SumOf(f, s[..|s| - 1]) + f(s[|s| - 1])
  }

  function CountOf(p: real -> bool, s: seq<real>): nat {
    if s == [] then 0 else CountOf(p, s[..|s| - 1]) + (if p(s[|s| - 1]) then 1 else 0)
  }

  function Identity(x: real): real { x }
  function Squared(x: real): real { x * x }
  function PositivePart(x: real): real { if x > 0.0 then x else 0.0 }
  function NegativePart(x: real): real { if x < 0.0 then x else 0.0 }
  predicate IsPositive(x: real) { x > 0.0 }
  predicate IsNegative(x: real) { x < 0.0 }

  method Accumulate(f: real -> real, s: seq<real>) returns (sum: real)
    ensures sum == SumOf(f, s)
  {
    sum := 0.0;
    for k := 0 to |s|
      invariant sum == SumOf(f, s[..k])
    {
      assert s[..k + 1][..k] == s[..k];
      sum := sum + f(s[k]);
    }
    assert s[..|s|] == s;
  }

  function Mean(s: seq<real>): real
    requires s != []
  {
    SumOf(Identity, s) / |s| as real
  }

  function MeanAbs(s: seq<real>): real
    requires s != []
  {
    SumOf(Abs, s) / |s| as real
  }

  /** Mean of the samples that satisfy p, whose sum is given; zero if there are none. */
  function MeanWhere(sum: real, count: nat): real {
    if count > 0 then sum / count as real else 0.0
  }

  function MeanPos(s: seq<real>): real {
    MeanWhere(SumOf(PositivePart, s), CountOf(IsPositive, s))
  }

  function MeanNeg(s: seq<real>): real {
    MeanWhere(SumOf(NegativePart, s), CountOf(IsNegative, s))
  }

  /** Sum and number of the samples that satisfy p, in one pass. */
  method AccumulateWhere(p: real -> bool, part: real -> real, s: seq<real>) returns (sum: real, count: nat)
    requires forall x :: part(x) == if p(x) then x else 0.0
    ensures sum == SumOf(part, s)
    ensures count == CountOf(p, s)
  {
    sum, count := 0.0, 0;
    for k := 0 to |s|
      invariant sum == SumOf(part, s[..k])
      invariant count == CountOf(p, s[..k])
    {
      assert s[..k + 1][..k] == s[..k];
      var x := s[k];
      assert part(x) == if p(x) then x else 0.0;
      assert SumOf(part, s[..k + 1]) == sum + part(x);
      if p(s[k]) {
        sum, count := sum + s[k], count + 1;
      }
    }
    assert s[..|s|] == s;
  }

  function SquaredDeviation(m: real): real -> real {
    x => (x - m) * (x - m)
  }

  function Variance(s: seq<real>): real
    requires s != []
  {
    SumOf(SquaredDeviation(Mean(s)), s) / |s| as real
  }

  function MeanSquare(s: seq<real>): real
    requires s != []
  {
    SumOf(Squared, s) / |s| as real
  }

  /** d is the expanded sum of squared deviations from m, of n samples with the given sums. */
  predicate Expanded(d: real, squares: real, sum: real, n: real, m: real) {
    d == squares - 2.0 * m * sum + n * (m * m)
  }

  lemma ExpandedOneMore(d: real, squares: real, sum: real, n: real, m: real, x: real, square: real, deviation: real)
    requires Expanded(d, squares, sum, n, m)
    requires deviation == square - 2.0 * m * x + m * m
    ensures Expanded(d + deviation, squares + square, sum + x, n + 1.0, m)
  {
    Distribute(2.0 * m, sum, x);
    Distribute(m * m, n, 1.0);
  }

  lemma DeviationOf(x: real, m: real)
    ensures SquaredDeviation(m)(x) == Squared(x) - 2.0 * m * x + m * m
  {
  }

  lemma {:induction false} DeviationsExpand(s: seq<real>, m: real)
    ensures Expanded(SumOf(SquaredDeviation(m), s), SumOf(Squared, s), SumOf(Identity, s), |s| as real, m)
  {
    if s == [] {
      assert Expanded(0.0, 0.0, 0.0, 0.0, m);
    } else {
      var rest, x := s[..|s| - 1], s[|s| - 1];
      DeviationsExpand(rest, m);
      DeviationOf(x, m);
      ExpandedOneMore(SumOf(SquaredDeviation(m), rest), SumOf(Squared, rest), SumOf(Identity, rest), |rest| as real, m,
                      x, Squared(x), SquaredDeviation(m)(x));
    }
  }

  /** The square of the root mean square is the square of the mean plus the variance. */
  lemma MeanSquareSplits(s: seq<real>)
    requires s != []
    ensures MeanSquare(s) == Mean(s) * Mean(s) + Variance(s)
  {
    var m, n := Mean(s), |s| as real;
    DeviationsExpand(s, m);
    DivideThenScale(SumOf(Identity, s), n);
    SplitArithmetic(SumOf(Squared, s), SumOf(Identity, s), m, n, SumOf(SquaredDeviation(m), s));
  }

  lemma SplitArithmetic(squares: real, sum: real, m: real, n: real, deviations: real)
    requires n > 0.0
    requires sum == n * m
    requires Expanded(deviations, squares, sum, n, m)
    ensures squares / n == m * m + deviations / n
  {
    assert 2.0 * m * sum == 2.0 * (n * (m * m));
    assert squares == n * (m * m) + deviations;
    ScaleThenDivide(m * m, n);
    assert (n * (m * m) + deviations) / n == (n * (m * m)) / n + deviations / n;
  }

  /** Positive and negative parts make up the absolute values. */
  lemma {:induction false} AbsoluteSplits(s: seq<real>)
    ensures SumOf(Abs, s) == SumOf(PositivePart, s) - SumOf(NegativePart, s)
    ensures SumOf(Identity, s) == SumOf(PositivePart, s) + SumOf(NegativePart, s)
  {
    if s != [] {
      AbsoluteSplits(s[..|s| - 1]);
    }
  }

  /** n times the mean of absolute values is the sum of the positive samples less the sum of the negative ones. */
  lemma MeanAbsFromSums(s: seq<real>)
    requires s != []
    ensures |s| as real * MeanAbs(s) == SumOf(PositivePart, s) - SumOf(NegativePart, s)
  {
    AbsoluteSplits(s);
    DivideThenScale(SumOf(Abs, s), |s| as real);
  }

  // ---- extremes

  /** k is the first sample where key is largest. */
  ghost predicate IsFirstMax(key: real -> real, s: seq<real>, k: nat) {
    && k < |s|
    && (forall j :: 0 <= j < |s| ==> key(s[j]) <= key(s[k]))
    && (forall j :: 0 <= j < k ==> key(s[j]) < key(s[k]))
  }

  function FirstMax(key: real -> real, s: seq<real>): (k: nat)
    requires s != []
    ensures IsFirstMax(key, s, k)
  {
    if |s| == 1 then 0
    else
      var k := FirstMax(key, s[..|s| - 1]);
      if key(s[k]) < key(s[|s| - 1]) then |s| - 1 else k
  }

  lemma FirstMaxUnique(key: real -> real, s: seq<real>, j: nat, k: nat)
    requires IsFirstMax(key, s, j) && IsFirstMax(key, s, k)
    ensures j == k
  {
    assert key(s[j]) <= key(s[k]) && key(s[k]) <= key(s[j]);
  }

  /** std::max_element with a comparison by key. */
  method MaxElement(key: real -> real, s: seq<real>) returns (k: nat)
    requires s != []
    ensures k == FirstMax(key, s)
  {
    k := 0;
    for j := 1 to |s|
      invariant IsFirstMax(key, s[..j], k)
    {
      if key(s[k]) < key(s[j]) {
        k := j;
      }
    }
    assert s[..|s|] == s;
    FirstMaxUnique(key, s, k, FirstMax(key, s));
  }

  function Negated(x: real): real { -x }

  function MaxAbs(s: seq<real>): real
    requires s != []
  {
    Abs(s[FirstMax(Abs, s)])
  }

  /** Searches for the first sample whose absolute value is the given one. */
  method FindAbs(s: seq<real>, value: real) returns (k: nat)
    ensures k <= |s|
    ensures forall j :: 0 <= j < k ==> Abs(s[j]) != value
    ensures k < |s| ==> Abs(s[k]) == value
  {
    k := 0;
    while k < |s| && Abs(s[k]) != value
      invariant k <= |s|
      invariant forall j :: 0 <= j < k ==> Abs(s[j]) != value
    {
      k := k + 1;
    }
  }

  /** The search for the largest absolute value always succeeds, at the first sample that attains it. */
  method MaxAbsIndex(s: seq<real>) returns (k: nat)
    requires s != []
    ensures k == FirstMax(Abs, s)
  {
    var largest := MaxElement(Abs, s);
    k := FindAbs(s, Abs(s[largest]));
    assert k <= largest;
    FirstMaxUnique(Abs, s, k, largest);
  }

  // ---- median

  predicate Sorted(s: seq<real>) {
    forall i, j :: 0 <= i <= j < |s| ==> s[i] <= s[j]
  }

  function Insert(x: real, s: seq<real>): seq<real> {
    if s == [] || s[|s| - 1] <= x then s + [x] else Insert(x, s[..|s| - 1]) + [s[|s| - 1]]
  }

  lemma {:induction false} InsertMembers(x: real, s: seq<real>)
    ensures multiset(Insert(x, s)) == multiset(s) + multiset{x}
    ensures |Insert(x, s)| == |s| + 1
  {
    if s != [] {
      assert s == s[..|s| - 1] + [s[|s| - 1]];
      InsertMembers(x, s[..|s| - 1]);
    }
  }

  ghost predicate AtMost(s: seq<real>, b: real) {
    forall i :: 0 <= i < |s| ==> s[i] <= b
  }

  lemma {:induction false} InsertAtMost(x: real, s: seq<real>, b: real)
    requires AtMost(s, b) && x <= b
    ensures AtMost(Insert(x, s), b)
  {
    if s != [] {
      InsertAtMost(x, s[..|s| - 1], b);
    }
  }

  lemma {:induction false} InsertSorted(x: real, s: seq<real>)
    requires Sorted(s)
    ensures Sorted(Insert(x, s))
  {
    if s != [] && x < s[|s| - 1] {
      InsertSorted(x, s[..|s| - 1]);
      InsertAtMost(x, s[..|s| - 1], s[|s| - 1]);
    }
  }

  function Sort(s: seq<real>): (r: seq<real>)
    ensures Sorted(r) && multiset(r) == multiset(s) && |r| == |s|
  {
    if s == [] then []
    else
      var rest := Sort(s[..|s| - 1]);
      assert s == s[..|s| - 1] + [s[|s| - 1]];
      InsertMembers(s[|s| - 1], rest);
      InsertSorted(s[|s| - 1], rest);
      Insert(s[|s| - 1], rest)
  }

  /** The middle of the sorted samples, or the mean of the two middle ones. */
  function Median(s: seq<real>): real
    requires s != []
  {
    var q := Sort(s);
    if |s| % 2 == 0 then (q[|s| / 2 - 1] + q[|s| / 2]) / 2.0 else q[|s| / 2]
  }

  /** What std::nth_element promises: the samples rearranged, with position m settled. */
  ghost predicate IsNthElement(s: seq<real>, m: nat, t: seq<real>) {
    && m < |t| && |t| == |s| && multiset(t) == multiset(s)
    && (forall j :: 0 <= j < m ==> t[j] <= t[m])
    && (forall j :: m < j < |t| ==> t[m] <= t[j])
  }

  /** A sum is made up of the sums of its parts, down to single samples. */
  lemma {:induction false} SumConcat(f: real -> real, s: seq<real>, t: seq<real>)
    ensures SumOf(f, s + t) == SumOf(f, s) + SumOf(f, t)
    ensures |t| == 1 ==> SumOf(f, t) == f(t[0])
    decreases |t|
  {
    if t == [] {
      assert s + t == s;
    } else {
      var init := t[..|t| - 1];
      assert (s + t)[..|s + t| - 1] == s + init;
      SumConcat(f, s, init);
    }
  }

  lemma {:induction false} CountConcat(p: real -> bool, s: seq<real>, t: seq<real>)
    ensures CountOf(p, s + t) == CountOf(p, s) + CountOf(p, t)
    decreases |t|
  {
    if t == [] {
      assert s + t == s;
    } else {
      var init := t[..|t| - 1];
      assert (s + t)[..|s + t| - 1] == s + init;
      CountConcat(p, s, init);
    }
  }

  /** Counting does not depend on the order. */
  lemma {:induction false} CountPermutation(p: real -> bool, s: seq<real>, t: seq<real>)
    requires multiset(s) == multiset(t)
    ensures CountOf(p, s) == CountOf(p, t)
    decreases |s|
  {
    assert |multiset(s)| == |multiset(t)|;
    if s != [] {
      var init, x := s[..|s| - 1], s[|s| - 1];
      assert s == init + [x];
      assert x in multiset(t);
      var k :| 0 <= k < |t| && t[k] == x;
      assert t == t[..k] + [x] + t[k + 1..];
      assert multiset(s) == multiset(init) + multiset{x};
      assert multiset(t) == multiset(t[..k] + t[k + 1..]) + multiset{x};
      assert multiset(init) == multiset(s) - multiset{x};
      CountPermutation(p, init, t[..k] + t[k + 1..]);
      CountConcat(p, t[..k] + [x], t[k + 1..]);
      CountConcat(p, t[..k], [x]);
      CountConcat(p, t[..k], t[k + 1..]);
      CountConcat(p, init, [x]);
    }
  }

  lemma {:induction false} CountAll(p: real -> bool, s: seq<real>)
    ensures CountOf(p, s) <= |s|
    ensures (forall j :: 0 <= j < |s| ==> p(s[j])) ==> CountOf(p, s) == |s|
    ensures (forall j :: 0 <= j < |s| ==> !p(s[j])) ==> CountOf(p, s) == 0
  {
    if s != [] {
      CountAll(p, s[..|s| - 1]);
    }
  }

  function Below(v: real): real -> bool { x => x < v }
  function NotAbove(v: real): real -> bool { x => x <= v }

  /** v has rank k: at most k samples are below it, and more than k are not above it. */
  ghost predicate HasRank(s: seq<real>, k: nat, v: real) {
    CountOf(Below(v), s) <= k < CountOf(NotAbove(v), s)
  }

  /** The places where p holds. */
  ghost function Where(p: real -> bool, s: seq<real>): set<nat> {
    set j: nat | j < |s| && p(s[j])
  }

  lemma {:induction false} CountIsCardinality(p: real -> bool, s: seq<real>)
    ensures CountOf(p, s) == |Where(p, s)|
  {
    if s != [] {
      var n := |s| - 1;
      CountIsCardinality(p, s[..n]);
      assert Where(p, s) == Where(p, s[..n]) + if p(s[n]) then {n} else {};
    }
  }

  /** The rank counts places: those with a smaller sample, and those with a sample that is not larger. */
  lemma RankIff(s: seq<real>, k: nat, v: real)
    ensures HasRank(s, k, v)
            <==> |set j: nat | j < |s| && s[j] < v| <= k < |set j: nat | j < |s| && s[j] <= v|
  {
    CountIsCardinality(Below(v), s);
    CountIsCardinality(NotAbove(v), s);
    assert Where(Below(v), s) == set j: nat | j < |s| && s[j] < v;
    assert Where(NotAbove(v), s) == set j: nat | j < |s| && s[j] <= v;
  }

  lemma {:induction false} CountWider(p: real -> bool, q: real -> bool, s: seq<real>)
    requires forall x :: p(x) ==> q(x)
    ensures CountOf(p, s) <= CountOf(q, s)
  {
    if s != [] {
      CountWider(p, q, s[..|s| - 1]);
    }
  }

  /** Only one value has a given rank, and rearranging the samples does not change it. */
  lemma RankUnique(s: seq<real>, t: seq<real>, k: nat, v: real, w: real)
    requires multiset(s) == multiset(t)
    requires HasRank(s, k, v) && HasRank(t, k, w)
    ensures v == w
  {
    CountPermutation(Below(w), s, t);
    CountPermutation(NotAbove(w), s, t);
    if v < w {
      CountWider(NotAbove(v), Below(w), s);
    } else if w < v {
      CountWider(NotAbove(w), Below(v), s);
    }
  }

  lemma ManyNotAbove(s: seq<real>, m: nat, v: real)
    requires m <= |s| && forall j :: 0 <= j < m ==> s[j] <= v
    ensures CountOf(NotAbove(v), s) >= m
  {
    assert s == s[..m] + s[m..];
    CountConcat(NotAbove(v), s[..m], s[m..]);
    CountAll(NotAbove(v), s[..m]);
  }

  lemma OnlyFirstBelow(s: seq<real>, m: nat, v: real)
    requires m <= |s| && forall j :: m <= j < |s| ==> v <= s[j]
    ensures CountOf(Below(v), s) == CountOf(Below(v), s[..m])
  {
    assert s == s[..m] + s[m..];
    CountConcat(Below(v), s[..m], s[m..]);
    CountAll(Below(v), s[m..]);
  }

  /** Sample m has rank m if no sample before it is larger and none after it is smaller. */
  lemma RankAt(s: seq<real>, m: nat)
    requires m < |s|
    requires forall j :: 0 <= j < m ==> s[j] <= s[m]
    requires forall j :: m <= j < |s| ==> s[m] <= s[j]
    ensures HasRank(s, m, s[m])
  {
    ManyNotAbove(s, m + 1, s[m]);
    OnlyFirstBelow(s, m, s[m]);
    CountAll(Below(s[m]), s[..m]);
  }

  /** The largest of the first m samples has rank m - 1 if no later sample is smaller. */
  lemma RankBefore(s: seq<real>, m: nat, i: nat)
    requires i < m <= |s|
    requires forall j :: 0 <= j < m ==> s[j] <= s[i]
    requires forall j :: m <= j < |s| ==> s[i] <= s[j]
    ensures HasRank(s, m - 1, s[i])
  {
    ManyNotAbove(s, m, s[i]);
    OnlyFirstBelow(s, m, s[i]);
    CountMissing(Below(s[i]), s[..m], i);
  }

  lemma {:induction false} CountMissing(p: real -> bool, s: seq<real>, i: nat)
    requires i < |s| && !p(s[i])
    ensures CountOf(p, s) < |s|
    decreases |s|
  {
    var last := |s| - 1;
    if i < last {
      CountMissing(p, s[..last], i);
    } else {
      CountAll(p, s[..last]);
    }
  }

  lemma SettledElement(s: seq<real>, t: seq<real>, m: nat)
    requires IsNthElement(s, m, t)
    ensures t[m] == Sort(s)[m]
  {
    RankAt(t, m);
    RankAt(Sort(s), m);
    RankUnique(t, Sort(s), m, t[m], Sort(s)[m]);
  }

  lemma LargestBefore(s: seq<real>, t: seq<real>, m: nat, i: nat)
    requires IsNthElement(s, m, t)
    requires i < m && forall j :: 0 <= j < m ==> t[j] <= t[i]
    ensures t[i] == Sort(s)[m - 1]
  {
    RankBefore(t, m, i);
    RankBefore(Sort(s), m, m - 1);
    RankUnique(t, Sort(s), m - 1, t[i], Sort(s)[m - 1]);
  }

  /** The k-th of the sorted samples q has rank k among the samples s as they came. */
  lemma SortedRank(s: seq<real>, q: seq<real>, k: nat)
    requires k < |q| && Sorted(q) && multiset(q) == multiset(s)
    ensures HasRank(s, k, q[k])
  {
    RankAt(q, k);
    CountPermutation(Below(q[k]), s, q);
    CountPermutation(NotAbove(q[k]), s, q);
  }

  /** r lies half way between v and w, which have the two middle ranks among an even number of samples. */
  ghost predicate HalfWay(s: seq<real>, r: real, v: real, w: real)
    requires |s| >= 2
  {
    HasRank(s, |s| / 2 - 1, v) && HasRank(s, |s| / 2, w) && r + r == v + w
  }

  /** The median of an odd number of samples has the middle rank; that of an even number is half way between the two. */
  lemma MedianRanks(s: seq<real>)
    requires s != []
    ensures |s| % 2 == 1 ==> HasRank(s, |s| / 2, Median(s))
    ensures |s| % 2 == 0 ==> exists v, w :: HalfWay(s, Median(s), v, w)
  {
    var q, m := Sort(s), |s| / 2;
    SortedRank(s, q, m);
    if |s| % 2 == 0 {
      SortedRank(s, q, m - 1);
      assert HalfWay(s, Median(s), q[m - 1], q[m]);
    }
  }

  /** The median taken from a rearrangement t of the samples, whatever std::nth_element has left there. */
  method MedianFrom(s: seq<real>, t: seq<real>) returns (r: real)
    requires s != []
    requires IsNthElement(s, |s| / 2, t)
    ensures r == Median(s)
    ensures |s| % 2 == 1 ==> HasRank(s, |s| / 2, r)
    ensures |s| % 2 == 0 ==> exists v, w :: HalfWay(s, r, v, w)
  {
    var m := |s| / 2;
    SettledElement(s, t, m);
    MedianRanks(s);
    if |s| % 2 == 0 {
      var i := MaxElement(Identity, t[..m]);
      assert forall j :: 0 <= j < m ==> t[j] == Identity(t[..m][j]);
      LargestBefore(s, t, m, i);
      r := (t[i] + t[m]) / 2.0;
    } else {
      r := t[m];
    }
  }
}
