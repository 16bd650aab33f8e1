/** Laying parts of equal or differing length out one after the other, and the arithmetic of where they start. */
module Layout {

  /** n times k, as repeated addition. */
  function Multiple(k: nat, n: nat): nat {
    if n == 0 then 0 else Multiple(k, n - 1) + k
  }

  lemma {:induction false} MultipleIsProduct(k: nat, n: nat)
    ensures Multiple(k, n) == k * n
  {
    if n > 0 {
      MultipleIsProduct(k, n - 1);
    }
  }

  lemma {:induction false} MultipleOrder(k: nat, m: nat, n: nat)
    ensures m <= n ==> Multiple(k, m) <= Multiple(k, n)
    ensures m < n ==> Multiple(k, m) + k <= Multiple(k, n)
    decreases n
  {
    if m < n {
      MultipleOrder(k, m, n - 1);
    }
  }

  /** Place of attribute a of cell i in a buffer that holds one map of `size` cells per attribute. */
  function Place(size: nat, a: nat, i: nat): nat {
    Multiple(size, a) + i
  }

  lemma PlaceIsProduct(size: nat, a: nat, i: nat)
    ensures Place(size, a, i) == a * size + i
  {
    MultipleIsProduct(size, a);
  }

  /** Row a, column i of a buffer with rows of `size` cells holds v. */
  ghost predicate HoldsAt<T>(buffer: seq<T>, size: nat, a: nat, i: nat, v: T) {
    Place(size, a, i) < |buffer| && buffer[Place(size, a, i)] == v
  }

  lemma HoldsAtIff<T>(buffer: seq<T>, size: nat, a: nat, i: nat, v: T)
    ensures HoldsAt(buffer, size, a, i, v) <==> 0 <= a * size + i < |buffer| && buffer[a * size + i] == v
  {
    PlaceIsProduct(size, a, i);
  }

  /** Row a of a buffer with rows of `size` cells. */
  function RowOf<T>(buffer: seq<T>, size: nat, a: nat): seq<T>
    requires Multiple(size, a + 1) <= |buffer|
  {
    buffer[Multiple(size, a)..Multiple(size, a + 1)]
  }

  lemma RowOfIs<T>(buffer: seq<T>, size: nat, a: nat)
    requires Multiple(size, a + 1) <= |buffer|
    ensures a * size <= a * size + size <= |buffer| && RowOf(buffer, size, a) == buffer[a * size..a * size + size]
  {
    MultipleIsProduct(size, a);
  }

  lemma PlaceInside(size: nat, n: nat, a: nat, i: nat)
    requires a < n && i < size
    ensures Place(size, a, i) < Multiple(size, n)
  {
    MultipleOrder(size, a, n);
  }

  lemma PlacesApart(size: nat, a: nat, i: nat, b: nat, j: nat)
    requires i < size && j < size
    ensures Place(size, a, i) == Place(size, b, j) ==> a == b && i == j
  {
    MultipleOrder(size, a, b);
    MultipleOrder(size, b, a);
  }

  /** n divided by k, as repeated subtraction. */
  function Quotient(n: nat, k: nat): nat
    requires k > 0
  {
    if n < k then 0 else Quotient(n - k, k) + 1
  }

  lemma {:induction false} QuotientIsDivision(n: nat, k: nat)
    requires k > 0
    ensures Quotient(n, k) == n / k
  {
    if n >= k {
      QuotientIsDivision(n - k, k);
      DivisionUnique(n, k, (n - k) / k + 1, (n - k) % k);
    } else {
      DivisionUnique(n, k, 0, n);
    }
  }

  lemma DivisionUnique(n: nat, k: nat, q: nat, r: nat)
    requires r < k && n == k * q + r
    ensures n / k == q
  {
    ScaleOrder(k, n / k + 1, q);
    ScaleOrder(k, q + 1, n / k);
  }

  lemma ScaleOrder(k: nat, m: int, n: int)
    ensures m <= n ==> k * m <= k * n
  {
  }

  lemma MultiplyOrder(m: nat, n: nat, k: nat)
    requires m <= n
    ensures m * k <= n * k
  {
  }

  lemma RowAndColumn(row: nat, col: nat, ncols: nat)
    requires col < ncols
    ensures (row * ncols + col) / ncols == row && (row * ncols + col) % ncols == col
  {
    DivisionUnique(row * ncols + col, ncols, row, col);
  }

  lemma RowAndColumnFit(row: nat, col: nat, nrows: nat, ncols: nat)
    requires row < nrows && col < ncols
    ensures row * ncols + col < nrows * ncols
  {
    MultiplyOrder(row + 1, nrows, ncols);
  }

  lemma {:induction false} QuotientOfMultiple(k: nat, n: nat)
    requires k > 0
    ensures Quotient(Multiple(k, n), k) == n
  {
    if n > 0 {
      QuotientOfMultiple(k, n - 1);
    }
  }

  /** The first n parts, one after the other. */
  function Flat<T>(parts: seq<seq<T>>, n: nat): seq<T>
    requires n <= |parts|
  {
    if n == 0 then [] else Flat(parts, n - 1) + parts[n - 1]
  }

  lemma {:induction false} FlatPrefix<T>(parts: seq<seq<T>>, m: nat, n: nat)
    requires m <= n <= |parts|
    ensures Flat(parts, m) <= Flat(parts, n)
  {
    if m < n {
      FlatPrefix(parts, m, n - 1);
    }
  }

  /** Where all parts have length k, part a is found a times k from the start. */
  lemma FlatSlice<T>(parts: seq<seq<T>>, k: nat, n: nat, a: nat)
    requires a < n <= |parts|
    requires forall i :: 0 <= i < |parts| ==> |parts[i]| == k
    ensures |Flat(parts, n)| == Multiple(k, n)
    ensures Multiple(k, a) <= Multiple(k, a + 1) <= Multiple(k, n)
    ensures Flat(parts, n)[Multiple(k, a)..Multiple(k, a + 1)] == parts[a]
  {
    FlatSize(parts, k, a);
    FlatSize(parts, k, a + 1);
    FlatSize(parts, k, n);
    FlatCut(parts, a, n);
  }

  lemma {:induction false} FlatSize<T>(parts: seq<seq<T>>, k: nat, n: nat)
    requires n <= |parts|
    requires forall i :: 0 <= i < |parts| ==> |parts[i]| == k
    ensures |Flat(parts, n)| == Multiple(k, n)
  {
    if n > 0 {
      FlatSize(parts, k, n - 1);
    }
  }

  lemma SliceRight<T>(s: seq<T>, t: seq<T>)
    ensures (s + t)[|s|..|s| + |t|] == t
  {
  }

  lemma DropFromConcat<T>(s: seq<T>, t: seq<T>, n: nat)
    requires n <= |s|
    ensures (s + t)[n..] == s[n..] + t
  {
  }

  /** The parts from the given one on, up to the n-th, one after the other. */
  function Between<T>(parts: seq<seq<T>>, from: nat, n: nat): seq<T>
    requires from <= n <= |parts|
  {
    if from == n then [] else Between(parts, from, n - 1) + parts[n - 1]
  }

  lemma {:induction false} BetweenIsRest<T>(parts: seq<seq<T>>, from: nat, n: nat)
    requires from <= n <= |parts|
    ensures Flat(parts, n) == Flat(parts, from) + Between(parts, from, n)
  {
    if from < n {
      BetweenIsRest(parts, from, n - 1);
    }
  }

  /** There is room for the next part. */
  lemma {:induction false} BetweenRoom<T>(parts: seq<seq<T>>, from: nat, i: nat, n: nat)
    requires from <= i < n <= |parts|
    ensures |Between(parts, from, i)| + |parts[i]| <= |Between(parts, from, n)|
    decreases n
  {
    if i < n - 1 {
      BetweenRoom(parts, from, i, n - 1);
    }
  }

  /** Part i is found between the length of the parts before it and the length including it. */
  lemma FlatCut<T>(parts: seq<seq<T>>, i: nat, n: nat)
    requires i < n <= |parts|
    ensures |Flat(parts, i)| <= |Flat(parts, i + 1)| <= |Flat(parts, n)|
    ensures Flat(parts, n)[|Flat(parts, i)|..|Flat(parts, i + 1)|] == parts[i]
  {
    FlatPrefix(parts, i + 1, n);
    SliceRight(Flat(parts, i), parts[i]);
    PrefixSlice(Flat(parts, i + 1), Flat(parts, n), |Flat(parts, i)|);
  }

  lemma PrefixSlice<T>(s: seq<T>, t: seq<T>, lo: nat)
    requires s <= t && lo <= |s|
    ensures t[lo..|s|] == s[lo..]
  {
  }
}
