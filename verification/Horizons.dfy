/** Horizons as they arrive: rows of depths, flattened and shifted into the surfaces that bound a window. */
module Horizons {
  import opened Layout
  import opened Surfaces
  import opened SubVolumes

  datatype Flattened = Flattened(cdata: seq<real>) | RaggedRow(row: nat)

  /** A fill value stays what it is. */
  function Shifted(value: real, fill: real, shift: real): real {
    if value == fill then value else value + shift
  }

  function ShiftedRow(row: seq<real>, fill: real, shift: real): (r: seq<real>)
    ensures |r| == |row|
  {
    seq(|row|, j requires 0 <= j < |row| => Shifted(row[j], fill, shift))
  }

  /** The first n rows, one after the other. */
  function ShiftedRows(rows: seq<seq<real>>, fill: real, shift: real, n: nat): seq<real>
    requires n <= |rows|
  {
    if n == 0 then [] else ShiftedRows(rows, fill, shift, n - 1) + ShiftedRow(rows[n - 1], fill, shift)
  }

  /** Writes one shifted row after what is there already. */
  method FillRow(row: seq<real>, fill: real, shift: real, cdata: array<real>, base: nat, ghost done: seq<real>)
    requires base + |row| <= cdata.Length
    requires cdata[..base] == done
    modifies cdata
    ensures cdata[..base + |row|] == done + ShiftedRow(row, fill, shift)
  {
    for j := 0 to |row|
      invariant cdata[..base + j] == done + ShiftedRow(row, fill, shift)[..j]
    {
      if row[j] == fill {
        cdata[base + j] := row[j];
      } else {
        cdata[base + j] := row[j] + shift;
      }
      assert cdata[base + j] == ShiftedRow(row, fill, shift)[j];
    }
    assert ShiftedRow(row, fill, shift)[..|row|] == ShiftedRow(row, fill, shift);
  }

  /** Flattens the rows of a horizon, or reports the first row whose length differs from that of row 0. */
  method ToCdata(rows: seq<seq<real>>, fill: real, shift: real) returns (r: Flattened)
    requires |rows| > 0
    ensures r.RaggedRow? ==> r.row < |rows| && |rows[r.row]| != |rows[0]|
                             && forall i :: 0 <= i < r.row ==> |rows[i]| == |rows[0]|
    ensures r.Flattened? <==> forall i :: 0 <= i < |rows| ==> |rows[i]| == |rows[0]|
    ensures r.Flattened? ==> |r.cdata| == |rows| * |rows[0]|
    ensures r.Flattened? ==> r.cdata == ShiftedRows(rows, fill, shift, |rows|)
    ensures r.Flattened? ==> forall i: nat, j: nat :: i < |rows| && j < |rows[i]| ==>
              HoldsAt(r.cdata, |rows[0]|, i, j, if rows[i][j] == fill then fill else rows[i][j] + shift)
  {
    var ncols := |rows[0]|;
    var cdata := new real[Multiple(ncols, |rows|)];
    var base := 0;
    for i := 0 to |rows|
      invariant base == Multiple(ncols, i) <= cdata.Length
      invariant forall k :: 0 <= k < i ==> |rows[k]| == ncols
      invariant cdata[..base] == ShiftedRows(rows, fill, shift, i)
    {
      var row := rows[i];
      if |row| != ncols {
        return RaggedRow(i);
      }
      MultipleOrder(ncols, i + 1, |rows|);
      FillRow(row, fill, shift, cdata, base, ShiftedRows(rows, fill, shift, i));
      base := base + ncols;
    }
    assert cdata[..base] == cdata[..];
    RowsInPlace(rows, fill, shift, ncols, cdata[..]);
    return Flattened(cdata[..]);
  }

  /** Depth j of row i stands at its place, shifted unless it is the fill value. */
  lemma {:induction false} RowInPlace(rows: seq<seq<real>>, fill: real, shift: real, ncols: nat, n: nat, i: nat, j: nat)
    requires n <= |rows| && forall k :: 0 <= k < n ==> |rows[k]| == ncols
    requires i < n && j < ncols
    ensures |ShiftedRows(rows, fill, shift, n)| == Multiple(ncols, n)
    ensures Place(ncols, i, j) < Multiple(ncols, n)
    ensures ShiftedRows(rows, fill, shift, n)[Place(ncols, i, j)] == if rows[i][j] == fill then fill else rows[i][j] + shift
  {
    PlaceInside(ncols, n, i, j);
    RowsSize(rows, fill, shift, ncols, n - 1);
    if i < n - 1 {
      RowInPlace(rows, fill, shift, ncols, n - 1, i, j);
    }
  }

  lemma {:induction false} RowsSize(rows: seq<seq<real>>, fill: real, shift: real, ncols: nat, n: nat)
    requires n <= |rows| && forall k :: 0 <= k < n ==> |rows[k]| == ncols
    ensures |ShiftedRows(rows, fill, shift, n)| == Multiple(ncols, n)
  {
    if n > 0 {
      RowsSize(rows, fill, shift, ncols, n - 1);
    }
  }

  lemma RowsInPlace(rows: seq<seq<real>>, fill: real, shift: real, ncols: nat, cdata: seq<real>)
    requires forall k :: 0 <= k < |rows| ==> |rows[k]| == ncols
    requires cdata == ShiftedRows(rows, fill, shift, |rows|)
    ensures |cdata| == |rows| * ncols
    ensures forall i: nat, j: nat :: i < |rows| && j < |rows[i]| ==>
              HoldsAt(cdata, ncols, i, j, if rows[i][j] == fill then fill else rows[i][j] + shift)
  {
    RowsSize(rows, fill, shift, ncols, |rows|);
    MultipleIsProduct(ncols, |rows|);
    forall i: nat, j: nat | i < |rows| && j < |rows[i]|
      ensures HoldsAt(cdata, ncols, i, j, if rows[i][j] == fill then fill else rows[i][j] + shift)
    {
      RowInPlace(rows, fill, shift, ncols, |rows|, i, j);
    }
  }

  function ShiftedSurface(s: Surface, shift: real): (r: Surface)
    ensures r.fill == s.fill && r.grid == s.grid && |r.values| == |s.values|
    ensures forall k :: 0 <= k < |r.values| ==> r.values[k] == if s.values[k] == s.fill then s.fill else s.values[k] + shift
  {
    Surface(ShiftedRow(s.values, s.fill, shift), s.fill, s.grid)
  }

  /** Shifting row by row or all at once is the same. */
  lemma {:induction false} RowsShiftTogether(rows: seq<seq<real>>, fill: real, shift: real, n: nat)
    requires n <= |rows|
    ensures ShiftedRows(rows, fill, shift, n) == ShiftedRow(ShiftedRows(rows, fill, 0.0, n), fill, shift)
  {
    if n > 0 {
      RowsShiftTogether(rows, fill, shift, n - 1);
    }
  }

  /** The window around one horizon: never out of order, in any cell with data. */
  lemma AlongSurfacesAreOrdered(reference: Surface, above: real, below: real, i: nat)
    requires reference.Valid()
    requires above >= 0.0 && below >= 0.0
    requires i < reference.grid.Size()
    ensures var top, bottom := ShiftedSurface(reference, -above), ShiftedSurface(reference, below);
            Compatible(reference, top, bottom)
            && (AnyFill(reference, top, bottom, i) || Ordered(reference, top, bottom, i))
  {
  }

  /** No depth lies `above` below the fill value, or `below` above it. */
  ghost predicate ClearOfFill(reference: Surface, above: real, below: real) {
    forall i :: 0 <= i < |reference.values| && reference.values[i] != reference.fill ==>
      reference.values[i] != reference.fill + above && reference.values[i] != reference.fill - below
  }

  /** A cell is taken for missing exactly when its depth is the fill value. */
  ghost predicate OnlyFillIsMissing(reference: Surface, top: Surface, bottom: Surface)
    requires Compatible(reference, top, bottom)
  {
    forall i: nat :: i < reference.grid.Size() ==> (AnyFill(reference, top, bottom, i) <==> reference.IsFill(i))
  }

  /**
   A cell is also taken for missing when a shifted depth happens to equal the fill value. So only cells without
   data are, if and only if the depths keep clear of the fill value.
   */
  lemma OnlyFillIsMissingIff(reference: Surface, above: real, below: real)
    requires reference.Valid()
    ensures var top, bottom := ShiftedSurface(reference, -above), ShiftedSurface(reference, below);
            Compatible(reference, top, bottom)
            && (OnlyFillIsMissing(reference, top, bottom) <==> ClearOfFill(reference, above, below))
  {
    var top, bottom := ShiftedSurface(reference, -above), ShiftedSurface(reference, below);
    forall i: nat | i < reference.grid.Size()
      ensures (AnyFill(reference, top, bottom, i) <==> reference.IsFill(i))
              <==> (reference.values[i] != reference.fill ==>
                      reference.values[i] != reference.fill + above && reference.values[i] != reference.fill - below)
    {
    }
    if ClearOfFill(reference, above, below) {
      assert OnlyFillIsMissing(reference, top, bottom);
    } else {
      var i :| 0 <= i < |reference.values| && reference.values[i] != reference.fill
               && (reference.values[i] == reference.fill + above || reference.values[i] == reference.fill - below);
      assert !(AnyFill(reference, top, bottom, i) <==> reference.IsFill(i));
    }
  }

  /** A depth of 24 with 20 above it and a fill value of 4: the cell has data, and is taken for missing. */
  lemma ShiftOntoFill(grid: Grid)
    requires grid.Valid() && grid.nrows == 1 && grid.ncols == 1
    ensures var reference := Surface([24.0], 4.0, grid);
            !reference.IsFill(0)
            && AnyFill(reference, ShiftedSurface(reference, -20.0), ShiftedSurface(reference, 20.0), 0)
  {
  }
}
