/** The last step of filtering: trailing date columns that are missing in
    every row, and then trailing columns that are zero in every row, are
    dropped one at a time from the right. */
module Trimming {
  import opened Frames

  predicate ColumnAllMissing(t: Table, c: nat)
    requires Rectangular(t) && c < |t.dates|
  {
    forall i :: 0 <= i < |t.rows| ==> t.rows[i].cells[c].None?
  }

  predicate ColumnAllZero(t: Table, c: nat)
    requires Rectangular(t) && c < |t.dates|
  {
    forall i :: 0 <= i < |t.rows| ==> t.rows[i].cells[c] == Some(0.0)
  }

  /** Where the run of all-missing columns that ends at column n-1 starts. */
  function MissingRunStart(t: Table, n: nat): (m: nat)
    requires Rectangular(t) && n <= |t.dates|
    ensures m <= n
    ensures forall c :: m <= c < n ==> ColumnAllMissing(t, c)
    ensures m > 0 ==> !ColumnAllMissing(t, m - 1)
  {
    if n > 0 && ColumnAllMissing(t, n - 1) then MissingRunStart(t, n - 1) else n
  }

  /** Where the run of all-zero columns that ends at column n-1 starts. */
  function ZeroRunStart(t: Table, n: nat): (m: nat)
    requires Rectangular(t) && n <= |t.dates|
    ensures m <= n
    ensures forall c :: m <= c < n ==> ColumnAllZero(t, c)
    ensures m > 0 ==> !ColumnAllZero(t, m - 1)
  {
    if n > 0 && ColumnAllZero(t, n - 1) then ZeroRunStart(t, n - 1) else n
  }

  /** The number of date columns the trim keeps. */
  function TrimmedWidth(t: Table): nat
    requires Rectangular(t)
  {
    ZeroRunStart(t, MissingRunStart(t, |t.dates|))
  }

  /** The trimmed table; an error when no date column would remain (the
      source's loops then go on into the prefix columns or fail on an empty
      frame). */
  function TrimmedTable(t: Table): Result<Table>
    requires Rectangular(t)
  {
    var w := TrimmedWidth(t);
    if w == 0 then Err(NoColumnsLeft) else Ok(KeepColumns(t, w))
  }

  lemma KeepColumnsSame(t: Table)
    requires Rectangular(t)
    ensures KeepColumns(t, |t.dates|) == t
  {
    var a := KeepColumns(t, |t.dates|);
    assert forall i :: 0 <= i < |a.rows| ==> a.rows[i] == t.rows[i] by {
      forall i | 0 <= i < |a.rows|
        ensures a.rows[i] == t.rows[i]
      {
        assert t.rows[i].cells[..|t.dates|] == t.rows[i].cells;
      }
    }
    assert t.dates[..|t.dates|] == t.dates;
  }

  /** The two trim loops of the source: each drops the last column while it
      is missing (first loop) or zero (second loop) in every row. `width` is
      the number of date columns the frame still has. */
  method TrimTrailingColumns(t: Table) returns (r: Result<Table>)
    requires Rectangular(t)
    ensures r == TrimmedTable(t)
  {
    var width: nat := |t.dates|;
    while width > 0 && ColumnAllMissing(t, width - 1)
      invariant width <= |t.dates|
      invariant MissingRunStart(t, width) == MissingRunStart(t, |t.dates|)
    {
      width := width - 1;
    }
    ghost var afterMissing: nat := width;
    while width > 0 && ColumnAllZero(t, width - 1)
      invariant width <= afterMissing
      invariant ZeroRunStart(t, width) == ZeroRunStart(t, afterMissing)
    {
      width := width - 1;
    }
    if width == 0 {
      return Err(NoColumnsLeft);
    }
    return Ok(KeepColumns(t, width));
  }

  /** The trim removes a suffix of columns, each of them missing or zero in
      every row, and keeps the rows and the other columns as they were; the
      last column it keeps has a cell that is not zero. */
  lemma TrimmedTableProperties(t: Table)
    requires Rectangular(t)
    ensures var w := TrimmedWidth(t);
      && w <= |t.dates|
      && (forall c :: w <= c < |t.dates| ==> ColumnAllMissing(t, c) || ColumnAllZero(t, c))
      && (w > 0 ==> exists i :: 0 <= i < |t.rows| && t.rows[i].cells[w - 1] != Some(0.0))
      && TrimmedTable(t) == (if w == 0 then Err(NoColumnsLeft) else Ok(KeepColumns(t, w)))
  {
    var m := MissingRunStart(t, |t.dates|);
    var w := TrimmedWidth(t);
    assert forall c :: w <= c < m ==> ColumnAllZero(t, c);
    if w > 0 {
      assert !ColumnAllZero(t, w - 1);
    }
  }

  /** A table with no rows loses every column: the trim reports an error. */
  lemma TrimEmptyTable(t: Table)
    requires Rectangular(t) && t.rows == []
    ensures TrimmedTable(t) == Err(NoColumnsLeft)
  {
    assert MissingRunStart(t, |t.dates|) == 0;
  }

  /** A table whose last column has a non-zero, non-missing cell is kept whole. */
  lemma TrimKeepsReportedTable(t: Table, i: nat)
    requires Rectangular(t) && t.dates != [] && i < |t.rows|
    requires t.rows[i].cells[|t.dates| - 1].Some? && t.rows[i].cells[|t.dates| - 1] != Some(0.0)
    ensures TrimmedTable(t) == Ok(t)
  {
    KeepColumnsSame(t);
  }
}
