/** Day-zero alignment: each row is shifted left, on its own, so that its
    first cell at or above a threshold becomes column 0; rows that never
    reach the threshold are dropped. */
module DayZero {
  import opened Frames
  import opened Schema

  /** A cell at or above the threshold; a missing cell never is (NaN >= x is false). */
  predicate Reaches(c: Cell, threshold: real) {
    c.Some? && c.value >= threshold
  }

  /** The index of the first cell at or above the threshold, if any. */
  function FirstReaching(cells: seq<Cell>, threshold: real): (k: Option<nat>)
    ensures k.Some? ==> k.value < |cells| && Reaches(cells[k.value], threshold)
    ensures k.Some? ==> forall j :: 0 <= j < k.value ==> !Reaches(cells[j], threshold)
    ensures k.None? <==> forall j :: 0 <= j < |cells| ==> !Reaches(cells[j], threshold)
  {
    if cells == [] then None
    else if Reaches(cells[0], threshold) then Some(0)
    else match FirstReaching(cells[1..], threshold)
      case None => None
      case Some(k) => Some(k + 1)
  }

  /** The DayZero of a row: the label of its first date column at or above
      the threshold, or None where the source writes 'INVALID'. */
  function ThresholdDate(cells: seq<Cell>, dates: seq<Label>, threshold: real): (d: Option<Label>)
    requires |cells| == |dates|
    ensures d.None? <==> forall j :: 0 <= j < |cells| ==> !Reaches(cells[j], threshold)
    ensures d.Some? ==>
      exists k :: 0 <= k < |cells| && d == Some(dates[k]) && Reaches(cells[k], threshold) &&
        (forall j :: 0 <= j < k ==> !Reaches(cells[j], threshold))
  {
    match FirstReaching(cells, threshold)
    case None => None
    case Some(k) => Some(dates[k])
  }

  /** The rows that reach the threshold somewhere. */
  function Crossing(threshold: real): Row -> bool {
    (r: Row) => FirstReaching(r.cells, threshold).Some?
  }

  /** The row's cells moved left by k; cells past the right edge are missing. */
  function Shift(cells: seq<Cell>, k: nat): seq<Cell> {
    seq(|cells|, j requires 0 <= j < |cells| => if j + k < |cells| then cells[j + k] else None)
  }

  /** The per-row loop of the source: row i of the day table is shifted by
      its own offset, the other rows are left as they are. */
  method ShiftRows(days: seq<seq<Cell>>, offsets: seq<nat>) returns (shifted: seq<seq<Cell>>)
    requires |offsets| == |days|
    ensures |shifted| == |days|
    ensures forall i :: 0 <= i < |days| ==> shifted[i] == Shift(days[i], offsets[i])
  {
    shifted := days;
    for i := 0 to |days|
      invariant |shifted| == |days|
      invariant forall j :: 0 <= j < i ==> shifted[j] == Shift(days[j], offsets[j])
      invariant forall j :: i <= j < |days| ==> shifted[j] == days[j]
    {
      shifted := shifted[i := Shift(shifted[i], offsets[i])];
    }
  }

  /** The rows of `t` that reach the threshold, in their order. */
  function KeptRows(t: Table, threshold: real): (kept: seq<Row>)
    requires Rectangular(t)
    ensures forall x :: x in kept <==> x in t.rows && FirstReaching(x.cells, threshold).Some?
    ensures forall i :: 0 <= i < |kept| ==>
      |kept[i].cells| == |t.dates| && FirstReaching(kept[i].cells, threshold).Some?
  {
    Where(t.rows, Crossing(threshold))
  }

  function AlignRow(r: Row, dates: seq<Label>, threshold: real): (a: Row)
    requires |r.cells| == |dates| && FirstReaching(r.cells, threshold).Some?
    ensures |a.cells| == |dates|
  {
    var k := FirstReaching(r.cells, threshold).value;
    r.(dayZero := Some(dates[k]), cells := Shift(r.cells, k))
  }

  function OffsetLabels(n: nat): (labels: seq<Label>)
    ensures |labels| == n
  {
    seq(n, j requires 0 <= j < n => Offset(j))
  }

  predicate ColumnHasValue(t: Table, c: nat)
    requires Rectangular(t) && c < |t.dates|
  {
    exists i :: 0 <= i < |t.rows| && t.rows[i].cells[c].Some?
  }

  /** The columns among the first n that are not missing in every row, in order. */
  function PresentColumns(t: Table, n: nat): (cols: seq<nat>)
    requires Rectangular(t) && n <= |t.dates|
    ensures forall c: nat :: c in cols <==> c < n && ColumnHasValue(t, c)
    ensures forall j :: 0 <= j < |cols| ==> cols[j] < n
    ensures forall a, b :: 0 <= a < b < |cols| ==> cols[a] < cols[b]
  {
    if n == 0 then []
    else
      var front := PresentColumns(t, n - 1);
      assert forall j :: 0 <= j < |front| ==> front[j] < n - 1;
      front + (if ColumnHasValue(t, n - 1) then [n - 1] else [])
  }

  function SelectColumns(t: Table, cols: seq<nat>): (r: Table)
    requires Rectangular(t) && forall j :: 0 <= j < |cols| ==> cols[j] < |t.dates|
    ensures Rectangular(r) && |r.rows| == |t.rows| && |r.dates| == |cols|
  {
    Table(t.hasDayZero,
      seq(|cols|, j requires 0 <= j < |cols| => t.dates[cols[j]]),
      seq(|t.rows|, i requires 0 <= i < |t.rows| =>
        WithCells(t.rows[i], seq(|cols|, j requires 0 <= j < |cols| => t.rows[i].cells[cols[j]]))))
  }

  /** pandas' dropna(axis=1, how='all') over the date columns. */
  function DropMissingColumns(t: Table): (r: Table)
    requires Rectangular(t)
    ensures Rectangular(r)
  {
    SelectColumns(t, PresentColumns(t, |t.dates|))
  }

  /** What TransformCORVISDataToDayZero returns. */
  function AlignToDayZero(t: Table, threshold: real, dropMissing: bool): Result<Table>
    requires Rectangular(t)
  {
    var check := FrameCheck(t);
    if check.Fail? then Err(check.error)
    else
      var kept := KeptRows(t, threshold);
      var aligned := Table(true, OffsetLabels(|t.dates|),
        seq(|kept|, i requires 0 <= i < |kept| => AlignRow(kept[i], t.dates, threshold)));
      var result := if dropMissing then DropMissingColumns(aligned) else aligned;
      if result.rows == [] then Err(ThresholdTooHigh) else Ok(result)
  }

  method TransformToDayZero(t: Table, threshold: real, dropMissing: bool) returns (r: Result<Table>)
    requires Rectangular(t)
    ensures r == AlignToDayZero(t, threshold, dropMissing)
  {
    var check := Verify(Header(t), |t.rows|);
    if check.Fail? {
      return Err(check.error);
    }
    if t.dates == [] {
      return Err(MissingColumns);
    }
    var kept := KeptRows(t, threshold);
    var offsets: seq<nat> := seq(|kept|, i requires 0 <= i < |kept| => FirstReaching(kept[i].cells, threshold).value);
    var days := seq(|kept|, i requires 0 <= i < |kept| => kept[i].cells);
    var shifted := ShiftRows(days, offsets);
    var rows := seq(|kept|, i requires 0 <= i < |kept| =>
      kept[i].(dayZero := Some(t.dates[offsets[i]]), cells := shifted[i]));
    var aligned := Table(true, OffsetLabels(|t.dates|), rows);
    assert aligned == Table(true, OffsetLabels(|t.dates|),
      seq(|kept|, i requires 0 <= i < |kept| => AlignRow(kept[i], t.dates, threshold)));
    if dropMissing {
      aligned := DropMissingColumns(aligned);
    }
    if aligned.rows == [] {
      return Err(ThresholdTooHigh);
    }
    return Ok(aligned);
  }

  /** The offset of a kept row: the index of its first cell at or above the threshold. */
  function OffsetOf(r: Row, threshold: real): nat
    requires FirstReaching(r.cells, threshold).Some?
  {
    FirstReaching(r.cells, threshold).value
  }

  /** Without column dropping, the result keeps exactly the rows that reach
      the threshold, each with its prefix columns unchanged, its DayZero set to
      the date it first reached the threshold, and its cells moved left so that
      that date is day 0 (cells past the last date are missing). */
  lemma AlignedRows(t: Table, threshold: real)
    requires Rectangular(t) && FrameCheck(t) == Pass && KeptRows(t, threshold) != []
    ensures var kept := KeptRows(t, threshold);
      var r := AlignToDayZero(t, threshold, false);
      && r.Ok? && r.value.hasDayZero && r.value.dates == OffsetLabels(|t.dates|)
      && |r.value.rows| == |kept|
      && forall i :: 0 <= i < |kept| ==>
        var k := OffsetOf(kept[i], threshold);
        && r.value.rows[i].(dayZero := None, cells := []) == kept[i].(dayZero := None, cells := [])
        && r.value.rows[i].dayZero == ThresholdDate(kept[i].cells, t.dates, threshold)
        && Reaches(r.value.rows[i].cells[0], threshold)
        && |r.value.rows[i].cells| == |t.dates|
        && forall j :: 0 <= j < |t.dates| ==>
             r.value.rows[i].cells[j] == if j + k < |t.dates| then kept[i].cells[j + k] else None
  {
    AlignResult(t, threshold, false);
    var kept := KeptRows(t, threshold);
    var a := AlignedTable(t, threshold);
    forall i | 0 <= i < |kept|
      ensures a.rows[i] == AlignRow(kept[i], t.dates, threshold)
    {
    }
  }

  /** The threshold is too high exactly when no row ever reaches it. */
  lemma ThresholdTooHighIff(t: Table, threshold: real, dropMissing: bool)
    requires Rectangular(t) && FrameCheck(t) == Pass
    ensures AlignToDayZero(t, threshold, dropMissing) == Err(ThresholdTooHigh) <==>
      forall i, j :: 0 <= i < |t.rows| && 0 <= j < |t.dates| ==> !Reaches(t.rows[i].cells[j], threshold)
  {
    var kept := KeptRows(t, threshold);
    if kept == [] {
      forall i, j | 0 <= i < |t.rows| && 0 <= j < |t.dates|
        ensures !Reaches(t.rows[i].cells[j], threshold)
      {
        assert t.rows[i] !in kept;
      }
    } else {
      assert kept[0] in t.rows;
      var i :| 0 <= i < |t.rows| && t.rows[i] == kept[0];
      var k := OffsetOf(kept[0], threshold);
      assert Reaches(t.rows[i].cells[k], threshold);
    }
  }

  /** The table of aligned rows, before any column is dropped. */
  function AlignedTable(t: Table, threshold: real): (a: Table)
    requires Rectangular(t)
    ensures Rectangular(a) && |a.rows| == |KeptRows(t, threshold)| && |a.dates| == |t.dates|
  {
    var kept := KeptRows(t, threshold);
    Table(true, OffsetLabels(|t.dates|),
      seq(|kept|, i requires 0 <= i < |kept| => AlignRow(kept[i], t.dates, threshold)))
  }

  /** Whether some kept row still has a value on day `d` after its shift. */
  ghost predicate DayHasValue(t: Table, threshold: real, d: nat)
    requires Rectangular(t)
  {
    ValueOnDay(KeptRows(t, threshold), threshold, |t.dates|, d)
  }

  /** Whether some row of `kept`, of `n` cells, has a value `d` days after
      its offset. */
  ghost predicate ValueOnDay(kept: seq<Row>, threshold: real, n: nat, d: nat)
    requires forall i :: 0 <= i < |kept| ==> |kept[i].cells| == n && FirstReaching(kept[i].cells, threshold).Some?
  {
    exists i :: 0 <= i < |kept| && d + OffsetOf(kept[i], threshold) < n &&
      kept[i].cells[d + OffsetOf(kept[i], threshold)].Some?
  }

  /** Where a kept row's value lands after its shift. */
  lemma AlignedCell(t: Table, threshold: real, i: nat, d: nat)
    requires Rectangular(t) && i < |KeptRows(t, threshold)| && d < |t.dates|
    ensures var kept := KeptRows(t, threshold);
      var k := OffsetOf(kept[i], threshold);
      AlignedTable(t, threshold).rows[i].cells[d] == if d + k < |t.dates| then kept[i].cells[d + k] else None
  {
  }

  lemma DayValueIff(t: Table, threshold: real, d: nat)
    requires Rectangular(t) && d < |t.dates|
    ensures ColumnHasValue(AlignedTable(t, threshold), d) <==> DayHasValue(t, threshold, d)
  {
    if ColumnHasValue(AlignedTable(t, threshold), d) {
      ColumnGivesDay(t, threshold, d);
    }
    if DayHasValue(t, threshold, d) {
      DayGivesColumn(t, threshold, d);
    }
  }

  lemma ColumnGivesDay(t: Table, threshold: real, d: nat)
    requires Rectangular(t) && d < |t.dates| && ColumnHasValue(AlignedTable(t, threshold), d)
    ensures DayHasValue(t, threshold, d)
  {
    var a := AlignedTable(t, threshold);
    var i :| 0 <= i < |a.rows| && a.rows[i].cells[d].Some?;
    AlignedCell(t, threshold, i, d);
  }

  lemma DayGivesColumn(t: Table, threshold: real, d: nat)
    requires Rectangular(t) && d < |t.dates| && DayHasValue(t, threshold, d)
    ensures ColumnHasValue(AlignedTable(t, threshold), d)
  {
    var i := DayWitness(KeptRows(t, threshold), threshold, |t.dates|, d);
    DayGivesColumnAt(t, threshold, d, i);
  }

  /** A row that has a value `d` days after its offset. */
  lemma DayWitness(kept: seq<Row>, threshold: real, n: nat, d: nat) returns (i: nat)
    requires forall i :: 0 <= i < |kept| ==> |kept[i].cells| == n && FirstReaching(kept[i].cells, threshold).Some?
    requires ValueOnDay(kept, threshold, n, d)
    ensures i < |kept| && d + OffsetOf(kept[i], threshold) < n && kept[i].cells[d + OffsetOf(kept[i], threshold)].Some?
  {
    i :| 0 <= i < |kept| && d + OffsetOf(kept[i], threshold) < n &&
      kept[i].cells[d + OffsetOf(kept[i], threshold)].Some?;
  }

  lemma DayGivesColumnAt(t: Table, threshold: real, d: nat, i: nat)
    requires Rectangular(t) && d < |t.dates| && i < |KeptRows(t, threshold)|
    requires var r := KeptRows(t, threshold)[i];
      d + OffsetOf(r, threshold) < |t.dates| && r.cells[d + OffsetOf(r, threshold)].Some?
    ensures ColumnHasValue(AlignedTable(t, threshold), d)
  {
    var a := AlignedTable(t, threshold);
    AlignedCell(t, threshold, i, d);
    assert 0 <= i < |a.rows| && a.rows[i].cells[d].Some?;
  }

  lemma AlignResult(t: Table, threshold: real, dropMissing: bool)
    requires Rectangular(t) && FrameCheck(t) == Pass && KeptRows(t, threshold) != []
    ensures AlignToDayZero(t, threshold, dropMissing) ==
      Ok(if dropMissing then DropMissingColumns(AlignedTable(t, threshold)) else AlignedTable(t, threshold))
  {
  }

  /** With column dropping, day `d` survives exactly when some kept row still
      has a value on it after the shift. */
  lemma {:induction false} DroppedDays(t: Table, threshold: real)
    requires Rectangular(t) && FrameCheck(t) == Pass && KeptRows(t, threshold) != []
    ensures var r := AlignToDayZero(t, threshold, true);
      && r.Ok? && r.value.hasDayZero && |r.value.rows| == |KeptRows(t, threshold)|
      && forall d: nat :: Offset(d) in r.value.dates <==> d < |t.dates| && DayHasValue(t, threshold, d)
  {
    var a := AlignedTable(t, threshold);
    var cols := PresentColumns(a, |a.dates|);
    AlignResult(t, threshold, true);
    var dates := SelectColumns(a, cols).dates;
    assert |dates| == |cols| && forall j :: 0 <= j < |cols| ==> dates[j] == Offset(cols[j]);
    forall d: nat
      ensures Offset(d) in dates <==> d < |t.dates| && DayHasValue(t, threshold, d)
    {
      if Offset(d) in dates {
        var j :| 0 <= j < |dates| && dates[j] == Offset(d);
        assert cols[j] in cols;
        DayValueIff(t, threshold, d);
      }
      if d < |t.dates| && DayHasValue(t, threshold, d) {
        DayValueIff(t, threshold, d);
        assert d in cols;
        var j :| 0 <= j < |cols| && cols[j] == d;
        assert dates[j] == Offset(d);
      }
    }
  }

  /** The smallest element of a non-empty sequence. */
  function Least(s: seq<nat>): (m: nat)
    requires s != []
    ensures m in s && forall k :: 0 <= k < |s| ==> m <= s[k]
  {
    if |s| == 1 then s[0]
    else
      var rest := Least(s[1..]);
      if s[0] <= rest then s[0] else rest
  }

  /** The longest run of days a kept row covers: the number of dates minus
      the smallest offset. */
  ghost function LongestRun(kept: seq<Row>, threshold: real, n: nat): (m: nat)
    requires forall i :: 0 <= i < |kept| ==> |kept[i].cells| == n && FirstReaching(kept[i].cells, threshold).Some?
    ensures m <= n
    ensures forall i :: 0 <= i < |kept| ==> n <= m + OffsetOf(kept[i], threshold)
    ensures kept != [] ==> exists i :: 0 <= i < |kept| && n == m + OffsetOf(kept[i], threshold)
  {
    if kept == [] then 0
    else
      var offsets := seq(|kept|, i requires 0 <= i < |kept| => OffsetOf(kept[i], threshold));
      var least := Least(offsets);
      assert forall i :: 0 <= i < |kept| ==> offsets[i] == OffsetOf(kept[i], threshold) < n;
      var j :| 0 <= j < |offsets| && offsets[j] == least;
      assert n == (n - least) + OffsetOf(kept[j], threshold);
      n - least
  }

  function Upto(k: nat): (s: seq<nat>)
    ensures |s| == k && forall j :: 0 <= j < k ==> s[j] == j
  {
    if k == 0 then [] else Upto(k - 1) + [k - 1]
  }

  /** When exactly the first m columns hold a value, those are the present ones. */
  lemma {:induction false} PresentPrefix(t: Table, m: nat, n: nat)
    requires Rectangular(t) && n <= |t.dates|
    requires forall c: nat :: c < |t.dates| ==> (ColumnHasValue(t, c) <==> c < m)
    ensures PresentColumns(t, n) == Upto(if n < m then n else m)
  {
    if n > 0 {
      PresentPrefix(t, m, n - 1);
      var front := PresentColumns(t, n - 1);
      if n - 1 < m {
        assert ColumnHasValue(t, n - 1);
        calc {
          PresentColumns(t, n);
          front + [n - 1];
          Upto(n - 1) + [n - 1];
          Upto(n);
        }
      } else {
        assert !ColumnHasValue(t, n - 1);
        assert PresentColumns(t, n) == front;
      }
    }
  }

  /** When no input cell is missing, dropping keeps exactly the days
      0 .. n - k - 1, where k is the smallest offset of a kept row. */
  lemma {:induction false} DroppedDaysComplete(t: Table, threshold: real)
    requires Rectangular(t) && FrameCheck(t) == Pass && KeptRows(t, threshold) != []
    requires forall i, j :: 0 <= i < |t.rows| && 0 <= j < |t.dates| ==> t.rows[i].cells[j].Some?
    ensures var r := AlignToDayZero(t, threshold, true);
      r.Ok? && r.value.dates == OffsetLabels(LongestRun(KeptRows(t, threshold), threshold, |t.dates|))
  {
    var kept := KeptRows(t, threshold);
    var n := |t.dates|;
    var m := LongestRun(kept, threshold, n);
    var a := AlignedTable(t, threshold);
    forall c: nat | c < n
      ensures ColumnHasValue(a, c) <==> c < m
    {
      DayValueIff(t, threshold, c);
      if c < m {
        RunHasValue(t, threshold, c);
      }
    }
    PresentPrefix(a, m, n);
    AlignResult(t, threshold, true);
  }

  /** With no missing input cell, every day inside the longest run has a value. */
  lemma RunHasValue(t: Table, threshold: real, d: nat)
    requires Rectangular(t) && KeptRows(t, threshold) != []
    requires forall i, j :: 0 <= i < |t.rows| && 0 <= j < |t.dates| ==> t.rows[i].cells[j].Some?
    requires d < LongestRun(KeptRows(t, threshold), threshold, |t.dates|)
    ensures DayHasValue(t, threshold, d)
  {
    var kept := KeptRows(t, threshold);
    forall k, j | 0 <= k < |kept| && 0 <= j < |t.dates|
      ensures kept[k].cells[j].Some?
    {
      MemberCellPresent(t, kept[k], j);
    }
    RunWitness(kept, threshold, |t.dates|, d);
  }

  lemma RunWitness(kept: seq<Row>, threshold: real, n: nat, d: nat)
    requires forall i :: 0 <= i < |kept| ==> |kept[i].cells| == n && FirstReaching(kept[i].cells, threshold).Some?
    requires forall k, j :: 0 <= k < |kept| && 0 <= j < n ==> kept[k].cells[j].Some?
    requires kept != [] && d < LongestRun(kept, threshold, n)
    ensures ValueOnDay(kept, threshold, n, d)
  {
    var i :| 0 <= i < |kept| && n == LongestRun(kept, threshold, n) + OffsetOf(kept[i], threshold);
    assert kept[i].cells[d + OffsetOf(kept[i], threshold)].Some?;
  }

  lemma MemberCellPresent(t: Table, x: Row, j: nat)
    requires Rectangular(t) && x in t.rows && j < |t.dates|
    requires forall i, j :: 0 <= i < |t.rows| && 0 <= j < |t.dates| ==> t.rows[i].cells[j].Some?
    ensures j < |x.cells| && x.cells[j].Some?
  {
    var w :| 0 <= w < |t.rows| && t.rows[w] == x;
  }

  function ExampleRow(): Row {
    Row("JHU", "Confirmed", "US", "", "", 0, 0.0, 0.0, None, [Some(5.0), Some(20.0), Some(150.0), Some(300.0)])
  }

  function ExampleTable(): Table {
    Table(false, [Name("3/1/20"), Name("3/2/20"), Name("3/3/20"), Name("3/4/20")], [ExampleRow()])
  }

  lemma ExampleCheck()
    ensures FrameCheck(ExampleTable()) == Pass
  {
    var t := ExampleTable();
    assert DatesAreData(t) by {
      forall k | 0 <= k < |t.dates|
        ensures !(t.dates[k].Name? && t.dates[k].text in BreakpointNames)
      {
        assert t.dates[k].text[0] == '3';
      }
    }
    HeaderVerdict(t);
  }

  lemma ExampleKept()
    ensures KeptRows(ExampleTable(), 100.0) == [ExampleRow()]
  {
    assert FirstReaching(ExampleRow().cells, 100.0) == Some(2);
  }

  lemma ExampleAligned()
    ensures AlignedTable(ExampleTable(), 100.0).rows[0].cells == [Some(150.0), Some(300.0), None, None]
  {
    ExampleKept();
    assert FirstReaching(ExampleRow().cells, 100.0) == Some(2);
  }

  lemma ExamplePresent()
    ensures PresentColumns(AlignedTable(ExampleTable(), 100.0), 4) == [0, 1]
  {
    ExampleKept();
    ExampleAligned();
    PresentOfTwoDays(AlignedTable(ExampleTable(), 100.0));
  }

  /** A single row whose values stop after day 1 keeps days 0 and 1. */
  lemma PresentOfTwoDays(a: Table)
    requires Rectangular(a) && |a.dates| == 4 && |a.rows| == 1
    requires a.rows[0].cells == [Some(150.0), Some(300.0), None, None]
    ensures PresentColumns(a, 4) == [0, 1]
  {
    forall c: nat | c < |a.dates|
      ensures ColumnHasValue(a, c) <==> c < 2
    {
      assert a.rows[0].cells[c] == [Some(150.0), Some(300.0), None, None][c];
    }
    PresentPrefix(a, 2, 4);
    assert Upto(2) == [0, 1];
  }

  lemma ExampleDropped()
    ensures DropMissingColumns(AlignedTable(ExampleTable(), 100.0)) ==
      Table(true, [Offset(0), Offset(1)],
        [ExampleRow().(dayZero := Some(Name("3/3/20")), cells := [Some(150.0), Some(300.0)])])
  {
    ExampleKept();
    ExampleAligned();
    var a := AlignedTable(ExampleTable(), 100.0);
    assert FirstReaching(ExampleRow().cells, 100.0) == Some(2);
    var r0 := ExampleRow().(dayZero := Some(Name("3/3/20")), cells := [Some(150.0), Some(300.0), None, None]);
    assert a.rows == [r0];
    DroppedOfTwoDays(a, r0);
  }

  /** Dropping the missing days of that single row keeps its first two cells. */
  lemma DroppedOfTwoDays(a: Table, r0: Row)
    requires Rectangular(a) && a.hasDayZero && a.rows == [r0]
    requires |a.dates| == 4 && a.dates[0] == Offset(0) && a.dates[1] == Offset(1)
    requires r0.cells == [Some(150.0), Some(300.0), None, None]
    ensures DropMissingColumns(a) == Table(true, [Offset(0), Offset(1)], [r0.(cells := [Some(150.0), Some(300.0)])])
  {
    PresentOfTwoDays(a);
    var r := SelectColumns(a, [0, 1]);
    assert r.dates == [Offset(0), Offset(1)];
    assert r.rows[0].cells == [Some(150.0), Some(300.0)];
  }

  /** A row 5, 20, 150, 300 aligned at threshold 100 becomes 150, 300 on days
      0 and 1, with DayZero the date of the 150. */
  lemma AlignmentExample()
    ensures AlignToDayZero(ExampleTable(), 100.0, true) ==
      Ok(Table(true, [Offset(0), Offset(1)],
        [ExampleRow().(dayZero := Some(Name("3/3/20")), cells := [Some(150.0), Some(300.0)])]))
  {
    ExampleCheck();
    ExampleKept();
    AlignResult(ExampleTable(), 100.0, true);
    ExampleDropped();
  }
}
