/** Metrics derived cell by cell from a table's date columns: the daily change,
    the moving average and the per-capita rate. Each checks the table first
    and leaves the prefix columns as they are. */
module Derived {
  import opened Frames
  import opened Schema

  /** The difference of two cells; missing if either is. */
  function Diff(a: Cell, b: Cell): Cell {
    if a.Some? && b.Some? then Some(a.value - b.value) else None
  }

  /** The sum of a run of cells, or None if any of them is missing. */
  function CellSum(s: seq<Cell>): (r: Cell)
    ensures r.None? <==> exists k :: 0 <= k < |s| && s[k].None?
  {
    if s == [] then Some(0.0)
    else
      var front := CellSum(s[..|s| - 1]);
      assert forall k :: 0 <= k < |s| - 1 ==> s[..|s| - 1][k] == s[k];
      if front.Some? && s[|s| - 1].Some? then Some(front.value + s[|s| - 1].value) else None
  }

  /** pandas diff along a row, with the first cell filled with 0. */
  function DailyChange(x: seq<Cell>): seq<Cell> {
    seq(|x|, j requires 0 <= j < |x| => if j == 0 then Some(0.0) else Diff(x[j], x[j - 1]))
  }

  /** The daily changes add back up to the change since the first day: the
      sum of outputs 0..j is x[j] - x[0] whenever x[0..j] has no missing cell. */
  lemma {:induction false} DailyChangeTelescopes(x: seq<Cell>, j: nat)
    requires j < |x| && forall k :: 0 <= k <= j ==> x[k].Some?
    ensures CellSum(DailyChange(x)[..j + 1]) == Some(x[j].value - x[0].value)
  {
    var d := DailyChange(x);
    if j > 0 {
      DailyChangeTelescopes(x, j - 1);
      assert d[..j + 1][..j] == d[..j];
    }
  }

  function DailyChangeTable(t: Table): Result<Table>
    requires Rectangular(t)
  {
    var check := FrameCheck(t);
    if check.Fail? then Err(check.error)
    else Ok(t.(rows := seq(|t.rows|, i requires 0 <= i < |t.rows| => WithCells(t.rows[i], DailyChange(t.rows[i].cells)))))
  }

  /** ComputeCORVISDailyChange: the check's verdict, or the same table whose
      rows keep their prefix columns and whose cells telescope back to the
      input. */
  lemma DailyChangeRows(t: Table, i: nat, j: nat)
    requires Rectangular(t) && FrameCheck(t) == Pass && i < |t.rows| && j < |t.dates|
    requires forall k :: 0 <= k <= j ==> t.rows[i].cells[k].Some?
    ensures var r := DailyChangeTable(t);
      && r.Ok? && r.value.hasDayZero == t.hasDayZero && r.value.dates == t.dates
      && |r.value.rows| == |t.rows|
      && r.value.rows[i].(cells := []) == t.rows[i].(cells := [])
      && r.value.rows[i].cells[0] == Some(0.0)
      && CellSum(r.value.rows[i].cells[..j + 1]) == Some(t.rows[i].cells[j].value - t.rows[i].cells[0].value)
  {
    DailyChangeTelescopes(t.rows[i].cells, j);
  }

  lemma DailyChangeExample()
    ensures DailyChange([Some(10.0), Some(10.0), Some(25.0), Some(25.0)]) ==
      [Some(0.0), Some(0.0), Some(15.0), Some(0.0)]
  {
  }

  /** n copies of a cell. */
  function Repeat(c: Cell, n: nat): (s: seq<Cell>)
    ensures |s| == n && forall k :: 0 <= k < n ==> s[k] == c
  {
    if n == 0 then [] else [c] + Repeat(c, n - 1)
  }

  /** The mean of a window of cells; missing if any cell in it is missing. */
  function WindowMean(window: seq<Cell>): Cell
    requires |window| > 0
  {
    var s := CellSum(window);
    if s.None? then None else Some(s.value / |window| as real)
  }

  /** pandas rolling(w).mean() along a row: the mean of the w cells ending at
      each position, missing for the first w - 1 positions. */
  function Rolling(x: seq<Cell>, w: nat): (r: seq<Cell>)
    requires w >= 1
  {
    seq(|x|, j requires 0 <= j < |x| => if j + 1 < w then None else WindowMean(x[j + 1 - w..j + 1]))
  }

  /** The cell at position p, where positions before 0 read as the first cell. */
  function Clamped(x: seq<Cell>, p: int): Cell
    requires |x| > 0 && p < |x|
  {
    if p < 0 then x[0] else x[p]
  }

  /** The moving average as intended: output j is the mean of the w cells
      ending at j, positions before 0 reading as the first cell. */
  function MovingAverageOf(x: seq<Cell>, w: nat): (r: seq<Cell>)
    requires |x| > 0 && w >= 1
    ensures |r| == |x|
  {
    seq(|x|, j requires 0 <= j < |x| => WindowMean(seq(w, i requires 0 <= i < w => Clamped(x, j - w + 1 + i))))
  }

  /** Rolling over the row padded with w copies of its first cell, with the
      padding's w outputs dropped, is the moving average. */
  lemma PaddedRolling(x: seq<Cell>, w: nat)
    requires |x| > 0 && w >= 1
    ensures Rolling(Repeat(x[0], w) + x, w)[w..] == MovingAverageOf(x, w)
  {
    var padded := Repeat(x[0], w) + x;
    var lhs := Rolling(padded, w)[w..];
    var rhs := MovingAverageOf(x, w);
    forall j | 0 <= j < |x|
      ensures lhs[j] == rhs[j]
    {
      var window := padded[j + 1..j + w + 1];
      assert lhs[j] == WindowMean(window);
      forall i | 0 <= i < w
        ensures window[i] == Clamped(x, j - w + 1 + i)
      {
        assert window[i] == padded[j + 1 + i];
      }
      assert window == seq(w, i requires 0 <= i < w => Clamped(x, j - w + 1 + i));
    }
  }

  function MovingAverageTable(t: Table, w: nat): Result<Table>
    requires Rectangular(t) && w >= 1
  {
    var check := FrameCheck(t);
    if check.Fail? then Err(check.error)
    else Ok(t.(rows := seq(|t.rows|, i requires 0 <= i < |t.rows| =>
      WithCells(t.rows[i], MovingAverageOf(t.rows[i].cells, w)))))
  }

  /** ComputeCORVISMovingAverage: w dummy columns are prepended, each a copy of
      the first date column; the rolling mean is taken and the dummy columns'
      outputs are dropped. */
  method MovingAverage(t: Table, w: nat) returns (r: Result<Table>)
    requires Rectangular(t) && w >= 1
    ensures r == MovingAverageTable(t, w)
  {
    var check := Verify(Header(t), |t.rows|);
    if check.Fail? {
      return Err(check.error);
    }
    if t.dates == [] {
      return Err(MissingColumns);
    }
    var padded := seq(|t.rows|, i requires 0 <= i < |t.rows| => t.rows[i].cells);
    for k := 0 to w
      invariant |padded| == |t.rows|
      invariant forall i :: 0 <= i < |t.rows| ==> padded[i] == Repeat(t.rows[i].cells[0], k) + t.rows[i].cells
    {
      padded := seq(|padded|, i requires 0 <= i < |padded| => [padded[i][k]] + padded[i]);
      assert forall i :: 0 <= i < |t.rows| ==>
        padded[i] == Repeat(t.rows[i].cells[0], k + 1) + t.rows[i].cells;
    }
    var rows := seq(|t.rows|, i requires 0 <= i < |t.rows| => WithCells(t.rows[i], Rolling(padded[i], w)[w..]));
    forall i | 0 <= i < |t.rows|
      ensures rows[i] == WithCells(t.rows[i], MovingAverageOf(t.rows[i].cells, w))
    {
      PaddedRolling(t.rows[i].cells, w);
    }
    assert rows == seq(|t.rows|, i requires 0 <= i < |t.rows| =>
      WithCells(t.rows[i], MovingAverageOf(t.rows[i].cells, w)));
    return Ok(t.(rows := rows));
  }

  /** A row holding one value everywhere averages to that value everywhere. */
  lemma MovingAverageConstant(x: seq<Cell>, w: nat, c: real)
    requires |x| > 0 && w >= 1 && forall k :: 0 <= k < |x| ==> x[k] == Some(c)
    ensures forall j :: 0 <= j < |x| ==> MovingAverageOf(x, w)[j] == Some(c)
  {
    forall j | 0 <= j < |x|
      ensures MovingAverageOf(x, w)[j] == Some(c)
    {
      var window := seq(w, i requires 0 <= i < w => Clamped(x, j - w + 1 + i));
      forall i | 0 <= i < w
        ensures window[i] == Some(c)
      {
        var p := j - w + 1 + i;
        assert window[i] == Clamped(x, p);
        if p >= 0 {
          assert x[p] == Some(c);
        }
      }
      ConstantSum(window, c);
      assert (w as real * c) / (w as real) == c;
      assert WindowMean(window).value == c;
      assert MovingAverageOf(x, w)[j] == WindowMean(window);
    }
  }

  lemma {:induction false} ConstantSum(s: seq<Cell>, c: real)
    requires forall k :: 0 <= k < |s| ==> s[k] == Some(c)
    ensures CellSum(s) == Some(|s| as real * c)
  {
    if s != [] {
      var front := s[..|s| - 1];
      assert forall k :: 0 <= k < |front| ==> front[k] == s[k];
      ConstantSum(front, c);
      assert CellSum(front).value == (|front| as real) * c;
      assert CellSum(s).value == CellSum(front).value + c;
      assert (|front| as real) * c + c == (|s| as real) * c;
      assert CellSum(s).value == (|s| as real) * c;
    } else {
      assert (|s| as real) * c == 0.0;
    }
  }

  lemma MovingAverageExample()
    ensures MovingAverageOf([Some(1.0), Some(2.0), Some(3.0), Some(4.0), Some(5.0)], 3) ==
      [Some(1.0), Some(4.0 / 3.0), Some(2.0), Some(3.0), Some(4.0)]
  {
    var x := [Some(1.0), Some(2.0), Some(3.0), Some(4.0), Some(5.0)];
    WindowExample(x, 0, [Some(1.0), Some(1.0), Some(1.0)], 3.0);
    WindowExample(x, 1, [Some(1.0), Some(1.0), Some(2.0)], 4.0);
    WindowExample(x, 2, [Some(1.0), Some(2.0), Some(3.0)], 6.0);
    WindowExample(x, 3, [Some(2.0), Some(3.0), Some(4.0)], 9.0);
    WindowExample(x, 4, [Some(3.0), Some(4.0), Some(5.0)], 12.0);
  }

  lemma WindowExample(x: seq<Cell>, j: nat, window: seq<Cell>, sum: real)
    requires |x| == 5 && j < 5 && |window| == 3
    requires forall i :: 0 <= i < 3 ==> Clamped(x, j - 2 + i) == window[i]
    requires window[0].Some? && window[1].Some? && window[2].Some?
    requires window[0].value + window[1].value + window[2].value == sum
    ensures MovingAverageOf(x, 3)[j] == Some(sum / 3.0)
  {
    assert seq(3, i requires 0 <= i < 3 => Clamped(x, j - 3 + 1 + i)) == window;
    var w01 := window[..2];
    var w0 := w01[..1];
    assert w0 == [window[0]] && w0[..0] == [];
    assert CellSum(w0) == Some(0.0 + window[0].value);
    assert CellSum(w01) == Some(0.0 + window[0].value + window[1].value);
    assert CellSum(window) == Some(sum);
    assert WindowMean(window) == Some(sum / 3.0);
    assert MovingAverageOf(x, 3)[j] == WindowMean(window);
  }

  /** ComputeCORVISPerCapita: each cell divided by Population / denominator.
      A zero Population or denominator is refused rather than producing the
      infinities and NaNs of floating point. */
  function PerCapita(t: Table, denominator: real): Result<Table>
    requires Rectangular(t)
  {
    var check := FrameCheck(t);
    if check.Fail? then Err(check.error)
    else if denominator == 0.0 || exists i :: 0 <= i < |t.rows| && t.rows[i].population == 0 then Err(ZeroDivisor)
    else Ok(t.(rows := seq(|t.rows|, i requires 0 <= i < |t.rows| =>
      WithCells(t.rows[i], Scaled(t.rows[i].cells, t.rows[i].population as real / denominator)))))
  }

  /** Each cell divided by `scale`; missing cells stay missing. */
  function Scaled(cells: seq<Cell>, scale: real): seq<Cell>
    requires scale != 0.0
  {
    seq(|cells|, j requires 0 <= j < |cells| => if cells[j].None? then None else Some(cells[j].value / scale))
  }

  lemma DivideBack(x: real, scale: real)
    requires scale != 0.0
    ensures (x / scale) * scale == x
  {
  }

  /** Multiplying a per-capita cell back by Population / denominator gives the
      original count; missing cells stay missing, and the prefix columns are
      unchanged. */
  lemma PerCapitaInverse(t: Table, denominator: real, i: nat, j: nat)
    requires Rectangular(t) && FrameCheck(t) == Pass && denominator != 0.0
    requires forall k :: 0 <= k < |t.rows| ==> t.rows[k].population != 0
    requires i < |t.rows| && j < |t.dates|
    ensures var r := PerCapita(t, denominator);
      && r.Ok? && r.value.dates == t.dates && |r.value.rows| == |t.rows|
      && r.value.rows[i].(cells := []) == t.rows[i].(cells := [])
      && |r.value.rows[i].cells| == |t.dates|
      && var out := r.value.rows[i].cells[j];
        var scale := t.rows[i].population as real / denominator;
        && (out.None? <==> t.rows[i].cells[j].None?)
        && (out.Some? ==> out.value * scale == t.rows[i].cells[j].value)
  {
    var scale := t.rows[i].population as real / denominator;
    assert scale != 0.0 by {
      assert scale * denominator == t.rows[i].population as real;
    }
    if t.rows[i].cells[j].Some? {
      DivideBack(t.rows[i].cells[j].value, scale);
    }
  }

  /** A zero divisor anywhere is refused, once the table passes the check. */
  lemma PerCapitaRefusesZero(t: Table, denominator: real)
    requires Rectangular(t) && FrameCheck(t) == Pass
    ensures PerCapita(t, denominator) == Err(ZeroDivisor) <==>
      denominator == 0.0 || exists i :: 0 <= i < |t.rows| && t.rows[i].population == 0
  {
  }

  /** 400 cases in an area of 20000 people, per 100 people, is 2. */
  lemma PerCapitaExample()
    ensures Scaled([Some(400.0)], 20000 as real / 100.0) == [Some(2.0)]
  {
    var out := Scaled([Some(400.0)], 20000 as real / 100.0);
    assert out[0].value == 2.0;
  }
}
