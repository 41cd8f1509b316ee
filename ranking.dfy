/** GetCORVISHighestValues: the rows with the largest maximum date cell. The
    source writes a `maxValue` column into the caller's table, ranks by it
    with pandas nlargest, and returns the top rows without that column. */
module Ranking {
  import opened Frames
  import opened Schema
  import opened Sorting

  /** The name of the column the ranking writes. */
  const MaxValueLabel: Label := Name("maxValue")

  /** The largest present cell of a row; None when every cell is missing
      (pandas max skips NaN). */
  function RowMax(cells: seq<Cell>): (m: Cell)
    ensures m.None? <==> forall k :: 0 <= k < |cells| ==> cells[k].None?
    ensures m.Some? ==> exists k :: 0 <= k < |cells| && cells[k] == m
    ensures m.Some? ==> forall k :: 0 <= k < |cells| && cells[k].Some? ==> cells[k].value <= m.value
  {
    if cells == [] then None
    else
      var rest := RowMax(cells[1..]);
      if cells[0].None? then rest
      else if rest.None? || rest.value <= cells[0].value then cells[0]
      else rest
  }

  /** Key `a` ranks strictly above key `b`: present above missing, larger first. */
  predicate KeyAbove(a: Cell, b: Cell) {
    a.Some? && (b.None? || a.value > b.value)
  }

  function KeyAt(keys: seq<Cell>, i: int): Cell {
    if 0 <= i < |keys| then keys[i] else None
  }

  /** nlargest's order on row positions: by key, ties in their original order. */
  function Before(keys: seq<Cell>): (int, int) -> bool {
    (i: int, j: int) => KeyAbove(KeyAt(keys, i), KeyAt(keys, j)) || (SameKey(KeyAt(keys, i), KeyAt(keys, j)) && i < j)
  }

  predicate SameKey(a: Cell, b: Cell) {
    (a.None? && b.None?) || (a.Some? && b.Some? && a.value == b.value)
  }

  lemma BeforeStrictTotal(keys: seq<Cell>)
    ensures StrictTotal(Before(keys))
  {
    var less := Before(keys);
    forall a, b, c | less(a, b) && less(b, c)
      ensures less(a, c)
    {
    }
    forall a, b | a != b
      ensures less(a, b) || less(b, a)
    {
    }
  }

  function Positions(n: nat): (s: seq<int>)
    ensures |s| == n && forall i :: 0 <= i < n ==> s[i] == i
  {
    if n == 0 then [] else Positions(n - 1) + [n - 1]
  }

  /** The row positions in nlargest's order. */
  function RankOrder(keys: seq<Cell>): seq<int> {
    Sort(Positions(|keys|), Before(keys))
  }

  function Min(a: int, b: int): int {
    if a <= b then a else b
  }

  /** The number of rows nlargest returns: none for n <= 0, else at most n. */
  function TakeCount(n: int, rows: nat): nat {
    if n <= 0 then 0 else Min(n, rows)
  }

  /** A row's cells with column p removed (unchanged when p is past the end). */
  function RemoveAt<T>(s: seq<T>, p: nat): (r: seq<T>) {
    if p < |s| then s[..p] + s[p + 1..] else s
  }

  /** The first index of `label` among the date columns, or |dates| if absent. */
  function LabelIndex(dates: seq<Label>, wanted: Label): (p: nat)
    ensures p <= |dates| && (p < |dates| ==> dates[p] == wanted)
    ensures forall k :: 0 <= k < p ==> dates[k] != wanted
  {
    if dates == [] then 0 else if dates[0] == wanted then 0 else 1 + LabelIndex(dates[1..], wanted)
  }

  /** The caller's table after the source's `maxValue` assignment: the column
      holds each row's maximum over every column after the prefix; it is
      overwritten where it already exists and appended otherwise. */
  function WithMaxColumn(t: Table): (u: Table)
    requires Rectangular(t)
    ensures Rectangular(u)
  {
    var p := LabelIndex(t.dates, MaxValueLabel);
    if p < |t.dates| then
      t.(rows := seq(|t.rows|, i requires 0 <= i < |t.rows| =>
        WithCells(t.rows[i], t.rows[i].cells[p := RowMax(t.rows[i].cells)])))
    else
      t.(dates := t.dates + [MaxValueLabel], rows := seq(|t.rows|, i requires 0 <= i < |t.rows| =>
        WithCells(t.rows[i], t.rows[i].cells + [RowMax(t.rows[i].cells)])))
  }

  /** nlargest on column p, then that column dropped. */
  function TopByColumn(u: Table, p: nat, n: int): Table
    requires Rectangular(u) && p < |u.dates|
  {
    var keys := seq(|u.rows|, i requires 0 <= i < |u.rows| => u.rows[i].cells[p]);
    var order := RankOrder(keys);
    var m := TakeCount(n, |u.rows|);
    assert |order| == |u.rows| by { assert |Positions(|keys|)| == |u.rows|; }
    assert forall k :: 0 <= k < |order| ==> 0 <= order[k] < |u.rows| by {
      forall k | 0 <= k < |order|
        ensures 0 <= order[k] < |u.rows|
      {
        assert order[k] in multiset(Positions(|keys|));
      }
    }
    Table(u.hasDayZero, RemoveAt(u.dates, p),
      seq(m, k requires 0 <= k < m => WithCells(u.rows[order[k]], RemoveAt(u.rows[order[k]].cells, p))))
  }

  /** The position of the `maxValue` column once it is written. */
  function MaxColumn(t: Table): nat {
    LabelIndex(t.dates, MaxValueLabel)
  }

  /** What GetCORVISHighestValues returns for a table that passes the check. */
  function Highest(t: Table, n: int): Table
    requires Rectangular(t)
  {
    TopByColumn(WithMaxColumn(t), MaxColumn(t), n)
  }

  /** Each row's maximum date cell: the ranking key. */
  function MaxKeys(t: Table): (keys: seq<Cell>)
    ensures |keys| == |t.rows|
  {
    seq(|t.rows|, i requires 0 <= i < |t.rows| => RowMax(t.rows[i].cells))
  }

  /** The `maxValue` column holds each row's maximum, and removing it gives
      back the row as it was (less any `maxValue` column it already had). */
  lemma MaxColumnHolds(t: Table)
    requires Rectangular(t)
    ensures var u := WithMaxColumn(t); var p := MaxColumn(t);
      && p < |u.dates| && u.dates[p] == MaxValueLabel && |u.rows| == |t.rows|
      && RemoveAt(u.dates, p) == RemoveAt(t.dates, p)
      && forall i :: 0 <= i < |t.rows| ==>
        && u.rows[i].cells[p] == MaxKeys(t)[i]
        && u.rows[i].(cells := RemoveAt(u.rows[i].cells, p)) == t.rows[i].(cells := RemoveAt(t.rows[i].cells, p))
  {
    var u := WithMaxColumn(t);
    var p := MaxColumn(t);
    forall i | 0 <= i < |t.rows|
      ensures RemoveAt(u.rows[i].cells, p) == RemoveAt(t.rows[i].cells, p)
    {
      if p < |t.dates| {
        assert u.rows[i].cells[..p] == t.rows[i].cells[..p];
        assert u.rows[i].cells[p + 1..] == t.rows[i].cells[p + 1..];
      } else {
        assert u.rows[i].cells[..p] == t.rows[i].cells;
      }
    }
    if p == |t.dates| {
      assert u.dates[..p] == t.dates;
    }
  }

  /** The ranking order is a permutation of the row positions, sorted by key
      with ties in their original order. */
  lemma {:induction false} RankOrderFacts(keys: seq<Cell>)
    ensures var order := RankOrder(keys);
      && |order| == |keys|
      && (forall k :: 0 <= k < |order| ==> 0 <= order[k] < |keys|)
      && (forall i :: 0 <= i < |keys| ==> i in order)
      && Distinct(order)
      && Sorted(order, Before(keys))
  {
    var order := RankOrder(keys);
    var ps := Positions(|keys|);
    forall k | 0 <= k < |order|
      ensures 0 <= order[k] < |keys|
    {
      assert order[k] in multiset(ps);
    }
    forall i | 0 <= i < |keys|
      ensures i in order
    {
      assert ps[i] == i;
      assert i in multiset(order);
    }
    BeforeStrictTotal(keys);
    SortSorted(ps, Before(keys));
    SortedDistinct(order, Before(keys));
  }

  /** GetCORVISHighestValues returns min(n, rows) rows (none for n <= 0),
      each a row of the input, in descending order of their maximum with ties
      in their original order; no row left out has a larger maximum than a
      row returned. */
  lemma HighestRanked(t: Table, n: int)
    requires Rectangular(t)
    ensures var r := Highest(t, n); var keys := MaxKeys(t); var order := RankOrder(keys);
      var m := TakeCount(n, |t.rows|); var p := MaxColumn(t);
      && |order| == |t.rows| && m <= |t.rows|
      && |r.rows| == m && r.dates == RemoveAt(t.dates, p)
      && (forall k :: 0 <= k < m ==>
            && 0 <= order[k] < |t.rows|
            && r.rows[k] == t.rows[order[k]].(cells := RemoveAt(t.rows[order[k]].cells, p)))
      && (forall a, b :: 0 <= a < b < m ==>
            KeyAbove(keys[order[a]], keys[order[b]]) ||
            (SameKey(keys[order[a]], keys[order[b]]) && order[a] < order[b]))
      && (forall i, k :: 0 <= i < |t.rows| && 0 <= k < m && i !in order[..m] ==>
            !KeyAbove(keys[i], keys[order[k]]))
  {
    HighestRows(t, n);
    RankPrefix(MaxKeys(t), TakeCount(n, |t.rows|));
  }

  /** The rows returned are the input rows in ranking order, less the
      `maxValue` column. */
  lemma HighestRows(t: Table, n: int)
    requires Rectangular(t)
    ensures var r := Highest(t, n); var order := RankOrder(MaxKeys(t));
      var m := TakeCount(n, |t.rows|); var p := MaxColumn(t);
      && |order| == |t.rows| && m <= |t.rows|
      && |r.rows| == m && r.dates == RemoveAt(t.dates, p)
      && (forall k :: 0 <= k < m ==>
            && 0 <= order[k] < |t.rows|
            && r.rows[k] == t.rows[order[k]].(cells := RemoveAt(t.rows[order[k]].cells, p)))
  {
    var u := WithMaxColumn(t);
    var p := MaxColumn(t);
    var keys := MaxKeys(t);
    MaxColumnHolds(t);
    RankOrderFacts(keys);
    var ukeys := seq(|u.rows|, i requires 0 <= i < |u.rows| => u.rows[i].cells[p]);
    assert ukeys == keys;
    assert Highest(t, n) == TopByColumn(u, p, n);
  }

  /** The first m positions of the ranking are in key order, ties in their
      original order, and no position after them has a larger key. */
  lemma RankPrefix(keys: seq<Cell>, m: nat)
    requires m <= |keys|
    ensures var order := RankOrder(keys);
      && |order| == |keys|
      && (forall k :: 0 <= k < |order| ==> 0 <= order[k] < |keys|)
      && (forall a, b :: 0 <= a < b < m ==>
            KeyAbove(keys[order[a]], keys[order[b]]) ||
            (SameKey(keys[order[a]], keys[order[b]]) && order[a] < order[b]))
      && (forall i, k :: 0 <= i < |keys| && 0 <= k < m && i !in order[..m] ==>
            !KeyAbove(keys[i], keys[order[k]]))
  {
    var order := RankOrder(keys);
    RankOrderFacts(keys);
    forall i, k | 0 <= i < |keys| && 0 <= k < m && i !in order[..m]
      ensures !KeyAbove(keys[i], keys[order[k]])
    {
      assert i in order;
      var q :| 0 <= q < |order| && order[q] == i;
      assert Before(keys)(order[k], order[q]);
    }
  }

  /** A model of the caller's data frame, which the source changes in place. */
  class Frame {
    var table: Table

    constructor (t: Table)
      ensures table == t
    {
      table := t;
    }

    /** GetCORVISHighestValues: checks the table, writes the `maxValue` column
        into this frame, and returns the n rows ranked highest by it, without
        that column. A refused table is left as it was. */
    method HighestValues(n: int) returns (r: Result<Table>)
      requires Rectangular(table)
      modifies this
      ensures FrameCheck(old(table)).Fail? ==> r == Err(FrameCheck(old(table)).error) && table == old(table)
      ensures FrameCheck(old(table)) == Pass ==>
        && table == WithMaxColumn(old(table))
        && r == Ok(Highest(old(table), n))
    {
      var check := Verify(Header(table), |table.rows|);
      if check.Fail? {
        return Err(check.error);
      }
      if table.dates == [] {
        return Err(MissingColumns);
      }
      var p := MaxColumn(table);
      table := WithMaxColumn(table);
      return Ok(TopByColumn(table, p, n));
    }
  }
}
