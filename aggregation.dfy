/** The group-by behind FilterCORVISData's aggregation levels and its
    combination of data sources. Rows are grouped on the five key columns
    (Source, Metric, Country/Region, Province/State, County); the groups come
    out sorted by key, as pandas sorts them. Population, Lat and Long take the
    group's maximum; each date column is reduced by the chosen reducer. */
module Aggregation {
  import opened Frames
  import opened Strings
  import opened Sorting

  /** The five key columns of a row. */
  datatype Key = Key(source: string, metric: string, country: string, state: string, county: string)

  function KeyOf(r: Row): Key {
    Key(r.source, r.metric, r.country, r.state, r.county)
  }

  /** Tuple order on keys, each field by code point. */
  predicate KeyLess(a: Key, b: Key) {
    || StrLess(a.source, b.source)
    || (a.source == b.source && StrLess(a.metric, b.metric))
    || (a.source == b.source && a.metric == b.metric && StrLess(a.country, b.country))
    || (a.source == b.source && a.metric == b.metric && a.country == b.country && StrLess(a.state, b.state))
    || (a.source == b.source && a.metric == b.metric && a.country == b.country && a.state == b.state &&
        StrLess(a.county, b.county))
  }

  lemma KeyLessIrreflexive(a: Key)
    ensures !KeyLess(a, a)
  {
    StrLessIrreflexive(a.source);
    StrLessIrreflexive(a.metric);
    StrLessIrreflexive(a.country);
    StrLessIrreflexive(a.state);
    StrLessIrreflexive(a.county);
  }

  /** Two strings are never each below the other. */
  lemma StrLessAsymmetric(a: string, b: string)
    requires StrLess(a, b)
    ensures !StrLess(b, a)
  {
    if StrLess(b, a) {
      StrLessTransitive(a, b, a);
      StrLessIrreflexive(a);
    }
  }

  lemma KeyLessTransitive(a: Key, b: Key, c: Key)
    requires KeyLess(a, b) && KeyLess(b, c)
    ensures KeyLess(a, c)
  {
    if StrLess(a.source, b.source) && StrLess(b.source, c.source) { StrLessTransitive(a.source, b.source, c.source); }
    if StrLess(a.metric, b.metric) && StrLess(b.metric, c.metric) { StrLessTransitive(a.metric, b.metric, c.metric); }
    if StrLess(a.country, b.country) && StrLess(b.country, c.country) { StrLessTransitive(a.country, b.country, c.country); }
    if StrLess(a.state, b.state) && StrLess(b.state, c.state) { StrLessTransitive(a.state, b.state, c.state); }
    if StrLess(a.county, b.county) && StrLess(b.county, c.county) { StrLessTransitive(a.county, b.county, c.county); }
  }

  lemma KeyLessTotal(a: Key, b: Key)
    requires a != b
    ensures KeyLess(a, b) || KeyLess(b, a)
  {
    if a.source != b.source { StrLessTotal(a.source, b.source); }
    else if a.metric != b.metric { StrLessTotal(a.metric, b.metric); }
    else if a.country != b.country { StrLessTotal(a.country, b.country); }
    else if a.state != b.state { StrLessTotal(a.state, b.state); }
    else { StrLessTotal(a.county, b.county); }
  }

  lemma KeyLessStrictTotal()
    ensures StrictTotal(KeyLess)
  {
    forall a | true
      ensures !KeyLess(a, a)
    {
      KeyLessIrreflexive(a);
    }
    forall a, b, c | KeyLess(a, b) && KeyLess(b, c)
      ensures KeyLess(a, c)
    {
      KeyLessTransitive(a, b, c);
    }
    forall a, b | a != b
      ensures KeyLess(a, b) || KeyLess(b, a)
    {
      KeyLessTotal(a, b);
    }
  }

  /** The keys of the rows, each once, in order of first occurrence. */
  function DistinctKeys(rows: seq<Row>): (keys: seq<Key>)
    ensures Distinct(keys)
    ensures forall k :: k in keys <==> exists i :: 0 <= i < |rows| && KeyOf(rows[i]) == k
  {
    if rows == [] then []
    else
      var front := DistinctKeys(rows[..|rows| - 1]);
      assert forall i :: 0 <= i < |rows| - 1 ==> rows[..|rows| - 1][i] == rows[i];
      var k := KeyOf(rows[|rows| - 1]);
      if k in front then front else front + [k]
  }

  /** The group keys in the order pandas emits the groups. */
  function GroupKeys(rows: seq<Row>): (keys: seq<Key>)
    ensures forall k :: k in keys <==> exists i :: 0 <= i < |rows| && KeyOf(rows[i]) == k
    ensures Sorted(keys, KeyLess)
  {
    var keys := Sort(DistinctKeys(rows), KeyLess);
    KeyLessStrictTotal();
    SortSorted(DistinctKeys(rows), KeyLess);
    SortMembers(DistinctKeys(rows), KeyLess);
    keys
  }

  /** The keys that occur among the rows. */
  function KeySet(rows: seq<Row>): set<Key> {
    set i | 0 <= i < |rows| :: KeyOf(rows[i])
  }

  function HasKey(k: Key): Row -> bool {
    (r: Row) => KeyOf(r) == k
  }

  /** The rows of one group, in their order. */
  function Members(rows: seq<Row>, k: Key): (g: seq<Row>)
    ensures forall r :: r in g <==> r in rows && KeyOf(r) == k
    ensures (exists i :: 0 <= i < |rows| && KeyOf(rows[i]) == k) ==> g != []
  {
    var g := Where(rows, HasKey(k));
    if exists i :: 0 <= i < |rows| && KeyOf(rows[i]) == k then
      var i :| 0 <= i < |rows| && KeyOf(rows[i]) == k;
      assert rows[i] in g;
      g
    else g
  }

  /** How a group's date cells are combined. */
  datatype Reducer = SumOf | MaxOf | MinOf | MeanOf

  /** The values of the present cells, in order. */
  function Present(cells: seq<Cell>): (xs: seq<real>)
    ensures |xs| <= |cells|
    ensures forall x :: x in xs <==> Some(x) in cells
  {
    if cells == [] then []
    else if cells[0].Some? then [cells[0].value] + Present(cells[1..])
    else Present(cells[1..])
  }

  function Total(xs: seq<real>): real {
    if xs == [] then 0.0 else xs[0] + Total(xs[1..])
  }

  function Largest(xs: seq<real>): (m: real)
    requires xs != []
    ensures m in xs && forall x :: x in xs ==> x <= m
  {
    if |xs| == 1 then xs[0]
    else
      var rest := Largest(xs[1..]);
      assert forall x :: x in xs ==> x == xs[0] || x in xs[1..];
      if xs[0] >= rest then xs[0] else rest
  }

  function Smallest(xs: seq<real>): (m: real)
    requires xs != []
    ensures m in xs && forall x :: x in xs ==> m <= x
  {
    if |xs| == 1 then xs[0]
    else
      var rest := Smallest(xs[1..]);
      assert forall x :: x in xs ==> x == xs[0] || x in xs[1..];
      if xs[0] <= rest then xs[0] else rest
  }

  /** pandas' reductions over a column of a group: missing cells are skipped;
      a sum of nothing is 0, any other reduction of nothing is missing. */
  function Reduce(reducer: Reducer, cells: seq<Cell>): Cell {
    var xs := Present(cells);
    match reducer
    case SumOf => Some(Total(xs))
    case MaxOf => if xs == [] then None else Some(Largest(xs))
    case MinOf => if xs == [] then None else Some(Smallest(xs))
    case MeanOf => if xs == [] then None else Some(Total(xs) / |xs| as real)
  }

  /** A reduction by max, min or mean is missing exactly when every cell is;
      a sum never is. */
  lemma ReduceMissing(reducer: Reducer, cells: seq<Cell>)
    ensures Reduce(reducer, cells).None? <==>
      reducer != SumOf && forall k :: 0 <= k < |cells| ==> cells[k].None?
  {
    var xs := Present(cells);
    if xs != [] {
      assert xs[0] in xs;
    }
  }

  lemma {:induction false} TotalBounds(xs: seq<real>, lo: real, hi: real)
    requires forall x :: x in xs ==> lo <= x <= hi
    ensures |xs| as real * lo <= Total(xs) <= |xs| as real * hi
  {
    if xs != [] {
      var rest := xs[1..];
      assert forall x :: x in rest ==> x in xs;
      TotalBounds(rest, lo, hi);
      var m := |rest| as real;
      assert Total(xs) == xs[0] + Total(rest);
      assert lo <= xs[0] <= hi by { assert xs[0] in xs; }
      assert m * lo + lo == (m + 1.0) * lo && m * hi + hi == (m + 1.0) * hi;
      assert |xs| as real == m + 1.0;
    }
  }

  /** The mean of a column lies between its minimum and its maximum. */
  lemma MeanBetween(cells: seq<Cell>)
    requires exists k :: 0 <= k < |cells| && cells[k].Some?
    ensures Reduce(MinOf, cells).Some? && Reduce(MeanOf, cells).Some? && Reduce(MaxOf, cells).Some?
    ensures Reduce(MinOf, cells).value <= Reduce(MeanOf, cells).value <= Reduce(MaxOf, cells).value
  {
    var xs := Present(cells);
    var k :| 0 <= k < |cells| && cells[k].Some?;
    assert cells[k].value in xs;
    var lo := Smallest(xs);
    var hi := Largest(xs);
    var mean := Total(xs) / |xs| as real;
    assert Reduce(MinOf, cells).value == lo;
    assert Reduce(MaxOf, cells).value == hi;
    assert Reduce(MeanOf, cells).value == mean;
    MeanOfBounds(xs, lo, hi);
  }

  lemma MeanOfBounds(xs: seq<real>, lo: real, hi: real)
    requires xs != [] && forall x :: x in xs ==> lo <= x <= hi
    ensures lo <= Total(xs) / |xs| as real <= hi
  {
    TotalBounds(xs, lo, hi);
    DivideBounds(Total(xs), |xs| as real, lo, hi);
  }

  lemma DivideBounds(total: real, n: real, lo: real, hi: real)
    requires n > 0.0 && n * lo <= total <= n * hi
    ensures lo <= total / n <= hi
  {
  }

  /** The rows of a group, each as wide as the table. */
  function Group(t: Table, k: Key): (g: seq<Row>)
    requires Rectangular(t)
    ensures forall i :: 0 <= i < |g| ==> |g[i].cells| == |t.dates| && KeyOf(g[i]) == k
    ensures forall r :: r in g <==> r in t.rows && KeyOf(r) == k
    ensures (exists i :: 0 <= i < |t.rows| && KeyOf(t.rows[i]) == k) ==> g != []
  {
    var g := Members(t.rows, k);
    assert forall i :: 0 <= i < |g| ==> |g[i].cells| == |t.dates| && KeyOf(g[i]) == k by {
      forall i | 0 <= i < |g|
        ensures |g[i].cells| == |t.dates| && KeyOf(g[i]) == k
      {
        assert g[i] in g;
        var j :| 0 <= j < |t.rows| && t.rows[j] == g[i];
      }
    }
    g
  }

  /** Filtering the rows of a rectangular table leaves it rectangular. */
  lemma WhereRectangular(t: Table, p: Row -> bool)
    requires Rectangular(t)
    ensures Rectangular(t.(rows := Where(t.rows, p)))
  {
    var rows := Where(t.rows, p);
    forall i | 0 <= i < |rows|
      ensures |rows[i].cells| == |t.dates|
    {
      assert rows[i] in rows;
      var j :| 0 <= j < |t.rows| && t.rows[j] == rows[i];
    }
  }

  function Column(rows: seq<Row>, n: nat, j: nat): (c: seq<Cell>)
    requires j < n && forall i :: 0 <= i < |rows| ==> |rows[i].cells| == n
    ensures |c| == |rows|
  {
    seq(|rows|, i requires 0 <= i < |rows| => rows[i].cells[j])
  }

  /** One output row of the group-by. Its DayZero cell is left empty (see the
      README). */
  function Fold(g: seq<Row>, k: Key, reducer: Reducer, n: nat): (r: Row)
    requires g != [] && forall i :: 0 <= i < |g| ==> |g[i].cells| == n
    ensures |r.cells| == n
  {
    Row(k.source, k.metric, k.country, k.state, k.county,
      Largest(seq(|g|, i requires 0 <= i < |g| => g[i].population as real)).Floor,
      Largest(seq(|g|, i requires 0 <= i < |g| => g[i].lat)),
      Largest(seq(|g|, i requires 0 <= i < |g| => g[i].long)),
      None,
      seq(n, j requires 0 <= j < n => Reduce(reducer, Column(g, n, j))))
  }

  /** groupby(key columns).agg(...).reset_index(): one row per distinct key,
      in key order. */
  function GroupBy(t: Table, reducer: Reducer): (r: Table)
    requires Rectangular(t)
    ensures Rectangular(r) && r.dates == t.dates && r.hasDayZero == t.hasDayZero
  {
    var keys := GroupKeys(t.rows);
    Table(t.hasDayZero, t.dates, seq(|keys|, i requires 0 <= i < |keys| =>
      assert keys[i] in keys;
      Fold(Group(t, keys[i]), keys[i], reducer, |t.dates|)))
  }

  lemma GroupByKeyAt(t: Table, reducer: Reducer, i: nat)
    requires Rectangular(t) && i < |GroupKeys(t.rows)|
    ensures |GroupBy(t, reducer).rows| == |GroupKeys(t.rows)|
    ensures KeyOf(GroupBy(t, reducer).rows[i]) == GroupKeys(t.rows)[i]
  {
  }

  lemma GroupByKeysInOrder(t: Table, reducer: Reducer)
    requires Rectangular(t)
    ensures var r := GroupBy(t, reducer);
      && |r.rows| == |GroupKeys(t.rows)|
      && forall m :: 0 <= m < |r.rows| ==> KeyOf(r.rows[m]) == GroupKeys(t.rows)[m]
  {
    var keys := GroupKeys(t.rows);
    forall m | 0 <= m < |keys|
      ensures KeyOf(GroupBy(t, reducer).rows[m]) == keys[m]
    {
      GroupByKeyAt(t, reducer, m);
    }
  }

  /** The group-by emits each distinct key of its input once, in strictly
      increasing key order. */
  lemma GroupByKeys(t: Table, reducer: Reducer)
    requires Rectangular(t)
    ensures var r := GroupBy(t, reducer);
      && KeySet(r.rows) == KeySet(t.rows)
      && forall a, b :: 0 <= a < b < |r.rows| ==> KeyLess(KeyOf(r.rows[a]), KeyOf(r.rows[b]))
  {
    var keys := GroupKeys(t.rows);
    var r := GroupBy(t, reducer);
    GroupByKeysInOrder(t, reducer);
    KeysCovered(t.rows, r.rows, keys);
  }

  /** Rows whose keys are, position by position, the group keys carry
      exactly the input's keys. */
  lemma KeysCovered(rows: seq<Row>, out: seq<Row>, keys: seq<Key>)
    requires keys == GroupKeys(rows) && |out| == |keys|
    requires forall m :: 0 <= m < |out| ==> KeyOf(out[m]) == keys[m]
    ensures KeySet(out) == KeySet(rows)
  {
    forall k | k in KeySet(rows)
      ensures k in KeySet(out)
    {
      assert k in keys;
      var m :| 0 <= m < |keys| && keys[m] == k;
      assert KeyOf(out[m]) == k;
    }
    forall k | k in KeySet(out)
      ensures k in KeySet(rows)
    {
      var m :| 0 <= m < |out| && KeyOf(out[m]) == k;
      assert keys[m] in keys;
    }
  }

  lemma GroupByRowAt(t: Table, reducer: Reducer, i: nat)
    requires Rectangular(t) && i < |GroupKeys(t.rows)|
    ensures var k := GroupKeys(t.rows)[i];
      (exists m :: 0 <= m < |t.rows| && KeyOf(t.rows[m]) == k) &&
      GroupBy(t, reducer).rows[i] == Fold(Group(t, k), k, reducer, |t.dates|)
  {
    var keys := GroupKeys(t.rows);
    assert keys[i] in keys;
  }

  /** A folded group: its key, its date cells reduced column by column, and
      the group's largest Population, Lat and Long, each the value of some
      member of the group. */
  lemma FoldFacts(g: seq<Row>, k: Key, reducer: Reducer, n: nat)
    requires g != [] && forall i :: 0 <= i < |g| ==> |g[i].cells| == n
    ensures var r := Fold(g, k, reducer, n);
      && KeyOf(r) == k && r.dayZero.None?
      && (forall j :: 0 <= j < n ==> r.cells[j] == Reduce(reducer, Column(g, n, j)))
      && (forall m :: 0 <= m < |g| ==> g[m].population <= r.population)
      && (exists m :: 0 <= m < |g| && g[m].population == r.population)
      && (forall m :: 0 <= m < |g| ==> g[m].lat <= r.lat && g[m].long <= r.long)
      && (exists m :: 0 <= m < |g| && g[m].lat == r.lat)
      && (exists m :: 0 <= m < |g| && g[m].long == r.long)
  {
    var pops := seq(|g|, m requires 0 <= m < |g| => g[m].population as real);
    var lats := seq(|g|, m requires 0 <= m < |g| => g[m].lat);
    var longs := seq(|g|, m requires 0 <= m < |g| => g[m].long);
    var r := Fold(g, k, reducer, n);
    assert r.population == Largest(pops).Floor;
    assert r.lat == Largest(lats) && r.long == Largest(longs);
    var mp := MemberAt(pops, Largest(pops));
    assert r.population == g[mp].population;
    var ml := MemberAt(lats, Largest(lats));
    var mg := MemberAt(longs, Largest(longs));
    assert g[ml].lat == r.lat && g[mg].long == r.long;
    forall m | 0 <= m < |g|
      ensures g[m].population <= r.population
      ensures g[m].lat <= r.lat && g[m].long <= r.long
    {
      assert pops[m] in pops;
      assert lats[m] in lats;
      assert longs[m] in longs;
    }
  }

  /** An index at which a member of a sequence sits. */
  lemma MemberAt(xs: seq<real>, x: real) returns (m: nat)
    requires x in xs
    ensures m < |xs| && xs[m] == x
  {
    m :| 0 <= m < |xs| && xs[m] == x;
  }

  /** Each output row of the group-by reduces exactly the input rows with its
      key: its date cells are the reductions of their columns, and its
      Population, Lat and Long are their maxima. */
  lemma GroupByCells(t: Table, reducer: Reducer, i: nat)
    requires Rectangular(t) && i < |GroupBy(t, reducer).rows|
    ensures var r := GroupBy(t, reducer); var g := Group(t, KeyOf(r.rows[i]));
      && g != []
      && (forall j :: 0 <= j < |t.dates| ==> r.rows[i].cells[j] == Reduce(reducer, Column(g, |t.dates|, j)))
      && (forall m :: 0 <= m < |g| ==> g[m].population <= r.rows[i].population)
      && (exists m :: 0 <= m < |g| && g[m].population == r.rows[i].population)
      && (forall m :: 0 <= m < |g| ==> g[m].lat <= r.rows[i].lat && g[m].long <= r.rows[i].long)
      && (exists m :: 0 <= m < |g| && g[m].lat == r.rows[i].lat)
      && (exists m :: 0 <= m < |g| && g[m].long == r.rows[i].long)
  {
    var k := GroupKeys(t.rows)[i];
    GroupByRowAt(t, reducer, i);
    FoldFacts(Group(t, k), k, reducer, |t.dates|);
  }

  /** The aggregation levels FilterCORVISData accepts. */
  datatype Level = StateLevel | CountryLevel | GlobalLevel

  /** The key columns each level blanks (or sets) before grouping. */
  function Blank(r: Row, level: Level): Row {
    match level
    case StateLevel => r.(county := "")
    case CountryLevel => r.(county := "", state := "")
    case GlobalLevel => r.(county := "", state := "", country := "Global")
  }

  function HasState(): Row -> bool {
    (r: Row) => r.state != ""
  }

  function HasCountry(): Row -> bool {
    (r: Row) => r.country != ""
  }

  /** The rows with the key columns the level does not keep blanked. */
  function Blanked(t: Table, level: Level): (b: Table)
    requires Rectangular(t)
    ensures Rectangular(b) && |b.rows| == |t.rows| && b.dates == t.dates
  {
    t.(rows := seq(|t.rows|, i requires 0 <= i < |t.rows| => Blank(t.rows[i], level)))
  }

  /** Aggregation at a level: blank the finer key columns, sum each date
      column over the group, and drop the nationwide rows the level does not
      cover. */
  function Aggregate(t: Table, level: Level): (r: Table)
    requires Rectangular(t)
    ensures Rectangular(r) && r.dates == t.dates && r.hasDayZero == t.hasDayZero
  {
    var g := GroupBy(Blanked(t, level), SumOf);
    WhereRectangular(g, HasState());
    WhereRectangular(g, HasCountry());
    g.(rows := LevelKept(g.rows, level))
  }

  /** Combining data sources: every row's Source becomes "Combined" and the
      rows that then share a key are reduced by min, max or mean. */
  function Combine(t: Table, reducer: Reducer): (r: Table)
    requires Rectangular(t)
    ensures Rectangular(r) && r.dates == t.dates && r.hasDayZero == t.hasDayZero
  {
    GroupBy(t.(rows := seq(|t.rows|, i requires 0 <= i < |t.rows| => t.rows[i].(source := "Combined"))), reducer)
  }

  /** The key of every group-by output row is a key of its input. */
  lemma GroupByKeyFrom(t: Table, reducer: Reducer, i: nat)
    requires Rectangular(t) && i < |GroupBy(t, reducer).rows|
    ensures KeyOf(GroupBy(t, reducer).rows[i]) in KeySet(t.rows)
  {
    GroupByKeys(t, reducer);
  }

  /** The key shape a level imposes. */
  predicate LevelShape(k: Key, level: Level) {
    && k.county == ""
    && (level != StateLevel ==> k.state == "")
    && (level == GlobalLevel ==> k.country == "Global")
  }

  lemma BlankedKeys(t: Table, level: Level)
    requires Rectangular(t)
    ensures forall k :: k in KeySet(Blanked(t, level).rows) ==> LevelShape(k, level)
  {
  }

  /** Every aggregated row has the shape its level promises: no County; at
      state level a Province/State; at country level no Province/State and a
      Country/Region; at global level Country/Region "Global". */
  lemma AggregateShape(t: Table, level: Level)
    requires Rectangular(t)
    ensures var r := Aggregate(t, level);
      forall i :: 0 <= i < |r.rows| ==>
        && LevelShape(KeyOf(r.rows[i]), level)
        && (level == StateLevel ==> r.rows[i].state != "")
        && (level == CountryLevel ==> r.rows[i].country != "")
  {
    var b := Blanked(t, level);
    var g := GroupBy(b, SumOf);
    BlankedKeys(t, level);
    forall i | 0 <= i < |g.rows|
      ensures LevelShape(KeyOf(g.rows[i]), level)
    {
      GroupByKeyFrom(b, SumOf, i);
    }
    AggregateFromGroups(t, level);
  }

  /** The aggregated rows are exactly the group-by rows that pass the level's
      filter, in the group-by's order. */
  lemma AggregateFromGroups(t: Table, level: Level)
    requires Rectangular(t)
    ensures var g := GroupBy(Blanked(t, level), SumOf); var r := Aggregate(t, level);
      && (forall x :: x in r.rows <==>
           && x in g.rows
           && (level == StateLevel ==> x.state != "")
           && (level == CountryLevel ==> x.country != ""))
      && Subsequence(r.rows, g.rows)
      && forall i :: 0 <= i < |r.rows| ==>
        && r.rows[i] in g.rows
        && (level == StateLevel ==> r.rows[i].state != "")
        && (level == CountryLevel ==> r.rows[i].country != "")
  {
    LevelMask(GroupBy(Blanked(t, level), SumOf).rows, level);
  }

  /** The rows a level keeps after grouping. */
  function LevelKept(rows: seq<Row>, level: Level): seq<Row> {
    match level
    case StateLevel => Where(rows, HasState())
    case CountryLevel => Where(rows, HasCountry())
    case GlobalLevel => rows
  }

  lemma LevelMask(rows: seq<Row>, level: Level)
    ensures var r := LevelKept(rows, level);
      && (forall x :: x in r <==>
           && x in rows
           && (level == StateLevel ==> x.state != "")
           && (level == CountryLevel ==> x.country != ""))
      && Subsequence(r, rows)
      && forall i :: 0 <= i < |r| ==>
        && r[i] in rows
        && (level == StateLevel ==> r[i].state != "")
        && (level == CountryLevel ==> r[i].country != "")
  {
    var r := LevelKept(rows, level);
    match level
    case StateLevel => WhereSubsequence(rows, HasState());
    case CountryLevel => WhereSubsequence(rows, HasCountry());
    case GlobalLevel => SubsequenceOfSelf(rows);
    forall i | 0 <= i < |r|
      ensures r[i] in r
    {
    }
  }

  /** Rows that all share one key form a single group. */
  lemma SingleKey(rows: seq<Row>, k: Key)
    requires rows != [] && forall i :: 0 <= i < |rows| ==> KeyOf(rows[i]) == k
    ensures GroupKeys(rows) == [k]
  {
    var keys := GroupKeys(rows);
    assert KeyOf(rows[0]) == k;
    assert k in keys;
    if |keys| > 1 {
      assert keys[0] in keys && keys[1] in keys;
      KeyLessIrreflexive(k);
      assert false;
    }
  }

  /** Global aggregation of rows that share one Source and one Metric gives a
      single row, Country/Region "Global", whose date cells are the column
      sums (missing cells counting as nothing). */
  lemma GlobalSingle(t: Table, source: string, metric: string)
    requires Rectangular(t) && t.rows != []
    requires forall i :: 0 <= i < |t.rows| ==> t.rows[i].source == source && t.rows[i].metric == metric
    ensures var r := Aggregate(t, GlobalLevel);
      && |r.rows| == 1
      && KeyOf(r.rows[0]) == Key(source, metric, "Global", "", "")
      && forall j :: 0 <= j < |t.dates| ==>
           r.rows[0].cells[j] == Some(Total(Present(Column(t.rows, |t.dates|, j))))
  {
    var k := Key(source, metric, "Global", "", "");
    var b := Blanked(t, GlobalLevel);
    GlobalGroup(t, source, metric);
    FoldFacts(b.rows, k, SumOf, |t.dates|);
    forall j | 0 <= j < |t.dates|
      ensures Column(b.rows, |t.dates|, j) == Column(t.rows, |t.dates|, j)
    {
    }
  }

  /** Those rows, blanked, all carry the global key and form one group. */
  lemma GlobalGroup(t: Table, source: string, metric: string)
    requires Rectangular(t) && t.rows != []
    requires forall i :: 0 <= i < |t.rows| ==> t.rows[i].source == source && t.rows[i].metric == metric
    ensures var k := Key(source, metric, "Global", "", ""); var b := Blanked(t, GlobalLevel);
      Aggregate(t, GlobalLevel).rows == [Fold(b.rows, k, SumOf, |t.dates|)]
  {
    var k := Key(source, metric, "Global", "", "");
    var b := Blanked(t, GlobalLevel);
    SingleKey(b.rows, k);
    GroupByKeyAt(b, SumOf, 0);
    GroupByRowAt(b, SumOf, 0);
    WhereAll(b.rows, HasKey(k));
    assert Group(b, k) == b.rows;
  }

  function Relabelled(t: Table): (c: Table)
    requires Rectangular(t)
    ensures Rectangular(c) && |c.rows| == |t.rows|
  {
    t.(rows := seq(|t.rows|, i requires 0 <= i < |t.rows| => t.rows[i].(source := "Combined")))
  }

  /** Combining sources labels every row "Combined" and leaves one row per
      combination of Metric, Country/Region, Province/State and County found
      in the input, in strictly increasing key order. */
  lemma CombineRows(t: Table, reducer: Reducer)
    requires Rectangular(t)
    ensures var r := Combine(t, reducer);
      && (forall i :: 0 <= i < |r.rows| ==> r.rows[i].source == "Combined")
      && KeySet(r.rows) == (set i | 0 <= i < |t.rows| :: KeyOf(t.rows[i]).(source := "Combined"))
      && (forall a, b :: 0 <= a < b < |r.rows| ==> KeyLess(KeyOf(r.rows[a]), KeyOf(r.rows[b])))
  {
    var c := Relabelled(t);
    assert Combine(t, reducer) == GroupBy(c, reducer);
    GroupByKeys(c, reducer);
    assert KeySet(c.rows) == (set i | 0 <= i < |t.rows| :: KeyOf(t.rows[i]).(source := "Combined")) by {
      assert forall i :: 0 <= i < |t.rows| ==> KeyOf(c.rows[i]) == KeyOf(t.rows[i]).(source := "Combined");
    }
    var r := Combine(t, reducer);
    forall i | 0 <= i < |r.rows|
      ensures r.rows[i].source == "Combined"
    {
      assert KeyOf(r.rows[i]) in KeySet(c.rows);
    }
  }
}
