/** The CORVIS table: a fixed prefix of location columns followed by one
    numeric column per date (or, after day-zero alignment, per day offset). */
module Frames {

  datatype Option<T> = None | Some(value: T)

  /** A column label. Prefix columns and calendar dates ("M/D/YY") are names;
      the columns of a day-zero table are integer offsets 0, 1, 2, ... */
  datatype Label = Name(text: string) | Offset(day: nat)

  /** A date cell; None stands for a missing (NaN) value. */
  type Cell = Option<real>

  /** One row of the table: the prefix columns, then one cell per date column.
      `dayZero` holds the DayZero label of a day-zero table. */
  datatype Row = Row(
    source: string,
    metric: string,
    country: string,
    state: string,
    county: string,
    population: int,
    lat: real,
    long: real,
    dayZero: Option<Label>,
    cells: seq<Cell>)

  /** A table: whether it carries the DayZero column, the date labels and the rows. */
  datatype Table = Table(hasDayZero: bool, dates: seq<Label>, rows: seq<Row>)

  /** The errors the pipeline raises. */
  datatype Error =
    | EmptyFrame                      // the table has no rows
    | UnexpectedColumn(column: Label) // a non-baseline column among the required ones
    | MissingColumns                  // no column follows the required ones
    | AmbiguousCountryAlias           // both `region` and `country` given
    | AmbiguousStateAlias             // both `province` and `state` given
    | BadMetric(metric: string)       // a metric outside the accepted names
    | MetricNotListLike               // a bare empty string handed to the metric filter
    | BadAggregation(level: string)
    | BadCombination(mode: string)
    | NoDataMatched                   // the post-filter check; see Filtering
    | NoColumnsLeft                   // a column-dropping loop ran past the last column
    | ThresholdTooHigh                // day-zero alignment kept no row
    | ZeroDivisor                     // per-capita division by a zero population or denominator
    | LabelWithoutDay(column: Label)  // a calendar tick label that is not "M/D/YY"

  datatype Result<T> = Ok(value: T) | Err(error: Error)

  datatype Check = Pass | Fail(error: Error)

  /** The eight columns every table must start with. */
  const Baseline: seq<string> :=
    ["Source", "Metric", "Country/Region", "Province/State", "County", "Population", "Lat", "Long"]

  /** The names that may stand before the first date column. */
  const BreakpointNames: seq<string> := Baseline + ["DayZero"]

  /** The five key columns of a group-by. */
  const AggregatorNames: seq<string> := ["Source", "Metric", "Country/Region", "Province/State", "County"]

  function PrefixLabels(hasDayZero: bool): (p: seq<Label>)
    ensures |p| == if hasDayZero then 9 else 8
  {
    var base := [Name("Source"), Name("Metric"), Name("Country/Region"), Name("Province/State"),
                 Name("County"), Name("Population"), Name("Lat"), Name("Long")];
    if hasDayZero then base + [Name("DayZero")] else base
  }

  /** The full column header of a table, in order. */
  function Header(t: Table): seq<Label> {
    PrefixLabels(t.hasDayZero) + t.dates
  }

  /** Every row has one cell per date column (a data frame is rectangular). */
  ghost predicate Rectangular(t: Table) {
    forall i :: 0 <= i < |t.rows| ==> |t.rows[i].cells| == |t.dates|
  }

  /** No date label could be mistaken for a prefix column. */
  ghost predicate DatesAreData(t: Table) {
    forall k :: 0 <= k < |t.dates| ==> !(t.dates[k].Name? && t.dates[k].text in BreakpointNames)
  }

  ghost predicate WellFormed(t: Table) {
    Rectangular(t) && DatesAreData(t)
  }

  function WithCells(r: Row, cells: seq<Cell>): Row {
    r.(cells := cells)
  }

  /** The first `w` date columns of a table. */
  function KeepColumns(t: Table, w: nat): (r: Table)
    requires Rectangular(t) && w <= |t.dates|
    ensures Rectangular(r) && r.hasDayZero == t.hasDayZero && |r.rows| == |t.rows|
    ensures r.dates == t.dates[..w]
    ensures forall i :: 0 <= i < |r.rows| ==> r.rows[i] == t.rows[i].(cells := t.rows[i].cells[..w])
  {
    Table(t.hasDayZero, t.dates[..w], seq(|t.rows|, i requires 0 <= i < |t.rows| => WithCells(t.rows[i], t.rows[i].cells[..w])))
  }

  /** The elements of `s` that satisfy `p`, in their order (a boolean mask). */
  function Where<T(!new)>(s: seq<T>, p: T -> bool): (r: seq<T>)
    ensures |r| <= |s|
    ensures forall x :: x in r <==> x in s && p(x)
  {
    if s == [] then []
    else if p(s[0]) then [s[0]] + Where(s[1..], p)
    else Where(s[1..], p)
  }

  /** `a` is `b` with some elements left out, the rest in their order. */
  ghost predicate Subsequence<T>(a: seq<T>, b: seq<T>)
    decreases |b|
  {
    if a == [] then true
    else if b == [] then false
    else (a[0] == b[0] && Subsequence(a[1..], b[1..])) || Subsequence(a, b[1..])
  }

  lemma {:induction false} WhereSubsequence<T(!new)>(s: seq<T>, p: T -> bool)
    ensures Subsequence(Where(s, p), s)
  {
    if s != [] {
      WhereSubsequence(s[1..], p);
    }
  }

  /** A mask every element passes keeps the sequence as it is. */
  lemma {:induction false} WhereAll<T(!new)>(s: seq<T>, p: T -> bool)
    requires forall k :: 0 <= k < |s| ==> p(s[k])
    ensures Where(s, p) == s
  {
    if s != [] {
      WhereAll(s[1..], p);
    }
  }

  /** Two masks in a row keep what their conjunction keeps. */
  lemma {:induction false} WhereWhere<T(!new)>(s: seq<T>, p: T -> bool, q: T -> bool, both: T -> bool)
    requires forall x :: both(x) == (p(x) && q(x))
    ensures Where(Where(s, p), q) == Where(s, both)
  {
    if s != [] {
      WhereWhere(s[1..], p, q, both);
      if p(s[0]) {
        var w := Where(s, p);
        assert w[0] == s[0] && w[1..] == Where(s[1..], p);
      }
    }
  }

  lemma {:induction false} SubsequenceOfSelf<T>(a: seq<T>)
    ensures Subsequence(a, a)
    decreases |a|
  {
    if a != [] {
      SubsequenceOfSelf(a[1..]);
    }
  }

  lemma {:induction false} SubsequenceTransitive<T>(a: seq<T>, b: seq<T>, c: seq<T>)
    requires Subsequence(a, b) && Subsequence(b, c)
    ensures Subsequence(a, c)
    decreases |c|
  {
    if a != [] {
      assert b != [] && c != [];
      if b[0] == c[0] && Subsequence(b[1..], c[1..]) {
        if a[0] == b[0] && Subsequence(a[1..], b[1..]) {
          SubsequenceTransitive(a[1..], b[1..], c[1..]);
        } else {
          SubsequenceTransitive(a, b[1..], c[1..]);
        }
      } else {
        SubsequenceTransitive(a, b, c[1..]);
      }
    }
  }
}
