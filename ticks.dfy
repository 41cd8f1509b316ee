/** The data side of CreateCORVISPlot: the leading date columns skipped
    below a start threshold, the spacing of the x-axis ticks, and which
    columns get a tick: every `tickSkip`-th day on a day-zero table, and
    chosen days of the month on a calendar table. */
module Ticks {
  import opened Frames
  import opened Schema
  import opened Strings

  /** What the plot is drawn from: the plotted columns and each row's cells
      in them, the tick positions and their labels, and the axis titles. */
  datatype Plot = Plot(
    dates: seq<Label>,
    series: seq<seq<Cell>>,
    tickPoints: seq<nat>,
    tickLabels: seq<Label>,
    xLabel: string,
    yLabel: string)

  // ---------------------------------------------------------------------
  // The start threshold

  /** A cell below the threshold; a missing cell never is (NaN < x is false). */
  predicate Below(c: Cell, threshold: real) {
    c.Some? && c.value < threshold
  }

  /** Column c is below the threshold in every row. */
  predicate ColumnBelow(t: Table, c: nat, threshold: real)
    requires Rectangular(t) && c < |t.dates|
  {
    forall i :: 0 <= i < |t.rows| ==> Below(t.rows[i].cells[c], threshold)
  }

  /** The first column, from `from` on, that is not below the threshold in
      every row; |t.dates| when there is none. */
  function FirstPlotted(t: Table, threshold: real, from: nat): (c: nat)
    requires Rectangular(t) && from <= |t.dates|
    ensures from <= c <= |t.dates|
    ensures forall k :: from <= k < c ==> ColumnBelow(t, k, threshold)
    ensures c < |t.dates| ==> !ColumnBelow(t, c, threshold)
    decreases |t.dates| - from
  {
    if from < |t.dates| && ColumnBelow(t, from, threshold) then FirstPlotted(t, threshold, from + 1) else from
  }

  /** The source's loop: drop the first column while every row is below the
      threshold there. `start` counts the columns dropped. */
  method SkipBelow(t: Table, threshold: real) returns (start: nat)
    requires Rectangular(t)
    ensures start == FirstPlotted(t, threshold, 0)
  {
    start := 0;
    while start < |t.dates| && ColumnBelow(t, start, threshold)
      invariant start <= |t.dates|
      invariant FirstPlotted(t, threshold, start) == FirstPlotted(t, threshold, 0)
      decreases |t.dates| - start
    {
      start := start + 1;
    }
  }

  // ---------------------------------------------------------------------
  // Tick spacing and day-zero ticks

  /** The tick spacing for a plot of `days` columns. */
  function TickInterval(days: nat): (s: nat)
    ensures s > 0
  {
    if days > 180 then 90
    else if days > 60 then 15
    else if days > 20 then 7
    else 1
  }

  /** A longer plot never gets denser ticks. */
  lemma IntervalMonotone(a: nat, b: nat)
    requires a <= b
    ensures TickInterval(a) <= TickInterval(b)
  {
  }

  /** The day-zero ticks: cur, cur + s, cur + 2s, ... below n. */
  function TicksFrom(cur: nat, n: nat, s: nat): (r: seq<nat>)
    requires s > 0
    ensures forall k :: 0 <= k < |r| ==> cur <= r[k] < n
    decreases n - cur
  {
    if cur < n then [cur] + TicksFrom(cur + s, n, s) else []
  }

  /** The ticks are cur, cur + s, cur + 2s, ...: evenly spaced, so they
      increase. */
  lemma {:induction false} TicksSpaced(cur: nat, n: nat, s: nat)
    requires s > 0
    ensures forall j :: 0 <= j < |TicksFrom(cur, n, s)| ==> TicksFrom(cur, n, s)[j] == cur + j * s
    decreases n - cur
  {
    if cur < n {
      TicksSpaced(cur + s, n, s);
      var r := TicksFrom(cur, n, s);
      var rest := TicksFrom(cur + s, n, s);
      forall j | 1 <= j < |r|
        ensures r[j] == cur + j * s
      {
        var i := j - 1;
        assert r[j] == rest[i];
        assert rest[i] == (cur + s) + i * s;
        assert i * s + s == j * s;
      }
    }
  }

  lemma {:induction false} TicksIncrease(cur: nat, n: nat, s: nat)
    requires s > 0
    ensures var r := TicksFrom(cur, n, s); forall a, b :: 0 <= a < b < |r| ==> r[a] < r[b]
    decreases n - cur
  {
    if cur < n {
      TicksIncrease(cur + s, n, s);
      var r := TicksFrom(cur, n, s);
      assert forall b :: 1 <= b < |r| ==> r[b] == TicksFrom(cur + s, n, s)[b - 1];
    }
  }

  /** The last tick lies below n and the next one would not. */
  lemma {:induction false} TicksCount(cur: nat, n: nat, s: nat)
    requires s > 0
    ensures cur < n ==> (|TicksFrom(cur, n, s)| - 1) * s < n - cur <= |TicksFrom(cur, n, s)| * s
    ensures cur >= n ==> TicksFrom(cur, n, s) == []
    decreases n - cur
  {
    if cur < n {
      TicksCount(cur + s, n, s);
      var m := |TicksFrom(cur + s, n, s)|;
      assert (m + 1) * s == m * s + s;
      if cur + s < n {
        assert (m - 1) * s + s == m * s;
      }
    }
  }

  /** A day-zero plot of up to 180 days gets at most 20 ticks. */
  lemma DayTicksReadable(n: nat)
    requires n <= 180
    ensures |TicksFrom(0, n, TickInterval(n))| <= 20
  {
    TicksCount(0, n, TickInterval(n));
  }

  /** The labels of the tick columns. */
  function LabelsAt(dates: seq<Label>, points: seq<nat>): (labels: seq<Label>)
    requires forall k :: 0 <= k < |points| ==> points[k] < |dates|
    ensures |labels| == |points| && forall k :: 0 <= k < |points| ==> labels[k] == dates[points[k]]
  {
    seq(|points|, k requires 0 <= k < |points| => dates[points[k]])
  }

  /** The source's day-zero loop: a tick every s columns from the first. */
  method DayTicks(dates: seq<Label>, s: nat) returns (points: seq<nat>, labels: seq<Label>)
    requires s > 0
    ensures points == TicksFrom(0, |dates|, s)
    ensures labels == LabelsAt(dates, points)
  {
    points, labels := [], [];
    var current := 0;
    while current < |dates|
      invariant points + TicksFrom(current, |dates|, s) == TicksFrom(0, |dates|, s)
      invariant forall k :: 0 <= k < |points| ==> points[k] < |dates|
      invariant |labels| == |points|
      invariant forall k :: 0 <= k < |points| ==> labels[k] == dates[points[k]]
      decreases |dates| - current
    {
      assert TicksFrom(current, |dates|, s) == [current] + TicksFrom(current + s, |dates|, s);
      assert points + TicksFrom(current, |dates|, s) == (points + [current]) + TicksFrom(current + s, |dates|, s);
      points := points + [current];
      labels := labels + [dates[current]];
      current := current + s;
    }
  }

  // ---------------------------------------------------------------------
  // Calendar ticks

  const WeeklyDays: seq<string> := ["1", "8", "15", "22"]
  const FortnightlyDays: seq<string> := ["1", "15"]
  const QuarterMonths: string := "1,4,7,10"

  /** Whether a calendar column gets a tick at spacing s. Spacing 1 ticks
      every column; the others read the day (and, at 90, the month) from the
      "M/D/YY" label, and a label without a day fails as the source's
      `split('/')[1]` does. */
  function Marked(column: Label, s: nat): Result<bool> {
    if s == 1 then Ok(true)
    else if !column.Name? then Err(LabelWithoutDay(column))
    else
      var parts := Split(column.text, '/');
      if |parts| < 2 then Err(LabelWithoutDay(column))
      else if s == 7 then Ok(parts[1] in WeeklyDays)
      else if s == 15 then Ok(parts[1] in FortnightlyDays)
      else if s == 90 then Ok(parts[1] == "1" && IsSubstring(parts[0], QuarterMonths))
      else Ok(false)
  }

  /** The calendar ticks among the first n columns, or the first label the
      test fails on. */
  function CalendarUpTo(dates: seq<Label>, s: nat, n: nat): (r: Result<seq<nat>>)
    requires n <= |dates|
    ensures r.Ok? ==> forall k :: 0 <= k < |r.value| ==> r.value[k] < n
  {
    if n == 0 then Ok([])
    else
      match CalendarUpTo(dates, s, n - 1)
      case Err(e) => Err(e)
      case Ok(front) =>
        match Marked(dates[n - 1], s)
        case Err(e) => Err(e)
        case Ok(tick) => Ok(if tick then front + [n - 1] else front)
  }

  /** A column is a tick exactly when its label is marked; the ticks
      increase; the scan fails exactly when some label cannot be read. */
  lemma {:induction false} CalendarMembers(dates: seq<Label>, s: nat, n: nat)
    requires n <= |dates|
    ensures var r := CalendarUpTo(dates, s, n);
      && (r.Err? <==> exists k :: 0 <= k < n && Marked(dates[k], s).Err?)
      && (r.Ok? ==> forall k :: k in r.value <==> 0 <= k < n && Marked(dates[k], s) == Ok(true))
      && (r.Ok? ==> forall a, b :: 0 <= a < b < |r.value| ==> r.value[a] < r.value[b])
  {
    if n > 0 {
      CalendarMembers(dates, s, n - 1);
    }
  }

  /** The source's calendar loop, one column at a time. */
  method CalendarTicks(dates: seq<Label>, s: nat) returns (r: Result<seq<nat>>, labels: seq<Label>)
    ensures r == CalendarUpTo(dates, s, |dates|)
    ensures r.Ok? ==> labels == LabelsAt(dates, r.value)
  {
    var points: seq<nat> := [];
    labels := [];
    var current := 0;
    while current < |dates|
      invariant current <= |dates|
      invariant CalendarUpTo(dates, s, current) == Ok(points)
      invariant labels == LabelsAt(dates, points)
    {
      var tick := Marked(dates[current], s);
      if tick.Err? {
        assert CalendarUpTo(dates, s, current + 1) == Err(tick.error);
        ErrorPersists(dates, s, current + 1, |dates|);
        return Err(tick.error), labels;
      }
      if tick.value {
        points := points + [current];
        labels := labels + [dates[current]];
      }
      current := current + 1;
    }
    r := Ok(points);
  }

  /** Once the scan fails it stays failed with the same error. */
  lemma {:induction false} ErrorPersists(dates: seq<Label>, s: nat, m: nat, n: nat)
    requires m <= n <= |dates| && CalendarUpTo(dates, s, m).Err?
    ensures CalendarUpTo(dates, s, n) == CalendarUpTo(dates, s, m)
    decreases n - m
  {
    if m < n {
      ErrorPersists(dates, s, m, n - 1);
    }
  }

  // ---------------------------------------------------------------------
  // Date labels

  /** The "M/D/YY" label of a date. */
  function DateLabel(month: nat, day: nat, year: nat): Label {
    Name(NumberText(month) + "/" + NumberText(day) + "/" + NumberText(year))
  }


  lemma DateLabelParts(month: nat, day: nat, year: nat)
    ensures Split(DateLabel(month, day, year).text, '/') == [NumberText(month), NumberText(day), NumberText(year)]
  {
    var m, d, y := NumberText(month), NumberText(day), NumberText(year);
    DigitsNoSlash(m);
    DigitsNoSlash(d);
    DigitsNoSlash(y);
    SplitThree(m, d, y, '/');
  }

  /** The decimal texts of the days the weekly and fortnightly rules name. */
  lemma DayTexts()
    ensures NumberText(1) == "1" && NumberText(8) == "8"
    ensures NumberText(15) == "15" && NumberText(22) == "22"
  {
    assert NumberText(15) == NumberText(1) + [DigitChar(5)];
    assert NumberText(22) == NumberText(2) + [DigitChar(2)];
  }

  /** The day text is in a list of day texts exactly when the day is one of
      their numbers. */
  lemma DayIn(day: nat)
    ensures NumberText(day) in WeeklyDays <==> day == 1 || day == 8 || day == 15 || day == 22
    ensures NumberText(day) in FortnightlyDays <==> day == 1 || day == 15
    ensures NumberText(day) == "1" <==> day == 1
  {
    DayTexts();
    NumberTextInjective(day, 1);
    NumberTextInjective(day, 8);
    NumberTextInjective(day, 15);
    NumberTextInjective(day, 22);
  }

  /** Of the twelve months, the quarter test `month in '1,4,7,10'` (a
      substring test in the source) admits exactly January, April, July and
      October. */
  lemma QuarterMonth(month: nat)
    requires 1 <= month <= 12
    ensures IsSubstring(NumberText(month), QuarterMonths) <==> month == 1 || month == 4 || month == 7 || month == 10
  {
    if month < 10 {
      assert NumberText(month) == [DigitChar(month)];
      OneCharIn(DigitChar(month));
      DigitIn(month);
    } else {
      assert NumberText(month) == ['1', DigitChar(month - 10)];
      TwoCharIn(DigitChar(month - 10));
    }
  }

  lemma DigitIn(d: nat)
    requires d < 10
    ensures DigitChar(d) in QuarterMonths <==> d == 0 || d == 1 || d == 4 || d == 7
  {
    assert QuarterMonths == ['1', ',', '4', ',', '7', ',', '1', '0'];
  }

  lemma OneCharIn(c: char)
    ensures IsSubstring([c], QuarterMonths) <==> c in QuarterMonths
  {
    var q := QuarterMonths;
    if c in q {
      var i :| 0 <= i < |q| && q[i] == c;
      assert [c] <= q[i..];
    }
    if IsSubstring([c], q) {
      var i :| 0 <= i <= |q| - 1 && [c] <= q[i..];
      assert q[i] == c;
    }
  }

  lemma TwoCharIn(c: char)
    ensures IsSubstring(['1', c], QuarterMonths) <==> c == '0' || c == ','
  {
    var q := QuarterMonths;
    assert q == ['1', ',', '4', ',', '7', ',', '1', '0'];
    if c == '0' {
      assert ['1', c] <= q[6..];
    } else if c == ',' {
      assert ['1', c] <= q[0..];
    }
    if IsSubstring(['1', c], q) {
      var i :| 0 <= i <= |q| - 2 && ['1', c] <= q[i..];
      assert q[i] == '1' && q[i + 1] == c;
    }
  }

  /** On a real date the tick rules read as intended: weekly ticks on the
      1st, 8th, 15th and 22nd, fortnightly ticks on the 1st and 15th, and
      quarterly ticks on the first of January, April, July and October. */
  lemma DateTicks(month: nat, day: nat, year: nat)
    requires 1 <= month <= 12
    ensures Marked(DateLabel(month, day, year), 7) == Ok(day == 1 || day == 8 || day == 15 || day == 22)
    ensures Marked(DateLabel(month, day, year), 15) == Ok(day == 1 || day == 15)
    ensures Marked(DateLabel(month, day, year), 90) ==
      Ok(day == 1 && (month == 1 || month == 4 || month == 7 || month == 10))
  {
    DateLabelParts(month, day, year);
    DayIn(day);
    QuarterMonth(month);
  }

  // ---------------------------------------------------------------------
  // The plot

  /** The plotted part of the table: the date columns from `start` on. */
  function Series(t: Table, start: nat): (series: seq<seq<Cell>>)
    requires Rectangular(t) && start <= |t.dates|
    ensures |series| == |t.rows|
  {
    seq(|t.rows|, i requires 0 <= i < |t.rows| => t.rows[i].cells[start..])
  }

  /** What CreateCORVISPlot draws, or the error it stops with. */
  function PlotOf(t: Table, threshold: Option<real>, xLabel: Option<string>, yLabel: Option<string>): Result<Plot>
    requires Rectangular(t)
  {
    var check := FrameCheck(t);
    if check.Fail? then Err(check.error)
    else
      var start := if threshold.Some? then FirstPlotted(t, threshold.value, 0) else 0;
      if start == |t.dates| then Err(NoColumnsLeft)
      else
        var dates := t.dates[start..];
        var s := TickInterval(|dates|);
        var y := if yLabel.Some? then yLabel.value else "Cases";
        if t.hasDayZero then
          var points := TicksFrom(0, |dates|, s);
          var x := if xLabel.Some? then xLabel.value else "Days since day zero";
          Ok(Plot(dates, Series(t, start), points, LabelsAt(dates, points), x, y))
        else
          match CalendarUpTo(dates, s, |dates|)
          case Err(e) => Err(e)
          case Ok(points) =>
            var x := if xLabel.Some? then xLabel.value else "Date";
            Ok(Plot(dates, Series(t, start), points, LabelsAt(dates, points), x, y))
  }

  /** CreateCORVISPlot up to the drawing calls. */
  method CreatePlot(t: Table, threshold: Option<real>, xLabel: Option<string>, yLabel: Option<string>)
    returns (r: Result<Plot>)
    requires Rectangular(t)
    ensures r == PlotOf(t, threshold, xLabel, yLabel)
  {
    var check := Verify(Header(t), |t.rows|);
    if check.Fail? {
      return Err(check.error);
    }
    if t.dates == [] {
      return Err(MissingColumns);
    }
    var start := 0;
    if threshold.Some? {
      start := SkipBelow(t, threshold.value);
    }
    if start == |t.dates| {
      return Err(NoColumnsLeft);
    }
    var dates := t.dates[start..];
    var y := if yLabel.Some? then yLabel.value else "Cases";
    var s := TickInterval(|dates|);
    if t.hasDayZero {
      var x := if xLabel.Some? then xLabel.value else "Days since day zero";
      var points, labels := DayTicks(dates, s);
      return Ok(Plot(dates, Series(t, start), points, labels, x, y));
    }
    var x := if xLabel.Some? then xLabel.value else "Date";
    var ticks, labels := CalendarTicks(dates, s);
    if ticks.Err? {
      return Err(ticks.error);
    }
    return Ok(Plot(dates, Series(t, start), ticks.value, labels, x, y));
  }

  /** With a start threshold the plot begins at the first column where some
      row is not below it (a missing cell counts as not below); every column
      skipped is below it in every row. Without one nothing is skipped. */
  lemma PlotStart(t: Table, threshold: Option<real>, xLabel: Option<string>, yLabel: Option<string>)
    requires Rectangular(t) && PlotOf(t, threshold, xLabel, yLabel).Ok?
    ensures var p := PlotOf(t, threshold, xLabel, yLabel).value; var start := |t.dates| - |p.dates|;
      && 0 <= start < |t.dates|
      && p.dates == t.dates[start..]
      && |p.series| == |t.rows|
      && (forall i :: 0 <= i < |t.rows| ==> p.series[i] == t.rows[i].cells[start..])
      && (threshold.None? ==> start == 0)
      && (threshold.Some? ==>
            && (forall k :: 0 <= k < start ==> ColumnBelow(t, k, threshold.value))
            && exists i :: 0 <= i < |t.rows| && !Below(t.rows[i].cells[start], threshold.value))
  {
  }

  /** The ticks of a day-zero plot are the columns at a multiple of the
      spacing; those of a calendar plot the columns whose label is marked.
      Either way they increase and each is labelled with its column. */
  lemma PlotTicks(t: Table, threshold: Option<real>, xLabel: Option<string>, yLabel: Option<string>)
    requires Rectangular(t) && PlotOf(t, threshold, xLabel, yLabel).Ok?
    ensures var p := PlotOf(t, threshold, xLabel, yLabel).value; var s := TickInterval(|p.dates|);
      && |p.tickLabels| == |p.tickPoints|
      && (forall k :: 0 <= k < |p.tickPoints| ==>
            p.tickPoints[k] < |p.dates| && p.tickLabels[k] == p.dates[p.tickPoints[k]])
      && (forall a, b :: 0 <= a < b < |p.tickPoints| ==> p.tickPoints[a] < p.tickPoints[b])
      && (t.hasDayZero ==> forall j :: 0 <= j < |p.tickPoints| ==> p.tickPoints[j] == j * s)
      && (t.hasDayZero ==> (|p.tickPoints| - 1) * s < |p.dates| <= |p.tickPoints| * s)
      && (!t.hasDayZero ==> forall k :: k in p.tickPoints <==> 0 <= k < |p.dates| && Marked(p.dates[k], s) == Ok(true))
  {
    var p := PlotOf(t, threshold, xLabel, yLabel).value;
    var s := TickInterval(|p.dates|);
    if t.hasDayZero {
      TicksSpaced(0, |p.dates|, s);
      TicksIncrease(0, |p.dates|, s);
      TicksCount(0, |p.dates|, s);
    } else {
      CalendarMembers(p.dates, s, |p.dates|);
    }
  }

  /** A calendar plot fails on its labels only when a plotted column has a
      label without a day and the spacing is not 1. */
  lemma PlotLabelErrors(t: Table, threshold: Option<real>, xLabel: Option<string>, yLabel: Option<string>)
    requires Rectangular(t) && FrameCheck(t) == Pass
    requires PlotOf(t, threshold, xLabel, yLabel).Err?
    ensures var e := PlotOf(t, threshold, xLabel, yLabel).error;
      e == NoColumnsLeft || (!t.hasDayZero && e.LabelWithoutDay? && e.column in t.dates)
  {
    var start := if threshold.Some? then FirstPlotted(t, threshold.value, 0) else 0;
    if start < |t.dates| && !t.hasDayZero {
      var dates := t.dates[start..];
      CalendarMembers(dates, TickInterval(|dates|), |dates|);
      var k :| 0 <= k < |dates| && Marked(dates[k], TickInterval(|dates|)).Err?;
      CalendarErrorAt(dates, TickInterval(|dates|), |dates|);
    }
  }

  /** The scan's error is the error of one of the labels it read. */
  lemma {:induction false} CalendarErrorAt(dates: seq<Label>, s: nat, n: nat)
    requires n <= |dates| && CalendarUpTo(dates, s, n).Err?
    ensures exists k :: 0 <= k < n && CalendarUpTo(dates, s, n).error == LabelWithoutDay(dates[k])
  {
    if CalendarUpTo(dates, s, n - 1).Err? {
      CalendarErrorAt(dates, s, n - 1);
    } else {
      assert Marked(dates[n - 1], s).Err?;
    }
  }
}
