/** The schema check every operation starts with, and the search for the
    first date column (the "breakpoint"). */
module Schema {
  import opened Frames

  predicate InNames(c: Label, names: seq<string>) {
    c.Name? && c.text in names
  }

  /** The least index whose label is outside `names`, or -1 if there is none. */
  function FirstOutside(cols: seq<Label>, names: seq<string>): (i: int)
    ensures -1 <= i < |cols|
    ensures i == -1 ==> forall k :: 0 <= k < |cols| ==> InNames(cols[k], names)
    ensures 0 <= i ==> !InNames(cols[i], names)
    ensures 0 <= i ==> forall k :: 0 <= k < i ==> InNames(cols[k], names)
  {
    if cols == [] then -1
    else if !InNames(cols[0], names) then 0
    else
      var j := FirstOutside(cols[1..], names);
      if j == -1 then -1 else j + 1
  }

  /** The index of the first column that is not a prefix column, or -1. */
  function BreakPoint(cols: seq<Label>): (i: int)
    ensures -1 <= i < |cols|
    ensures i == -1 <==> forall k :: 0 <= k < |cols| ==> InNames(cols[k], BreakpointNames)
    ensures 0 <= i ==> !InNames(cols[i], BreakpointNames)
    ensures 0 <= i ==> forall k :: 0 <= k < i ==> InNames(cols[k], BreakpointNames)
  {
    FirstOutside(cols, BreakpointNames)
  }

  /** What the schema check decides for a header and a row count. The baseline
      counter starts at eight and drops by one per baseline-named column, so the
      check passes exactly when at least eight baseline-named columns precede
      the first other column. */
  function SchemaVerdict(cols: seq<Label>, rowCount: nat): Check {
    if rowCount == 0 then Fail(EmptyFrame)
    else
      var i := FirstOutside(cols, Baseline);
      if i == -1 then Fail(MissingColumns)
      else if i < |Baseline| then Fail(UnexpectedColumn(cols[i]))
      else Pass
  }

  /** The schema check as the source runs it: a counter of baseline columns
      still needed, and a scan that stops at the first other column. */
  method Verify(cols: seq<Label>, rowCount: nat) returns (r: Check)
    ensures r == SchemaVerdict(cols, rowCount)
  {
    if rowCount == 0 {
      return Fail(EmptyFrame);
    }
    var necessary: int := |Baseline|;
    for k := 0 to |cols|
      invariant forall j :: 0 <= j < k ==> InNames(cols[j], Baseline)
      invariant necessary == |Baseline| - k
    {
      if InNames(cols[k], Baseline) {
        necessary := necessary - 1;
      } else if necessary <= 0 {
        return Pass;
      } else {
        return Fail(UnexpectedColumn(cols[k]));
      }
    }
    return Fail(MissingColumns);
  }

  /** The schema check, plus the model's refusal of a table without any date
      column (only a day-zero table can pass the check without one). */
  function FrameCheck(t: Table): (c: Check)
    ensures c.Fail? ==> c.error.EmptyFrame? || c.error.UnexpectedColumn? || c.error.MissingColumns?
  {
    var v := SchemaVerdict(Header(t), |t.rows|);
    if v.Fail? then v else if t.dates == [] then Fail(MissingColumns) else Pass
  }

  /** FrameCheck departs from the source's check on exactly one kind of
      table: one with a row and a DayZero column but no date column, which
      the check passes and FrameCheck refuses as missing columns. */
  lemma FrameCheckExtraRefusal(t: Table)
    ensures FrameCheck(t) != SchemaVerdict(Header(t), |t.rows|) <==>
      |t.rows| > 0 && t.hasDayZero && t.dates == []
    ensures FrameCheck(t) != SchemaVerdict(Header(t), |t.rows|) ==>
      SchemaVerdict(Header(t), |t.rows|) == Pass && FrameCheck(t) == Fail(MissingColumns)
  {
    if t.dates == [] {
      HeaderVerdict(t);
    }
  }

  /** The check passes iff there is a row and the first non-baseline column
      exists and comes after at least eight baseline-named columns. */
  lemma VerdictPassIff(cols: seq<Label>, rowCount: nat)
    ensures SchemaVerdict(cols, rowCount) == Pass <==>
      rowCount > 0 &&
      exists i :: |Baseline| <= i < |cols| && !InNames(cols[i], Baseline) &&
        forall k :: 0 <= k < i ==> InNames(cols[k], Baseline)
  {
    var i := FirstOutside(cols, Baseline);
    if rowCount > 0 && SchemaVerdict(cols, rowCount) == Pass {
      assert |Baseline| <= i < |cols| && !InNames(cols[i], Baseline);
    }
  }

  /** Skipping a prefix whose labels are all among the names. */
  lemma {:induction false} FirstOutsideAfter(p: seq<Label>, d: seq<Label>, names: seq<string>)
    requires forall k :: 0 <= k < |p| ==> InNames(p[k], names)
    requires d != [] && !InNames(d[0], names)
    ensures FirstOutside(p + d, names) == |p|
  {
    if p != [] {
      assert (p + d)[1..] == p[1..] + d;
      FirstOutsideAfter(p[1..], d, names);
    } else {
      assert p + d == d;
    }
  }

  lemma {:induction false} FirstOutsideNone(p: seq<Label>, names: seq<string>)
    requires forall k :: 0 <= k < |p| ==> InNames(p[k], names)
    ensures FirstOutside(p, names) == -1
  {
    if p != [] {
      FirstOutsideNone(p[1..], names);
    }
  }

  /** The header of a well-formed table: the check passes iff the table has a
      row and some column after the baseline ones; the breakpoint is the width
      of the prefix, or -1 when there is no date column. */
  lemma HeaderVerdict(t: Table)
    requires DatesAreData(t)
    ensures SchemaVerdict(Header(t), |t.rows|) ==
      if |t.rows| == 0 then Fail(EmptyFrame)
      else if !t.hasDayZero && t.dates == [] then Fail(MissingColumns)
      else Pass
    ensures BreakPoint(Header(t)) == if t.dates == [] then -1 else |PrefixLabels(t.hasDayZero)|
  {
    BaselineVerdict(t);
    PrefixBreakPoint(t);
  }

  lemma BaselineVerdict(t: Table)
    requires DatesAreData(t)
    ensures FirstOutside(Header(t), Baseline) == if !t.hasDayZero && t.dates == [] then -1 else 8
  {
    var base := PrefixLabels(false);
    assert forall k :: 0 <= k < 8 ==> InNames(base[k], Baseline);
    if t.hasDayZero {
      assert Header(t) == base + ([Name("DayZero")] + t.dates);
      FirstOutsideAfter(base, [Name("DayZero")] + t.dates, Baseline);
    } else if t.dates != [] {
      assert !InNames(t.dates[0], BreakpointNames);
      FirstOutsideAfter(base, t.dates, Baseline);
    } else {
      assert Header(t) == base;
      FirstOutsideNone(base, Baseline);
    }
  }

  lemma PrefixBreakPoint(t: Table)
    requires DatesAreData(t)
    ensures BreakPoint(Header(t)) == if t.dates == [] then -1 else |PrefixLabels(t.hasDayZero)|
  {
    var p := PrefixLabels(t.hasDayZero);
    assert forall k :: 0 <= k < |p| ==> InNames(p[k], BreakpointNames);
    if t.dates != [] {
      assert !InNames(t.dates[0], BreakpointNames);
      FirstOutsideAfter(p, t.dates, BreakpointNames);
    } else {
      assert Header(t) == p;
      FirstOutsideNone(p, BreakpointNames);
    }
  }
}
