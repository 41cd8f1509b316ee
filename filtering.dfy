/** FilterCORVISData: argument resolution and validation, the `!` negation
    split, the filter chain (coarsest level first), aggregation, source
    combination and the final trim of trailing columns. */
module Filtering {
  import opened Frames
  import opened Schema
  import opened Aggregation
  import opened Trimming

  /** A country, state or county argument: not given, one name, or a list. */
  datatype NamesArg = Unset | Text(text: string) | Names(names: seq<string>)

  /** The metric argument: not given (every metric), a bare string, or a
      list of metric names (enumerated values stand for their names). */
  datatype MetricArg = NoMetric | BareMetric(text: string) | Metrics(items: seq<string>)

  /** The arguments of FilterCORVISData; `aggregateBy` and `combine` are None
      when not given (the enumerated NONE and COUNTY values stand for None). */
  datatype Query = Query(
    country: NamesArg,
    state: NamesArg,
    county: NamesArg,
    region: NamesArg,
    province: NamesArg,
    aggregateBy: Option<string>,
    metric: MetricArg,
    filterMissingPopulation: bool,
    sourceData: string,
    combine: Option<string>,
    allowStateCodes: bool)

  const AllDatasources: string := "All Datasources"

  const AcceptedMetrics: seq<string> := ["Confirmed", "Death", "Recovered", "all"]

  /** The resolved selection criteria, after the `!` split and the state-code
      lookup. */
  datatype Criteria = Criteria(
    country: seq<string>,
    state: seq<string>,
    county: seq<string>,
    notCountry: seq<string>,
    notState: seq<string>,
    notCounty: seq<string>,
    positivePopulation: bool,
    metrics: seq<string>,
    source: string)

  /** Everything the validations settle: what to select, and how to aggregate
      and combine afterwards. */
  datatype Plan = Plan(criteria: Criteria, level: Option<Level>, reducer: Option<Reducer>)

  // ---------------------------------------------------------------------
  // Argument resolution and validation

  /** A single string becomes a one-item list, [""] becomes [], and an
      argument not given becomes []. */
  function AsList(a: NamesArg): (l: seq<string>)
    ensures a.Names? && a.names != [""] ==> l == a.names
    ensures a.Text? && a.text != "" ==> l == [a.text]
    ensures a.Unset? || a == Text("") || a == Names([""]) ==> l == []
  {
    match a
    case Unset => []
    case Text(s) => if s == "" then [] else [s]
    case Names(l) => if l == [""] then [] else l
  }

  /** `region` stands in for `country` when only it is given. */
  function CountryArg(q: Query): NamesArg {
    if q.region != Unset then q.region else q.country
  }

  /** `province` stands in for `state` when only it is given. */
  function StateArg(q: Query): NamesArg {
    if q.province != Unset then q.province else q.state
  }

  /** `items[k]`, equal to `x`, is the first item outside the accepted names. */
  predicate FirstRejectedAt(items: seq<string>, k: nat, x: string)
    requires k < |items|
  {
    items[k] == x && x !in AcceptedMetrics && forall m :: 0 <= m < k ==> items[m] in AcceptedMetrics
  }

  /** The first metric name the validation loop rejects, if any. */
  function FirstRejected(items: seq<string>): (r: Option<string>)
    ensures r.None? <==> forall k :: 0 <= k < |items| ==> items[k] in AcceptedMetrics
    ensures r.Some? ==> exists k :: 0 <= k < |items| && FirstRejectedAt(items, k, r.value)
  {
    if items == [] then None
    else if items[0] !in AcceptedMetrics then
      assert FirstRejectedAt(items, 0, items[0]);
      Some(items[0])
    else
      var rest := FirstRejected(items[1..]);
      if rest.Some? then
        ghost var k :| 0 <= k < |items[1..]| && FirstRejectedAt(items[1..], k, rest.value);
        assert FirstRejectedAt(items, k + 1, rest.value);
        rest
      else rest
  }

  /** The metric validation: each item must be an accepted name. A bare
      string is walked character by character, so a non-empty one is always
      rejected on its first character; an empty one passes here. */
  function MetricCheck(m: MetricArg): (c: Check)
    ensures m.NoMetric? ==> c == Pass
    ensures m.BareMetric? ==> (c == Pass <==> m.text == "")
    ensures m.Metrics? ==> (c == Pass <==> forall k :: 0 <= k < |m.items| ==> m.items[k] in AcceptedMetrics)
    ensures c.Fail? ==> c.error.BadMetric?
  {
    match m
    case NoMetric => Pass
    case BareMetric(s) =>
      if s == "" then Pass
      else
        assert [s[0]] != "Confirmed" && [s[0]] != "Death" && [s[0]] != "Recovered" && [s[0]] != "all";
        Fail(BadMetric([s[0]]))
    case Metrics(items) =>
      var bad := FirstRejected(items);
      if bad.Some? then Fail(BadMetric(bad.value)) else Pass
  }

  /** The metric list the filter chain compares with. */
  function MetricsOf(m: MetricArg): seq<string> {
    match m
    case NoMetric => ["all"]
    case BareMetric(s) => [s]
    case Metrics(items) => items
  }

  function LevelOf(a: Option<string>): (r: Result<Option<Level>>)
    ensures r.Ok? <==> a.None? || a.value in ["global", "country", "state"]
    ensures r.Err? ==> r.error == BadAggregation(a.value)
  {
    match a
    case None => Ok(None)
    case Some(s) =>
      if s == "global" then Ok(Some(GlobalLevel))
      else if s == "country" then Ok(Some(CountryLevel))
      else if s == "state" then Ok(Some(StateLevel))
      else Err(BadAggregation(s))
  }

  function ReducerOf(a: Option<string>): (r: Result<Option<Reducer>>)
    ensures r.Ok? <==> a.None? || a.value in ["min", "max", "mean"]
    ensures r.Err? ==> r.error == BadCombination(a.value)
  {
    match a
    case None => Ok(None)
    case Some(s) =>
      if s == "min" then Ok(Some(MinOf))
      else if s == "max" then Ok(Some(MaxOf))
      else if s == "mean" then Ok(Some(MeanOf))
      else Err(BadCombination(s))
  }

  // ---------------------------------------------------------------------
  // The `!` split and the state-code lookup

  predicate Negated(x: string) {
    x != "" && x[0] == '!'
  }

  /** The items kept as inclusions: non-empty and not starting with '!'. */
  function Positives(items: seq<string>): (pos: seq<string>)
    ensures |pos| <= |items|
    ensures forall x :: x in pos <==> x in items && x != "" && !Negated(x)
  {
    if items == [] then []
    else
      var rest := Positives(items[1..]);
      assert forall x :: x in items <==> x == items[0] || x in items[1..];
      if items[0] != "" && !Negated(items[0]) then [items[0]] + rest else rest
  }

  /** The exclusions: the items starting with '!', with the '!' removed. */
  function Negatives(items: seq<string>): (neg: seq<string>)
    ensures |neg| <= |items|
    ensures forall y :: y in neg <==> "!" + y in items
  {
    if items == [] then []
    else
      var rest := Negatives(items[1..]);
      assert forall x :: x in items <==> x == items[0] || x in items[1..];
      if Negated(items[0]) then
        UnNegate(items[0]);
        [items[0][1..]] + rest
      else
        NotNegation(items[0]);
        rest
  }

  lemma UnNegate(x: string)
    requires Negated(x)
    ensures forall y :: "!" + y == x <==> y == x[1..]
  {
    assert "!" + x[1..] == x;
    forall y | "!" + y == x
      ensures y == x[1..]
    {
      assert ("!" + y)[1..] == y;
    }
  }

  lemma NotNegation(x: string)
    requires !Negated(x)
    ensures forall y :: "!" + y != x
  {
    forall y
      ensures "!" + y != x
    {
      assert ("!" + y)[0] == '!';
    }
  }

  /** The loop over one filter list: each non-empty item goes to the
      inclusions, or, with its leading '!' removed, to the exclusions. */
  method SplitNegations(items: seq<string>) returns (pos: seq<string>, neg: seq<string>)
    ensures pos == Positives(items) && neg == Negatives(items)
  {
    pos, neg := [], [];
    var k := |items|;
    // The source walks forward appending; walking backward and prepending
    // builds the same lists and matches the definitions' recursion.
    while k > 0
      invariant 0 <= k <= |items|
      invariant pos == Positives(items[k..]) && neg == Negatives(items[k..])
    {
      k := k - 1;
      var item := items[k];
      assert items[k..][1..] == items[k + 1..];
      if |item| > 0 {
        if item[0] != '!' {
          pos := [item] + pos;
        } else {
          neg := [item[1..]] + neg;
        }
      }
    }
    assert items[0..] == items;
  }

  /** A state name after the lookup: its canonical name when the lookup
      knows it, the name unchanged otherwise. */
  function StateName(x: string, lookup: string -> Option<string>): string {
    if lookup(x).Some? then lookup(x).value else x
  }

  function Normalized(names: seq<string>, lookup: string -> Option<string>): (r: seq<string>)
    ensures |r| == |names|
  {
    seq(|names|, i requires 0 <= i < |names| => StateName(names[i], lookup))
  }

  /** The in-place rewrite of a state list through the lookup. */
  method NormalizeStates(names: seq<string>, lookup: string -> Option<string>) returns (r: seq<string>)
    ensures r == Normalized(names, lookup)
  {
    r := names;
    for i := 0 to |r|
      invariant |r| == |names|
      invariant forall k :: 0 <= k < i ==> r[k] == StateName(names[k], lookup)
      invariant forall k :: i <= k < |r| ==> r[k] == names[k]
    {
      if lookup(r[i]).Some? {
        r := r[i := lookup(r[i]).value];
      }
    }
  }

  /** A lookup that gives every canonical name back unchanged makes the
      rewrite idempotent: names already rewritten stay as they are. */
  lemma NormalizedIdempotent(names: seq<string>, lookup: string -> Option<string>)
    requires forall x :: lookup(x).Some? ==> lookup(lookup(x).value) == lookup(x)
    ensures Normalized(Normalized(names, lookup), lookup) == Normalized(names, lookup)
  {
    var once := Normalized(names, lookup);
    forall i | 0 <= i < |names|
      ensures StateName(once[i], lookup) == once[i]
    {
      var x := names[i];
      if lookup(x).Some? {
        assert lookup(lookup(x).value) == lookup(x);
      }
    }
  }

  /** The state names the chain compares with, rewritten when state codes
      are allowed. */
  function StateNames(names: seq<string>, q: Query, lookup: string -> Option<string>): seq<string> {
    if q.allowStateCodes then Normalized(names, lookup) else names
  }

  function CriteriaOf(q: Query, lookup: string -> Option<string>): Criteria {
    var countries := AsList(CountryArg(q));
    var states := AsList(StateArg(q));
    var counties := AsList(q.county);
    Criteria(
      Positives(countries),
      StateNames(Positives(states), q, lookup),
      Positives(counties),
      Negatives(countries),
      StateNames(Negatives(states), q, lookup),
      Negatives(counties),
      q.filterMissingPopulation,
      MetricsOf(q.metric),
      q.sourceData)
  }

  // ---------------------------------------------------------------------
  // The filter chain

  /** One step of the chain: a boolean mask over the rows. */
  datatype Stage =
    | InCountry(names: seq<string>)
    | InState(names: seq<string>)
    | InCounty(names: seq<string>)
    | NotCountry(names: seq<string>)
    | NotState(names: seq<string>)
    | NotCounty(names: seq<string>)
    | PositivePopulation
    | OfMetric(names: seq<string>)
    | OfSource(name: string)

  predicate Passes(r: Row, s: Stage) {
    match s
    case InCountry(names) => r.country in names
    case InState(names) => r.state in names
    case InCounty(names) => r.county in names
    case NotCountry(names) => r.country !in names
    case NotState(names) => r.state !in names
    case NotCounty(names) => r.county !in names
    case PositivePopulation => r.population > 0
    case OfMetric(names) => r.metric in names
    case OfSource(name) => r.source == name
  }

  function Mask(s: Stage): Row -> bool {
    (r: Row) => Passes(r, s)
  }

  /** A stage of the chain, or None where the source's `if` skips it. */
  function Gate(active: bool, s: Stage): Option<Stage> {
    if active then Some(s) else None
  }

  /** One `if` of the chain: the mask, when the stage is active. */
  function Step(kept: seq<Row>, step: Option<Stage>): seq<Row> {
    match step
    case None => kept
    case Some(s) => Where(kept, Mask(s))
  }

  /** What one step lets through. */
  predicate Admits(step: Option<Stage>, r: Row) {
    step.Some? ==> Passes(r, step.value)
  }

  /** The nine steps of the chain, in the source's order: country, state and
      county inclusions, the three exclusions, the Population test, Metric
      and Source. A stage whose list is empty (or whose option is off) is
      skipped. */
  function Nested(rows: seq<Row>, c: Criteria): seq<Row> {
    var s0 := Step(rows, Gate(c.country != [], InCountry(c.country)));
    var s1 := Step(s0, Gate(c.state != [], InState(c.state)));
    var s2 := Step(s1, Gate(c.county != [], InCounty(c.county)));
    var s3 := Step(s2, Gate(c.notCountry != [], NotCountry(c.notCountry)));
    var s4 := Step(s3, Gate(c.notState != [], NotState(c.notState)));
    var s5 := Step(s4, Gate(c.notCounty != [], NotCounty(c.notCounty)));
    var s6 := Step(s5, Gate(c.positivePopulation, PositivePopulation));
    var s7 := Step(s6, Gate(c.metrics != ["all"], OfMetric(c.metrics)));
    Step(s7, Gate(c.source != AllDatasources, OfSource(c.source)))
  }

  /** The same nine steps as a sequence, for reasoning about the chain as a
      whole. */
  function Chain(c: Criteria): (chain: seq<Option<Stage>>)
    ensures |chain| == 9
  {
    [ Gate(c.country != [], InCountry(c.country)),
      Gate(c.state != [], InState(c.state)),
      Gate(c.county != [], InCounty(c.county)),
      Gate(c.notCountry != [], NotCountry(c.notCountry)),
      Gate(c.notState != [], NotState(c.notState)),
      Gate(c.notCounty != [], NotCounty(c.notCounty)),
      Gate(c.positivePopulation, PositivePopulation),
      Gate(c.metrics != ["all"], OfMetric(c.metrics)),
      Gate(c.source != AllDatasources, OfSource(c.source)) ]
  }

  ghost predicate PassesAll(r: Row, chain: seq<Option<Stage>>) {
    forall k :: 0 <= k < |chain| ==> Admits(chain[k], r)
  }

  /** The rows left after the steps of `chain`, applied one after the other. */
  function Keep(rows: seq<Row>, chain: seq<Option<Stage>>): seq<Row>
    decreases |chain|
  {
    if chain == [] then rows else Step(Keep(rows, chain[..|chain| - 1]), chain[|chain| - 1])
  }

  lemma KeepPrefix(rows: seq<Row>, chain: seq<Option<Stage>>, k: nat)
    requires k < |chain|
    ensures Keep(rows, chain[..k + 1]) == Step(Keep(rows, chain[..k]), chain[k])
  {
    assert chain[..k + 1][..k] == chain[..k];
  }

  /** A row survives the chain iff it was there and every step admits it. */
  lemma {:induction false} KeepMembers(rows: seq<Row>, chain: seq<Option<Stage>>)
    ensures forall x :: x in Keep(rows, chain) <==> x in rows && PassesAll(x, chain)
    decreases |chain|
  {
    if chain != [] {
      var init := chain[..|chain| - 1];
      KeepMembers(rows, init);
      forall x
        ensures PassesAll(x, chain) <==> PassesAll(x, init) && Admits(chain[|chain| - 1], x)
      {
        assert forall k :: 0 <= k < |init| ==> init[k] == chain[k];
      }
    }
  }

  lemma {:induction false} KeepSubsequence(rows: seq<Row>, chain: seq<Option<Stage>>)
    ensures Subsequence(Keep(rows, chain), rows)
    decreases |chain|
  {
    if chain == [] {
      SubsequenceOfSelf(rows);
    } else {
      var init := chain[..|chain| - 1];
      KeepSubsequence(rows, init);
      match chain[|chain| - 1]
      case None =>
      case Some(s) =>
        WhereSubsequence(Keep(rows, init), Mask(s));
        SubsequenceTransitive(Keep(rows, chain), Keep(rows, init), rows);
    }
  }

  /** A chain of nine steps, written out. */
  lemma KeepNine(rows: seq<Row>, chain: seq<Option<Stage>>)
    requires |chain| == 9
    ensures Keep(rows, chain) ==
      Step(Step(Step(Step(Step(Step(Step(Step(Step(rows, chain[0]), chain[1]), chain[2]), chain[3]), chain[4]), chain[5]), chain[6]), chain[7]), chain[8])
  {
    assert chain[..0] == [];
    KeepPrefix(rows, chain, 0);
    KeepPrefix(rows, chain, 1);
    KeepPrefix(rows, chain, 2);
    KeepPrefix(rows, chain, 3);
    KeepPrefix(rows, chain, 4);
    KeepPrefix(rows, chain, 5);
    KeepPrefix(rows, chain, 6);
    KeepPrefix(rows, chain, 7);
    KeepPrefix(rows, chain, 8);
    assert chain[..9] == chain;
  }

  /** The rows the chain keeps. */
  function Select(rows: seq<Row>, c: Criteria): seq<Row> {
    Keep(rows, Chain(c))
  }

  /** The nested steps are the chain applied step by step. */
  lemma NestedIsSelect(rows: seq<Row>, c: Criteria)
    ensures Nested(rows, c) == Select(rows, c)
  {
    KeepNine(rows, Chain(c));
  }

  /** The selection criteria stated directly: every non-empty inclusion list
      holds the row's name, no exclusion list does, the Population is
      positive when asked, and Metric and Source match unless "all". */
  predicate Matches(c: Criteria, r: Row) {
    && (c.country != [] ==> r.country in c.country)
    && (c.state != [] ==> r.state in c.state)
    && (c.county != [] ==> r.county in c.county)
    && r.country !in c.notCountry
    && r.state !in c.notState
    && r.county !in c.notCounty
    && (c.positivePopulation ==> r.population > 0)
    && (c.metrics != ["all"] ==> r.metric in c.metrics)
    && (c.source != AllDatasources ==> r.source == c.source)
  }

  lemma ChainMatches(c: Criteria, r: Row)
    ensures PassesAll(r, Chain(c)) <==> Matches(c, r)
  {
    var chain := Chain(c);
    if Matches(c, r) {
      forall k | 0 <= k < 9
        ensures Admits(chain[k], r)
      {
      if k == 0 { }
      else if k == 1 { }
      else if k == 2 { }
      else if k == 3 { }
      else if k == 4 { }
      else if k == 5 { }
      else if k == 6 { }
      else if k == 7 { }
      else { }
      }
    } else {
      assert !(Admits(chain[0], r) && Admits(chain[1], r) && Admits(chain[2], r)
        && Admits(chain[3], r) && Admits(chain[4], r) && Admits(chain[5], r)
        && Admits(chain[6], r) && Admits(chain[7], r) && Admits(chain[8], r));
    }
  }

  /** The chain keeps, in their order, exactly the input rows that match the
      criteria. */
  lemma SelectionMembers(rows: seq<Row>, c: Criteria)
    ensures Subsequence(Select(rows, c), rows)
    ensures forall x :: x in Select(rows, c) <==> x in rows && Matches(c, x)
  {
    KeepSubsequence(rows, Chain(c));
    KeepMembers(rows, Chain(c));
    forall x
      ensures PassesAll(x, Chain(c)) <==> Matches(c, x)
    {
      ChainMatches(c, x);
    }
  }

  /** One `if` of the chain: the mask is applied only when the stage is
      active. */
  method Narrow(kept: seq<Row>, step: Option<Stage>) returns (narrowed: seq<Row>)
    ensures narrowed == Step(kept, step)
  {
    narrowed := kept;
    if step.Some? {
      narrowed := Where(kept, Mask(step.value));
    }
  }

  /** The chain of masks, each applied to what the previous ones left. */
  method ApplyFilters(rows: seq<Row>, c: Criteria) returns (kept: seq<Row>)
    ensures kept == Select(rows, c)
  {
    NestedIsSelect(rows, c);
    kept := rows;
    kept := Narrow(kept, Gate(c.country != [], InCountry(c.country)));
    kept := Narrow(kept, Gate(c.state != [], InState(c.state)));
    kept := Narrow(kept, Gate(c.county != [], InCounty(c.county)));
    kept := Narrow(kept, Gate(c.notCountry != [], NotCountry(c.notCountry)));
    kept := Narrow(kept, Gate(c.notState != [], NotState(c.notState)));
    kept := Narrow(kept, Gate(c.notCounty != [], NotCounty(c.notCounty)));
    kept := Narrow(kept, Gate(c.positivePopulation, PositivePopulation));
    kept := Narrow(kept, Gate(c.metrics != ["all"], OfMetric(c.metrics)));
    kept := Narrow(kept, Gate(c.source != AllDatasources, OfSource(c.source)));
  }

  // ---------------------------------------------------------------------
  // The whole filter

  /** The table passes its check and no argument is given under both of
      its aliases: the argument validation is reached. */
  predicate Unambiguous(t: Table, q: Query) {
    && FrameCheck(t) == Pass
    && !(q.region != Unset && q.country != Unset)
    && !(q.province != Unset && q.state != Unset)
  }

  /** The checks FilterCORVISData makes before it touches a row, in the
      source's order, and what they settle. A bare empty metric string
      passes the validation loop but fails at the Metric mask (pandas isin
      wants a list); the masks before it cannot fail, so it is reported
      here. */
  function PlanOf(t: Table, q: Query, lookup: string -> Option<string>): (r: Result<Plan>)
    ensures r.Ok? ==> FrameCheck(t) == Pass && r.value.criteria == CriteriaOf(q, lookup)
    ensures r.Err? ==> !r.error.NoDataMatched? && !r.error.NoColumnsLeft?
    ensures r == Err(AmbiguousCountryAlias) <==>
      FrameCheck(t) == Pass && q.region != Unset && q.country != Unset
    ensures r == Err(AmbiguousStateAlias) <==>
      FrameCheck(t) == Pass && !(q.region != Unset && q.country != Unset) && q.province != Unset && q.state != Unset
    ensures r.Ok? ==>
      && (q.metric.NoMetric? ||
          (q.metric.Metrics? && forall k :: 0 <= k < |q.metric.items| ==> q.metric.items[k] in AcceptedMetrics))
      && LevelOf(q.aggregateBy) == Ok(r.value.level)
      && ReducerOf(q.combine) == Ok(r.value.reducer)
    ensures r.Err? && r.error.BadMetric? <==>
      Unambiguous(t, q) && MetricCheck(q.metric).Fail?
    ensures r.Err? && r.error.BadAggregation? <==>
      Unambiguous(t, q) && MetricCheck(q.metric) == Pass && LevelOf(q.aggregateBy).Err?
    ensures r.Err? && r.error.BadCombination? <==>
      Unambiguous(t, q) && MetricCheck(q.metric) == Pass && LevelOf(q.aggregateBy).Ok? && ReducerOf(q.combine).Err?
    ensures r == Err(MetricNotListLike) <==>
      Unambiguous(t, q) && LevelOf(q.aggregateBy).Ok? && ReducerOf(q.combine).Ok? && q.metric == BareMetric("")
  {
    var check := FrameCheck(t);
    if check.Fail? then Err(check.error)
    else if q.region != Unset && q.country != Unset then Err(AmbiguousCountryAlias)
    else if q.province != Unset && q.state != Unset then Err(AmbiguousStateAlias)
    else
      var metricCheck := MetricCheck(q.metric);
      if metricCheck.Fail? then Err(metricCheck.error)
      else
        var level := LevelOf(q.aggregateBy);
        if level.Err? then Err(level.error)
        else
          var reducer := ReducerOf(q.combine);
          if reducer.Err? then Err(reducer.error)
          else if q.metric == BareMetric("") then Err(MetricNotListLike)
          else Ok(Plan(CriteriaOf(q, lookup), level.value, reducer.value))
  }

  /** The chain keeps the table rectangular. */
  lemma {:induction false} KeepRectangular(t: Table, chain: seq<Option<Stage>>)
    requires Rectangular(t)
    ensures Rectangular(t.(rows := Keep(t.rows, chain)))
    decreases |chain|
  {
    if chain != [] {
      var init := chain[..|chain| - 1];
      KeepRectangular(t, init);
      if chain[|chain| - 1].Some? {
        WhereRectangular(t.(rows := Keep(t.rows, init)), Mask(chain[|chain| - 1].value));
      }
    }
  }

  /** The selected rows of a table; they keep the table's shape. */
  function Selected(t: Table, c: Criteria): (u: Table)
    requires Rectangular(t)
    ensures Rectangular(u) && u.dates == t.dates && u.hasDayZero == t.hasDayZero
  {
    KeepRectangular(t, Chain(c));
    t.(rows := Select(t.rows, c))
  }

  /** After the selection: aggregate if asked, combine sources if asked,
      then trim the trailing columns. */
  function Finish(u: Table, plan: Plan): Result<Table>
    requires Rectangular(u)
  {
    var grouped := if plan.level.Some? then Aggregate(u, plan.level.value) else u;
    var combined := if plan.reducer.Some? then Combine(grouped, plan.reducer.value) else grouped;
    TrimmedTable(combined)
  }

  /** FilterCORVISData as written: after the masks it checks the
      unfiltered input again, which has already passed, so an empty
      selection is not reported there (see FilterIntended). */
  function FilterSpec(t: Table, q: Query, lookup: string -> Option<string>): Result<Table>
    requires Rectangular(t)
  {
    var plan := PlanOf(t, q, lookup);
    if plan.Err? then Err(plan.error)
    else Finish(Selected(t, plan.value.criteria), plan.value)
  }

  /** FilterCORVISData with the post-filter check applied to the selection,
      as its error message intends: no matching row is reported as such. */
  function FilterIntended(t: Table, q: Query, lookup: string -> Option<string>): Result<Table>
    requires Rectangular(t)
  {
    var plan := PlanOf(t, q, lookup);
    if plan.Err? then Err(plan.error)
    else
      var u := Selected(t, plan.value.criteria);
      if u.rows == [] then Err(NoDataMatched) else Finish(u, plan.value)
  }

  /** The first half of the source: alias resolution and validation, the
      `!` split of each name list and the state-code rewrite. */
  method Prepare(t: Table, q: Query, lookup: string -> Option<string>) returns (plan: Result<Plan>)
    ensures plan == PlanOf(t, q, lookup)
  {
    var check := Verify(Header(t), |t.rows|);
    if check.Fail? {
      return Err(check.error);
    }
    if t.dates == [] {
      return Err(MissingColumns);
    }
    if q.region != Unset && q.country != Unset {
      return Err(AmbiguousCountryAlias);
    }
    if q.province != Unset && q.state != Unset {
      return Err(AmbiguousStateAlias);
    }
    var metricCheck := MetricCheck(q.metric);
    if metricCheck.Fail? {
      return Err(metricCheck.error);
    }
    var level := LevelOf(q.aggregateBy);
    if level.Err? {
      return Err(level.error);
    }
    var reducer := ReducerOf(q.combine);
    if reducer.Err? {
      return Err(reducer.error);
    }
    var country, notCountry := SplitNegations(AsList(CountryArg(q)));
    var state, notState := SplitNegations(AsList(StateArg(q)));
    var county, notCounty := SplitNegations(AsList(q.county));
    if q.allowStateCodes {
      state := NormalizeStates(state, lookup);
      notState := NormalizeStates(notState, lookup);
    }
    if q.metric == BareMetric("") {
      return Err(MetricNotListLike);
    }
    var c := Criteria(country, state, county, notCountry, notState, notCounty,
      q.filterMissingPopulation, MetricsOf(q.metric), q.sourceData);
    return Ok(Plan(c, level.value, reducer.value));
  }

  /** The last half of the source: aggregation, source combination and the
      trim loops. */
  method Reshape(u: Table, plan: Plan) returns (r: Result<Table>)
    requires Rectangular(u)
    ensures r == Finish(u, plan)
  {
    var v := u;
    if plan.level.Some? {
      v := Aggregate(v, plan.level.value);
    }
    if plan.reducer.Some? {
      v := Combine(v, plan.reducer.value);
    }
    r := TrimTrailingColumns(v);
  }

  /** The filter, step by step as the source runs it. */
  method FilterData(t: Table, q: Query, lookup: string -> Option<string>) returns (r: Result<Table>)
    requires Rectangular(t)
    ensures r == FilterSpec(t, q, lookup)
  {
    var plan := Prepare(t, q, lookup);
    if plan.Err? {
      return Err(plan.error);
    }
    var kept := ApplyFilters(t.rows, plan.value.criteria);
    // The source verifies `sourceCORVISDataframe` here, not the selection.
    var recheck := Verify(Header(t), |t.rows|);
    assert recheck == Pass;
    assert t.(rows := kept) == Selected(t, plan.value.criteria);
    r := Reshape(t.(rows := kept), plan.value);
  }

  // ---------------------------------------------------------------------
  // Properties

  /** The steps after the selection fail only by trimming every column. */
  lemma FinishErrors(u: Table, plan: Plan)
    requires Rectangular(u)
    ensures Finish(u, plan).Err? ==> Finish(u, plan).error == NoColumnsLeft
  {
  }

  /** Without aggregation or combination only the trim follows the
      selection. */
  lemma FinishPlain(u: Table, plan: Plan)
    requires Rectangular(u) && plan.level.None? && plan.reducer.None?
    ensures Finish(u, plan) == TrimmedTable(u)
  {
  }

  lemma GroupByEmpty(t: Table, reducer: Reducer)
    requires Rectangular(t) && t.rows == []
    ensures GroupBy(t, reducer).rows == []
  {
  }

  /** Nothing selected: aggregation and combination give no rows, and the
      trim then runs out of columns. */
  lemma FinishEmpty(u: Table, plan: Plan)
    requires Rectangular(u) && u.rows == []
    ensures Finish(u, plan) == Err(NoColumnsLeft)
  {
    var grouped := if plan.level.Some? then Aggregate(u, plan.level.value) else u;
    if plan.level.Some? {
      var level := plan.level.value;
      GroupByEmpty(Blanked(u, level), SumOf);
    }
    assert grouped.rows == [];
    var combined := if plan.reducer.Some? then Combine(grouped, plan.reducer.value) else grouped;
    if plan.reducer.Some? {
      GroupByEmpty(Relabelled(grouped), plan.reducer.value);
    }
    TrimEmptyTable(combined);
  }

  /** Every error other than running out of columns comes from the checks
      made before any row is touched. */
  lemma PlanErrors(t: Table, q: Query, lookup: string -> Option<string>, e: Error)
    requires Rectangular(t) && !e.NoColumnsLeft?
    ensures FilterSpec(t, q, lookup) == Err(e) <==> PlanOf(t, q, lookup) == Err(e)
  {
    var plan := PlanOf(t, q, lookup);
    if plan.Ok? {
      FinishErrors(Selected(t, plan.value.criteria), plan.value);
    }
  }

  /** Naming both `region` and `country` is refused once the table passes
      its check, and nothing else is reported that way. */
  lemma CountryAliasConflict(t: Table, q: Query, lookup: string -> Option<string>)
    requires Rectangular(t) && FrameCheck(t) == Pass
    ensures FilterSpec(t, q, lookup) == Err(AmbiguousCountryAlias) <==> q.region != Unset && q.country != Unset
  {
    PlanErrors(t, q, lookup, AmbiguousCountryAlias);
  }

  /** Naming both `province` and `state` is refused, after the country
      aliases, and nothing else is reported that way. */
  lemma StateAliasConflict(t: Table, q: Query, lookup: string -> Option<string>)
    requires Rectangular(t) && FrameCheck(t) == Pass
    ensures FilterSpec(t, q, lookup) == Err(AmbiguousStateAlias) <==>
      !(q.region != Unset && q.country != Unset) && q.province != Unset && q.state != Unset
  {
    PlanErrors(t, q, lookup, AmbiguousStateAlias);
  }

  /** Without aggregation or combination the filter returns the matching
      input rows, in their order, trimmed of trailing empty columns. */
  lemma PlainFilter(t: Table, q: Query, lookup: string -> Option<string>)
    requires Rectangular(t) && PlanOf(t, q, lookup).Ok?
    requires q.aggregateBy.None? && q.combine.None?
    ensures var c := CriteriaOf(q, lookup); var u := Selected(t, c);
      && FilterSpec(t, q, lookup) == TrimmedTable(u)
      && Subsequence(u.rows, t.rows)
      && forall x :: x in u.rows <==> x in t.rows && Matches(c, x)
  {
    var plan := PlanOf(t, q, lookup).value;
    FinishPlain(Selected(t, plan.criteria), plan);
    SelectionMembers(t.rows, plan.criteria);
  }

  /** A chain with every step skipped keeps every row. */
  lemma {:induction false} KeepNone(rows: seq<Row>, chain: seq<Option<Stage>>)
    requires forall k :: 0 <= k < |chain| ==> chain[k].None?
    ensures Keep(rows, chain) == rows
    decreases |chain|
  {
    if chain != [] {
      KeepNone(rows, chain[..|chain| - 1]);
    }
  }

  /** A query that names nothing keeps every row: the filter then only
      trims trailing columns. */
  lemma EmptyCriteria(t: Table, lookup: string -> Option<string>, allowStateCodes: bool)
    requires Rectangular(t) && FrameCheck(t) == Pass
    ensures FilterSpec(t, Query(Unset, Unset, Unset, Unset, Unset, None, NoMetric, false,
      AllDatasources, None, allowStateCodes), lookup) == TrimmedTable(t)
  {
    var q := Query(Unset, Unset, Unset, Unset, Unset, None, NoMetric, false, AllDatasources, None, allowStateCodes);
    var c := CriteriaOf(q, lookup);
    assert c == Criteria([], [], [], [], [], [], false, ["all"], AllDatasources);
    KeepNone(t.rows, Chain(c));
    assert Selected(t, c) == t;
    FinishPlain(t, PlanOf(t, q, lookup).value);
  }

  /** As written, no input at all yields NoDataMatched. */
  lemma NeverNoDataMatched(t: Table, q: Query, lookup: string -> Option<string>)
    requires Rectangular(t)
    ensures FilterSpec(t, q, lookup) != Err(NoDataMatched)
  {
    PlanErrors(t, q, lookup, NoDataMatched);
  }

  /** As written, an empty selection is not reported as such: the trim
      runs out of columns instead. */
  lemma EmptySelectionUnreported(t: Table, q: Query, lookup: string -> Option<string>)
    requires Rectangular(t) && PlanOf(t, q, lookup).Ok?
    requires Selected(t, CriteriaOf(q, lookup)).rows == []
    ensures FilterSpec(t, q, lookup) == Err(NoColumnsLeft)
  {
    var plan := PlanOf(t, q, lookup).value;
    FinishEmpty(Selected(t, plan.criteria), plan);
  }

  /** With the check applied to the selection, an empty selection is
      reported as NoDataMatched and nothing else is; a non-empty one gives
      what the source gives. */
  lemma IntendedReportsEmpty(t: Table, q: Query, lookup: string -> Option<string>)
    requires Rectangular(t)
    ensures FilterIntended(t, q, lookup) == Err(NoDataMatched) <==>
      PlanOf(t, q, lookup).Ok? && Selected(t, CriteriaOf(q, lookup)).rows == []
    ensures !(PlanOf(t, q, lookup).Ok? && Selected(t, CriteriaOf(q, lookup)).rows == []) ==>
      FilterIntended(t, q, lookup) == FilterSpec(t, q, lookup)
    ensures FilterIntended(t, q, lookup) == Err(NoDataMatched) ==> FilterSpec(t, q, lookup) == Err(NoColumnsLeft)
  {
    NeverNoDataMatched(t, q, lookup);
    if PlanOf(t, q, lookup).Ok? && Selected(t, CriteriaOf(q, lookup)).rows == [] {
      EmptySelectionUnreported(t, q, lookup);
    }
  }

  function AtlantisTable(): (t: Table)
    ensures Rectangular(t)
  {
    Table(false, [Name("3/1/20")],
      [Row("Johns Hopkins University", "Confirmed", "US", "", "", 331000000, 40.0, -100.0, None, [Some(10.0)])])
  }

  function AtlantisQuery(): Query {
    Query(Names(["Atlantis"]), Unset, Unset, Unset, Unset, None, NoMetric, false, AllDatasources, None, true)
  }

  lemma AtlantisCheck()
    ensures FrameCheck(AtlantisTable()) == Pass
  {
    var t := AtlantisTable();
    assert DatesAreData(t) by {
      assert t.dates[0].text[0] == '3';
    }
    HeaderVerdict(t);
  }

  lemma AtlantisSelectsNothing(lookup: string -> Option<string>)
    ensures Selected(AtlantisTable(), CriteriaOf(AtlantisQuery(), lookup)).rows == []
  {
    var t := AtlantisTable();
    var c := CriteriaOf(AtlantisQuery(), lookup);
    assert c.country == ["Atlantis"];
    SelectionMembers(t.rows, c);
    assert !Matches(c, t.rows[0]);
  }

  /** A query for a country no row has, on a table that passes its check:
      the source fails in the trim instead of reporting that nothing
      matched. */
  lemma AtlantisAsWritten(lookup: string -> Option<string>)
    ensures FilterSpec(AtlantisTable(), AtlantisQuery(), lookup) == Err(NoColumnsLeft)
  {
    AtlantisIntended(lookup);
    IntendedReportsEmpty(AtlantisTable(), AtlantisQuery(), lookup);
  }

  lemma AtlantisPlan(lookup: string -> Option<string>)
    ensures PlanOf(AtlantisTable(), AtlantisQuery(), lookup).Ok?
  {
    AtlantisCheck();
  }

  /** The same query under the intended check: no data matched. */
  lemma AtlantisIntended(lookup: string -> Option<string>)
    ensures FilterIntended(AtlantisTable(), AtlantisQuery(), lookup) == Err(NoDataMatched)
  {
    AtlantisPlan(lookup);
    AtlantisSelectsNothing(lookup);
    IntendedReportsEmpty(AtlantisTable(), AtlantisQuery(), lookup);
  }
}
