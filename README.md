# CORVIS table pipeline in Dafny

CORVIS loads COVID-19 case counts from the Johns Hopkins University (JHU)
time series and from The COVID Tracking Project (CTP). It merges them into one
table and transforms that table before plotting. This project models that
table pipeline and proves properties of it.

Every CORVIS table starts with fixed prefix columns: Source, Metric,
Country/Region, Province/State, County, Population, Lat, Long, and optionally
DayZero. After the prefix come the date columns, one numeric column per day,
labelled "M/D/YY". After day-zero alignment the date columns are labelled
with day offsets 0, 1, 2, and so on.

The model represents the table as follows:
- `Frames.Table` holds a flag for the DayZero column, the date labels and the
  rows.
- `Frames.Row` holds the prefix fields and one `Option<real>` cell per date.
  `None` stands for a missing value (NaN).
- Every error the pipeline raises is a constructor of `Frames.Error`.
- An operation that can fail returns a `Result`.

The modules follow the pipeline:
- `Schema`: the table check (`VerifyCORVISDataframe`) and the breakpoint
  search, i.e. the first date column.
- `Strings`: decimal texts, splitting on a separator, and Python's substring
  test.
- `Loading`: the row rules applied while the sources are merged. These are the
  population lookup key, the defaults for blank prefix cells, the drop of
  national rows that double-count their states, and the CTP date reformat.
- `Filtering`: `FilterCORVISData`. It covers argument resolution and
  validation, the `!` negation split, the nine-step filter chain, aggregation,
  source combination and the trailing-column trim.
- `Aggregation`: group-by with pandas' key order, the state, country and
  global levels, and the min, max and mean source combination.
- `Trimming`: the two loops that drop trailing columns.
- `DayZero`: the threshold search and the per-row shift that aligns every
  row at its own day zero.
- `Derived`: the daily change, the moving average and the per-capita rate.
- `Ranking`: the top-N selection by row maximum. The caller's frame is the
  class `Ranking.Frame`, because the source writes its `maxValue` column into
  the caller's table.
- `Sorting`: the stable insertion sort used for the group-by key order and
  for the ranking.
- `Ticks`: the plot-start threshold, the tick interval, and the day-zero and
  calendar tick placement of `CreateCORVISPlot`.

Some operations are loops in the source, such as the schema counter, the
filter chain, the shift loop, the dummy-column loop, the trim loops and the
tick loops. Each of these is a `method` with its loop. The method is proved
equal to a specification function, and the lemmas state their properties
about that function.

Where the code does something a reader might not expect, the model follows
the code:
- The moving average pads each row with copies of its first cell, so no
  output is undefined. `[1,2,3,4,5]` with window 3 gives `1, 4/3, 2, 3, 4`.
- The check after filtering verifies the input table again, not the
  selection, so an empty selection is not reported as "no data matched" (see
  Findings).
- The trim first drops all-missing trailing columns and only then all-zero
  ones. It does not alternate between the two.
- Day-zero alignment with `dropNAColumns` drops every all-missing column,
  not only trailing ones. After the shift these are the trailing ones
  whenever the input has no missing cells (`DayZero.DroppedDaysComplete`).

## Model

| member | source | states |
|---|---|---|
| Schema.Verify | corvis/corvis.py:78-95 | The counter loop returns the table check's verdict. It is EmptyFrame for no rows, UnexpectedColumn for a non-baseline column met before all eight baseline names are counted, and MissingColumns when no column follows them. |
| Schema.VerdictPassIff | corvis/corvis.py:78-95 | The check passes iff the table has a row and some non-baseline column follows a run of baseline columns at least eight long. |
| Schema.FrameCheck | corvis/corvis.py:78-95 | A refused table is refused only as empty, as having an unexpected column, or as missing columns. |
| Schema.FrameCheckExtraRefusal | corvis/corvis.py:78-95 | FrameCheck gives the check's verdict on every table except one with a row and a DayZero column but no date column. The check passes that table and FrameCheck refuses it as missing columns. |
| Schema.BreakPoint | corvis/corvis.py:98-102 | The breakpoint is the least index whose name is not one of the nine prefix names, or -1 when every name is one of them. |
| Schema.HeaderVerdict | corvis/corvis.py:78-102 | On a CORVIS header the check fails only for no rows, or for a table with neither DayZero nor date columns. The breakpoint is the first date column. |
| Schema.BaselineVerdict | corvis/corvis.py:83-93 | The counter meets its first non-baseline column at index 8 of a CORVIS header, or at none when the header has no column after the eight. |
| Schema.PrefixBreakPoint | corvis/corvis.py:98-102 | The breakpoint of a CORVIS header is the number of prefix columns, or -1 when there is no date column. |
| Strings.NumberTextValue | corvis/corvis.py:347 | Reading back the decimal text of a number gives that number. |
| Strings.NumberTextInjective | corvis/corvis.py:347 | Two numbers have the same decimal text iff they are equal. |
| Strings.Split | corvis/corvis.py:908 | Splitting on a separator gives at least one part, and no part holds the separator. |
| Strings.SplitThree | corvis/corvis.py:347 | Three separator-free pieces joined by the separator split back into those three pieces. |
| Loading.PopulationKeyJoinsParts | corvis/corvis.py:111-131 | For a non-empty Country, the lookup key is County, State and Country joined by ", " with the empty parts left out. The doubled District of Columbia key is replaced by the single one. |
| Loading.DistrictOfColumbiaKey | corvis/corvis.py:129-131 | The District of Columbia row, listed as its own state and county, is looked up as "District of Columbia, US". |
| Loading.LookupPopulation | corvis/corvis.py:132 | The result is the largest non-blank population listed under the key. It is None iff the key has no non-blank entry. |
| Loading.CleanRow | corvis/corvis.py:401-425 | A blank County or State becomes "". Population is the lookup result or -1 when JHU data is loaded, else the raw value or 0. A blank Lat or Long becomes 1000. Every other field is unchanged. |
| Loading.PopulationSentinel | corvis/corvis.py:412-419 | With non-negative inputs the population is at least -1. It is -1 exactly when JHU data is loaded and the lookup misses. |
| Loading.DropNationalDoubleCount | corvis/corvis.py:428-429 | A row is kept iff it is not a state-less row of a listed nation. |
| Loading.DropNationalIsWhere | corvis/corvis.py:428-429 | Dropping nation by nation equals one mask that keeps, in order and with repeats, every row that is not a state-less row of a listed nation. |
| Loading.DropNationalIsSubsequence | corvis/corvis.py:428-429 | The kept rows are the input rows in their order. |
| Loading.UnifiedTable | corvis/corvis.py:390-429 | The merged table's rows are the cleaned source rows, in source order and with their multiplicity, minus the state-less US rows. It has the given dates and no DayZero column. |
| Loading.CtpDateRoundTrip | corvis/corvis.py:346-347 | A CTP date "YYYYMMDD" becomes a label whose '/'-parts are the month and day without leading zeros (they read back as the same values) and the two-digit year. |
| Filtering.AsList | corvis/corvis.py:466-493 | A single name becomes a one-item list. The empty name, [""] and an argument not given become the empty list. Any other list is kept. |
| Filtering.FirstRejected | corvis/corvis.py:512-521 | The first metric outside Confirmed, Death, Recovered and all is found, or None when all are accepted. |
| Filtering.MetricCheck | corvis/corvis.py:511-521 | A metric list passes iff every item is Confirmed, Death, Recovered or all. A bare string is checked character by character, so it passes only when empty. A missing metric passes. |
| Filtering.LevelOf | corvis/corvis.py:526-537 | aggregateBy is accepted iff it is absent or one of global, country, state. Otherwise the error names it. |
| Filtering.ReducerOf | corvis/corvis.py:541-552 | combineDatasources is accepted iff it is absent or one of min, max, mean. Otherwise the error names it. |
| Filtering.Positives | corvis/corvis.py:571-593 | The inclusion list holds exactly the non-empty items that do not start with '!'. |
| Filtering.Negatives | corvis/corvis.py:571-593 | The exclusion list holds exactly the names y for which "!" + y was supplied. |
| Filtering.SplitNegations | corvis/corvis.py:571-593 | The list-building loop yields the inclusion and the exclusion lists. |
| Filtering.NormalizeStates | corvis/corvis.py:596-602 | The in-place rewrite replaces each state name the lookup recognises by its canonical name. |
| Filtering.NormalizedIdempotent | corvis/corvis.py:596-602 | Rewriting state names twice equals rewriting them once, when the lookup maps canonical names to themselves. |
| Filtering.Narrow | corvis/corvis.py:629-654 | One `if` of the chain applies its mask, or keeps the rows when the stage is off. |
| Filtering.ApplyFilters | corvis/corvis.py:629-654 | The nine reassignments of the chain yield the selection. |
| Filtering.NestedIsSelect | corvis/corvis.py:629-654 | The chain written as nine nested steps equals the chain folded over its list of stages. |
| Filtering.ChainMatches | corvis/corvis.py:629-654 | A row passes every step of the chain iff it meets every non-empty inclusion list and no exclusion list, has Population > 0 when asked, and matches Metric and Source unless these are "all". |
| Filtering.SelectionMembers | corvis/corvis.py:629-654 | The selection is an order-preserving subsequence of the rows, holding exactly the rows that match the criteria. |
| Filtering.PlanOf | corvis/corvis.py:440-552 | The checks before the selection, in the source's order. Success implies the table passed its check, every metric is one of the four accepted ones (or none is given), and the plan carries the resolved criteria and the validated level and reducer. The country-alias and state-alias errors arise exactly when both names of the pair are given. Once those pass, BadMetric, BadAggregation and BadCombination arise exactly when the metric, aggregateBy or combineDatasources check is the first to fail, and a bare empty metric string fails as not list-like. These checks never report an empty selection or a trim failure. |
| Filtering.Prepare | corvis/corvis.py:440-602 | Alias resolution, validation, the `!` split and the state rewrite, run step by step, yield the plan. |
| Filtering.Reshape | corvis/corvis.py:661-727 | Aggregation, combination and the trim loops yield the finishing step. |
| Filtering.FilterData | corvis/corvis.py:437-729 | The whole filter, step by step, gives the filter's result as written. |
| Filtering.FinishErrors | corvis/corvis.py:661-727 | After the selection the only failure is the trim running out of columns. |
| Filtering.FinishPlain | corvis/corvis.py:723-727 | Without aggregation or combination the selection goes straight to the trim. |
| Filtering.FinishEmpty | corvis/corvis.py:661-727 | An empty selection fails in the trim, whatever the aggregation and combination. |
| Filtering.PlanErrors | corvis/corvis.py:440-552 | Every failure other than the trim's is a failure of the checks before the selection, and the other way round. |
| Filtering.CountryAliasConflict | corvis/corvis.py:443-448 | On a valid table, the filter fails with the country-alias error iff both region and country are given. |
| Filtering.StateAliasConflict | corvis/corvis.py:450-455 | On a valid table, the filter fails with the state-alias error iff both province and state are given and the country pair is not. |
| Filtering.PlainFilter | corvis/corvis.py:629-727 | Without aggregation or combination, the result is the trimmed selection. The selection is an order-preserving subsequence holding exactly the matching rows. |
| Filtering.EmptyCriteria | corvis/corvis.py:629-654 | With no criteria every row is kept, and the result is the trimmed input. |
| Filtering.NeverNoDataMatched | corvis/corvis.py:656-659 | The filter as written never reports that no data matched. |
| Filtering.EmptySelectionUnreported | corvis/corvis.py:656-659 | A valid query that selects nothing fails in the trim instead. |
| Filtering.IntendedReportsEmpty | corvis/corvis.py:656-659 | The corrected filter reports no data matched iff the query is valid and selects nothing. Otherwise it agrees with the filter as written. |
| Filtering.AtlantisSelectsNothing | corvis/corvis.py:629-630 | A country filter naming a country no row has selects no row. |
| Filtering.AtlantisAsWritten | corvis/corvis.py:656-659 | For that query the filter as written fails with the trim error. |
| Filtering.AtlantisIntended | corvis/corvis.py:656-659 | For that query the corrected filter reports that no data matched. |
| Trimming.MissingRunStart | corvis/corvis.py:723-724 | The start of the run of all-missing columns that ends the table. The column before it is not all missing. |
| Trimming.ZeroRunStart | corvis/corvis.py:726-727 | The start of the run of all-zero columns that ends the table. The column before it is not all zero. |
| Trimming.TrimTrailingColumns | corvis/corvis.py:723-727 | The two trim loops yield the trimmed table, or the no-columns error when every date column goes. |
| Trimming.TrimmedTableProperties | corvis/corvis.py:723-727 | The trim removes only a suffix of columns, each all missing or all zero. The rows and other columns are kept, and the last kept column has a cell that is not 0. |
| Trimming.TrimEmptyTable | corvis/corvis.py:723-724 | A table with no rows loses every column. |
| Trimming.TrimKeepsReportedTable | corvis/corvis.py:723-727 | A table whose last column has a reported non-zero cell is kept whole. |
| Aggregation.GroupKeys | corvis/corvis.py:685 | The group keys are exactly the keys of the rows, in ascending key order. |
| Aggregation.DistinctKeys | corvis/corvis.py:685 | Each row key appears once. |
| Aggregation.ReduceMissing | corvis/corvis.py:703-715 | A max, min or mean reduction is missing iff every cell is missing. A sum never is. |
| Aggregation.MeanBetween | corvis/corvis.py:703-715 | Over cells with a value, the mean lies between the min and the max. |
| Aggregation.GroupByKeysInOrder | corvis/corvis.py:685 | The group-by yields one row per distinct key, in key order. |
| Aggregation.GroupByKeys | corvis/corvis.py:685 | The group-by keeps exactly the input's keys, strictly ascending. |
| Aggregation.GroupByRowAt | corvis/corvis.py:685 | Each output row folds the non-empty group of input rows with its key. |
| Aggregation.FoldFacts | corvis/corvis.py:669-677 | A folded group has its key and no DayZero. Each date cell is its column's reduction, and Population, Lat and Long are each the group's maximum: at least every member's value and equal to some member's. |
| Aggregation.GroupByCells | corvis/corvis.py:669-685 | Each output row reduces exactly the input rows with its key, column by column. Its Population, Lat and Long are their maxima: at least every member's value and equal to some member's. |
| Aggregation.GroupByKeyFrom | corvis/corvis.py:685 | Every output key is a key of the input. |
| Aggregation.BlankedKeys | corvis/corvis.py:682-701 | After blanking, the keys have empty County at state level, empty County and State at country level, and also Country "Global" at global level. |
| Aggregation.AggregateShape | corvis/corvis.py:682-701 | Every aggregated row has its level's key shape. State-level rows have a State and country-level rows a Country. |
| Aggregation.AggregateFromGroups | corvis/corvis.py:682-701 | A row is in the aggregate iff it is a summed group of the blanked table that the level's filter keeps (a non-empty Province/State at state level, a non-empty Country/Region at country level, every group at global level). The aggregate keeps the groups' order. |
| Aggregation.GlobalGroup | corvis/corvis.py:697-701 | Rows of one Source and Metric aggregate globally into a single folded row. |
| Aggregation.GlobalSingle | corvis/corvis.py:697-701 | Rows of one Source and Metric aggregate globally into one row keyed (Source, Metric, "Global", "", ""). Each of its date cells is the sum of the column's values. |
| Aggregation.CombineRows | corvis/corvis.py:703-715 | Combining sources sets every Source to "Combined". Each input key with that Source appears once, in key order. |
| DayZero.FirstReaching | corvis/corvis.py:104-109 | The first cell at or above the threshold, or None when no cell reaches it. |
| DayZero.ThresholdDate | corvis/corvis.py:104-109 | The label of the FIRST column where the row reaches the threshold (no earlier cell reaches it), or None (INVALID) iff no cell reaches it. |
| DayZero.KeptRows | corvis/corvis.py:759-763 | A row is kept iff some cell reaches the threshold. |
| DayZero.ShiftRows | corvis/corvis.py:773-775 | The per-row loop shifts each row left by its own offset. |
| DayZero.PresentColumns | corvis/corvis.py:788-789 | The columns with some value, in ascending order. |
| DayZero.TransformToDayZero | corvis/corvis.py:731-795 | The transform, step by step, gives the aligned table or its error. |
| DayZero.AlignedRows | corvis/corvis.py:742-785 | Without column dropping, each kept row keeps its prefix and gets its threshold date as DayZero. Its cell j is its input cell k+j (k its first crossing), missing past the end. The first cell reaches the threshold, and the columns are 0, 1, 2, and so on. |
| DayZero.AlignedCell | corvis/corvis.py:773-775 | An aligned cell d is the row's cell d+k, or missing past the end. |
| DayZero.ThresholdTooHighIff | corvis/corvis.py:791-793 | The transform fails with threshold-too-high iff no cell of the table reaches the threshold. |
| DayZero.DayValueIff | corvis/corvis.py:787-789 | Aligned column d has a value iff some kept row has a value d days after its day zero. |
| DayZero.ColumnGivesDay | corvis/corvis.py:787-789 | A column with a value comes from a row with a value on that day. |
| DayZero.DayGivesColumn | corvis/corvis.py:787-789 | A row with a value on day d gives aligned column d a value. |
| DayZero.AlignResult | corvis/corvis.py:731-795 | With some row kept, the result is the aligned table, with its all-missing columns dropped if asked. |
| DayZero.DroppedDays | corvis/corvis.py:787-789 | With dropping, day d stays iff some kept row has a value d days after its day zero. |
| DayZero.DroppedDaysComplete | corvis/corvis.py:787-789 | With no missing input cells, the columns left are 0 .. n - min k - 1, where min k is the earliest day zero. |
| DayZero.RunHasValue | corvis/corvis.py:787-789 | With no missing input cells, every day within the longest run (d < n - min k) has a value. |
| DayZero.AlignmentExample | corvis/corvis.py:731-795 | `[5, 20, 150, 300]` at threshold 100 aligns to `[150, 300]` at offsets 0 and 1, with DayZero "3/3/20". |
| Derived.DailyChangeTelescopes | corvis/corvis.py:822-823 | The daily changes of cells 0..j add up to x[j] - x[0] when none of them is missing. |
| Derived.DailyChangeRows | corvis/corvis.py:815-827 | Daily change keeps the dates, the row count and each row's prefix. Cell 0 becomes 0, and the cells telescope back to the input. |
| Derived.DailyChangeExample | corvis/corvis.py:822-823 | `[10, 10, 25, 25]` becomes `[0, 0, 15, 0]`. |
| Derived.PaddedRolling | corvis/corvis.py:803-809 | Rolling over the row padded with w copies of its first cell, with the padding's outputs dropped, is the mean of the w cells ending at each position, where positions before 0 read as the first cell. |
| Derived.MovingAverage | corvis/corvis.py:797-813 | The dummy-column loop and the rolling mean give that moving average for every row, after the table check. |
| Derived.MovingAverageConstant | corvis/corvis.py:803-809 | A constant row averages to the same constant everywhere. |
| Derived.MovingAverageExample | corvis/corvis.py:803-809 | `[1, 2, 3, 4, 5]` with window 3 gives `1, 4/3, 2, 3, 4`. |
| Derived.PerCapitaInverse | corvis/corvis.py:829-839 | Each per-capita cell times Population / denominator is the original cell. Missing cells stay missing, and the prefix is unchanged. |
| Derived.PerCapitaRefusesZero | corvis/corvis.py:835 | On a valid table, per-capita fails iff the denominator or some Population is zero. |
| Derived.PerCapitaExample | corvis/corvis.py:835 | 400 cases among 20000 people per 100 is 2. |
| Ranking.RowMax | corvis/corvis.py:845 | maxValue is the largest present cell of the row, or missing iff every cell is missing. |
| Ranking.MaxColumnHolds | corvis/corvis.py:845 | Writing maxValue (appended, or overwritten where the frame already has a maxValue column) gives a column holding each row's maximum and changes nothing else. |
| Ranking.RankOrderFacts | corvis/corvis.py:846 | The ranking is a permutation of the row positions, sorted by descending maxValue with ties in their original order. |
| Ranking.HighestRows | corvis/corvis.py:845-847 | The result has min(N, rows) rows (none for N <= 0), taken from the input in ranking order, without the maxValue column. |
| Ranking.RankPrefix | corvis/corvis.py:846 | The first m ranked rows are in descending key order, ties in input order. No row left out has a larger key. |
| Ranking.HighestRanked | corvis/corvis.py:841-849 | Top-N returns min(N, rows) input rows in descending order of their maximum, ties in input order. No omitted row's maximum exceeds a returned row's. |
| Ranking.Frame.HighestValues | corvis/corvis.py:841-849 | On a valid frame, the caller's frame gains the maxValue column and the top N rows are returned. A refused frame is left unchanged and the error returned. |
| Ticks.FirstPlotted | corvis/corvis.py:868-870 | The first column where some row is not below the threshold. Every earlier column is below it in every row. |
| Ticks.SkipBelow | corvis/corvis.py:868-870 | The skip loop stops at that column. |
| Ticks.IntervalMonotone | corvis/corvis.py:877-886 | More plotted days never give a smaller tick interval. |
| Ticks.TicksSpaced | corvis/corvis.py:892-896 | Tick j of the day-zero loop is at cur + j*s. |
| Ticks.TicksIncrease | corvis/corvis.py:892-896 | Day-zero ticks strictly increase. |
| Ticks.TicksCount | corvis/corvis.py:892-896 | The last day-zero tick lies below the end, and one more step would pass it. |
| Ticks.DayTicksReadable | corvis/corvis.py:877-896 | A day-zero plot of at most 180 days gets at most 20 ticks. |
| Ticks.DayTicks | corvis/corvis.py:888-896 | The day-zero loop places ticks at 0, s, 2s, and so on, each labelled with its column. |
| Ticks.CalendarMembers | corvis/corvis.py:901-919 | At an interval of 1 the calendar loop never fails. At any other interval it fails iff some plotted label has no '/' (or is a day offset). Otherwise it ticks exactly the marked columns, in increasing order. |
| Ticks.CalendarTicks | corvis/corvis.py:897-919 | The calendar loop yields those ticks and their labels. |
| Ticks.CalendarErrorAt | corvis/corvis.py:908-914 | A calendar failure names one of the plotted labels. |
| Ticks.DateLabelParts | corvis/corvis.py:908 | An "M/D/YY" label splits on '/' into its month, day and year texts. |
| Ticks.DayIn | corvis/corvis.py:908-914 | A day's text is in the weekly list iff the day is 1, 8, 15 or 22, and in the fortnightly list iff it is 1 or 15. |
| Ticks.QuarterMonth | corvis/corvis.py:914 | For months 1 to 12, the substring test against "1,4,7,10" holds iff the month is 1, 4, 7 or 10. |
| Ticks.TwoCharIn | corvis/corvis.py:914 | A two-character text starting with '1' occurs in "1,4,7,10" iff its second character is '0' or ','. |
| Ticks.DateTicks | corvis/corvis.py:904-915 | A date is ticked at interval 7 on days 1, 8, 15 and 22, at interval 15 on days 1 and 15, and at interval 90 on day 1 of months 1, 4, 7 and 10. |
| Ticks.CreatePlot | corvis/corvis.py:851-919 | CreateCORVISPlot up to the drawing gives the planned plot or its error. |
| Ticks.PlotStart | corvis/corvis.py:864-870 | The plot shows the date columns from the first one not below the threshold (all of them without a threshold). Every skipped column is below it in every row. |
| Ticks.PlotTicks | corvis/corvis.py:877-919 | Tick labels match their columns and ticks increase. Day-zero ticks are j*s and cover the plot. Calendar ticks are exactly the marked columns. |
| Ticks.PlotLabelErrors | corvis/corvis.py:868-914 | On a valid table the plot fails only when every column is skipped, or at a calendar label that is not "M/D/YY"-like. |

## Left out

- Downloading, caching, fingerprinting and file persistence in `LoadCORVISData` are I/O. The merge is modelled as row concatenation over a common header (`Loading.UnifiedTable`).
- pandas `append` column-union ordering and `astype` dtype coercion are not modelled. Cells are exact reals, and Population is an integer.
- `us.states.lookup` is a foreign library. It is a parameter `lookup: string -> Option<string>` of the filter. The CTP state-code rewrite at load time is not modelled.
- matplotlib drawing, the legend, the y-axis formatter and every `print` warning are UI only. `Ticks.PlotOf` stops at the tick positions, labels and axis titles.
- The enumerated values of the metric, aggregation and combination arguments are modelled by their string values. Their warnings are prints.
- Floating point (IEEE rounding, infinities, NaN arithmetic) is not modelled. Derived.PerCapita returns `ZeroDivisor` for a zero denominator or a zero Population. In pandas a zero denominator makes each divisor ±inf (NaN for a zero Population), so the cells become 0 (NaN for a zero Population), and a zero Population with a non-zero denominator gives ±inf cells (NaN for a zero cell). The model does not produce those cells.
- Aggregation.Fold: the DayZero column of a day-zero table being aggregated or combined is left empty (None). The source would reduce those labels like numbers (concatenating or comparing them).
- Derived.MovingAverage requires a window of at least 1. With a window of 0 the source adds no dummy column and pandas' `rolling(0).mean()` gives a missing value in every date cell; the model does not cover that call.
- Trimming.TrimTrailingColumns, Ticks.PlotOf: when every date column would be dropped they return `NoColumnsLeft`. The source's loops would go on into the prefix columns or raise IndexError.
- Schema.FrameCheck: a table with a DayZero column but no date column is refused as `MissingColumns`, although the source's check passes it (`Schema.FrameCheckExtraRefusal`). Every operation in the model therefore refuses that table. In the source the filter's trim loops would start at the DayZero column, and the derived series, the ranking and the plot would treat the DayZero column as the only date column (breakpoint -1). A table with neither a DayZero column nor date columns is refused as in the source.
- Ranking.HighestRanked: ties under `nlargest` are modelled as a stable order (input order among equal maxima). pandas' `keep='first'` promises this for the rows kept, not the exact order of equal values.
- Filtering.FilterData: the source sorts the caller's country, county and state lists in place (corvis/corvis.py:497-499) and writes enum values back into the caller's metric list (corvis/corvis.py:512-514). The model takes these arguments as values, so those changes to the caller's lists are not modelled. The selection does not depend on them, because the lists are only used as membership tests.
- Ranking.Frame.HighestValues: a row whose date cells are all missing has no maximum. The model ranks it below every other row and returns it when N exceeds the rows with a maximum, whereas pandas' `nlargest` leaves NaN keys out of its result.
- The `hasWarnedOnMetric` flag only controls a print, so it is not modelled.

## Findings

| source | as written | input that shows it | evidently intended | confidence | as-written member | corrected member |
|---|---|---|---|---|---|---|
| corvis/corvis.py:656-659 | The check after filtering verifies `sourceCORVISDataframe`, the input. That input has already passed, so an empty selection goes on to the trim, which fails on it with an IndexError instead. | A valid table with one US row, filtered with `country=["Atlantis"]` | The selection is verified, and an empty one fails with "no data met the filtering criteria" | not executed | Filtering.AtlantisAsWritten | Filtering.IntendedReportsEmpty |
