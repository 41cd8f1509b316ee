/** The row-normalisation rules applied while the source tables are merged
    into one CORVIS table: the population lookup key, the default values of
    missing prefix cells, the national double-count drop and the reformatting
    of the tracking project's dates. */
module Loading {
  import opened Frames
  import opened Strings

  /** A row of the region lookup table: its Combined_Key and its Population
      (None where the table leaves it blank). */
  datatype LookupEntry = LookupEntry(combinedKey: string, population: Option<int>)

  /** A row as it arrives from a source, before cleaning: blank cells are None. */
  datatype RawRow = RawRow(
    source: string,
    metric: string,
    country: string,
    state: Option<string>,
    county: Option<string>,
    population: Option<int>,
    lat: Option<real>,
    long: Option<real>,
    cells: seq<Cell>)

  /** Nations whose source lists a national row beside summable state rows. */
  const IgnoreStatesForNationalCount: seq<string> := ["US"]

  const DistrictKeyTwice := "District of Columbia, District of Columbia, US"
  const DistrictKey := "District of Columbia, US"

  /** Sentinel for an unknown latitude or longitude. */
  const UnknownCoordinate: real := 1000.0

  /** The non-empty parts, in order. */
  function NonEmpty(parts: seq<string>): (r: seq<string>)
    ensures forall k :: 0 <= k < |r| ==> r[k] != ""
  {
    if parts == [] then []
    else if parts[0] == "" then NonEmpty(parts[1..])
    else [parts[0]] + NonEmpty(parts[1..])
  }

  function Join(parts: seq<string>, sep: string): string {
    if parts == [] then ""
    else if |parts| == 1 then parts[0]
    else parts[0] + sep + Join(parts[1..], sep)
  }

  /** The key under which the lookup table lists a row's area: the country,
      preceded by the state and then the county when these are non-empty,
      with the District of Columbia, listed as its own state, named once. */
  function PopulationKey(country: string, state: string, county: string): string {
    var name := country;
    var name := if |state| > 0 then state + ", " + name else name;
    var name := if |county| > 0 then county + ", " + name else name;
    if name == DistrictKeyTwice then DistrictKey else name
  }

  /** For a named country the key is "County, State, Country" with the empty
      parts left out, except that the doubled District of Columbia key is
      replaced by the single one. */
  lemma PopulationKeyJoinsParts(country: string, state: string, county: string)
    requires country != ""
    ensures var joined := Join(NonEmpty([county, state, country]), ", ");
      PopulationKey(country, state, county) == if joined == DistrictKeyTwice then DistrictKey else joined
  {
    var parts := [county, state, country];
    assert parts[1..] == [state, country] && parts[2..] == [country];
    assert [state, country][1..] == [country] && [country][1..] == [];
    assert NonEmpty([country]) == [country];
    var joined := Join(NonEmpty(parts), ", ");
    if county == "" && state == "" {
      assert NonEmpty(parts) == [country];
      assert joined == country;
    } else if county == "" {
      assert NonEmpty(parts) == [state, country];
      assert Join([state, country], ", ") == state + ", " + Join([country], ", ");
    } else if state == "" {
      assert NonEmpty(parts) == [county, country];
      assert [county, country][1..] == [country];
      assert Join([county, country], ", ") == county + ", " + Join([country], ", ");
    } else {
      assert NonEmpty(parts) == [county, state, country];
      assert [county, state, country][1..] == [state, country];
      assert Join([state, country], ", ") == state + ", " + Join([country], ", ");
      assert joined == county + ", " + (state + ", " + country);
    }
  }

  lemma DistrictOfColumbiaKey()
    ensures PopulationKey("US", "District of Columbia", "District of Columbia") == DistrictKey
  {
    var dc := "District of Columbia";
    assert dc + ", " + "US" == DistrictKey;
    assert dc + ", " + DistrictKey == DistrictKeyTwice;
  }

  /** The largest population the lookup table gives for `key`, skipping blank
      ones; None when there is none (pandas' max of an empty selection). */
  function LookupPopulation(table: seq<LookupEntry>, key: string): (r: Option<int>)
    ensures r.None? <==>
      forall i :: 0 <= i < |table| && table[i].combinedKey == key ==> table[i].population.None?
    ensures r.Some? ==>
      exists i :: 0 <= i < |table| && table[i].combinedKey == key && table[i].population == r
    ensures r.Some? ==>
      forall i :: 0 <= i < |table| && table[i].combinedKey == key && table[i].population.Some? ==>
        table[i].population.value <= r.value
  {
    if table == [] then None
    else
      var rest := LookupPopulation(table[1..], key);
      var here := if table[0].combinedKey == key then table[0].population else None;
      if here.None? then rest
      else if rest.None? || rest.value < here.value then here
      else rest
  }

  /** The cleaning of one row: a blank County or Province/State becomes '';
      a blank Population becomes 0, is then replaced by the lookup result when
      the JHU data (and with it the lookup table) was loaded, and is -1 where
      that lookup found nothing; a blank Lat or Long becomes 1000. */
  function CleanRow(raw: RawRow, jhuLoaded: bool, lookup: seq<LookupEntry>): (row: Row)
    ensures row.county == (if raw.county.Some? then raw.county.value else "")
    ensures row.state == (if raw.state.Some? then raw.state.value else "")
    ensures jhuLoaded ==>
      var found := LookupPopulation(lookup, PopulationKey(raw.country, row.state, row.county));
      row.population == if found.Some? then found.value else -1
    ensures !jhuLoaded ==> row.population == if raw.population.Some? then raw.population.value else 0
    ensures row.lat == (if raw.lat.Some? then raw.lat.value else UnknownCoordinate)
    ensures row.long == (if raw.long.Some? then raw.long.value else UnknownCoordinate)
    ensures (row.source, row.metric, row.country, row.cells) == (raw.source, raw.metric, raw.country, raw.cells)
    ensures row.dayZero == None
  {
    var county := if raw.county.Some? then raw.county.value else "";
    var state := if raw.state.Some? then raw.state.value else "";
    var population := if raw.population.Some? then raw.population else Some(0);
    var population := if jhuLoaded then LookupPopulation(lookup, PopulationKey(raw.country, state, county)) else population;
    var population := if population.Some? then population.value else -1;
    var lat := if raw.lat.Some? then raw.lat.value else UnknownCoordinate;
    var long := if raw.long.Some? then raw.long.value else UnknownCoordinate;
    Row(raw.source, raw.metric, raw.country, state, county, population, lat, long, None, raw.cells)
  }

  /** When the sources and the lookup table hold no negative population,
      Population -1 marks exactly a row whose lookup found nothing. */
  lemma PopulationSentinel(raw: RawRow, jhuLoaded: bool, lookup: seq<LookupEntry>)
    requires forall i :: 0 <= i < |lookup| && lookup[i].population.Some? ==> lookup[i].population.value >= 0
    requires raw.population.Some? ==> raw.population.value >= 0
    ensures var row := CleanRow(raw, jhuLoaded, lookup);
      && row.population >= -1
      && (row.population == -1 <==>
            jhuLoaded && LookupPopulation(lookup, PopulationKey(raw.country, row.state, row.county)).None?)
  {
  }

  /** Drops, for each listed nation, its rows without a state, in the order
      the nations are listed. */
  function DropNationalDoubleCount(rows: seq<Row>, nations: seq<string>): (r: seq<Row>)
    ensures forall x :: x in r <==> x in rows && !(x.country in nations && x.state == "")
    decreases |nations|
  {
    if nations == [] then rows
    else
      var nation := nations[0];
      DropNationalDoubleCount(Where(rows, (x: Row) => !(x.country == nation && x.state == "")), nations[1..])
  }

  /** The rows kept are the input rows in their order, with some left out. */
  lemma {:induction false} DropNationalIsSubsequence(rows: seq<Row>, nations: seq<string>)
    ensures Subsequence(DropNationalDoubleCount(rows, nations), rows)
    decreases |nations|
  {
    if nations == [] {
      SubsequenceOfSelf(rows);
    } else {
      var nation := nations[0];
      var mid := Where(rows, (x: Row) => !(x.country == nation && x.state == ""));
      WhereSubsequence(rows, (x: Row) => !(x.country == nation && x.state == ""));
      DropNationalIsSubsequence(mid, nations[1..]);
      SubsequenceTransitive(DropNationalDoubleCount(mid, nations[1..]), mid, rows);
    }
  }

  /** A row that is not a state-less row of one of the nations. */
  function Counted(nations: seq<string>): Row -> bool {
    (x: Row) => !(x.country in nations && x.state == "")
  }

  /** Dropping nation by nation is one mask: the rows kept are the input rows
      not state-less in a listed nation, in order and with their
      multiplicity. */
  lemma {:induction false} DropNationalIsWhere(rows: seq<Row>, nations: seq<string>)
    ensures DropNationalDoubleCount(rows, nations) == Where(rows, Counted(nations))
    decreases |nations|
  {
    if nations == [] {
      WhereAll(rows, Counted(nations));
    } else {
      var first := (x: Row) => !(x.country == nations[0] && x.state == "");
      var mid := Where(rows, first);
      DropNationalIsWhere(mid, nations[1..]);
      WhereWhere(rows, first, Counted(nations[1..]), Counted(nations));
    }
  }

  /** The merged table: every source row cleaned, in order, then the national
      double counts dropped. */
  function UnifiedTable(raws: seq<RawRow>, dates: seq<Label>, jhuLoaded: bool, lookup: seq<LookupEntry>): (t: Table)
    ensures !t.hasDayZero && t.dates == dates
    ensures forall x :: x in t.rows <==>
      (exists i :: 0 <= i < |raws| && x == CleanRow(raws[i], jhuLoaded, lookup)) &&
      !(x.country in IgnoreStatesForNationalCount && x.state == "")
    ensures t.rows == Where(seq(|raws|, i requires 0 <= i < |raws| => CleanRow(raws[i], jhuLoaded, lookup)),
      Counted(IgnoreStatesForNationalCount))
  {
    var cleaned := seq(|raws|, i requires 0 <= i < |raws| => CleanRow(raws[i], jhuLoaded, lookup));
    assert forall x :: x in cleaned <==> exists i :: 0 <= i < |raws| && x == CleanRow(raws[i], jhuLoaded, lookup) by {
      forall x | x in cleaned
        ensures exists i :: 0 <= i < |raws| && x == CleanRow(raws[i], jhuLoaded, lookup)
      {
        var i :| 0 <= i < |cleaned| && cleaned[i] == x;
      }
      forall i | 0 <= i < |raws|
        ensures CleanRow(raws[i], jhuLoaded, lookup) in cleaned
      {
        assert cleaned[i] == CleanRow(raws[i], jhuLoaded, lookup);
      }
    }
    DropNationalIsWhere(cleaned, IgnoreStatesForNationalCount);
    Table(false, dates, DropNationalDoubleCount(cleaned, IgnoreStatesForNationalCount))
  }

  /** The tracking project's date "YYYYMMDD" as the label "M/D/YY": month and
      day lose their leading zeros, the year keeps its last two digits. */
  function CtpDateLabel(date: string): string
    requires |date| == 8 && AllDigits(date)
  {
    NumberText(ValueOf(date[4..6])) + "/" + NumberText(ValueOf(date[6..8])) + "/" + date[2..4]
  }

  /** Reading the label back as the tick placement does (splitting on '/')
      gives the month and day values of the date, without leading zeros, and
      the two-digit year. */
  lemma CtpDateRoundTrip(date: string)
    requires |date| == 8 && AllDigits(date)
    ensures var month, day := ValueOf(date[4..6]), ValueOf(date[6..8]);
      && Split(CtpDateLabel(date), '/') == [NumberText(month), NumberText(day), date[2..4]]
      && ValueOf(NumberText(month)) == month
      && ValueOf(NumberText(day)) == day
  {
    var m := NumberText(ValueOf(date[4..6]));
    var d := NumberText(ValueOf(date[6..8]));
    var y := date[2..4];
    DigitsNoSlash(m);
    DigitsNoSlash(d);
    DigitsNoSlash(y);
    SplitThree(m, d, y, '/');
    NumberTextValue(ValueOf(date[4..6]));
    NumberTextValue(ValueOf(date[6..8]));
  }
}
