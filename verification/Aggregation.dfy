/**
  The aggregation service: seed a working dictionary from the statistics
  provider's (country, population) pairs, overwrite it with one row per
  country of the hierarchy store (the sum over all cities of all states),
  and hand the entries back as a list of pairs. Store values always win
  over provider values for the same country name.

  The two sources are inputs: `stats` is what the provider returned and
  `countries` is the store's Country table with its owned states and cities,
  in the order the query yields them.
 */
module Aggregation {
  import opened Results
  import opened Entities
  import opened Dictionary

  /** The store query's projection: one row per country, in query order,
      carrying the country's name and the sum of its states' city totals. */
  function DbRows(countries: seq<Country>): (rows: seq<Entry>)
    ensures |rows| == |countries|
    ensures Names(rows) == CountryNames(countries)
    ensures forall i :: 0 <= i < |countries| ==>
              rows[i].0 == countries[i].countryName && rows[i].1 == SumOverStates(countries[i].states)
  {
    var rows := seq(|countries|, i requires 0 <= i < |countries| => (countries[i].countryName, Population(countries[i])));
    assert forall i :: 0 <= i < |countries| ==> rows[i].1 == SumOverStates(countries[i].states) by {
      forall i | 0 <= i < |countries| {
        PopulationIsSumOverStates(countries[i]);
      }
    }
    assert forall i :: 0 <= i < |countries| ==> rows[i].0 == countries[i].countryName;
    rows
  }

  function CountryNames(countries: seq<Country>): set<string>
  {
    set i | 0 <= i < |countries| :: countries[i].countryName
  }

  /** No later row carries the same name as row `i`. */
  ghost predicate IsLastOccurrence(rows: seq<Entry>, i: int)
    requires 0 <= i < |rows|
  {
    forall j :: i < j < |rows| ==> rows[j].0 != rows[i].0
  }

  /** No later country carries the same name as country `i`. */
  ghost predicate IsLastCountry(countries: seq<Country>, i: int)
    requires 0 <= i < |countries|
  {
    forall j :: i < j < |countries| ==> countries[j].countryName != countries[i].countryName
  }

  /** The store rows assigned one after another into the dictionary with the
      indexer, which inserts a new name and replaces the value of an
      existing one. Written as a fold over the rows' prefixes, so that the
      last row is the last assignment. */
  function Overwrite(seed: map<string, int>, rows: seq<Entry>): (r: map<string, int>)
    ensures r.Keys == seed.Keys + Names(rows)
    ensures forall i :: 0 <= i < |rows| && IsLastOccurrence(rows, i) ==> r[rows[i].0] == rows[i].1
    ensures forall k :: k in seed && k !in Names(rows) ==> r[k] == seed[k]
  {
    if |rows| == 0 then seed
    else
      var init := rows[..|rows| - 1];
      var last := rows[|rows| - 1];
      assert rows == init + [last];
      NamesAppend(init, last);
      assert forall i :: 0 <= i < |init| ==> rows[i] == init[i];
      Overwrite(seed, init)[last.0 := last.1]
  }

  /** The whole merge on maps: fails exactly when the provider repeats a
      name; otherwise every name of either source is a key of the result. */
  function Aggregate(stats: seq<Entry>, countries: seq<Country>): (r: Result<map<string, int>, DuplicateKey>)
    ensures r.Success? <==> DistinctNames(stats)
    ensures r.Success? ==> r.value.Keys == Names(stats) + CountryNames(countries)
  {
    var seed :- ToDictionary(stats);
    DbRowNames(countries);
    Success(Overwrite(seed, DbRows(countries)))
  }

  lemma DbRowNames(countries: seq<Country>)
    ensures Names(DbRows(countries)) == CountryNames(countries)
  {
    var rows := DbRows(countries);
    assert forall i :: 0 <= i < |countries| ==> rows[i].0 == countries[i].countryName;
  }

  /** What a merged result must be, stated without the fold: the keys are the
      union of both sources' names; a country of the store has the population
      of the last store row with its name; a provider name the store does
      not know keeps the provider's value. */
  ghost predicate IsMergeOf(stats: seq<Entry>, countries: seq<Country>, m: map<string, int>)
  {
    && m.Keys == Names(stats) + CountryNames(countries)
    && (forall i :: 0 <= i < |countries| && IsLastCountry(countries, i) ==>
          countries[i].countryName in m && m[countries[i].countryName] == Population(countries[i]))
    && (forall i :: 0 <= i < |stats| && stats[i].0 !in CountryNames(countries) ==>
          stats[i].0 in m && m[stats[i].0] == stats[i].1)
  }

  /** The merge meets its declarative description. */
  lemma AggregateIsMerge(stats: seq<Entry>, countries: seq<Country>)
    requires DistinctNames(stats)
    ensures Aggregate(stats, countries).Success?
    ensures IsMergeOf(stats, countries, Aggregate(stats, countries).value)
  {
    var rows := DbRows(countries);
    DbRowNames(countries);
    var m := Aggregate(stats, countries).value;
    forall i | 0 <= i < |countries| && IsLastCountry(countries, i)
      ensures m[countries[i].countryName] == Population(countries[i])
    {
      assert IsLastOccurrence(rows, i);
      PopulationIsSumOverStates(countries[i]);
    }
  }

  /** The description admits one map only, so it pins the merge down. */
  lemma MergeIsUnique(stats: seq<Entry>, countries: seq<Country>, m1: map<string, int>, m2: map<string, int>)
    requires IsMergeOf(stats, countries, m1) && IsMergeOf(stats, countries, m2)
    ensures m1 == m2
  {
    forall k | k in m1
      ensures m1[k] == m2[k]
    {
      if k in CountryNames(countries) {
        var i := LastCountryWithName(countries, k);
      } else {
        var i :| 0 <= i < |stats| && stats[i].0 == k;
      }
    }
  }

  /** Every store name has a last country carrying it. */
  lemma {:induction false} LastCountryWithName(countries: seq<Country>, name: string) returns (i: int)
    requires name in CountryNames(countries)
    ensures 0 <= i < |countries| && countries[i].countryName == name && IsLastCountry(countries, i)
  {
    var n := |countries| - 1;
    if countries[n].countryName == name {
      i := n;
    } else {
      var init := countries[..n];
      assert name in CountryNames(init) by {
        var j :| 0 <= j < |countries| && countries[j].countryName == name;
        assert init[j] == countries[j];
      }
      i := LastCountryWithName(init, name);
      assert forall j :: 0 <= j < n ==> init[j] == countries[j];
    }
  }

  /** Store precedence: whatever the provider says, a country's entry is the
      summed population of its last store row, city by city over all its
      states. This covers both a name known to both sources and one known to
      the store only. */
  lemma StoreValueWins(stats: seq<Entry>, countries: seq<Country>, i: int)
    requires DistinctNames(stats)
    requires 0 <= i < |countries| && IsLastCountry(countries, i)
    ensures Aggregate(stats, countries).Success?
    ensures countries[i].countryName in Aggregate(stats, countries).value
    ensures Aggregate(stats, countries).value[countries[i].countryName] == SumOverStates(countries[i].states)
    ensures forall j :: 0 <= j < |stats| && stats[j].0 == countries[i].countryName &&
                        stats[j].1 != SumOverStates(countries[i].states) ==>
                          Aggregate(stats, countries).value[stats[j].0] != stats[j].1
  {
    AggregateIsMerge(stats, countries);
    PopulationIsSumOverStates(countries[i]);
  }

  /** A name the store does not know keeps the provider's value. */
  lemma ProviderOnlyKept(stats: seq<Entry>, countries: seq<Country>, j: int)
    requires DistinctNames(stats)
    requires 0 <= j < |stats| && stats[j].0 !in CountryNames(countries)
    ensures Aggregate(stats, countries).Success?
    ensures stats[j].0 in Aggregate(stats, countries).value
    ensures Aggregate(stats, countries).value[stats[j].0] == stats[j].1
  {
    AggregateIsMerge(stats, countries);
  }

  /** With an empty store the result is the provider's data as given. */
  lemma EmptyStoreGivesProviderData(stats: seq<Entry>)
    requires DistinctNames(stats)
    ensures Aggregate(stats, []).Success?
    ensures Aggregate(stats, []).value.Keys == Names(stats)
    ensures forall j :: 0 <= j < |stats| ==> Aggregate(stats, []).value[stats[j].0] == stats[j].1
  {
    assert CountryNames([]) == {};
  }

  /** With an empty provider the result is the store's data. */
  lemma EmptyProviderGivesStoreData(countries: seq<Country>)
    ensures Aggregate([], countries).Success?
    ensures Aggregate([], countries).value.Keys == CountryNames(countries)
    ensures forall i :: 0 <= i < |countries| && IsLastCountry(countries, i) ==>
                          Aggregate([], countries).value[countries[i].countryName] == Population(countries[i])
  {
    assert Names([]) == {};
    AggregateIsMerge([], countries);
  }

  /** A provider name listed twice aborts the whole call: there is no result,
      and the error names a country that occurs twice. */
  lemma DuplicateProviderNameFails(stats: seq<Entry>, countries: seq<Country>, i: int, j: int)
    requires 0 <= i < j < |stats| && stats[i].0 == stats[j].0
    ensures Aggregate(stats, countries).Failure?
    ensures exists a, b :: 0 <= a < b < |stats| && stats[a].0 == Aggregate(stats, countries).error.name
                                                && stats[b].0 == Aggregate(stats, countries).error.name
  {
  }

  /** The indexer-assignment loop over the store rows. */
  method OverwriteAll(seed: map<string, int>, rows: seq<Entry>) returns (m: map<string, int>)
    ensures m == Overwrite(seed, rows)
  {
    m := seed;
    var i := 0;
    while i < |rows|
      invariant 0 <= i <= |rows|
      invariant m == Overwrite(seed, rows[..i])
    {
      assert rows[..i + 1][..i] == rows[..i];
      m := m[rows[i].0 := rows[i].1];
      i := i + 1;
    }
    assert rows[..|rows|] == rows;
  }

  /** The synchronous entry point. On success the list holds each key of the
      merged map once, with its value; it fails exactly when the provider
      repeats a name. */
  method GetCountryPopulations(stats: seq<Entry>, countries: seq<Country>) returns (r: Result<seq<Entry>, DuplicateKey>)
    ensures r.Failure? <==> !DistinctNames(stats)
    ensures r.Failure? ==> exists i, j :: 0 <= i < j < |stats| && stats[i].0 == r.error.name && stats[j].0 == r.error.name
    ensures r.Success? ==> Enumerates(Aggregate(stats, countries).value, r.value)
  {
    var statResults := ToDictionary(stats);
    if statResults.Failure? {
      return Failure(statResults.error);
    }
    var dbResults := DbRows(countries);
    var merged := OverwriteAll(statResults.value, dbResults);
    var entries := Materialise(merged);
    return Success(entries);
  }

  /** The asynchronous entry point: the store read is awaited, and the merge
      that follows is the same one. */
  method GetCountryPopulationsAsync(stats: seq<Entry>, countries: seq<Country>) returns (r: Result<seq<Entry>, DuplicateKey>)
    ensures r.Failure? <==> !DistinctNames(stats)
    ensures r.Failure? ==> exists i, j :: 0 <= i < j < |stats| && stats[i].0 == r.error.name && stats[j].0 == r.error.name
    ensures r.Success? ==> Enumerates(Aggregate(stats, countries).value, r.value)
  {
    var statResults := ToDictionary(stats);
    if statResults.Failure? {
      return Failure(statResults.error);
    }
    var dbResults := DbRows(countries);
    var merged := OverwriteAll(statResults.value, dbResults);
    var entries := Materialise(merged);
    return Success(entries);
  }

  /** The two entry points agree: any list either may return for the same
      inputs holds the same pairs as any list the other may return, in some
      order. */
  lemma VariantsAgree(stats: seq<Entry>, countries: seq<Country>, sync: seq<Entry>, async: seq<Entry>)
    requires DistinctNames(stats)
    requires Enumerates(Aggregate(stats, countries).value, sync)
    requires Enumerates(Aggregate(stats, countries).value, async)
    ensures multiset(sync) == multiset(async)
    ensures |sync| == |async|
  {
    EnumerationsArePermutations(Aggregate(stats, countries).value, sync, async);
    assert |multiset(sync)| == |sync| && |multiset(async)| == |async|;
  }
}
