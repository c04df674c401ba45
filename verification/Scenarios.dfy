/**
  The service's unit-test scenarios, restated on the map the merge builds.
  Each store is written as the country tree the test seeds.
 */
module Scenarios {
  import opened Results
  import opened Entities
  import opened Dictionary
  import opened Aggregation

  lemma StoreEmptyReturnsProviderData()
    ensures Aggregate([("Germany", 81_000_000), ("Chile", 17_000_000)], [])
            == Success(map["Germany" := 81_000_000, "Chile" := 17_000_000])
  {
  }

  lemma ProviderEmptyReturnsStoreData()
    ensures Aggregate([], [Country("Germany", [State("Bavaria", [City("Munich", 1_500_000), City("Nuremberg", 500_000)])])])
            == Success(map["Germany" := 2_000_000])
  {
  }

  lemma StoreOverridesProviderOnSharedCountry()
    ensures Aggregate([("Germany", 81_000_000)],
                      [Country("Germany", [State("Bavaria", [City("Munich", 1_500_000)]),
                                           State("Berlin", [City("Berlin", 3_500_000)])])])
            == Success(map["Germany" := 5_000_000])
  {
    var stats := [("Germany", 81_000_000)];
    var countries := [Country("Germany", [State("Bavaria", [City("Munich", 1_500_000)]),
                                          State("Berlin", [City("Berlin", 3_500_000)])])];
    assert stats[0].0 in Names(stats);
    assert Names(stats) == {"Germany"};
    assert countries[0].countryName in CountryNames(countries);
    assert CountryNames(countries) == {"Germany"};
    StoreValueWins(stats, countries, 0);
    var m := Aggregate(stats, countries).value;
    assert SumOverStates(countries[0].states) == 5_000_000;
    assert m == map["Germany" := 5_000_000];
  }

  lemma CombinesCountriesFromBothSources()
    ensures Aggregate([("Chile", 17_000_000)], [Country("Germany", [State("Bavaria", [City("Munich", 1_500_000)])])])
            == Success(map["Germany" := 1_500_000, "Chile" := 17_000_000])
  {
    var stats := [("Chile", 17_000_000)];
    var countries := [Country("Germany", [State("Bavaria", [City("Munich", 1_500_000)])])];
    assert stats[0].0 in Names(stats);
    assert Names(stats) == {"Chile"};
    assert countries[0].countryName in CountryNames(countries);
    assert CountryNames(countries) == {"Germany"};
    StoreValueWins(stats, countries, 0);
    ProviderOnlyKept(stats, countries, 0);
    var m := Aggregate(stats, countries).value;
    assert SumOverStates(countries[0].states) == 1_500_000;
    assert m == map["Germany" := 1_500_000, "Chile" := 17_000_000];
  }

  lemma BothEmptyGivesEmpty()
    ensures Aggregate([], []) == Success(map[])
  {
  }

  lemma SumsAcrossCitiesAndStates()
    ensures Aggregate([], [Country("USA", [State("California", [City("Los Angeles", 4_000_000), City("San Francisco", 800_000)]),
                                           State("New York", [City("New York City", 8_300_000)]),
                                           State("Texas", [City("Houston", 2_300_000)])])])
            == Success(map["USA" := 15_400_000])
  {
  }

  lemma PartialOverlap()
    ensures Aggregate([("Germany", 81_000_000), ("Chile", 17_000_000)],
                      [Country("Germany", [State("Bavaria", [City("Munich", 1_500_000)])]),
                       Country("France", [State("Ile-de-France", [City("Paris", 2_100_000)])])])
            == Success(map["Germany" := 1_500_000, "France" := 2_100_000, "Chile" := 17_000_000])
  {
    var stats := [("Germany", 81_000_000), ("Chile", 17_000_000)];
    var countries := [Country("Germany", [State("Bavaria", [City("Munich", 1_500_000)])]),
                      Country("France", [State("Ile-de-France", [City("Paris", 2_100_000)])])];
    var expected := map["Germany" := 1_500_000, "France" := 2_100_000, "Chile" := 17_000_000];
    PartialOverlapIsMerge(stats, countries, expected);
    AggregateIsMerge(stats, countries);
    MergeIsUnique(stats, countries, Aggregate(stats, countries).value, expected);
  }

  /** The expected map of the partial-overlap case meets the merge's description. */
  lemma PartialOverlapIsMerge(stats: seq<Entry>, countries: seq<Country>, expected: map<string, int>)
    requires stats == [("Germany", 81_000_000), ("Chile", 17_000_000)]
    requires countries == [Country("Germany", [State("Bavaria", [City("Munich", 1_500_000)])]),
                           Country("France", [State("Ile-de-France", [City("Paris", 2_100_000)])])]
    requires expected == map["Germany" := 1_500_000, "France" := 2_100_000, "Chile" := 17_000_000]
    ensures DistinctNames(stats)
    ensures IsMergeOf(stats, countries, expected)
  {
    assert Names(stats) == {"Germany", "Chile"} by {
      assert stats[0].0 in Names(stats) && stats[1].0 in Names(stats);
    }
    assert CountryNames(countries) == {"Germany", "France"} by {
      assert countries[0].countryName in CountryNames(countries) && countries[1].countryName in CountryNames(countries);
    }
    assert Population(countries[0]) == 1_500_000 by {
      PopulationIsSumOverStates(countries[0]);
    }
    assert Population(countries[1]) == 2_100_000 by {
      PopulationIsSumOverStates(countries[1]);
    }
  }
}
