# Country population aggregation — a Dafny model

This project models the aggregation service of a small C# backend. The service
merges per-country population figures from two sources into one list of
`(country name, population)` pairs:

- a statistics provider returns a flat list of pairs;
- a relational store holds `Country → State → City` trees, where each city
  carries a population. The store contributes one value per country: the sum
  over all cities of all its states.

The merge seeds a dictionary from the provider's list. Then it assigns each
store row into the dictionary by country name, so the store value always
replaces the provider value. Finally it returns the dictionary entries as a
list, in whatever order the dictionary enumerates them.

Modules:

- `Results` is a success-or-failure type for the one operation that throws.
- `Entities` holds the store's ownership tree as immutable datatypes (`City`,
  `State`, `Country`). It also holds the store query's population: flatten
  the cities of all states, then sum. A separate per-state sum serves as the
  reference definition.
- `Dictionary` covers the .NET behaviour the service relies on. `ToDictionary`
  fails on a repeated key and does not keep the last value. Enumeration
  (`Materialise`) lists every key once, in an order the model leaves open.
  `Enumerates` relates such a list to its map.
- `Aggregation` holds the store rows, the overwrite fold and the merge on maps
  (`Aggregate`). It also holds a declarative description of the result
  (`IsMergeOf`), proved to be met and to admit only one map, and the two entry
  points `GetCountryPopulations` and `GetCountryPopulationsAsync`.
- `Scenarios` restates the service's unit-test cases as lemmas about the merged
  map.

The sources are inputs. `stats` is the provider's list and `countries` is the
store's Country table, in query order. Results are compared as maps, or as
multisets of pairs, and never as ordered lists. The merge is a pure function
of its two inputs. So calling it twice on unchanged sources gives the same map,
and `EnumerationsArePermutations` shows that the listed pairs agree up to order.

Facts about the code that the model keeps:

- `ToDictionary` at implementations/AggregationService.cs:13 throws when the
  provider repeats a name. The model returns `Failure(DuplicateKey(name))` and
  no result. It does not keep the last value.
- The code does not check country names or population values, so the model
  accepts any non-null string and any integer. A null name is the exception:
  `ToDictionary` throws on it, and the model cannot represent it (see
  "## Left out").
- No error identifies which source failed. Failures of either source
  propagate as exceptions, and the model takes both sources as values.
- The store may hold two `Country` rows with the same name, since no uniqueness
  constraint is visible. The later row then wins, as the indexer assignment
  does.

## Model

| member | source | states |
|---|---|---|
| Entities.PopulationIsSumOverStates | implementations/AggregationService.cs:18 | A country's store value (flatten the cities of all its states, then sum) equals the sum over its states of each state's city total: every city of every state is counted exactly once |
| Entities.SumPopulationAppend | implementations/AggregationService.cs:18 | Summing the cities of two lists joined together is the sum of the two lists' totals |
| Entities.CityCountedInPopulation | implementations/AggregationService.cs:18 | When no city count is negative, a country's store value is at least the population of any one city in any of its states |
| Entities.SumPopulation | implementations/AggregationService.cs:18 | `Sum(ci => ci.Population)`: an empty city list sums to 0. With no negative count, the total is non-negative and at least every single city's count |
| Entities.Population | implementations/AggregationService.cs:18 | The per-country value of the query: a country without states gets 0, and with no negative city count the value is non-negative. What the value is, city by city, is stated by `PopulationIsSumOverStates` |
| Entities.CitiesOf | implementations/AggregationService.cs:18 | `SelectMany` over the states: every city of every state is in the flattened list, and every listed city belongs to one of the states |
| Dictionary.ToDictionary | implementations/AggregationService.cs:13 | Building the dictionary succeeds exactly when the provider's names are pairwise distinct. On success its keys are exactly those names, each mapped to its own value. On failure the reported name occurs at least twice |
| Dictionary.Materialise | implementations/AggregationService.cs:26 | Turning the dictionary into a list lists every key exactly once with its value, and nothing else; the list's length is the dictionary's size |
| Dictionary.EnumerationDeterminesMap | implementations/AggregationService.cs:26 | A list of pairs with distinct names enumerates at most one map, so comparing results as maps is well defined |
| Dictionary.EnumerationsArePermutations | implementations/AggregationService.cs:26 | Two enumerations of the same map hold the same pairs (equal multisets): only the order can differ |
| Dictionary.DistinctCount | implementations/AggregationService.cs:26 | In a list with distinct names each pair occurs at most once |
| Aggregation.Overwrite | implementations/AggregationService.cs:21-24 | After assigning the store rows in order, the keys are the seed's keys plus the rows' names. A name from the rows holds the value of its last row. A seed key that no row names keeps its seed value |
| Aggregation.OverwriteAll | implementations/AggregationService.cs:21-24 | The assignment loop computes exactly the fold `Overwrite` of the rows over the seed dictionary |
| Aggregation.Aggregate | implementations/AggregationService.cs:11-27 | The merge fails exactly when a provider name repeats. Otherwise its keys are exactly the union of provider names and store country names |
| Aggregation.DbRows | implementations/AggregationService.cs:15-19 | The store query yields one row per country, in query order. Row i carries country i's name and the sum over its states of each state's city total, so the rows' names are exactly the country names |
| Aggregation.DbRowNames | implementations/AggregationService.cs:15-19 | The store query yields one row per country, and the rows' names are exactly the country names |
| Aggregation.AggregateIsMerge | implementations/AggregationService.cs:13-26 | With distinct provider names, the merge meets `IsMergeOf`. Its keys are the union of both sources' names. Each store country holds the summed population of its last row. Each provider-only name keeps the provider's value |
| Aggregation.MergeIsUnique | implementations/AggregationService.cs:13-26 | Any two maps meeting `IsMergeOf` for the same inputs are equal, so the description determines the result completely |
| Aggregation.LastCountryWithName | implementations/AggregationService.cs:21-24 | Every store country name has a last row carrying it, which is the row whose value survives the assignments |
| Aggregation.StoreValueWins | implementations/AggregationService.cs:15-24 | A store country's entry is the per-state sum of its city populations, whether or not the provider also lists the name. A differing provider value for that name never appears in the result |
| Aggregation.ProviderOnlyKept | implementations/AggregationService.cs:13-26 | A provider name that no store country carries appears in the result with the provider's value unchanged |
| Aggregation.EmptyStoreGivesProviderData | implementations/AggregationService.cs:13-26 | With no store countries, the result's keys are exactly the provider names, each with the provider's value |
| Aggregation.EmptyProviderGivesStoreData | implementations/AggregationService.cs:13-26 | With an empty provider list, the result's keys are exactly the store country names, each with its summed population |
| Aggregation.DuplicateProviderNameFails | implementations/AggregationService.cs:13 | If the provider lists a name twice, the call yields no result, and the error names a country the provider repeated |
| Aggregation.GetCountryPopulations | implementations/AggregationService.cs:11-27 | The synchronous call fails exactly on a repeated provider name, and the error names a repeated name. On success the list holds each key of the merged map `Aggregate` exactly once, with its value, and nothing else. So it holds each name of either source once, with the value `AggregateIsMerge` describes |
| Aggregation.GetCountryPopulationsAsync | implementations/AggregationService.cs:29-45 | The asynchronous call has the same contract as the synchronous one: the same failure condition, and on success an enumeration of the same merged map |
| Aggregation.VariantsAgree | implementations/AggregationService.cs:29-45 | Any list the synchronous call may return and any list the asynchronous call may return for the same inputs hold the same pairs, up to order |
| Scenarios.StoreEmptyReturnsProviderData | Backend.Tests/AggregationServiceTests.cs:72-86 | Provider Germany 81,000,000 and Chile 17,000,000 with an empty store give exactly those two entries |
| Scenarios.ProviderEmptyReturnsStoreData | Backend.Tests/AggregationServiceTests.cs:88-103 | Two Bavarian cities of 1,500,000 and 500,000 with an empty provider give Germany 2,000,000 |
| Scenarios.StoreOverridesProviderOnSharedCountry | Backend.Tests/AggregationServiceTests.cs:105-121 | Store Germany from two states (1,500,000 + 3,500,000) against provider Germany 81,000,000 gives Germany 5,000,000 only |
| Scenarios.CombinesCountriesFromBothSources | Backend.Tests/AggregationServiceTests.cs:123-137 | Store Germany 1,500,000 and provider Chile 17,000,000 give both entries |
| Scenarios.BothEmptyGivesEmpty | Backend.Tests/AggregationServiceTests.cs:139-148 | Two empty sources give the empty map |
| Scenarios.SumsAcrossCitiesAndStates | Backend.Tests/AggregationServiceTests.cs:150-167 | Four USA cities across three states sum to 15,400,000 |
| Scenarios.PartialOverlap | Backend.Tests/AggregationServiceTests.cs:169-191 | Store Germany and France with provider Germany and Chile give Germany from the store, France from the store and Chile from the provider |

## Left out

- Database access: the EF Core query, its translation to SQL, and `AppDbContext` (implementations/AppDbContext.cs). The store is a sequence of country trees given as input.
- The statistics provider (`IStatService` and its concrete implementation). It is a foreign dependency, and its returned list is an input.
- Failures of either source, such as an unreachable database or a provider error. The code does not handle them and they propagate as exceptions. The model has no way for an input to fail.
- `Task`/`await` in the asynchronous variant. It adds no logic, so the asynchronous entry point runs the same steps as the synchronous one.
- Program.cs: dependency wiring and console output.
- A city is reduced to a name and an `int` population, the two fields the query and the tests read. Identifiers and back-references are dropped, because the merge never reads them.
- 32-bit `int` arithmetic: the model's integers are unbounded, so an overflow of the SQL `SUM` is not modelled.
- Entities.SumPopulation: a country with no cities is given population 0. This is an assumption, because the SQL translation of `Sum` over an empty set is not visible.
- The row order of the store query is not modelled. The model takes the rows in the order given, and this matters only when two countries share a name.
- Dictionary.ToDictionary: a null provider name (ArgumentNullException at implementations/AggregationService.cs:13) is not representable, because a Dafny `string` cannot be null. That error path is therefore not modelled.
- Dictionary.ToDictionary: on failure, the contract says only that the reported name occurs twice. It does not say that this is the first repeat in list order. The .NET exception type and message are reduced to the name.
