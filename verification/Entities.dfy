/**
  The hierarchy store's entities: a country owns states, a state owns cities,
  and a city carries a population count. The store is modelled as an
  immutable ownership tree; identifiers and back-references of the
  relational schema play no part in the aggregation and are dropped.
 */
module Entities {

  datatype City = City(cityName: string, population: int)

  datatype State = State(stateName: string, cities: seq<City>)

  datatype Country = Country(countryName: string, states: seq<State>)

  /** LINQ `Sum` over the cities' populations; the empty list sums to 0.
      With no negative count the total is non-negative and bounds every
      single city's count. */
  function SumPopulation(cities: seq<City>): (r: int)
    ensures |cities| == 0 ==> r == 0
    ensures (forall i :: 0 <= i < |cities| ==> cities[i].population >= 0) ==>
              r >= 0 && forall i :: 0 <= i < |cities| ==> r >= cities[i].population
  {
    if |cities| == 0 then 0
    else
      assert forall i :: 1 <= i < |cities| ==> cities[1..][i - 1] == cities[i];
      cities[0].population + SumPopulation(cities[1..])
  }

  /** All cities of all the given states, state by state (LINQ `SelectMany`). */
  function CitiesOf(states: seq<State>): (r: seq<City>)
    ensures forall s, c :: s in states && c in s.cities ==> c in r
    ensures forall c :: c in r ==> exists s :: s in states && c in s.cities
  {
    if |states| == 0 then [] else states[0].cities + CitiesOf(states[1..])
  }

  /** A country's population as the store's query computes it: flatten the
      cities of every state, then sum their populations. A country without
      states gets 0; with no negative city count the result is non-negative. */
  function Population(country: Country): (r: int)
    ensures |country.states| == 0 ==> r == 0
    ensures (forall s, c :: s in country.states && c in s.cities ==> c.population >= 0) ==> r >= 0
  {
    var cities := CitiesOf(country.states);
    assert forall i :: 0 <= i < |cities| ==> cities[i] in cities;
    SumPopulation(cities)
  }

  /** Independent reference: sum per state, then sum the state totals. */
  function SumOverStates(states: seq<State>): int
  {
    if |states| == 0 then 0 else SumPopulation(states[0].cities) + SumOverStates(states[1..])
  }

  /** Summing a concatenation is summing the parts. */
  lemma {:induction false} SumPopulationAppend(a: seq<City>, b: seq<City>)
    ensures SumPopulation(a + b) == SumPopulation(a) + SumPopulation(b)
  {
    if |a| == 0 {
      assert a + b == b;
    } else {
      assert (a + b)[1..] == a[1..] + b;
      SumPopulationAppend(a[1..], b);
    }
  }

  /** Flattening and then summing equals summing each state and adding the
      state totals: every city of every state is counted exactly once. */
  lemma {:induction false} PopulationIsSumOverStates(country: Country)
    ensures Population(country) == SumOverStates(country.states)
  {
    CitiesOfSum(country.states);
  }

  lemma {:induction false} CitiesOfSum(states: seq<State>)
    ensures SumPopulation(CitiesOf(states)) == SumOverStates(states)
  {
    if |states| > 0 {
      SumPopulationAppend(states[0].cities, CitiesOf(states[1..]));
      CitiesOfSum(states[1..]);
    }
  }

  /** With no negative city counts, a country's population is at least the
      population of any one of its cities. */
  lemma CityCountedInPopulation(country: Country, s: State, c: City)
    requires forall st, ci :: st in country.states && ci in st.cities ==> ci.population >= 0
    requires s in country.states && c in s.cities
    ensures Population(country) >= c.population
  {
    var cities := CitiesOf(country.states);
    assert c in cities;
    assert forall i :: 0 <= i < |cities| ==> cities[i] in cities;
    var k :| 0 <= k < |cities| && cities[k] == c;
  }
}
