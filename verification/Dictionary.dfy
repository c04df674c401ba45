/**
  The parts of the .NET dictionary the aggregation relies on: building a
  dictionary from a list of (name, value) pairs, which throws on a repeated
  name, and enumerating a dictionary back into a list of pairs in an order
  the caller cannot rely on.
 */
module Dictionary {
  import opened Results

  /** A (country name, population) pair, as both sources and the result carry it. */
  type Entry = (string, int)

  /** The error `ToDictionary` raises when a key is added a second time. */
  datatype DuplicateKey = DuplicateKey(name: string)

  function Names(entries: seq<Entry>): set<string>
  {
    set i | 0 <= i < |entries| :: entries[i].0
  }

  predicate DistinctNames(entries: seq<Entry>)
  {
    forall i, j :: 0 <= i < j < |entries| ==> entries[i].0 != entries[j].0
  }

  /** LINQ `ToDictionary`: adds the pairs in order and fails on the first
      name that is already present; no result is produced in that case. */
  function ToDictionary(entries: seq<Entry>): (r: Result<map<string, int>, DuplicateKey>)
    ensures r.Success? <==> DistinctNames(entries)
    ensures r.Success? ==> r.value.Keys == Names(entries)
    ensures r.Success? ==> forall i :: 0 <= i < |entries| ==> r.value[entries[i].0] == entries[i].1
    ensures r.Failure? ==>
              exists i, j :: 0 <= i < j < |entries| && entries[i].0 == r.error.name && entries[j].0 == r.error.name
  {
    if |entries| == 0 then Success(map[])
    else
      var init := entries[..|entries| - 1];
      var last := entries[|entries| - 1];
      assert entries == init + [last];
      assert Names(entries) == Names(init) + {last.0} by {
        assert forall i :: 0 <= i < |init| ==> entries[i] == init[i];
      }
      match ToDictionary(init)
      case Failure(e) => Failure(e)
      case Success(m) =>
        if last.0 in m then
          assert last.0 in Names(init);
          Failure(DuplicateKey(last.0))
        else
          Success(m[last.0 := last.1])
  }

  lemma NamesAppend(entries: seq<Entry>, e: Entry)
    ensures Names(entries + [e]) == Names(entries) + {e.0}
  {
    assert forall i :: 0 <= i < |entries| ==> (entries + [e])[i] == entries[i];
    assert (entries + [e])[|entries|] == e;
  }

  /** `entries` lists every key of `m` exactly once, each with its value. */
  ghost predicate Enumerates(m: map<string, int>, entries: seq<Entry>)
  {
    && DistinctNames(entries)
    && (forall i :: 0 <= i < |entries| ==> entries[i].0 in m && m[entries[i].0] == entries[i].1)
    && m.Keys <= Names(entries)
  }

  /** Dictionary enumeration followed by `ToList`: the entries come out in an
      order that the model leaves open, each key once. */
  method Materialise(m: map<string, int>) returns (entries: seq<Entry>)
    ensures Enumerates(m, entries)
    ensures |entries| == |m|
  {
    var rest := m.Keys;
    entries := [];
    while rest != {}
      invariant rest <= m.Keys
      invariant DistinctNames(entries)
      invariant forall i :: 0 <= i < |entries| ==> entries[i].0 in m && entries[i].0 !in rest && m[entries[i].0] == entries[i].1
      invariant m.Keys - rest <= Names(entries)
      invariant |entries| + |rest| == |m|
      decreases rest
    {
      var k :| k in rest;
      NamesAppend(entries, (k, m[k]));
      entries := entries + [(k, m[k])];
      rest := rest - {k};
    }
  }

  /** A list of pairs with distinct names is the enumeration of at most one map. */
  lemma EnumerationDeterminesMap(m1: map<string, int>, m2: map<string, int>, entries: seq<Entry>)
    requires Enumerates(m1, entries) && Enumerates(m2, entries)
    ensures m1 == m2
  {
    forall k | k in m1
      ensures k in m2 && m1[k] == m2[k]
    {
      var i :| 0 <= i < |entries| && entries[i].0 == k;
    }
    forall k | k in m2
      ensures k in m1
    {
      var i :| 0 <= i < |entries| && entries[i].0 == k;
    }
  }

  /** Any two enumerations of the same map hold the same pairs: they differ at
      most in order. */
  lemma EnumerationsArePermutations(m: map<string, int>, s1: seq<Entry>, s2: seq<Entry>)
    requires Enumerates(m, s1) && Enumerates(m, s2)
    ensures multiset(s1) == multiset(s2)
  {
    forall p: Entry
      ensures multiset(s1)[p] == multiset(s2)[p]
    {
      SameElements(m, s1, s2, p);
      SameElements(m, s2, s1, p);
      DistinctCount(s1, p);
      DistinctCount(s2, p);
    }
  }

  lemma SameElements(m: map<string, int>, s1: seq<Entry>, s2: seq<Entry>, p: Entry)
    requires Enumerates(m, s1) && Enumerates(m, s2)
    ensures p in s1 ==> p in s2
  {
    if p in s1 {
      var i :| 0 <= i < |s1| && s1[i] == p;
      assert p.0 in m;
      var j :| 0 <= j < |s2| && s2[j].0 == p.0;
      assert s2[j] == p;
    }
  }

  /** In a list with distinct names every pair occurs at most once. */
  lemma {:induction false} DistinctCount(s: seq<Entry>, p: Entry)
    requires DistinctNames(s)
    ensures multiset(s)[p] == if p in s then 1 else 0
  {
    if |s| > 0 {
      assert s == [s[0]] + s[1..];
      assert DistinctNames(s[1..]) by {
        forall i, j | 0 <= i < j < |s[1..]|
          ensures s[1..][i].0 != s[1..][j].0
        {
          assert s[1..][i] == s[i + 1] && s[1..][j] == s[j + 1];
        }
      }
      DistinctCount(s[1..], p);
      if p == s[0] {
        assert p !in s[1..];
      }
    }
  }
}
