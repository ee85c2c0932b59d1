/** Result finalisation in pkg/selector/selector.go: the candidate map's values collected
    into a slice, sorted by name (`sortInstanceTypeInfo`) and cut to `MaxResults`
    (`truncateResults`). */
module Finalize {
  import opened Wrappers
  import opened Instances
  import opened Candidates
  import opened Ordering

  /** The values of the candidate map, in whatever order the map yields them (Go's map
      iteration order is unspecified; here it is an arbitrary choice of the next key).
      `keys` is the order in which the keys were visited: each key exactly once, and
      `s[i]` is the value under `keys[i]`. */
  method CandidateValues(m: map<string, InstanceTypeInfo>) returns (s: seq<InstanceTypeInfo>, ghost keys: seq<string>)
    ensures |keys| == |s| == |m|
    ensures forall i, j | 0 <= i < j < |keys| :: keys[i] != keys[j]
    ensures forall k :: k in m <==> k in keys
    ensures forall i | 0 <= i < |s| :: keys[i] in m && s[i] == m[keys[i]]
    ensures forall x :: x in s <==> x in m.Values
    ensures KeyedByName(m) ==> DistinctNames(s)
  {
    var rest := m.Keys;
    keys := [];
    s := [];
    while rest != {}
      invariant rest <= m.Keys
      invariant |keys| == |s| && |s| + |rest| == |m.Keys|
      invariant forall i | 0 <= i < |keys| :: keys[i] in m && keys[i] !in rest && s[i] == m[keys[i]]
      invariant forall k | k in m && k !in rest :: k in keys
      invariant forall i, j | 0 <= i < j < |keys| :: keys[i] != keys[j]
      decreases rest
    {
      var k :| k in rest;
      s := s + [m[k]];
      keys := keys + [k];
      rest := rest - {k};
    }
    forall x | x in m.Values ensures x in s {
      var k :| k in m && m[k] == x;
      var i :| 0 <= i < |keys| && keys[i] == k;
      assert s[i] == x;
    }
  }

  /** `truncateResults` keeps the whole slice when `MaxResults` is absent and its first
      `min(N, |s|)` elements otherwise. A negative `N` makes the Go slice expression panic. */
  function Truncate<T>(maxResults: Option<int>, s: seq<T>): (r: seq<T>)
    requires maxResults.Some? ==> maxResults.value >= 0
    ensures maxResults.None? ==> r == s
    ensures maxResults.Some? && maxResults.value >= |s| ==> r == s
    ensures maxResults.Some? && maxResults.value < |s| ==> |r| == maxResults.value
    ensures r <= s
  {
    match maxResults
    case None => s
    case Some(n) =>
      var upper := if n > |s| then |s| else n;
      s[..upper]
  }

  /** `s` lists the values of `m` in ascending, strictly increasing name order. */
  predicate SortedEnumeration(s: seq<InstanceTypeInfo>, m: map<string, InstanceTypeInfo>) {
    && SortedByName(s) && DistinctNames(s)
    && |s| == |m|
    && (forall x | x in s :: x in m.Values)
    && (forall x | x in m.Values :: x in s)
  }

  /** `v` is what the selector returns for candidate map `m`: the sorted values, truncated. */
  ghost predicate IsTopResults(v: seq<InstanceTypeInfo>, maxResults: Option<int>, m: map<string, InstanceTypeInfo>) {
    && (maxResults.Some? ==> maxResults.value >= 0)
    && exists all :: SortedEnumeration(all, m) && v == Truncate(maxResults, all)
  }

  /** Determinism: however the map's values were collected, the result is the same. */
  lemma TopResultsAreUnique(v: seq<InstanceTypeInfo>, w: seq<InstanceTypeInfo>, maxResults: Option<int>, m: map<string, InstanceTypeInfo>)
    requires IsTopResults(v, maxResults, m) && IsTopResults(w, maxResults, m)
    ensures v == w
  {
    var a :| SortedEnumeration(a, m) && v == Truncate(maxResults, a);
    var b :| SortedEnumeration(b, m) && w == Truncate(maxResults, b);
    SortedIsUnique(a, b);
  }

  /** The result is sorted, has `min(N, |m|)` (or `|m|`) candidates, and they are the
      candidates with the smallest names: any candidate left out sorts after every one kept. */
  lemma TopResultsAreSmallest(v: seq<InstanceTypeInfo>, maxResults: Option<int>, m: map<string, InstanceTypeInfo>)
    requires IsTopResults(v, maxResults, m)
    ensures SortedByName(v) && DistinctNames(v)
    ensures forall x | x in v :: x in m.Values
    ensures maxResults.None? ==> |v| == |m|
    ensures maxResults.Some? ==> |v| == if maxResults.value < |m| then maxResults.value else |m|
    ensures forall x, y | x in m.Values && x !in v && y in v :: LexLe(y.instanceType, x.instanceType)
  {
    var all :| SortedEnumeration(all, m) && v == Truncate(maxResults, all);
    assert v == all[..|v|];
    assert forall k | 0 <= k < |v| :: v[k] == all[k];
    forall x, y | x in m.Values && x !in v && y in v ensures LexLe(y.instanceType, x.instanceType) {
      var i :| 0 <= i < |all| && all[i] == x;
      var j :| 0 <= j < |v| && v[j] == y;
      assert all[j] == y;
      assert j < |v| <= i;
    }
  }
}
