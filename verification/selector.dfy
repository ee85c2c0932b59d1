/** The selector's entry points in pkg/selector/selector.go: `rawFilter`, `FilterVerbose`
    and `FilterWithOutput`, composed from location resolution, candidate aggregation and
    result finalisation. */
module Selector {
  import opened Wrappers
  import opened Types
  import opened Dispatch
  import opened Instances
  import opened Location
  import opened Candidates
  import opened Ordering
  import opened Finalize

  /** The collaborators whose code is not modelled: the comparators, the derived-attribute
      helpers and the instance-type-offerings paging call. */
  datatype Environment = Environment(
    comparators: Comparators,
    derivations: Derivations,
    offerings: OfferingsSource)

  /** The location `rawFilter` restricts to: the availability zone when one is given, else
      the region when one is given, else none (the empty string). */
  function LocationOf(filters: Filters): string {
    if filters.availabilityZone.Some? then filters.availabilityZone.value
    else if filters.region.Some? then filters.region.value
    else ""
  }

  /** The paging callback's closure for these filters and this location index. */
  function QueryFor(env: Environment, filters: Filters, index: Option<map<string, string>>): Query {
    Query(env.comparators, info => FilterTable(filters, info, env.derivations), index)
  }

  /** The candidate map `rawFilter` builds before sorting: resolve the location (stopping on
      its error), then aggregate the catalog's pages. */
  function CandidateMap(env: Environment, filters: Filters, catalog: Paged<InstanceTypeInfo>)
    : Result<map<string, InstanceTypeInfo>, SelectorError>
  {
    match RetrieveSupportedInLocation(LocationOf(filters), env.offerings)
    case Failure(e) => Failure(e)
    case Success(index) => Collect(QueryFor(env, filters, index), catalog)
  }

  /** What ends up under `name` when the filters' table is the selector's own: the last
      record of that name, if it matches the filters and is offered in the location. */
  function Survivor(env: Environment, filters: Filters, index: Option<map<string, string>>,
                    infos: seq<InstanceTypeInfo>, name: string): Option<InstanceTypeInfo>
  {
    match LastWith(infos, name)
    case None => None
    case Some(last) =>
      if MatchesFilters(env.comparators, env.derivations, filters, last) && IsSupportedInLocation(index, name)
      then Some(last) else None
  }

  /** With the selector's table, no record ever raises a dispatch error. */
  lemma {:induction false} NoDispatchError(env: Environment, filters: Filters, index: Option<map<string, string>>,
                                           infos: seq<InstanceTypeInfo>)
    ensures FirstError(QueryFor(env, filters, index), infos) == None
    ensures forall i | 0 <= i < |infos| ::
      Verdict(QueryFor(env, filters, index), infos[i]) ==
        Success(MatchesFilters(env.comparators, env.derivations, filters, infos[i]) && IsSupportedInLocation(index, infos[i].instanceType))
    decreases |infos|
  {
    forall i | 0 <= i < |infos|
      ensures Verdict(QueryFor(env, filters, index), infos[i]) ==
        Success(MatchesFilters(env.comparators, env.derivations, filters, infos[i]) && IsSupportedInLocation(index, infos[i].instanceType))
    {
      FilterTableOutcome(env.comparators, env.derivations, filters, infos[i]);
    }
    if |infos| > 0 {
      NoDispatchError(env, filters, index, infos[1..]);
    }
  }

  /** The candidate map, once the location resolved to `index`: the catalog fetch's error
      if it failed, else exactly the survivors. */
  lemma CandidateMapOutcome(env: Environment, filters: Filters, catalog: Paged<InstanceTypeInfo>, index: Option<map<string, string>>)
    requires RetrieveSupportedInLocation(LocationOf(filters), env.offerings) == Success(index)
    ensures catalog.failure.Some? ==> CandidateMap(env, filters, catalog) == Failure(CatalogFetchError(catalog.failure.value))
    ensures catalog.failure.None? ==>
      && CandidateMap(env, filters, catalog).Success?
      && KeyedByName(CandidateMap(env, filters, catalog).value)
      && forall name {:trigger Lookup(CandidateMap(env, filters, catalog).value, name)} ::
           Lookup(CandidateMap(env, filters, catalog).value, name) == Survivor(env, filters, index, Flatten(catalog.pages), name)
  {
    var q := QueryFor(env, filters, index);
    var infos := Flatten(catalog.pages);
    NoDispatchError(env, filters, index, infos);
    if catalog.failure.None? {
      var m := CandidateMap(env, filters, catalog).value;
      forall name ensures Lookup(m, name) == Survivor(env, filters, index, infos, name) {
        assert Lookup(m, name) == Expected(q, map[], infos, name);
        var last := LastWith(infos, name);
        if last.Some? {
          LastWithIsAnElement(infos, name);
          var i :| 0 <= i < |infos| && infos[i] == last.value;
        }
      }
    }
  }

  lemma {:induction false} LastWithIsAnElement(infos: seq<InstanceTypeInfo>, name: string)
    ensures LastWith(infos, name).Some? ==>
      LastWith(infos, name).value in infos && LastWith(infos, name).value.instanceType == name
    decreases |infos|
  {
    if |infos| > 0 {
      LastWithIsAnElement(infos[1..], name);
    }
  }

  /** Errors: a malformed location fails before anything is fetched, whatever the catalog
      and offerings; the dispatch errors never occur with the selector's own table. */
  lemma CandidateMapErrors(env: Environment, filters: Filters, catalog: Paged<InstanceTypeInfo>)
    ensures LocationOf(filters) != "" && !IsZoneId(LocationOf(filters)) && !RegionRegex(LocationOf(filters)) ==>
      CandidateMap(env, filters, catalog) == Failure(InvalidLocation(LocationOf(filters)))
    ensures CandidateMap(env, filters, catalog).Failure? ==>
      var e := CandidateMap(env, filters, catalog).error;
      e.InvalidLocation? || e.OfferingsFetchError? || e.CatalogFetchError?
  {
    var r := RetrieveSupportedInLocation(LocationOf(filters), env.offerings);
    if r.Success? {
      CandidateMapOutcome(env, filters, catalog, r.value);
    }
  }

  /** The availability zone wins over the region: when a zone is given, the region does
      not matter at all. */
  lemma AvailabilityZoneTakesPrecedence(env: Environment, filters: Filters, catalog: Paged<InstanceTypeInfo>, region: StrPtr)
    requires filters.availabilityZone.Some?
    ensures CandidateMap(env, filters, catalog) == CandidateMap(env, filters.(region := region), catalog)
  {
    var other := filters.(region := region);
    assert LocationOf(other) == LocationOf(filters);
    var r := RetrieveSupportedInLocation(LocationOf(filters), env.offerings);
    if r.Success? && catalog.failure.None? {
      CandidateMapOutcome(env, filters, catalog, r.value);
      CandidateMapOutcome(env, other, catalog, r.value);
      var a := CandidateMap(env, filters, catalog).value;
      var b := CandidateMap(env, other, catalog).value;
      forall name ensures Lookup(a, name) == Lookup(b, name) {
        var last := LastWith(Flatten(catalog.pages), name);
        if last.Some? {
          assert FilterTable(filters, last.value, env.derivations) == FilterTable(other, last.value, env.derivations);
        }
      }
      SameEntriesSameMap(a, b);
    } else if r.Success? {
      CandidateMapOutcome(env, filters, catalog, r.value);
      CandidateMapOutcome(env, other, catalog, r.value);
    }
  }

  lemma SameEntriesSameMap<K, V>(a: map<K, V>, b: map<K, V>)
    requires forall k {:trigger Lookup(a, k)} {:trigger Lookup(b, k)} :: Lookup(a, k) == Lookup(b, k)
    ensures a == b
  {
    assert forall k :: k in a <==> Lookup(a, k).Some?;
    assert a.Keys == b.Keys by {
      forall k ensures k in a <==> k in b {
        assert Lookup(a, k) == Lookup(b, k);
      }
    }
    forall k | k in a ensures a[k] == b[k] {
      assert Lookup(a, k) == Lookup(b, k);
    }
  }

  /** Identity: with no filter and no location, every instance type of the catalog is a
      candidate, under its last record. */
  lemma NoFiltersKeepEverything(env: Environment, filters: Filters, catalog: Paged<InstanceTypeInfo>)
    requires NoFilters(filters) && LocationOf(filters) == ""
    requires catalog.failure.None?
    ensures CandidateMap(env, filters, catalog).Success?
    ensures forall name {:trigger Lookup(CandidateMap(env, filters, catalog).value, name)} ::
      Lookup(CandidateMap(env, filters, catalog).value, name) == LastWith(Flatten(catalog.pages), name)
  {
    CandidateMapOutcome(env, filters, catalog, None);
    forall name ensures Lookup(CandidateMap(env, filters, catalog).value, name) == LastWith(Flatten(catalog.pages), name) {
      var last := LastWith(Flatten(catalog.pages), name);
      if last.Some? {
        NoFiltersMatchEverything(env.comparators, env.derivations, filters, last.value);
      }
    }
  }

  /** A location restricts the candidates to instance types the index lists; no location
      restricts nothing, and only the filters decide. */
  lemma LocationRestrictsCandidates(env: Environment, filters: Filters, catalog: Paged<InstanceTypeInfo>, index: Option<map<string, string>>, name: string)
    requires RetrieveSupportedInLocation(LocationOf(filters), env.offerings) == Success(index)
    requires CandidateMap(env, filters, catalog).Success?
    ensures index.Some? && name in CandidateMap(env, filters, catalog).value ==> name in index.value
    ensures index.None? ==>
      (name in CandidateMap(env, filters, catalog).value <==>
        LastWith(Flatten(catalog.pages), name).Some? &&
        MatchesFilters(env.comparators, env.derivations, filters, LastWith(Flatten(catalog.pages), name).value))
  {
    CandidateMapOutcome(env, filters, catalog, index);
    assert Lookup(CandidateMap(env, filters, catalog).value, name) == Survivor(env, filters, index, Flatten(catalog.pages), name);
  }

  /** AND composition: removing filters (and keeping the location) only adds candidates. */
  lemma RelaxedFiltersKeepMore(env: Environment, weaker: Filters, stronger: Filters, catalog: Paged<InstanceTypeInfo>)
    requires Relaxed(weaker, stronger)
    requires LocationOf(weaker) == LocationOf(stronger)
    requires CandidateMap(env, stronger, catalog).Success?
    ensures CandidateMap(env, weaker, catalog).Success?
    ensures CandidateMap(env, stronger, catalog).value.Keys <= CandidateMap(env, weaker, catalog).value.Keys
  {
    var r := RetrieveSupportedInLocation(LocationOf(stronger), env.offerings);
    CandidateMapOutcome(env, stronger, catalog, r.value);
    CandidateMapOutcome(env, weaker, catalog, r.value);
    var s := CandidateMap(env, stronger, catalog).value;
    var w := CandidateMap(env, weaker, catalog).value;
    forall name | name in s ensures name in w {
      assert Lookup(s, name) == Survivor(env, stronger, r.value, Flatten(catalog.pages), name);
      assert Lookup(w, name) == Survivor(env, weaker, r.value, Flatten(catalog.pages), name);
      RelaxedFiltersMatchMore(env.comparators, env.derivations, weaker, stronger, LastWith(Flatten(catalog.pages), name).value);
    }
  }

  /** `rawFilter`: the candidates' values, sorted by name, or the first error. */
  method RawFilter(env: Environment, filters: Filters, catalog: Paged<InstanceTypeInfo>)
    returns (r: Result<seq<InstanceTypeInfo>, SelectorError>)
    ensures r.Failure? <==> CandidateMap(env, filters, catalog).Failure?
    ensures r.Failure? ==> r.error == CandidateMap(env, filters, catalog).error
    ensures r.Success? ==> SortedEnumeration(r.value, CandidateMap(env, filters, catalog).value)
  {
    var cands := CandidateMap(env, filters, catalog);
    if cands.Failure? {
      return Failure(cands.error);
    }
    var index := RetrieveSupportedInLocation(LocationOf(filters), env.offerings);
    CandidateMapOutcome(env, filters, catalog, index.value);
    var values, _ := CandidateValues(cands.value);
    var sorted := SortByName(values);
    forall x | x in sorted ensures x in values {
      assert x in multiset(sorted);
    }
    forall x | x in values ensures x in sorted {
      assert x in multiset(values);
    }
    return Success(sorted);
  }

  /** `FilterVerbose`: the raw filter's error, or its result truncated to `MaxResults`.
      A negative `MaxResults` panics in the source once the raw filter has succeeded. */
  method FilterVerbose(env: Environment, filters: Filters, catalog: Paged<InstanceTypeInfo>)
    returns (r: Result<seq<InstanceTypeInfo>, SelectorError>)
    requires CandidateMap(env, filters, catalog).Success? && filters.maxResults.Some? ==> filters.maxResults.value >= 0
    ensures r.Failure? <==> CandidateMap(env, filters, catalog).Failure?
    ensures r.Failure? ==> r.error == CandidateMap(env, filters, catalog).error
    ensures r.Success? ==> IsTopResults(r.value, filters.maxResults, CandidateMap(env, filters, catalog).value)
  {
    var raw := RawFilter(env, filters, catalog);
    if raw.Failure? {
      return Failure(raw.error);
    }
    r := Success(Truncate(filters.maxResults, raw.value));
  }

  /** `FilterWithOutput`: the same as `FilterVerbose`, then the caller's formatter. */
  method FilterWithOutput(env: Environment, filters: Filters, catalog: Paged<InstanceTypeInfo>,
                          output: seq<InstanceTypeInfo> -> seq<string>)
    returns (r: Result<seq<string>, SelectorError>)
    requires CandidateMap(env, filters, catalog).Success? && filters.maxResults.Some? ==> filters.maxResults.value >= 0
    ensures r.Failure? <==> CandidateMap(env, filters, catalog).Failure?
    ensures r.Failure? ==> r.error == CandidateMap(env, filters, catalog).error
    ensures r.Success? ==>
      exists v :: IsTopResults(v, filters.maxResults, CandidateMap(env, filters, catalog).value) && r.value == output(v)
  {
    var raw := RawFilter(env, filters, catalog);
    if raw.Failure? {
      return Failure(raw.error);
    }
    var truncated := Truncate(filters.maxResults, raw.value);
    r := Success(output(truncated));
  }
}
