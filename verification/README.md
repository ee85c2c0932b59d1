# EC2 instance-type selector: filter pipeline model

A Dafny model of the local filter pipeline of the instance selector
(`pkg/selector/selector.go`). Given a user's `Filters`, the selector:

1. picks a location (the availability zone if given, else the region), classifies it as
   a zone id, a zone name or a region, and fetches the instance types offered there;
2. pages through the whole instance-type catalog. Each record is inserted into a
   candidate map and then removed again if it is not offered in the location or fails a
   filter. A dispatch error stops the paging and discards everything;
3. sorts the surviving records by instance-type name and truncates them to `MaxResults`.

Filter dispatch (`executeFilters`) matches each present filter with its record attribute
by the dynamic shape of both: a string against a string set or a string, a bool against
a bool, an integer range against an `int64` or an `int`, a float against a float. It
combines the comparators' verdicts with AND. A mismatched pairing is an error.

Modules, one per component:

| file | module | models |
|---|---|---|
| wrappers.dfy | `Wrappers` | `Option` (nil pointers), `Result` (Go `(value, error)`) |
| types.dfy | `Types` | range filter, location type, errors, paged listings |
| dispatch.dfy | `Dispatch` | `executeFilters` over a table of filter pairs |
| location.dfy | `Location` | the three location patterns, classification, offerings index, membership |
| instances.dfy | `Instances` | instance-type records, `Filters`, the 18-entry filter table |
| candidates.dfy | `Candidates` | the paging callback of `rawFilter` as a fold |
| ordering.dfy | `Ordering` | `strings.Compare` order, `sortInstanceTypeInfo` |
| finalize.dfy | `Finalize` | collecting the map's values, `truncateResults` |
| selector.dfy | `Selector` | `rawFilter`, `FilterVerbose`, `FilterWithOutput` |

The comparators (`isSupportedFromStrings`, `isSupportedWithRangeInt64`, ...) and the
derived-attribute helpers (`getTotalGpuMemory`, `supportSyntaxToBool`,
`calculateVCpusToMemoryRatio`, `getNetworkPerformance`, ...) are defined outside
`selector.go`. The model takes them as function-valued parameters (`Comparators`,
`Derivations`), so no proof depends on what they compute. The two paging calls are
inputs too. The catalog is a `Paged` value: the pages delivered, then optionally the error
of the next request. The offerings call is a function from (location type, location) to
such a value.

Three behaviours of the code that a reader might not expect, modelled as written:
- The record is inserted unconditionally before it is checked (selector.go:144). A later
  record with an already-dropped name therefore re-inserts it, and the last record of
  each name decides (`Candidates.LastRecordDecides`).
- Dispatch fails in two distinct ways: "Unable to process" for a mismatched
  attribute and "No filter handler found" for an unknown filter-value type.
- The region pattern has no `$` anchor, so `us-east-1ab` is classified as a region
  (`Location.ClassifyUnanchoredRegionExample`).

## Model

| member | source | states |
|---|---|---|
| Dispatch.ExecuteFilters | pkg/selector/selector.go:213-277 | Result is `(true, nil)` exactly when every present filter has a legal shape pairing and its comparator accepts. It is `(true, nil)` when all filters are absent. For a well-shaped table it is `(AND of the comparators, nil)`. A `false` result names a legal pair whose comparator rejected. An error names a present mismatched pair: "no handler" for an unknown filter type, "unsupported spec" otherwise |
| Dispatch.OutcomeTrueIsOrderIndependent | pkg/selector/selector.go:214-276 | The filter map's iteration order (unspecified in Go) never changes whether a record is accepted |
| Dispatch.WellShapedOutcomeIsOrderIndependent | pkg/selector/selector.go:214-276 | With no mismatched pair, the whole result is independent of iteration order |
| Dispatch.RelaxingKeepsAcceptance | pkg/selector/selector.go:217-220 | Making filters absent never turns an accepted record into a rejected one |
| Location.IsRegion | pkg/selector/selector.go:37-38 | The left-to-right matcher accepts exactly the strings some prefix of which the region regular expression matches |
| Location.IsZoneName | pkg/selector/selector.go:41-42 | The matcher accepts exactly the strings the anchored zone-name regular expression matches |
| Location.ZoneNameIsAlsoRegion | pkg/selector/selector.go:295-300 | Every zone name also matches the region pattern, so the zone-name test must come first |
| Location.ZoneIdExcludesOthers | pkg/selector/selector.go:38-42 | A zone id matches neither the region nor the zone-name pattern |
| Location.IsZoneId | pkg/selector/selector.go:39-40 | This predicate is its own definition: the zone-id pattern, with exactly eight characters (three lower-case letters, a digit 1-9, `-az`, a digit 1-9). Its consequences are stated by Location.ZoneIdExcludesOthers and Location.Classify |
| Location.Classify | pkg/selector/selector.go:295-303 | Zone id first, then zone name, then region. Each result holds exactly when its pattern matches and no earlier one does. The location is invalid exactly when it is neither a zone id nor a region (zone names are regions) |
| Location.ClassifyZoneIdExample | pkg/selector/selector.go:39-40 | `use1-az1` is a zone id |
| Location.ClassifyZoneNameExample | pkg/selector/selector.go:41-42 | `us-east-1a` is a zone name |
| Location.ClassifyRegionExample | pkg/selector/selector.go:37-38 | `us-east-1` is a region |
| Location.ClassifyLongRegionExample | pkg/selector/selector.go:37-38 | `us-gov-west-1`, with the optional segment, is a region |
| Location.ClassifyUnanchoredRegionExample | pkg/selector/selector.go:38 | `us-east-1ab` is classified as a region because the pattern is not anchored at the end |
| Location.ClassifyInvalidExample | pkg/selector/selector.go:301-302 | `not-a-zone` is an invalid location |
| Location.IndexPage | pkg/selector/selector.go:305-307 | After one page, each instance type maps to the location of its last offering on the page; other entries are unchanged |
| Location.IndexPages | pkg/selector/selector.go:304-309 | After all pages, each instance type maps to the location of its last offering in the whole listing |
| Location.RetrieveSupportedInLocation | pkg/selector/selector.go:282-314 | Empty location: no index and no error. A location of no known shape is an error. A failed offerings fetch is an error. Otherwise the index lists exactly the offered instance types |
| Location.IsSupportedInLocation | pkg/selector/selector.go:316-322 | This predicate is its own definition: true when there is no index, else when the instance type is a key of the index. Its effect on the candidates is stated by Selector.LocationRestrictsCandidates |
| Location.NoFetchWithoutValidLocation | pkg/selector/selector.go:283-303 | For an empty or malformed location the result is the same whatever the offerings service would answer, so nothing is fetched |
| Instances.FilterTable | pkg/selector/selector.go:149-168 | This function is its own definition: the 18 filter pairs built for one record. What they decide is stated by Instances.FilterTableWellShaped and Instances.FilterTableOutcome |
| Instances.FilterTableWellShaped | pkg/selector/selector.go:149-168 | Every entry of the selector's table pairs a filter with an attribute its comparator accepts |
| Instances.FilterTableOutcome | pkg/selector/selector.go:149-168 | With the selector's table, dispatch never fails and returns whether every present filter accepts the record |
| Instances.NoFiltersMatchEverything | pkg/selector/selector.go:217-220 | With every filter absent, every record matches |
| Instances.RelaxedFiltersMatchMore | pkg/selector/selector.go:227-276 | Removing filter fields keeps every matching record matching |
| Candidates.ProcessRecord | pkg/selector/selector.go:143-182 | This function is its own definition, step by step: insert the record, delete it if it is not offered in the location, run dispatch, stop on an error, delete it if a filter rejects it. Its net effect is stated by Candidates.ProcessRecordByVerdict |
| Candidates.ProcessRecordByVerdict | pkg/selector/selector.go:143-182 | One record of the callback. A dispatch error is returned. If the record passes both the location and the filters it is stored under its name. Otherwise its name is removed |
| Candidates.ProcessRecords | pkg/selector/selector.go:142-183 | Over one page, the result is an error exactly when some record's dispatch fails, and it is the first such error. Otherwise each name holds its last record if that record passes, and unseen names keep their entry. Every record stays keyed by its own name |
| Candidates.ProcessPages | pkg/selector/selector.go:141-186 | Processing page by page is the same as processing the flattened catalog |
| Candidates.Collect | pkg/selector/selector.go:141-192 | The source tests the fetch error first (:187-189) and the dispatch error second (:190-192). They never occur together: a dispatch error makes the callback return `false` (:178), which ends paging before any later request, so no fetch error can follow it. The model therefore reports a dispatch error whenever one occurs, and otherwise the fetch error. Either error discards all candidates. Otherwise the map holds, for each name, its last record if that record passes the filters and the location check |
| Candidates.LastRecordDecides | pkg/selector/selector.go:143-182 | The record at the last index carrying a name decides that name's entry |
| Candidates.UnseenNamesAbsent | pkg/selector/selector.go:137-144 | A name no record carries is never a candidate |
| Ordering.LexLeTotal | pkg/selector/selector.go:206 | Any two names are comparable |
| Ordering.LexLeAntisymmetric | pkg/selector/selector.go:206 | Names that compare both ways are equal |
| Ordering.LexLeTransitive | pkg/selector/selector.go:206 | The name order is transitive |
| Ordering.SortByName | pkg/selector/selector.go:202-209 | The result is in ascending name order and is a permutation of the input. Distinct names stay distinct |
| Ordering.SortedIsUnique | pkg/selector/selector.go:202-209 | Two ascending sequences with distinct names and the same elements are equal. The sort's outcome is therefore determined |
| Finalize.CandidateValues | pkg/selector/selector.go:194-197 | The keys are visited in some order, each key exactly once, and the slice holds the value of each visited key at the same position. So the slice has one entry per key and contains exactly the map's values. Names are distinct when the map is keyed by name |
| Finalize.Truncate | pkg/selector/selector.go:111-120 | Absent `MaxResults`: the input unchanged. `N >= length`: the input. Otherwise a result of length N. Always a prefix, never reordered |
| Finalize.TopResultsAreUnique | pkg/selector/selector.go:194-209 | The final result does not depend on the map's iteration order |
| Finalize.TopResultsAreSmallest | pkg/selector/selector.go:111-120 | The result is sorted, holds `min(N, candidates)` candidates, and every candidate left out sorts after every one kept |
| Selector.LocationOf | pkg/selector/selector.go:125-130 | This function is its own definition: the availability zone if given, else the region if given, else the empty string. Its consequence is stated by Selector.AvailabilityZoneTakesPrecedence |
| Selector.CandidateMap | pkg/selector/selector.go:124-192 | This function is its own definition: resolve the location, returning its error, then fold the catalog's pages. Its outcome is stated by Selector.CandidateMapOutcome and Selector.CandidateMapErrors |
| Selector.NoDispatchError | pkg/selector/selector.go:174-179 | With the selector's own table no record raises a dispatch error, and each record's verdict is "matches the filters and is offered in the location" |
| Selector.CandidateMapOutcome | pkg/selector/selector.go:124-192 | Once the location has resolved: a failed catalog fetch is returned; otherwise each name holds its last record if that record matches the filters and is offered in the location |
| Selector.CandidateMapErrors | pkg/selector/selector.go:131-134 | A malformed location fails with the invalid-location error whatever the catalog. The only possible errors are the location, offerings-fetch and catalog-fetch errors |
| Selector.AvailabilityZoneTakesPrecedence | pkg/selector/selector.go:125-130 | When an availability zone is given, the region has no effect |
| Selector.NoFiltersKeepEverything | pkg/selector/selector.go:217-220 | With no filters and no location, every instance type in the catalog is a candidate, under its last record |
| Selector.LocationRestrictsCandidates | pkg/selector/selector.go:316-322 | With an index, every candidate is listed in it. Without one, only the filters decide |
| Selector.RelaxedFiltersKeepMore | pkg/selector/selector.go:174-182 | Removing filters at the same location only adds candidates |
| Selector.RawFilter | pkg/selector/selector.go:124-199 | Fails exactly when the candidate map fails, with its error. Otherwise returns the candidates' values in strictly ascending name order |
| Selector.FilterVerbose | pkg/selector/selector.go:90-97 | The raw filter's error, or its sorted result truncated to `MaxResults` |
| Selector.FilterWithOutput | pkg/selector/selector.go:101-109 | The same outcome as `FilterVerbose`, passed through the caller's formatter |

## Left out

- `New` and the user-agent setup (selector.go:72-79): session plumbing with no filter semantics.
- `Filter` (selector.go:83-86): it is `FilterWithOutput` with a default formatter. That formatter lives in the outputs package, which is not part of this model.
- The output formatter: `FilterWithOutput` takes it as a function parameter.
- The comparators and the derived-attribute helpers. Their code is not part of this model, so they are parameters. The model assumes their result types (GPU helpers `*int64`, `supportSyntaxToBool` `*bool`, `calculateVCpusToMemoryRatio` `*float64`, `getNetworkPerformance` `*int`), because the shape of the table depends on them.
- The `Filters` type is declared outside this file. Its field types are read off their use in the table.
- Float semantics: a float filter is only a dispatch tag here, carried as a `real`.
- The AWS paging calls and the requests they send (the "location" filter key, the `Values` list). The responses are inputs. A fetch error is an opaque string; the offerings error is wrapped and the catalog error is passed through.
- The text of the error messages, which is built by reflection; each error is a variant carrying the filter name and instance type.
- Integer widths: `int`/`int64` are unbounded integers. No overflow can arise in the modelled code.
- Nil-pointer panics on fields the source dereferences without a check (`InstanceType`, `ProcessorInfo`, `VCpuInfo`, ...): records always carry those fields.
- Selector.FilterVerbose: a negative `MaxResults` makes the Go slice expression panic once the raw filter has succeeded. The model requires it to be non-negative in exactly that case. Selector.FilterWithOutput and Finalize.Truncate carry the same requirement.
- The location strings stored in the offerings index are kept but never read by the filter, as in the source.
