/** Candidate aggregation: the paging callback of `rawFilter` in pkg/selector/selector.go,
    a fold over the catalog's pages that keeps a map from instance-type name to record. */
module Candidates {
  import opened Wrappers
  import opened Types
  import opened Dispatch
  import opened Instances
  import opened Location

  /** What the paging callback closes over: the comparators, the filter table it builds
      for each record, and the location index (`None`: no location restriction). */
  datatype Query = Query(
    comparators: Comparators,
    table: InstanceTypeInfo -> seq<FilterPair>,
    offerings: Option<map<string, string>>)

  /** Every candidate is stored under its own instance-type name. */
  predicate KeyedByName(m: map<string, InstanceTypeInfo>) {
    forall k | k in m :: m[k].instanceType == k
  }

  /** One record of the callback: insert it, drop it again when its type is not offered in
      the location, run the filters, stop on a dispatch error, drop it when a filter fails. */
  function ProcessRecord(q: Query, cands: map<string, InstanceTypeInfo>, info: InstanceTypeInfo)
    : Result<map<string, InstanceTypeInfo>, SelectorError>
  {
    var name := info.instanceType;
    var inserted := cands[name := info];
    var located := if !IsSupportedInLocation(q.offerings, name) then inserted - {name} else inserted;
    match ExecuteFilters(q.comparators, q.table(info), name)
    case Failure(e) => Failure(e)
    case Success(supported) => Success(if !supported then located - {name} else located)
  }

  /** The verdict on one record on its own: the dispatch error, or whether it passes both
      the filters and the location check. */
  function Verdict(q: Query, info: InstanceTypeInfo): Result<bool, SelectorError> {
    match ExecuteFilters(q.comparators, q.table(info), info.instanceType)
    case Failure(e) => Failure(e)
    case Success(ok) => Success(ok && IsSupportedInLocation(q.offerings, info.instanceType))
  }

  /** The error of the first record whose dispatch fails, if any. */
  function FirstError(q: Query, infos: seq<InstanceTypeInfo>): Option<SelectorError> {
    if |infos| == 0 then None
    else if Verdict(q, infos[0]).Failure? then Some(Verdict(q, infos[0]).error)
    else FirstError(q, infos[1..])
  }

  /** The last record named `name`, if any. */
  function LastWith(infos: seq<InstanceTypeInfo>, name: string): Option<InstanceTypeInfo> {
    if |infos| == 0 then None
    else if LastWith(infos[1..], name).Some? then LastWith(infos[1..], name)
    else if infos[0].instanceType == name then Some(infos[0])
    else None
  }

  /** What the candidate map should hold under `name` after `infos` were processed on top
      of `cands`: the last record of that name decides; names not seen keep their entry. */
  function Expected(q: Query, cands: map<string, InstanceTypeInfo>, infos: seq<InstanceTypeInfo>, name: string)
    : Option<InstanceTypeInfo>
  {
    match LastWith(infos, name)
    case None => Lookup(cands, name)
    case Some(last) => if Verdict(q, last) == Success(true) then Some(last) else None
  }

  /** The callback's handling of one record, stated through its verdict. */
  lemma ProcessRecordByVerdict(q: Query, cands: map<string, InstanceTypeInfo>, info: InstanceTypeInfo)
    ensures Verdict(q, info).Failure? ==> ProcessRecord(q, cands, info) == Failure(Verdict(q, info).error)
    ensures Verdict(q, info) == Success(true) ==> ProcessRecord(q, cands, info) == Success(cands[info.instanceType := info])
    ensures Verdict(q, info) == Success(false) ==> ProcessRecord(q, cands, info) == Success(cands - {info.instanceType})
  {
    var name := info.instanceType;
    assert cands[name := info] - {name} == cands - {name};
    assert cands[name := info] - {name} - {name} == cands - {name};
  }

  /** After one record, only the entry under its name has changed, as its verdict says. */
  lemma ProcessRecordEntries(q: Query, cands: map<string, InstanceTypeInfo>, info: InstanceTypeInfo)
    requires ProcessRecord(q, cands, info).Success?
    ensures forall name {:trigger Lookup(ProcessRecord(q, cands, info).value, name)} ::
      Lookup(ProcessRecord(q, cands, info).value, name) ==
        if name == info.instanceType then (if Verdict(q, info) == Success(true) then Some(info) else None)
        else Lookup(cands, name)
  {
    ProcessRecordByVerdict(q, cands, info);
  }

  /** The records of one page, in order; stops at the first dispatch error. */
  function ProcessRecords(q: Query, cands: map<string, InstanceTypeInfo>, infos: seq<InstanceTypeInfo>)
    : (r: Result<map<string, InstanceTypeInfo>, SelectorError>)
    ensures r.Failure? <==> FirstError(q, infos).Some?
    ensures r.Failure? ==> r.error == FirstError(q, infos).value
    ensures r.Success? ==> forall name {:trigger Lookup(r.value, name)} :: Lookup(r.value, name) == Expected(q, cands, infos, name)
    ensures r.Success? && KeyedByName(cands) ==> KeyedByName(r.value)
    decreases |infos|
  {
    if |infos| == 0 then Success(cands)
    else
      ProcessRecordByVerdict(q, cands, infos[0]);
      match ProcessRecord(q, cands, infos[0])
      case Failure(e) => Failure(e)
      case Success(next) =>
        ProcessRecordEntries(q, cands, infos[0]);
        ExpectedSplit(q, cands, next, infos);
        ProcessRecords(q, next, infos[1..])
  }

  lemma ExpectedSplit(q: Query, cands: map<string, InstanceTypeInfo>, next: map<string, InstanceTypeInfo>, infos: seq<InstanceTypeInfo>)
    requires |infos| > 0
    requires forall name {:trigger Lookup(next, name)} ::
      Lookup(next, name) ==
        if name == infos[0].instanceType then (if Verdict(q, infos[0]) == Success(true) then Some(infos[0]) else None)
        else Lookup(cands, name)
    ensures forall name :: Expected(q, next, infos[1..], name) == Expected(q, cands, infos, name)
  {
    forall name ensures Expected(q, next, infos[1..], name) == Expected(q, cands, infos, name) {
      assert Lookup(next, name) == if name == infos[0].instanceType then (if Verdict(q, infos[0]) == Success(true) then Some(infos[0]) else None)
        else Lookup(cands, name);
    }
  }

  lemma {:induction false} ProcessRecordsAppend(q: Query, cands: map<string, InstanceTypeInfo>, a: seq<InstanceTypeInfo>, b: seq<InstanceTypeInfo>)
    ensures ProcessRecords(q, cands, a + b) ==
      match ProcessRecords(q, cands, a)
      case Failure(e) => Failure(e)
      case Success(next) => ProcessRecords(q, next, b)
    decreases |a|
  {
    if |a| == 0 {
      assert a + b == b;
    } else {
      assert (a + b)[0] == a[0];
      assert (a + b)[1..] == a[1..] + b;
      match ProcessRecord(q, cands, a[0])
      case Failure(e) =>
      case Success(next) => ProcessRecordsAppend(q, next, a[1..], b);
    }
  }

  /** All pages, in order (the callback returns `false`, stopping the paging, on the first
      dispatch error). Processing page by page is processing the flattened catalog. */
  function ProcessPages(q: Query, cands: map<string, InstanceTypeInfo>, pages: seq<seq<InstanceTypeInfo>>)
    : (r: Result<map<string, InstanceTypeInfo>, SelectorError>)
    ensures r == ProcessRecords(q, cands, Flatten(pages))
    decreases |pages|
  {
    if |pages| == 0 then Success(cands)
    else
      ProcessRecordsAppend(q, cands, pages[0], Flatten(pages[1..]));
      match ProcessRecords(q, cands, pages[0])
      case Failure(e) => Failure(e)
      case Success(next) => ProcessPages(q, next, pages[1..])
  }

  /** The aggregation of `rawFilter`: a dispatch error wins (the paging stopped before any
      later request), then the catalog fetch's own error, else the candidate map in which
      the last record of each name decides, provided it passes the filters and the
      location check. Either error discards every candidate. */
  function Collect(q: Query, catalog: Paged<InstanceTypeInfo>): (r: Result<map<string, InstanceTypeInfo>, SelectorError>)
    ensures FirstError(q, Flatten(catalog.pages)).Some? ==> r == Failure(FirstError(q, Flatten(catalog.pages)).value)
    ensures FirstError(q, Flatten(catalog.pages)).None? && catalog.failure.Some? ==>
      r == Failure(CatalogFetchError(catalog.failure.value))
    ensures FirstError(q, Flatten(catalog.pages)).None? && catalog.failure.None? ==>
      && r.Success?
      && forall name {:trigger Lookup(r.value, name)} :: Lookup(r.value, name) == Expected(q, map[], Flatten(catalog.pages), name)
    ensures r.Success? ==> KeyedByName(r.value)
  {
    match ProcessPages(q, map[], catalog.pages)
    case Failure(e) => Failure(e)
    case Success(cands) =>
      if catalog.failure.Some? then Failure(CatalogFetchError(catalog.failure.value)) else Success(cands)
  }

  /** `LastWith` finds the record at the last index carrying the name. */
  lemma {:induction false} LastWithIsLastIndex(infos: seq<InstanceTypeInfo>, i: int)
    requires 0 <= i < |infos|
    requires forall j | i < j < |infos| :: infos[j].instanceType != infos[i].instanceType
    ensures LastWith(infos, infos[i].instanceType) == Some(infos[i])
    decreases |infos|
  {
    if i > 0 {
      LastWithIsLastIndex(infos[1..], i - 1);
    } else {
      LastWithAbsent(infos[1..], infos[0].instanceType);
    }
  }

  lemma {:induction false} LastWithAbsent(infos: seq<InstanceTypeInfo>, name: string)
    requires forall j | 0 <= j < |infos| :: infos[j].instanceType != name
    ensures LastWith(infos, name) == None
    decreases |infos|
  {
    if |infos| > 0 {
      LastWithAbsent(infos[1..], name);
    }
  }

  /** The last record of a name decides, even when an earlier record of the same name was
      dropped: the insertion at the head of each record is unconditional. */
  lemma LastRecordDecides(q: Query, catalog: Paged<InstanceTypeInfo>, i: int)
    requires Collect(q, catalog).Success?
    requires 0 <= i < |Flatten(catalog.pages)|
    requires forall j | i < j < |Flatten(catalog.pages)| ::
      Flatten(catalog.pages)[j].instanceType != Flatten(catalog.pages)[i].instanceType
    ensures var info := Flatten(catalog.pages)[i];
      Lookup(Collect(q, catalog).value, info.instanceType) == (if Verdict(q, info) == Success(true) then Some(info) else None)
  {
    LastWithIsLastIndex(Flatten(catalog.pages), i);
  }

  /** A name that no record carries is never a candidate. */
  lemma UnseenNamesAbsent(q: Query, catalog: Paged<InstanceTypeInfo>, name: string)
    requires Collect(q, catalog).Success?
    requires forall j | 0 <= j < |Flatten(catalog.pages)| :: Flatten(catalog.pages)[j].instanceType != name
    ensures name !in Collect(q, catalog).value
  {
    LastWithAbsent(Flatten(catalog.pages), name);
    assert Lookup(Collect(q, catalog).value, name) == None;
  }
}
