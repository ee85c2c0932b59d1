/** Instance-type records, the user's filters and the filter table the selector builds
    for each record (`filterToInstanceSpecMappingPairs` in pkg/selector/selector.go). */
module Instances {
  import opened Wrappers
  import opened Types
  import opened Dispatch

  datatype GpuDeviceInfo = GpuDeviceInfo(name: StrPtr, count: Option<int>, memorySizeInMiB: Option<int>)
  datatype GpuInfo = GpuInfo(gpus: seq<GpuDeviceInfo>, totalGpuMemoryInMiB: Option<int>)
  datatype FpgaInfo = FpgaInfo(totalFpgaMemoryInMiB: Option<int>)

  /** The attributes of one instance type the filters look at; `None` is a nil field. */
  datatype InstanceTypeInfo = InstanceTypeInfo(
    instanceType: string,
    supportedArchitectures: seq<StrPtr>,
    supportedUsageClasses: seq<StrPtr>,
    supportedRootDeviceTypes: seq<StrPtr>,
    hibernationSupported: Option<bool>,
    defaultVCpus: Option<int>,
    sizeInMiB: Option<int>,
    gpuInfo: Option<GpuInfo>,
    supportedStrategies: seq<StrPtr>,
    hypervisor: StrPtr,
    bareMetal: Option<bool>,
    burstablePerformanceSupported: Option<bool>,
    fpgaInfo: Option<FpgaInfo>,
    enaSupport: StrPtr,
    currentGeneration: Option<bool>,
    maximumNetworkInterfaces: Option<int>,
    networkPerformance: StrPtr)

  /** The user's filters. Every field is optional; `None` means "do not filter on this". */
  datatype Filters = Filters(
    cpuArchitecture: StrPtr,
    usageClass: StrPtr,
    rootDeviceType: StrPtr,
    hibernationSupported: Option<bool>,
    vcpusRange: Option<IntRangeFilter>,
    memoryRange: Option<IntRangeFilter>,
    gpuMemoryRange: Option<IntRangeFilter>,
    gpusRange: Option<IntRangeFilter>,
    placementGroupStrategy: StrPtr,
    hypervisor: StrPtr,
    bareMetal: Option<bool>,
    burstable: Option<bool>,
    fpga: Option<bool>,
    enaSupport: Option<bool>,
    vcpusToMemoryRatio: Option<real>,
    currentGeneration: Option<bool>,
    networkInterfaces: Option<IntRangeFilter>,
    networkPerformance: Option<IntRangeFilter>,
    maxResults: Option<int>,
    availabilityZone: StrPtr,
    region: StrPtr)

  /** The derived-attribute helpers. Their bodies live outside the modelled file, so they
      are parameters; only their result types are fixed. */
  datatype Derivations = Derivations(
    totalGpuMemory: Option<GpuInfo> -> Option<int>,
    totalGpusCount: Option<GpuInfo> -> Option<int>,
    supportSyntaxToBool: StrPtr -> Option<bool>,
    vcpusToMemoryRatio: (Option<int>, Option<int>) -> Option<real>,
    networkPerformance: StrPtr -> Option<int>)

  function StringValue(f: StrPtr): Option<FilterValue> {
    match f case None => None case Some(s) => Some(StringFilter(s))
  }

  function BoolValue(f: Option<bool>): Option<FilterValue> {
    match f case None => None case Some(b) => Some(BoolFilter(b))
  }

  function RangeValue(f: Option<IntRangeFilter>): Option<FilterValue> {
    match f case None => None case Some(r) => Some(IntRangeValue(r))
  }

  function FloatValue(f: Option<real>): Option<FilterValue> {
    match f case None => None case Some(x) => Some(FloatFilter(x))
  }

  /** The filter table for one record: each filter's key, the user's value and the
      record attribute it is compared against. */
  function FilterTable(filters: Filters, info: InstanceTypeInfo, d: Derivations): seq<FilterPair> {
    [ FilterPair("cpuArchitecture", StringValue(filters.cpuArchitecture), StringsSpec(info.supportedArchitectures)),
      FilterPair("usageClass", StringValue(filters.usageClass), StringsSpec(info.supportedUsageClasses)),
      FilterPair("rootDeviceType", StringValue(filters.rootDeviceType), StringsSpec(info.supportedRootDeviceTypes)),
      FilterPair("hibernationSupported", BoolValue(filters.hibernationSupported), BoolSpec(info.hibernationSupported)),
      FilterPair("vcpusRange", RangeValue(filters.vcpusRange), Int64Spec(info.defaultVCpus)),
      FilterPair("memoryRange", RangeValue(filters.memoryRange), Int64Spec(info.sizeInMiB)),
      FilterPair("gpuMemoryRange", RangeValue(filters.gpuMemoryRange), Int64Spec(d.totalGpuMemory(info.gpuInfo))),
      FilterPair("gpusRange", RangeValue(filters.gpusRange), Int64Spec(d.totalGpusCount(info.gpuInfo))),
      FilterPair("placementGroupStrategy", StringValue(filters.placementGroupStrategy), StringsSpec(info.supportedStrategies)),
      FilterPair("hypervisor", StringValue(filters.hypervisor), StringSpec(info.hypervisor)),
      FilterPair("baremetal", BoolValue(filters.bareMetal), BoolSpec(info.bareMetal)),
      FilterPair("burstable", BoolValue(filters.burstable), BoolSpec(info.burstablePerformanceSupported)),
      FilterPair("fpga", BoolValue(filters.fpga), BoolSpec(Some(info.fpgaInfo.Some?))),
      FilterPair("enaSupport", BoolValue(filters.enaSupport), BoolSpec(d.supportSyntaxToBool(info.enaSupport))),
      FilterPair("vcpusToMemoryRatio", FloatValue(filters.vcpusToMemoryRatio), FloatSpec(d.vcpusToMemoryRatio(info.defaultVCpus, info.sizeInMiB))),
      FilterPair("currentGeneration", BoolValue(filters.currentGeneration), BoolSpec(info.currentGeneration)),
      FilterPair("networkInterfaces", RangeValue(filters.networkInterfaces), Int64Spec(info.maximumNetworkInterfaces)),
      FilterPair("networkPerformance", RangeValue(filters.networkPerformance), IntSpec(d.networkPerformance(info.networkPerformance)))
    ]
  }

  /** The table pairs every filter with an attribute its comparator takes, so the
      dispatch errors can never be raised by the selector's own table. */
  lemma FilterTableWellShaped(filters: Filters, info: InstanceTypeInfo, d: Derivations)
    ensures AllWellShaped(FilterTable(filters, info, d))
  {
  }

  /** The record passes every filter of the user's (the AND of the table). */
  predicate MatchesFilters(c: Comparators, d: Derivations, filters: Filters, info: InstanceTypeInfo) {
    AllPass(c, FilterTable(filters, info, d))
  }

  /** With the selector's table, dispatch always succeeds, and succeeds with `true`
      exactly when every present filter's comparator accepts the record. */
  lemma FilterTableOutcome(c: Comparators, d: Derivations, filters: Filters, info: InstanceTypeInfo)
    ensures ExecuteFilters(c, FilterTable(filters, info, d), info.instanceType) == Success(MatchesFilters(c, d, filters, info))
  {
    FilterTableWellShaped(filters, info, d);
  }

  /** No filter field is given. */
  predicate NoFilters(f: Filters) {
    && f.cpuArchitecture.None? && f.usageClass.None? && f.rootDeviceType.None?
    && f.hibernationSupported.None? && f.vcpusRange.None? && f.memoryRange.None?
    && f.gpuMemoryRange.None? && f.gpusRange.None? && f.placementGroupStrategy.None?
    && f.hypervisor.None? && f.bareMetal.None? && f.burstable.None? && f.fpga.None?
    && f.enaSupport.None? && f.vcpusToMemoryRatio.None? && f.currentGeneration.None?
    && f.networkInterfaces.None? && f.networkPerformance.None?
  }

  /** Absent filters never exclude: with none given, every record matches. */
  lemma NoFiltersMatchEverything(c: Comparators, d: Derivations, filters: Filters, info: InstanceTypeInfo)
    requires NoFilters(filters)
    ensures MatchesFilters(c, d, filters, info)
  {
    var table := FilterTable(filters, info, d);
    assert forall i | 0 <= i < |table| :: table[i].value.None?;
  }

  predicate Drops<T(==)>(weaker: Option<T>, stronger: Option<T>) {
    weaker.None? || weaker == stronger
  }

  /** `weaker` is `stronger` with some filter fields removed (the other fields are free). */
  predicate Relaxed(weaker: Filters, stronger: Filters) {
    && Drops(weaker.cpuArchitecture, stronger.cpuArchitecture)
    && Drops(weaker.usageClass, stronger.usageClass)
    && Drops(weaker.rootDeviceType, stronger.rootDeviceType)
    && Drops(weaker.hibernationSupported, stronger.hibernationSupported)
    && Drops(weaker.vcpusRange, stronger.vcpusRange)
    && Drops(weaker.memoryRange, stronger.memoryRange)
    && Drops(weaker.gpuMemoryRange, stronger.gpuMemoryRange)
    && Drops(weaker.gpusRange, stronger.gpusRange)
    && Drops(weaker.placementGroupStrategy, stronger.placementGroupStrategy)
    && Drops(weaker.hypervisor, stronger.hypervisor)
    && Drops(weaker.bareMetal, stronger.bareMetal)
    && Drops(weaker.burstable, stronger.burstable)
    && Drops(weaker.fpga, stronger.fpga)
    && Drops(weaker.enaSupport, stronger.enaSupport)
    && Drops(weaker.vcpusToMemoryRatio, stronger.vcpusToMemoryRatio)
    && Drops(weaker.currentGeneration, stronger.currentGeneration)
    && Drops(weaker.networkInterfaces, stronger.networkInterfaces)
    && Drops(weaker.networkPerformance, stronger.networkPerformance)
  }

  /** AND composition over the real table: removing filters can only let more records match. */
  lemma RelaxedFiltersMatchMore(c: Comparators, d: Derivations, weaker: Filters, stronger: Filters, info: InstanceTypeInfo)
    requires Relaxed(weaker, stronger)
    requires MatchesFilters(c, d, stronger, info)
    ensures MatchesFilters(c, d, weaker, info)
  {
    var a := FilterTable(stronger, info, d);
    var b := FilterTable(weaker, info, d);
    forall i | 0 <= i < |b| ensures Passes(c, b[i]) {
      assert Passes(c, a[i]);
    }
  }
}
