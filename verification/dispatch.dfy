/** Filter dispatch: `executeFilters` in pkg/selector/selector.go.
    A filter pair joins one (possibly absent) filter value with the instance spec it is
    compared against; the comparator is chosen by the dynamic shape of both. */
module Dispatch {
  import opened Wrappers
  import opened Types

  /** The dynamic type of a present filter value. `OtherFilter` is any type the switch has
      no case for. */
  datatype FilterValue =
    | StringFilter(str: string)
    | BoolFilter(flag: bool)
    | IntRangeValue(range: IntRangeFilter)
    | FloatFilter(number: real)
    | OtherFilter(typeName: string)

  /** The dynamic type of an instance spec; the inner `Option` is a nil pointer of that type. */
  datatype InstanceSpec =
    | StringsSpec(strs: seq<StrPtr>)
    | StringSpec(str: StrPtr)
    | BoolSpec(flag: Option<bool>)
    | Int64Spec(wide: Option<int>)
    | IntSpec(native: Option<int>)
    | FloatSpec(number: Option<real>)

  /** One entry of the filter table; `value == None` means the user gave no such filter. */
  datatype FilterPair = FilterPair(name: string, value: Option<FilterValue>, spec: InstanceSpec)

  /** The comparators. Their bodies live outside the modelled file, so they are parameters
      and nothing below depends on what they compute. */
  datatype Comparators = Comparators(
    fromStrings: (seq<StrPtr>, string) -> bool,
    fromString: (StrPtr, string) -> bool,
    withBool: (Option<bool>, bool) -> bool,
    withRangeInt64: (Option<int>, IntRangeFilter) -> bool,
    withRangeInt: (Option<int>, IntRangeFilter) -> bool,
    withFloat64: (Option<real>, real) -> bool)

  /** The legal pairings of filter-value shape with instance-spec shape. */
  predicate Compatible(v: FilterValue, spec: InstanceSpec) {
    match v
    case StringFilter(_) => spec.StringsSpec? || spec.StringSpec?
    case BoolFilter(_) => spec.BoolSpec?
    case IntRangeValue(_) => spec.Int64Spec? || spec.IntSpec?
    case FloatFilter(_) => spec.FloatSpec?
    case OtherFilter(_) => false
  }

  /** The comparator a compatible pairing selects, applied. */
  function Compare(c: Comparators, v: FilterValue, spec: InstanceSpec): bool
    requires Compatible(v, spec)
  {
    match v
    case StringFilter(s) =>
      (match spec
       case StringsSpec(xs) => c.fromStrings(xs, s)
       case StringSpec(x) => c.fromString(x, s))
    case BoolFilter(b) => c.withBool(spec.flag, b)
    case IntRangeValue(r) =>
      (match spec
       case Int64Spec(x) => c.withRangeInt64(x, r)
       case IntSpec(x) => c.withRangeInt(x, r))
    case FloatFilter(f) => c.withFloat64(spec.number, f)
  }

  /** A pair that is absent, or present with a legal pairing. */
  predicate WellShaped(p: FilterPair) {
    p.value.None? || Compatible(p.value.value, p.spec)
  }

  /** A pair the instance satisfies: absent, or legal and accepted by its comparator. */
  predicate Passes(c: Comparators, p: FilterPair) {
    p.value.None? || (Compatible(p.value.value, p.spec) && Compare(c, p.value.value, p.spec))
  }

  /** Every filter of the table is satisfied (AND over the table, absent ones vacuously). */
  predicate AllPass(c: Comparators, pairs: seq<FilterPair>) {
    forall i | 0 <= i < |pairs| :: Passes(c, pairs[i])
  }

  predicate AllWellShaped(pairs: seq<FilterPair>) {
    forall i | 0 <= i < |pairs| :: WellShaped(pairs[i])
  }

  /** The error a mismatched present pair reports. */
  function MismatchError(p: FilterPair, instanceType: string): SelectorError
    requires !WellShaped(p)
  {
    if p.value.value.OtherFilter? then NoFilterHandler(p.name, instanceType)
    else UnsupportedInstanceSpec(p.name, instanceType)
  }

  /** `executeFilters`: walk the table, skip absent filters, stop with `false` at the first
      failing comparator and with an error at the first mismatched pairing. The table is
      walked in the order given (the source walks a Go map, whose order is unspecified;
      see `OutcomeTrueIsOrderIndependent` and `WellShapedOutcomeIsOrderIndependent`). */
  function ExecuteFilters(c: Comparators, pairs: seq<FilterPair>, instanceType: string)
    : (r: Result<bool, SelectorError>)
    ensures r == Success(true) <==> AllPass(c, pairs)
    ensures AllWellShaped(pairs) ==> r == Success(AllPass(c, pairs))
    ensures (forall i | 0 <= i < |pairs| :: pairs[i].value.None?) ==> r == Success(true)
    ensures r == Success(false) ==>
      exists i | 0 <= i < |pairs| :: WellShaped(pairs[i]) && !Passes(c, pairs[i])
    ensures r.Failure? ==>
      exists i | 0 <= i < |pairs| :: !WellShaped(pairs[i]) && r.error == MismatchError(pairs[i], instanceType)
  {
    if |pairs| == 0 then Success(true)
    else
      var p := pairs[0];
      var rest := ExecuteFilters(c, pairs[1..], instanceType);
      match p.value
      case None => rest
      case Some(v) =>
        match v
        case StringFilter(s) =>
          (match p.spec
           case StringsSpec(xs) => if !c.fromStrings(xs, s) then Success(false) else rest
           case StringSpec(x) => if !c.fromString(x, s) then Success(false) else rest
           case _ => Failure(UnsupportedInstanceSpec(p.name, instanceType)))
        case BoolFilter(b) =>
          (match p.spec
           case BoolSpec(x) => if !c.withBool(x, b) then Success(false) else rest
           case _ => Failure(UnsupportedInstanceSpec(p.name, instanceType)))
        case IntRangeValue(range) =>
          (match p.spec
           case Int64Spec(x) => if !c.withRangeInt64(x, range) then Success(false) else rest
           case IntSpec(x) => if !c.withRangeInt(x, range) then Success(false) else rest
           case _ => Failure(UnsupportedInstanceSpec(p.name, instanceType)))
        case FloatFilter(f) =>
          (match p.spec
           case FloatSpec(x) => if !c.withFloat64(x, f) then Success(false) else rest
           case _ => Failure(UnsupportedInstanceSpec(p.name, instanceType)))
        case OtherFilter(_) => Failure(NoFilterHandler(p.name, instanceType))
  }

  /** Whatever order the table is walked in, it accepts an instance in all of them or in none. */
  lemma OutcomeTrueIsOrderIndependent(c: Comparators, a: seq<FilterPair>, b: seq<FilterPair>, instanceType: string)
    requires multiset(a) == multiset(b)
    ensures ExecuteFilters(c, a, instanceType) == Success(true) <==> ExecuteFilters(c, b, instanceType) == Success(true)
  {
    SameElementsAllPass(c, a, b);
    SameElementsAllPass(c, b, a);
  }

  /** For a well-shaped table the whole outcome, not only acceptance, is independent of order. */
  lemma WellShapedOutcomeIsOrderIndependent(c: Comparators, a: seq<FilterPair>, b: seq<FilterPair>, instanceType: string)
    requires multiset(a) == multiset(b)
    requires AllWellShaped(a)
    ensures ExecuteFilters(c, a, instanceType) == ExecuteFilters(c, b, instanceType)
  {
    forall j | 0 <= j < |b| ensures WellShaped(b[j]) {
      assert b[j] in multiset(a);
      var i :| 0 <= i < |a| && a[i] == b[j];
    }
    SameElementsAllPass(c, a, b);
    SameElementsAllPass(c, b, a);
  }

  lemma SameElementsAllPass(c: Comparators, a: seq<FilterPair>, b: seq<FilterPair>)
    requires multiset(a) == multiset(b)
    ensures AllPass(c, a) ==> AllPass(c, b)
  {
    if AllPass(c, a) {
      forall j | 0 <= j < |b| ensures Passes(c, b[j]) {
        assert b[j] in multiset(a);
        var i :| 0 <= i < |a| && a[i] == b[j];
      }
    }
  }

  /** `b` is `a` with some filters made absent. */
  predicate Relaxes(b: seq<FilterPair>, a: seq<FilterPair>) {
    |b| == |a| && forall i | 0 <= i < |a| :: b[i] == a[i] || (b[i].value.None? && b[i].name == a[i].name && b[i].spec == a[i].spec)
  }

  /** AND composition: dropping filters never turns an accepted instance into a rejected one. */
  lemma RelaxingKeepsAcceptance(c: Comparators, a: seq<FilterPair>, b: seq<FilterPair>, instanceType: string)
    requires Relaxes(b, a)
    requires ExecuteFilters(c, a, instanceType) == Success(true)
    ensures ExecuteFilters(c, b, instanceType) == Success(true)
  {
    assert forall i | 0 <= i < |b| :: Passes(c, a[i]);
  }
}
