/** Location classification and membership: `RetrieveInstanceTypesSupportedInLocation` and
    `isSupportedInLocation` in pkg/selector/selector.go.
    The three patterns are stated twice: as the ghost meaning of the regular expressions
    (`RegionRegex`, `ZoneNameRegex`) and as a left-to-right matcher (`IsRegion`,
    `IsZoneName`), and the two are proved to agree. */
module Location {
  import opened Wrappers
  import opened Types

  predicate IsLower(ch: char) { 'a' <= ch <= 'z' }
  predicate IsNonZeroDigit(ch: char) { '1' <= ch <= '9' }

  /** `^[a-z]{3}[1-9]{1}\-az[1-9]$`, e.g. `use1-az1`. */
  predicate IsZoneId(s: string) {
    && |s| == 8
    && IsLower(s[0]) && IsLower(s[1]) && IsLower(s[2])
    && IsNonZeroDigit(s[3])
    && s[4] == '-' && s[5] == 'a' && s[6] == 'z'
    && IsNonZeroDigit(s[7])
  }

  // ---------------------------------------------------------------------------
  // Meaning of the region and zone-name regular expressions

  /** `s[lo..hi]` is matched by `[a-z]{min,max}`. */
  ghost predicate Letters(s: string, lo: int, hi: int, min: nat, max: nat) {
    && 0 <= lo <= hi <= |s|
    && min <= hi - lo <= max
    && forall k | lo <= k < hi :: IsLower(s[k])
  }

  /** `[a-z]{2,3}\-[a-z]{1,10}\-[1-9]` matches `s[..q+2]`, with dashes at `p` and `q`
      (the region pattern without its optional group). */
  ghost predicate ShortRegionAt(s: string, p: int, q: int) {
    && q + 2 <= |s|
    && Letters(s, 0, p, 2, 3)
    && Letters(s, p + 1, q, 1, 10)
    && s[p] == '-' && s[q] == '-'
    && IsNonZeroDigit(s[q + 1])
  }

  /** `[a-z]{2,3}\-[a-z]{1,10}\-[a-z]{1,10}\-[1-9]` matches `s[..q+2]`, with dashes at
      `p`, `m` and `q` (the region pattern with its optional group). */
  ghost predicate LongRegionAt(s: string, p: int, m: int, q: int) {
    && q + 2 <= |s|
    && Letters(s, 0, p, 2, 3)
    && Letters(s, p + 1, m, 1, 10)
    && Letters(s, m + 1, q, 1, 10)
    && s[p] == '-' && s[m] == '-' && s[q] == '-'
    && IsNonZeroDigit(s[q + 1])
  }

  /** `^[a-z]{2,3}\-([a-z]{1,10}\-)?[a-z]{1,10}\-[1-9]` matches exactly `s[..end]`. */
  ghost predicate RegionPrefixAt(s: string, end: int) {
    || (exists p, q :: ShortRegionAt(s, p, q) && end == q + 2)
    || (exists p, m, q :: LongRegionAt(s, p, m, q) && end == q + 2)
  }

  /** The region pattern, which has no `$` anchor: it matches when some prefix does. */
  ghost predicate RegionRegex(s: string) {
    exists end :: RegionPrefixAt(s, end)
  }

  /** `^[a-z]{2,3}\-([a-z]{1,10}\-)?[a-z]{1,10}\-[1-9][a-z]$`, e.g. `us-east-1a`. */
  ghost predicate ZoneNameRegex(s: string) {
    |s| >= 1 && RegionPrefixAt(s, |s| - 1) && IsLower(s[|s| - 1])
  }

  // ---------------------------------------------------------------------------
  // Matcher

  /** Length of the run of lowercase letters starting at `i`. */
  function LetterRun(s: string, i: nat): (n: nat)
    requires i <= |s|
    ensures i + n <= |s|
    ensures forall k | i <= k < i + n :: IsLower(s[k])
    ensures i + n == |s| || !IsLower(s[i + n])
    decreases |s| - i
  {
    if i < |s| && IsLower(s[i]) then 1 + LetterRun(s, i + 1) else 0
  }

  /** Where the region pattern's match of a prefix of `s` ends, if it matches one.
      Letters never match `-` or a digit, so every letter group is a maximal run and
      the match, when there is one, is unique. */
  function RegionPrefixEnd(s: string): Option<nat> {
    var p := LetterRun(s, 0);
    if !(2 <= p <= 3 && p < |s| && s[p] == '-') then None
    else
      var m := p + 1 + LetterRun(s, p + 1);
      if !(1 <= m - p - 1 <= 10 && m + 1 < |s| && s[m] == '-') then None
      else if IsNonZeroDigit(s[m + 1]) then Some(m + 2)
      else
        var q := m + 1 + LetterRun(s, m + 1);
        if 1 <= q - m - 1 <= 10 && q + 1 < |s| && s[q] == '-' && IsNonZeroDigit(s[q + 1]) then Some(q + 2)
        else None
  }

  /** A run of letters of known extent, followed by a non-letter, is what `LetterRun` finds. */
  lemma RunIsMaximal(s: string, lo: int, hi: int, min: nat, max: nat)
    requires Letters(s, lo, hi, min, max)
    requires hi == |s| || !IsLower(s[hi])
    ensures LetterRun(s, lo) == hi - lo
  {
  }

  lemma {:induction false} RegionPrefixEndSound(s: string)
    requires RegionPrefixEnd(s).Some?
    ensures RegionPrefixAt(s, RegionPrefixEnd(s).value)
  {
    var p := LetterRun(s, 0);
    var m := p + 1 + LetterRun(s, p + 1);
    assert Letters(s, 0, p, 2, 3);
    assert Letters(s, p + 1, m, 1, 10);
    if IsNonZeroDigit(s[m + 1]) {
      assert ShortRegionAt(s, p, m);
    } else {
      var q := m + 1 + LetterRun(s, m + 1);
      assert Letters(s, m + 1, q, 1, 10);
      assert LongRegionAt(s, p, m, q);
    }
  }

  lemma ShortRegionFound(s: string, p: int, q: int)
    requires ShortRegionAt(s, p, q)
    ensures RegionPrefixEnd(s) == Some(q + 2)
  {
    RunIsMaximal(s, 0, p, 2, 3);
    RunIsMaximal(s, p + 1, q, 1, 10);
  }

  lemma LongRegionFound(s: string, p: int, m: int, q: int)
    requires LongRegionAt(s, p, m, q)
    ensures RegionPrefixEnd(s) == Some(q + 2)
  {
    RunIsMaximal(s, 0, p, 2, 3);
    RunIsMaximal(s, p + 1, m, 1, 10);
    assert IsLower(s[m + 1]);
    RunIsMaximal(s, m + 1, q, 1, 10);
  }

  lemma RegionPrefixEndComplete(s: string, end: int)
    requires RegionPrefixAt(s, end)
    ensures RegionPrefixEnd(s) == Some(end)
  {
    if exists p, q :: ShortRegionAt(s, p, q) && end == q + 2 {
      var p, q :| ShortRegionAt(s, p, q) && end == q + 2;
      ShortRegionFound(s, p, q);
    } else {
      var p, m, q :| LongRegionAt(s, p, m, q) && end == q + 2;
      LongRegionFound(s, p, m, q);
    }
  }

  /** The region test of the matcher; it agrees with the regular expression. */
  predicate IsRegion(s: string): (b: bool)
    ensures b <==> RegionRegex(s)
  {
    RegionSpecAgrees(s);
    RegionPrefixEnd(s).Some?
  }

  lemma RegionSpecAgrees(s: string)
    ensures RegionPrefixEnd(s).Some? <==> RegionRegex(s)
  {
    if RegionPrefixEnd(s).Some? {
      RegionPrefixEndSound(s);
    }
    if RegionRegex(s) {
      var end :| RegionPrefixAt(s, end);
      RegionPrefixEndComplete(s, end);
    }
  }

  /** The zone-name test of the matcher; it agrees with the regular expression. */
  predicate IsZoneName(s: string): (b: bool)
    ensures b <==> ZoneNameRegex(s)
  {
    ZoneNameSpecAgrees(s);
    |s| >= 1 && RegionPrefixEnd(s) == Some(|s| - 1) && IsLower(s[|s| - 1])
  }

  lemma ZoneNameSpecAgrees(s: string)
    ensures (|s| >= 1 && RegionPrefixEnd(s) == Some(|s| - 1) && IsLower(s[|s| - 1])) <==> ZoneNameRegex(s)
  {
    if |s| >= 1 && RegionPrefixEnd(s) == Some(|s| - 1) {
      RegionPrefixEndSound(s);
    }
    if ZoneNameRegex(s) {
      RegionPrefixEndComplete(s, |s| - 1);
    }
  }

  // ---------------------------------------------------------------------------
  // Relations between the three patterns

  /** Every zone name also matches the region pattern, so the order of the tests decides:
      zone names must be tried before regions. */
  lemma ZoneNameIsAlsoRegion(s: string)
    requires ZoneNameRegex(s)
    ensures RegionRegex(s)
  {
  }

  /** A zone id matches neither of the other two patterns. */
  lemma ZoneIdExcludesOthers(s: string)
    requires IsZoneId(s)
    ensures !RegionRegex(s) && !ZoneNameRegex(s)
  {
    assert Letters(s, 0, 3, 2, 3);
    RunIsMaximal(s, 0, 3, 2, 3);
    RegionSpecAgrees(s);
  }

  /** The location type a non-empty location is sent to the offerings service with:
      zone id first, then zone name, then region, else an error. */
  function Classify(location: string): (r: Result<LocationType, SelectorError>)
    ensures r == Success(ZoneId) <==> IsZoneId(location)
    ensures r == Success(ZoneName) <==> ZoneNameRegex(location)
    ensures r == Success(RegionName) <==> RegionRegex(location) && !ZoneNameRegex(location) && !IsZoneId(location)
    ensures r.Failure? <==> !IsZoneId(location) && !RegionRegex(location)
    ensures r.Failure? ==> r.error == InvalidLocation(location)
  {
    if IsZoneId(location) then
      ZoneIdExcludesOthers(location);
      Success(ZoneId)
    else if IsZoneName(location) then Success(ZoneName)
    else if IsRegion(location) then Success(RegionName)
    else Failure(InvalidLocation(location))
  }

  /** The examples of the source's comments. */
  lemma ClassifyZoneIdExample()
    ensures Classify("use1-az1") == Success(ZoneId)
  {
  }

  lemma ClassifyZoneNameExample()
    ensures Classify("us-east-1a") == Success(ZoneName)
  {
    assert ShortRegionAt("us-east-1a", 2, 7);
    assert RegionPrefixAt("us-east-1a", 9);
  }

  lemma ClassifyRegionExample()
    ensures Classify("us-east-1") == Success(RegionName)
  {
    assert ShortRegionAt("us-east-1", 2, 7);
    assert RegionPrefixAt("us-east-1", 9);
    assert !ZoneNameRegex("us-east-1") by {
      if ZoneNameRegex("us-east-1") { RegionPrefixEndComplete("us-east-1", 8); }
    }
  }

  lemma ClassifyLongRegionExample()
    ensures Classify("us-gov-west-1") == Success(RegionName)
  {
    assert LongRegionAt("us-gov-west-1", 2, 6, 11);
    assert RegionPrefixAt("us-gov-west-1", 13);
    assert !ZoneNameRegex("us-gov-west-1") by {
      if ZoneNameRegex("us-gov-west-1") { RegionPrefixEndComplete("us-gov-west-1", 12); }
    }
  }

  /** The region pattern has no `$`: trailing text after the region digit is accepted. */
  lemma ClassifyUnanchoredRegionExample()
    ensures Classify("us-east-1ab") == Success(RegionName)
  {
    assert ShortRegionAt("us-east-1ab", 2, 7);
    assert RegionPrefixAt("us-east-1ab", 9);
    assert !ZoneNameRegex("us-east-1ab") by {
      if ZoneNameRegex("us-east-1ab") { RegionPrefixEndComplete("us-east-1ab", 10); }
    }
  }

  lemma ClassifyInvalidExample()
    ensures Classify("not-a-zone") == Failure(InvalidLocation("not-a-zone"))
  {
    var bad := "not-a-zone";
    assert !IsZoneId(bad);
    assert LetterRun(bad, 0) == 3 by { RunIsMaximal(bad, 0, 3, 3, 3); }
    assert LetterRun(bad, 4) == 1 by { RunIsMaximal(bad, 4, 5, 1, 1); }
    assert LetterRun(bad, 6) == 4 by { RunIsMaximal(bad, 6, 10, 4, 4); }
    assert RegionPrefixEnd(bad) == None;
    RegionSpecAgrees(bad);
  }

  // ---------------------------------------------------------------------------
  // Offerings index and membership

  /** One instance-type offering: an instance type and the location it is offered in. */
  datatype Offering = Offering(instanceType: string, location: string)

  /** The offerings paging call, given the location type and the location it filters by. */
  type OfferingsSource = (LocationType, string) -> Paged<Offering>

  /** The location of the last offering of `instanceType`, if any. */
  function LastLocation(offerings: seq<Offering>, instanceType: string): Option<string> {
    if |offerings| == 0 then None
    else if offerings[|offerings| - 1].instanceType == instanceType then Some(offerings[|offerings| - 1].location)
    else LastLocation(offerings[..|offerings| - 1], instanceType)
  }

  /** One page of the offerings callback: record each offering, a later one overwriting. */
  function IndexPage(index: map<string, string>, page: seq<Offering>): (r: map<string, string>)
    ensures forall t {:trigger Lookup(r, t)} :: Lookup(r, t) == (if LastLocation(page, t).Some? then LastLocation(page, t) else Lookup(index, t))
    decreases |page|
  {
    if |page| == 0 then index
    else
      var last := page[|page| - 1];
      var prev := IndexPage(index, page[..|page| - 1]);
      var r := prev[last.instanceType := last.location];
      assert forall t :: t != last.instanceType ==> LastLocation(page, t) == LastLocation(page[..|page| - 1], t);
      assert forall t :: Lookup(r, t) == (if t == last.instanceType then Some(last.location) else Lookup(prev, t));
      r
  }

  /** All pages of the offerings callback, in order. */
  function IndexPages(index: map<string, string>, pages: seq<seq<Offering>>): (r: map<string, string>)
    ensures forall t {:trigger Lookup(r, t)} :: Lookup(r, t) == (if LastLocation(Flatten(pages), t).Some? then LastLocation(Flatten(pages), t) else Lookup(index, t))
    decreases |pages|
  {
    if |pages| == 0 then index
    else
      var r := IndexPages(IndexPage(index, pages[0]), pages[1..]);
      forall t ensures LastLocation(Flatten(pages), t) == (if LastLocation(Flatten(pages[1..]), t).Some? then LastLocation(Flatten(pages[1..]), t) else LastLocation(pages[0], t)) {
        LastLocationAppend(pages[0], Flatten(pages[1..]), t);
      }
      r
  }

  lemma {:induction false} LastLocationAppend(a: seq<Offering>, b: seq<Offering>, t: string)
    ensures LastLocation(a + b, t) == (if LastLocation(b, t).Some? then LastLocation(b, t) else LastLocation(a, t))
    decreases |b|
  {
    if |b| == 0 {
      assert a + b == a;
    } else {
      assert (a + b)[..|a + b| - 1] == a + b[..|b| - 1];
      LastLocationAppend(a, b[..|b| - 1], t);
    }
  }

  /** `RetrieveInstanceTypesSupportedInLocation`: no index for the empty location, an error
      for a location of no known shape (before any offering is fetched), the offerings
      fetch's error wrapped, or the index of every offering fetched. */
  function RetrieveSupportedInLocation(zone: string, source: OfferingsSource)
    : (r: Result<Option<map<string, string>>, SelectorError>)
    ensures zone == "" ==> r == Success(None)
    ensures zone != "" && !IsZoneId(zone) && !RegionRegex(zone) ==> r == Failure(InvalidLocation(zone))
    ensures zone != "" && Classify(zone).Success? ==>
      var listing := source(Classify(zone).value, zone);
      && (listing.failure.Some? ==> r == Failure(OfferingsFetchError(listing.failure.value)))
      && (listing.failure.None? ==>
            && r.Success? && r.value.Some?
            && forall t {:trigger Lookup(r.value.value, t)} :: Lookup(r.value.value, t) == LastLocation(Flatten(listing.pages), t))
  {
    if zone == "" then Success(None)
    else
      match Classify(zone)
      case Failure(e) => Failure(e)
      case Success(locationType) =>
        var listing := source(locationType, zone);
        if listing.failure.Some? then Failure(OfferingsFetchError(listing.failure.value))
        else Success(Some(IndexPages(map[], listing.pages)))
  }

  /** An empty or malformed location never reaches the offerings service: the outcome is
      the same whatever the service would answer. */
  lemma NoFetchWithoutValidLocation(zone: string, s1: OfferingsSource, s2: OfferingsSource)
    requires zone == "" || Classify(zone).Failure?
    ensures RetrieveSupportedInLocation(zone, s1) == RetrieveSupportedInLocation(zone, s2)
  {
  }

  /** `isSupportedInLocation`: no index means no restriction. */
  predicate IsSupportedInLocation(offerings: Option<map<string, string>>, instanceType: string) {
    offerings.None? || instanceType in offerings.value
  }
}
