/** The order `sortInstanceTypeInfo` in pkg/selector/selector.go sorts by:
    `strings.Compare` on instance-type names, and sorting records by it. */
module Ordering {
  import opened Instances

  /** `a` sorts at or before `b` (`strings.Compare(a, b) <= 0`). Characters compare by code
      point, which for UTF-8 text agrees with the byte order Go compares. */
  predicate LexLe(a: string, b: string)
    decreases |a|
  {
    |a| == 0 || (|b| > 0 && (a[0] < b[0] || (a[0] == b[0] && LexLe(a[1..], b[1..]))))
  }

  lemma {:induction false} LexLeTotal(a: string, b: string)
    ensures LexLe(a, b) || LexLe(b, a)
    decreases |a|
  {
    if |a| > 0 && |b| > 0 && a[0] == b[0] {
      LexLeTotal(a[1..], b[1..]);
    }
  }

  lemma {:induction false} LexLeAntisymmetric(a: string, b: string)
    requires LexLe(a, b) && LexLe(b, a)
    ensures a == b
    decreases |a|
  {
    if |a| > 0 {
      LexLeAntisymmetric(a[1..], b[1..]);
      assert a == [a[0]] + a[1..];
      assert b == [b[0]] + b[1..];
    }
  }

  lemma {:induction false} LexLeTransitive(a: string, b: string, c: string)
    requires LexLe(a, b) && LexLe(b, c)
    ensures LexLe(a, c)
    decreases |a|
  {
    if |a| > 0 && a[0] == b[0] && b[0] == c[0] {
      LexLeTransitive(a[1..], b[1..], c[1..]);
    }
  }

  predicate SortedByName(s: seq<InstanceTypeInfo>) {
    forall i, j | 0 <= i < j < |s| :: LexLe(s[i].instanceType, s[j].instanceType)
  }

  predicate DistinctNames(s: seq<InstanceTypeInfo>) {
    forall i, j | 0 <= i < j < |s| :: s[i].instanceType != s[j].instanceType
  }

  /** `x` sorts at or before every element of `s`. */
  predicate AtOrBeforeAll(x: InstanceTypeInfo, s: seq<InstanceTypeInfo>) {
    forall k | 0 <= k < |s| :: LexLe(x.instanceType, s[k].instanceType)
  }

  predicate NameNotIn(name: string, s: seq<InstanceTypeInfo>) {
    forall k | 0 <= k < |s| :: s[k].instanceType != name
  }

  lemma AtOrBeforeSorted(x: InstanceTypeInfo, s: seq<InstanceTypeInfo>)
    requires SortedByName(s) && |s| > 0
    requires LexLe(x.instanceType, s[0].instanceType)
    ensures AtOrBeforeAll(x, s)
  {
    forall k | 0 <= k < |s| ensures LexLe(x.instanceType, s[k].instanceType) {
      if k > 0 {
        LexLeTransitive(x.instanceType, s[0].instanceType, s[k].instanceType);
      }
    }
  }

  /** The elements of a permutation of `rest + [x]` are `x` and those of `rest`. */
  lemma PermutationElements(t: seq<InstanceTypeInfo>, rest: seq<InstanceTypeInfo>, x: InstanceTypeInfo)
    requires multiset(t) == multiset(rest) + multiset{x}
    ensures forall k | 0 <= k < |t| :: t[k] == x || t[k] in rest
  {
    forall k | 0 <= k < |t| ensures t[k] == x || t[k] in rest {
      assert t[k] in multiset(t);
    }
  }

  /** Insert `x` into a sorted sequence, after every element that sorts before it. */
  function InsertByName(x: InstanceTypeInfo, s: seq<InstanceTypeInfo>): (r: seq<InstanceTypeInfo>)
    requires SortedByName(s)
    ensures SortedByName(r)
    ensures multiset(r) == multiset(s) + multiset{x}
    ensures DistinctNames(s) && NameNotIn(x.instanceType, s) ==> DistinctNames(r)
  {
    if |s| == 0 then [x]
    else if LexLe(x.instanceType, s[0].instanceType) then
      InsertFront(x, s);
      [x] + s
    else
      var t := InsertByName(x, s[1..]);
      InsertBehind(x, s, t);
      [s[0]] + t
  }

  lemma InsertFront(x: InstanceTypeInfo, s: seq<InstanceTypeInfo>)
    requires SortedByName(s) && |s| > 0
    requires LexLe(x.instanceType, s[0].instanceType)
    ensures SortedByName([x] + s)
    ensures DistinctNames(s) && NameNotIn(x.instanceType, s) ==> DistinctNames([x] + s)
  {
    AtOrBeforeSorted(x, s);
    ConsKeepsOrder(x, s);
  }

  lemma InsertBehind(x: InstanceTypeInfo, s: seq<InstanceTypeInfo>, t: seq<InstanceTypeInfo>)
    requires SortedByName(s) && |s| > 0
    requires !LexLe(x.instanceType, s[0].instanceType)
    requires SortedByName(t)
    requires multiset(t) == multiset(s[1..]) + multiset{x}
    requires DistinctNames(s) && NameNotIn(x.instanceType, s) ==> DistinctNames(t)
    ensures SortedByName([s[0]] + t)
    ensures multiset([s[0]] + t) == multiset(s) + multiset{x}
    ensures DistinctNames(s) && NameNotIn(x.instanceType, s) ==> DistinctNames([s[0]] + t)
  {
    HeadBeforeInserted(x, s, t);
    ConsKeepsOrder(s[0], t);
    assert s == [s[0]] + s[1..];
  }

  /** Putting a record that sorts at or before all of a sorted sequence in front of it keeps
      it sorted, and keeps names distinct when the record's name is new. */
  lemma ConsKeepsOrder(y: InstanceTypeInfo, t: seq<InstanceTypeInfo>)
    requires SortedByName(t) && AtOrBeforeAll(y, t)
    ensures SortedByName([y] + t)
    ensures DistinctNames(t) && NameNotIn(y.instanceType, t) ==> DistinctNames([y] + t)
  {
    var r := [y] + t;
    forall i, j | 0 <= i < j < |r| ensures LexLe(r[i].instanceType, r[j].instanceType) {
      assert r[j] == t[j - 1];
      if i > 0 { assert r[i] == t[i - 1]; }
    }
    if DistinctNames(t) && NameNotIn(y.instanceType, t) {
      forall i, j | 0 <= i < j < |r| ensures r[i].instanceType != r[j].instanceType {
        assert r[j] == t[j - 1];
        if i > 0 { assert r[i] == t[i - 1]; }
      }
    }
  }

  /** When `x` sorts after the head of `s`, the head sorts at or before everything that
      inserting `x` into the tail produces, and its name stays new there. */
  lemma HeadBeforeInserted(x: InstanceTypeInfo, s: seq<InstanceTypeInfo>, t: seq<InstanceTypeInfo>)
    requires SortedByName(s) && |s| > 0
    requires !LexLe(x.instanceType, s[0].instanceType)
    requires multiset(t) == multiset(s[1..]) + multiset{x}
    ensures AtOrBeforeAll(s[0], t)
    ensures DistinctNames(s) && NameNotIn(x.instanceType, s) ==> NameNotIn(s[0].instanceType, t)
  {
    LexLeTotal(x.instanceType, s[0].instanceType);
    PermutationElements(t, s[1..], x);
    forall k | 0 <= k < |t| ensures LexLe(s[0].instanceType, t[k].instanceType) {
      if t[k] != x {
        var j :| 0 <= j < |s[1..]| && s[1..][j] == t[k];
        assert s[j + 1] == t[k];
      }
    }
    if DistinctNames(s) && NameNotIn(x.instanceType, s) {
      forall k | 0 <= k < |t| ensures t[k].instanceType != s[0].instanceType {
        if t[k] != x {
          var j :| 0 <= j < |s[1..]| && s[1..][j] == t[k];
          assert s[j + 1] == t[k];
        }
      }
    }
  }

  /** `sortInstanceTypeInfo`: the records in ascending name order. */
  function SortByName(s: seq<InstanceTypeInfo>): (r: seq<InstanceTypeInfo>)
    ensures SortedByName(r)
    ensures multiset(r) == multiset(s)
    ensures DistinctNames(s) ==> DistinctNames(r)
  {
    if |s| == 0 then []
    else
      var sortedRest := SortByName(s[1..]);
      SortStep(s, sortedRest);
      InsertByName(s[0], sortedRest)
  }

  lemma SortStep(s: seq<InstanceTypeInfo>, sortedRest: seq<InstanceTypeInfo>)
    requires |s| > 0
    requires multiset(sortedRest) == multiset(s[1..])
    requires DistinctNames(s[1..]) ==> DistinctNames(sortedRest)
    ensures multiset(s) == multiset(sortedRest) + multiset{s[0]}
    ensures DistinctNames(s) ==> DistinctNames(sortedRest) && NameNotIn(s[0].instanceType, sortedRest)
  {
    assert s == [s[0]] + s[1..];
    if DistinctNames(s) {
      assert DistinctNames(s[1..]) by {
        forall i, j | 0 <= i < j < |s[1..]| ensures s[1..][i].instanceType != s[1..][j].instanceType {
          assert s[1..][i] == s[i + 1] && s[1..][j] == s[j + 1];
        }
      }
      forall k | 0 <= k < |sortedRest| ensures sortedRest[k].instanceType != s[0].instanceType {
        assert sortedRest[k] in multiset(sortedRest);
        var j :| 0 <= j < |s[1..]| && s[1..][j] == sortedRest[k];
        assert s[j + 1] == sortedRest[k];
      }
    }
  }

  /** Names are unique, so the ascending order is strict and leaves no choice: two sorted
      sequences with distinct names and the same elements are the same sequence, whatever
      order the elements were collected in. */
  lemma {:induction false} SortedIsUnique(a: seq<InstanceTypeInfo>, b: seq<InstanceTypeInfo>)
    requires SortedByName(a) && DistinctNames(a)
    requires SortedByName(b) && DistinctNames(b)
    requires |a| == |b|
    requires forall x :: x in a <==> x in b
    ensures a == b
    decreases |a|
  {
    if |a| > 0 {
      assert a[0] in b;
      assert b[0] in a;
      var i :| 0 <= i < |a| && a[i] == b[0];
      var k :| 0 <= k < |b| && b[k] == a[0];
      assert LexLe(a[0].instanceType, b[0].instanceType) by {
        if i > 0 { assert LexLe(a[0].instanceType, a[i].instanceType); } else { LexLeTotal(a[0].instanceType, a[0].instanceType); }
      }
      assert LexLe(b[0].instanceType, a[0].instanceType) by {
        if k > 0 { assert LexLe(b[0].instanceType, b[k].instanceType); } else { LexLeTotal(b[0].instanceType, b[0].instanceType); }
      }
      LexLeAntisymmetric(a[0].instanceType, b[0].instanceType);
      assert k == 0;
      forall x ensures x in a[1..] <==> x in b[1..] {
        if x in a[1..] {
          var j :| 1 <= j < |a| && a[j] == x;
          assert x.instanceType != a[0].instanceType;
          assert x in b;
        }
        if x in b[1..] {
          var j :| 1 <= j < |b| && b[j] == x;
          assert x.instanceType != b[0].instanceType;
          assert x in a;
        }
      }
      SortedIsUnique(a[1..], b[1..]);
      assert a == [a[0]] + a[1..];
      assert b == [b[0]] + b[1..];
    }
  }
}
