/** The library's sort: an ordered permutation, with no promise about elements the order does not tell apart. */
module Sorting {

  ghost predicate TotalPreorder<T(!new)>(before: (T, T) -> bool) {
    && (forall a, b :: before(a, b) || before(b, a))
    && (forall a, b, c :: before(a, b) && before(b, c) ==> before(a, c))
  }

  ghost predicate Ordered<T>(s: seq<T>, before: (T, T) -> bool) {
    forall i, j :: 0 <= i < j < |s| ==> before(s[i], s[j])
  }

  function Place<T>(s: seq<T>, c: T, before: (T, T) -> bool): (k: nat)
    ensures k <= |s|
    ensures forall i :: 0 <= i < k ==> !before(c, s[i])
    ensures k < |s| ==> before(c, s[k])
  {
    if s == [] || before(c, s[0]) then 0 else 1 + Place(s[1..], c, before)
  }

  function Insert<T>(s: seq<T>, c: T, before: (T, T) -> bool): (r: seq<T>)
    ensures multiset(r) == multiset(s) + multiset{c}
  {
    var k := Place(s, c, before);
    assert s == s[..k] + s[k..];
    s[..k] + [c] + s[k..]
  }

  lemma InsertOrders<T(!new)>(s: seq<T>, c: T, before: (T, T) -> bool)
    requires TotalPreorder(before) && Ordered(s, before)
    ensures Ordered(Insert(s, c, before), before)
  {
    var k := Place(s, c, before);
    var r := Insert(s, c, before);
    forall i, j | 0 <= i < j < |r|
      ensures before(r[i], r[j])
    {
      assert r[i] == if i < k then s[i] else if i == k then c else s[i - 1];
      assert r[j] == if j < k then s[j] else if j == k then c else s[j - 1];
    }
  }

  /** Removing one element and putting it back. */
  function Without<T>(s: seq<T>, i: nat): seq<T>
    requires i < |s|
  {
    s[..i] + s[i + 1..]
  }

  lemma WithoutOne<T>(s: seq<T>, i: nat)
    requires i < |s|
    ensures multiset(Without(s, i)) == multiset(s) - multiset{s[i]}
    ensures multiset(s) == multiset(Without(s, i)) + multiset{s[i]}
  {
    assert s == s[..i] + ([s[i]] + s[i + 1..]);
  }

  function Sorted<T(!new)>(s: seq<T>, before: (T, T) -> bool): (r: seq<T>)
    requires TotalPreorder(before)
    ensures multiset(r) == multiset(s) && Ordered(r, before)
  {
    if s == [] then []
    else
      assert s == s[..|s| - 1] + [s[|s| - 1]];
      InsertOrders(Sorted(s[..|s| - 1], before), s[|s| - 1], before);
      Insert(Sorted(s[..|s| - 1], before), s[|s| - 1], before)
  }

  method Sort<T(!new)>(s: seq<T>, before: (T, T) -> bool) returns (r: seq<T>)
    requires TotalPreorder(before)
    ensures multiset(r) == multiset(s) && |r| == |s| && Ordered(r, before)
  {
    r := Sorted(s, before);
    assert |multiset(r)| == |r| && |multiset(s)| == |s|;
  }

  lemma Once<T>(s: seq<T>, k: nat)
    requires k < |s| && forall i, j :: 0 <= i < j < |s| ==> s[i] != s[j]
    ensures multiset(s)[s[k]] == 1
  {
    WithoutOne(s, k);
    assert s[k] !in s[..k] && s[k] !in s[k + 1..];
    assert s[k] !in multiset(Without(s, k));
  }

  lemma Twice<T>(s: seq<T>, i: nat, j: nat)
    requires i < j < |s| && s[i] == s[j]
    ensures multiset(s)[s[i]] >= 2
  {
    assert s == s[..i] + ([s[i]] + (s[i + 1..j] + ([s[j]] + s[j + 1..])));
  }

  lemma SubSize<T>(m: multiset<T>, n: multiset<T>)
    requires m <= n
    ensures |m| <= |n| && (|m| == |n| ==> m == n)
  {
    assert n == m + (n - m);
  }

  // ----- numbers in rising order

  function Elements(s: seq<nat>): set<nat> {
    set x | x in s
  }

  ghost predicate Rising(s: seq<nat>) {
    forall i, j :: 0 <= i < j < |s| ==> s[i] < s[j]
  }

  lemma {:induction false} RisingCounts(s: seq<nat>)
    requires Rising(s)
    ensures |Elements(s)| == |s|
    decreases |s|
  {
    if s == [] {
      assert Elements(s) == {};
    } else {
      var n := |s| - 1;
      var t := s[..n];
      RisingCounts(t);
      assert forall x :: x in s <==> x in t || x == s[n];
      assert Elements(s) == Elements(t) + {s[n]};
      assert s[n] !in Elements(t);
    }
  }

  function AtMost(): (nat, nat) -> bool {
    (a: nat, b: nat) => a <= b
  }

  lemma SortedRises(s: seq<nat>, sorted: seq<nat>)
    requires forall i, j :: 0 <= i < j < |s| ==> s[i] != s[j]
    requires multiset(sorted) == multiset(s) && Ordered(sorted, AtMost())
    ensures Rising(sorted) && Elements(sorted) == Elements(s)
  {
    assert forall x :: x in sorted <==> x in multiset(sorted);
    assert forall x :: x in s <==> x in multiset(s);
    forall i, j | 0 <= i < j < |sorted|
      ensures sorted[i] < sorted[j]
    {
      assert AtMost()(sorted[i], sorted[j]);
      assert sorted[i] in sorted;
      if sorted[i] == sorted[j] {
        var k :| 0 <= k < |s| && s[k] == sorted[i];
        Once(s, k);
        Twice(sorted, i, j);
      }
    }
  }
}
