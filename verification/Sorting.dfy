/** The contract of the library sorts, by a numeric key, and what a permutation keeps. */
module Sorting {

  ghost predicate SortedBy<T>(s: seq<T>, key: T -> real) {
    forall i, j :: 0 <= i < j < |s| ==> key(s[i]) <= key(s[j])
  }

  ghost predicate DistinctBy<T, K>(s: seq<T>, key: T -> K) {
    forall i, j :: 0 <= i < j < |s| ==> key(s[i]) != key(s[j])
  }

  function Inserted<T>(s: seq<T>, p: nat, x: T): (longer: seq<T>)
    requires p <= |s|
  {
    s[..p] + [x] + s[p..]
  }

  lemma InsertedAt<T>(s: seq<T>, p: nat, x: T, k: nat)
    requires p <= |s| && k <= |s|
    ensures |Inserted(s, p, x)| == |s| + 1
    ensures Inserted(s, p, x)[k] == if k < p then s[k] else if k == p then x else s[k - 1]
  {
  }

  lemma InsertedIsSorted<T>(s: seq<T>, p: nat, x: T, key: T -> real)
    requires SortedBy(s, key) && p <= |s|
    requires p > 0 ==> key(s[p - 1]) <= key(x)
    requires p < |s| ==> key(x) <= key(s[p])
    ensures SortedBy(Inserted(s, p, x), key)
  {
    hide Inserted;
    var longer := Inserted(s, p, x);
    InsertedAt(s, p, x, 0);
    forall i, j | 0 <= i < j < |longer| ensures key(longer[i]) <= key(longer[j]) {
      InsertedAt(s, p, x, i);
      InsertedAt(s, p, x, j);
      assert i < p - 1 ==> key(s[i]) <= key(s[p - 1]);
      assert p < j - 1 ==> key(s[p]) <= key(s[j - 1]);
    }
  }

  lemma InsertedHasElements<T>(s: seq<T>, p: nat, x: T)
    requires p <= |s|
    ensures multiset(Inserted(s, p, x)) == multiset(s) + multiset{x}
  {
    assert s == s[..p] + s[p..];
  }

  method InsertBy<T>(s: seq<T>, x: T, key: T -> real) returns (longer: seq<T>)
    requires SortedBy(s, key)
    ensures SortedBy(longer, key) && multiset(longer) == multiset(s) + multiset{x}
  {
    var p := 0;
    while p < |s| && key(s[p]) <= key(x)
      invariant 0 <= p <= |s| && (p > 0 ==> key(s[p - 1]) <= key(x))
    {
      p := p + 1;
    }
    InsertedIsSorted(s, p, x, key);
    InsertedHasElements(s, p, x);
    longer := Inserted(s, p, x);
  }

  /** A permutation in ascending order of the key; elements of equal key may come in any order. */
  method SortBy<T>(s: seq<T>, key: T -> real) returns (sorted: seq<T>)
    ensures SortedBy(sorted, key) && multiset(sorted) == multiset(s)
  {
    sorted := [];
    for i := 0 to |s|
      invariant SortedBy(sorted, key) && multiset(sorted) == multiset(s[..i])
    {
      assert s[..i + 1] == s[..i] + [s[i]];
      sorted := InsertBy(sorted, s[i], key);
    }
    assert s[..|s|] == s;
  }

  lemma {:induction false} DistinctHasOneEach<T, K>(s: seq<T>, key: T -> K, x: T)
    requires DistinctBy(s, key)
    ensures multiset(s)[x] <= 1
  {
    if s != [] {
      var n := |s| - 1;
      assert s == s[..n] + [s[n]];
      DistinctHasOneEach(s[..n], key, x);
      if s[n] == x {
        assert x !in s[..n];
        assert x !in multiset(s[..n]);
      }
    }
  }

  lemma RepeatCountsTwice<T>(s: seq<T>, i: nat, j: nat)
    requires i < j < |s| && s[i] == s[j]
    ensures multiset(s)[s[i]] >= 2
  {
    assert s == s[..j] + ([s[j]] + s[j + 1..]);
    assert s[..j][i] == s[i];
    assert s[i] in multiset(s[..j]);
  }

  lemma PermutationStaysDistinct<T, K>(a: seq<T>, b: seq<T>, key: T -> K)
    requires multiset(a) == multiset(b) && DistinctBy(a, key)
    ensures DistinctBy(b, key)
  {
    forall i, j | 0 <= i < j < |b| ensures key(b[i]) != key(b[j]) {
      if b[i] == b[j] {
        RepeatCountsTwice(b, i, j);
        DistinctHasOneEach(a, key, b[i]);
        assert false;
      }
      assert b[i] in multiset(b) && b[j] in multiset(b);
      var i' :| 0 <= i' < |a| && a[i'] == b[i];
      var j' :| 0 <= j' < |a| && a[j'] == b[j];
    }
  }

  lemma PermutationKeepsMembers<T>(a: seq<T>, b: seq<T>)
    requires multiset(a) == multiset(b)
    ensures |a| == |b| && forall x :: x in a <==> x in b
  {
    assert |multiset(a)| == |multiset(b)|;
    forall x ensures x in a <==> x in b {
      assert x in a <==> x in multiset(a);
      assert x in b <==> x in multiset(b);
    }
  }
}
