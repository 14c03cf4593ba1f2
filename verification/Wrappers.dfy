/** Options, results of operations that may return an error, and order within a sequence. */
module Wrappers {

  datatype Option<+T> = None | Some(value: T)

  datatype Result<+T, +E> = Ok(value: T) | Err(error: E)

  /** `x` occurs in `order` somewhere before an occurrence of `y`. */
  ghost predicate Precedes<T>(order: seq<T>, x: T, y: T) {
    exists a, b :: 0 <= a < b < |order| && order[a] == x && order[b] == y
  }

  function Elements<T>(s: seq<T>): set<T> {
    set x | x in s
  }

  lemma ElementsHas<T>(s: seq<T>, i: nat)
    requires i < |s|
    ensures s[i] in Elements(s)
  {
  }

  lemma ElementsAppend<T>(s: seq<T>, x: T)
    ensures Elements(s + [x]) == Elements(s) + {x}
  {
    forall y | y in Elements(s) + {x} ensures y in s + [x] {
      assert y in s || (s + [x])[|s|] == y;
    }
  }

  lemma ProperSubsetIsSmaller<T>(a: set<T>, b: set<T>)
    requires a < b
    ensures |a| < |b|
  {
    assert a + (b - a) == b;
  }

  /** Some element of a non-empty set, in no particular order. */
  method Pick<T>(s: set<T>) returns (x: T)
    requires s != {}
    ensures x in s
  {
    x :| x in s;
  }

  lemma SubsetIsNoLarger<T>(a: set<T>, b: set<T>)
    requires a <= b
    ensures |a| <= |b|
  {
    assert a + (b - a) == b;
  }

  ghost function Any<T>(s: set<T>): (x: T)
    requires s != {}
    ensures x in s
  {
    var x :| x in s;
    x
  }

  /** The values of a table, added up. */
  ghost function Total<K>(m: map<K, int>): int {
    if m.Keys == {} then 0
    else
      var k := Any(m.Keys);
      m[k] + Total(m - {k})
  }

  /** The total does not depend on the order in which the entries are taken. */
  lemma {:induction false} TotalTakes<K>(m: map<K, int>, k: K)
    requires k in m
    ensures Total(m) == m[k] + Total(m - {k})
    decreases |m|
  {
    var first := Any(m.Keys);
    if first != k {
      assert (m - {first}).Keys == m.Keys - {first} && (m - {k}).Keys == m.Keys - {k};
      TotalTakes(m - {first}, k);
      TotalTakes(m - {k}, first);
      assert m - {first} - {k} == m - {k} - {first};
    }
  }

  lemma TotalUpdate<K>(m: map<K, int>, k: K, v: int)
    ensures Total(m[k := v]) == Total(m) - (if k in m then m[k] else 0) + v
  {
    var m' := m[k := v];
    TotalTakes(m', k);
    assert m' - {k} == m - {k};
    if k in m {
      TotalTakes(m, k);
    } else {
      assert m - {k} == m;
    }
  }

  /** `at` lists, in order, exactly the places of `s` whose elements are wanted. */
  ghost predicate Picks<T>(s: seq<T>, wanted: T -> bool, at: seq<nat>) {
    && (forall k :: 0 <= k < |at| ==> at[k] < |s| && wanted(s[at[k]]))
    && (forall j, k :: 0 <= j < k < |at| ==> at[j] < at[k])
    && (forall i :: 0 <= i < |s| && wanted(s[i]) ==> i in at)
  }

  lemma PicksNone<T>(wanted: T -> bool)
    ensures Picks([], wanted, [])
  {
  }

  lemma PicksMore<T>(s: seq<T>, x: T, wanted: T -> bool, at: seq<nat>)
    requires Picks(s, wanted, at)
    ensures Picks(s + [x], wanted, if wanted(x) then at + [|s|] else at)
  {
    var longer, at' := s + [x], if wanted(x) then at + [|s|] else at;
    forall i | 0 <= i < |longer| && wanted(longer[i]) ensures i in at' {
      if i < |s| {
        assert wanted(s[i]);
        var k :| 0 <= k < |at| && at[k] == i;
        assert at'[k] == i;
      } else {
        assert at'[|at|] == i;
      }
    }
  }
}
