/** The memory_edges graph, and what its derived_from paths are. */
module Provenance {

  type Id = nat

  datatype EdgeType = DerivedFrom | Contradicts | Supersedes | Verifies

  datatype Edge = Edge(from: Id, fromTier: int, to: Id, toTier: int, kind: EdgeType)

  datatype EdgeNode = EdgeNode(id: Id, tier: int)

  /** QueryEdgesForBFS: the records `id` is derived from, with the tier each edge gives them. */
  function Upstream(es: seq<Edge>, id: Id): (ns: seq<EdgeNode>)
    ensures forall n ::
      n in ns <==> exists e :: e in es && e.kind.DerivedFrom? && e.from == id && n == EdgeNode(e.to, e.toTier)
  {
    if es == [] then []
    else
      var rest := Upstream(es[1..], id);
      if es[0].kind.DerivedFrom? && es[0].from == id then [EdgeNode(es[0].to, es[0].toTier)] + rest else rest
  }

  /** FetchDownstreamEdges: the records derived from `id`. */
  function Downstream(es: seq<Edge>, id: Id): (ns: seq<EdgeNode>)
    ensures forall n ::
      n in ns <==> exists e :: e in es && e.kind.DerivedFrom? && e.to == id && n == EdgeNode(e.from, e.fromTier)
  {
    if es == [] then []
    else
      var rest := Downstream(es[1..], id);
      if es[0].kind.DerivedFrom? && es[0].to == id then [EdgeNode(es[0].from, es[0].fromTier)] + rest else rest
  }

  /** A non-empty chain of derived_from edges out of `a`. */
  ghost predicate IsPath(es: seq<Edge>, a: Id, p: seq<Edge>) {
    && p != []
    && p[0].from == a
    && (forall i :: 0 <= i < |p| ==> p[i] in es && p[i].kind.DerivedFrom?)
    && (forall i :: 0 < i < |p| ==> p[i - 1].to == p[i].from)
  }

  function Target(p: seq<Edge>): Id
    requires p != []
  {
    p[|p| - 1].to
  }

  /** A path whose last edge enters tier 2, direct experience. */
  ghost predicate IsT2Path(es: seq<Edge>, a: Id, p: seq<Edge>) {
    IsPath(es, a, p) && p[|p| - 1].toTier == 2
  }

  /** The length of the shortest T2 path, or 1 when there is none. */
  ghost predicate IsInferenceDistance(es: seq<Edge>, a: Id, d: int) {
    if exists p :: IsT2Path(es, a, p)
    then (exists p :: IsT2Path(es, a, p) && |p| == d) && (forall p :: IsT2Path(es, a, p) ==> d <= |p|)
    else d == 1
  }

  function Sources(es: seq<Edge>, ids: set<Id>): set<Id> {
    set e | e in es && e.kind.DerivedFrom? && e.from in ids :: e.to
  }

  /** The records at most k hops up from `a`. */
  function Within(es: seq<Edge>, a: Id, k: nat): set<Id> {
    if k == 0 then {a} else Within(es, a, k - 1) + Sources(es, Within(es, a, k - 1))
  }

  ghost predicate CitesT2(es: seq<Edge>, id: Id) {
    exists e :: e in es && e.kind.DerivedFrom? && e.from == id && e.toTier == 2
  }

  /** Some T2 path of at most k edges leaves `a`. */
  ghost predicate T2Within(es: seq<Edge>, a: Id, k: nat) {
    0 < k && exists id :: id in Within(es, a, k - 1) && CitesT2(es, id)
  }

  lemma {:induction false} WithinGrows(es: seq<Edge>, a: Id, j: nat, k: nat)
    requires j <= k
    ensures Within(es, a, j) <= Within(es, a, k)
    decreases k
  {
    if j < k {
      WithinGrows(es, a, j, k - 1);
    }
  }

  lemma {:induction false} WithinHasPath(es: seq<Edge>, a: Id, k: nat, b: Id) returns (p: seq<Edge>)
    requires b in Within(es, a, k) && b != a
    ensures IsPath(es, a, p) && Target(p) == b && |p| <= k
  {
    if b in Within(es, a, k - 1) {
      p := WithinHasPath(es, a, k - 1, b);
    } else {
      var e :| e in es && e.kind.DerivedFrom? && e.from in Within(es, a, k - 1) && e.to == b;
      if e.from == a {
        p := [e];
      } else {
        p := WithinHasPath(es, a, k - 1, e.from);
        p := p + [e];
      }
    }
  }

  lemma {:induction false} PathIsWithin(es: seq<Edge>, a: Id, p: seq<Edge>)
    requires IsPath(es, a, p)
    ensures p[|p| - 1].from in Within(es, a, |p| - 1) && Target(p) in Within(es, a, |p|)
  {
    if |p| > 1 {
      var q := p[..|p| - 1];
      assert IsPath(es, a, q);
      PathIsWithin(es, a, q);
      assert p[|p| - 2].to == p[|p| - 1].from;
    }
  }

  /** The two readings of distance agree: by levels, and by paths. */
  lemma T2WithinIff(es: seq<Edge>, a: Id, k: nat)
    ensures T2Within(es, a, k) <==> exists p :: IsT2Path(es, a, p) && |p| <= k
  {
    if T2Within(es, a, k) {
      var id :| id in Within(es, a, k - 1) && CitesT2(es, id);
      var e :| e in es && e.kind.DerivedFrom? && e.from == id && e.toTier == 2;
      var p: seq<Edge> := [];
      if id != a {
        p := WithinHasPath(es, a, k - 1, id);
      }
      assert IsT2Path(es, a, p + [e]);
    }
    if exists p :: IsT2Path(es, a, p) && |p| <= k {
      var p: seq<Edge> :| IsT2Path(es, a, p) && |p| <= k;
      PathIsWithin(es, a, p);
      WithinGrows(es, a, |p| - 1, k - 1);
      assert CitesT2(es, p[|p| - 1].from);
    }
  }

  lemma LeastT2WithinIsDistance(es: seq<Edge>, a: Id, d: nat)
    requires 0 < d && T2Within(es, a, d) && !T2Within(es, a, d - 1)
    ensures IsInferenceDistance(es, a, d)
  {
    T2WithinIff(es, a, d);
    T2WithinIff(es, a, d - 1);
    var p :| IsT2Path(es, a, p) && |p| <= d;
  }

  lemma WithinNext(es: seq<Edge>, a: Id, k: nat)
    requires k > 0
    ensures Within(es, a, k) == Within(es, a, k - 1) + Sources(es, Within(es, a, k - 1))
  {
  }

  lemma {:induction false} FixpointStays(es: seq<Edge>, a: Id, j: nat, k: nat)
    requires j <= k && Sources(es, Within(es, a, j)) <= Within(es, a, j)
    ensures Within(es, a, k) == Within(es, a, j)
  {
    hide Within, Sources;
    if j < k {
      FixpointStays(es, a, j, k - 1);
      WithinNext(es, a, k);
    }
  }

  lemma NoT2MeansOne(es: seq<Edge>, a: Id, k: nat)
    requires Sources(es, Within(es, a, k)) <= Within(es, a, k)
    requires forall id :: id in Within(es, a, k) ==> !CitesT2(es, id)
    ensures IsInferenceDistance(es, a, 1)
  {
    forall p: seq<Edge> | IsPath(es, a, p) ensures !IsT2Path(es, a, p) {
      PathIsWithin(es, a, p);
      if |p| - 1 <= k {
        WithinGrows(es, a, |p| - 1, k);
      } else {
        FixpointStays(es, a, k, |p| - 1);
      }
      assert !CitesT2(es, p[|p| - 1].from);
    }
  }

  /** No record has distance 0, not even a T2 entry; and the distance is unique. */
  lemma DistanceIsPositive(es: seq<Edge>, a: Id, d: int, d': int)
    requires IsInferenceDistance(es, a, d) && IsInferenceDistance(es, a, d')
    ensures 1 <= d == d'
  {
  }
}
