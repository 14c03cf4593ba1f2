/** ComputeInferenceDistance: a level-by-level search for the nearest direct experience. */
module InferenceDistance {
  import opened Wrappers
  import opened Provenance

  /** Every record the search can meet. */
  function Known(es: seq<Edge>, a: Id): set<Id> {
    {a} + set e | e in es :: e.to
  }

  /** None of `done` is one hop from tier 2, and all their sources have been seen. */
  ghost predicate Explored(es: seq<Edge>, done: set<Id>, visited: set<Id>) {
    Sources(es, done) <= visited && forall id :: id in done ==> !CitesT2(es, id)
  }

  lemma NextLevel(es: seq<Edge>, a: Id, depth: nat, queue: set<Id>, visited: set<Id>)
    requires queue <= Within(es, a, depth)
    requires Explored(es, Within(es, a, depth) - queue, Within(es, a, depth))
    requires visited == Within(es, a, depth) + Sources(es, queue) && forall id :: id in queue ==> !CitesT2(es, id)
    ensures visited == Within(es, a, depth + 1) && Explored(es, Within(es, a, depth), visited)
    ensures !T2Within(es, a, depth + 1)
  {
    var level := Within(es, a, depth);
    forall id | id in Sources(es, level) ensures id in visited {
      var e :| e in es && e.kind.DerivedFrom? && e.from in level && e.to == id;
      assert e.from in queue || id in Sources(es, level - queue);
    }
  }

  /** The innermost loop: the sources of one record, stopping at the first one of tier 2. */
  method Scan(es: seq<Edge>, id: Id, visited: set<Id>, next: seq<Id>)
    returns (hit: bool, visited': set<Id>, next': seq<Id>)
    ensures hit <==> CitesT2(es, id)
    ensures !hit ==> visited' == visited + Sources(es, {id})
    ensures !hit ==> Elements(next') == Elements(next) + (visited' - visited)
  {
    var nodes := Upstream(es, id);
    visited', next' := visited, next;
    for j := 0 to |nodes|
      invariant forall n :: n in nodes[..j] ==> n.tier != 2 && n.id in visited'
      invariant visited <= visited' <= visited + Sources(es, {id})
      invariant Elements(next') == Elements(next) + (visited' - visited)
    {
      var n := nodes[j];
      assert n in nodes;
      if n.tier == 2 {
        return true, visited', next';
      }
      if n.id !in visited' {
        ElementsAppend(next', n.id);
        visited' := visited' + {n.id};
        next' := next' + [n.id];
      }
    }
    forall e | e in es && e.kind.DerivedFrom? && e.from == id ensures e.toTier != 2 && e.to in visited' {
      assert EdgeNode(e.to, e.toTier) in nodes;
    }
    hit := false;
  }

  /**
   * The length of the shortest derived_from path into tier 2, or 1 if there is none, on every graph, cyclic or
   * not. The search fails only on a record it cannot query, and only if no such path is shorter than the way there;
   * and it succeeds only if it could query all the records whose own edges come before any such path.
   */
  method ComputeInferenceDistance(es: seq<Edge>, unreadable: set<Id>, a: Id) returns (r: Result<nat, Id>)
    ensures r.Ok? ==> IsInferenceDistance(es, a, r.value)
    ensures r.Err? ==> r.error in unreadable && exists k :: r.error in Within(es, a, k) && !T2Within(es, a, k)
    ensures r.Ok? ==> NearerAreReadable(es, a, unreadable)
  {
    hide Done, NearerAreReadable, Sources, Explored, CitesT2, T2Within, IsInferenceDistance, Known, Elements, Within;
    var visited, queue, depth := {a}, [a], 0;
    Start(es, a);
    assert visited - Elements(queue) == {};
    NoneDone(es, a);
    while queue != []
      invariant visited == Within(es, a, depth) <= Known(es, a)
      invariant Elements(queue) <= visited
      invariant Explored(es, visited - Elements(queue), visited)
      invariant !T2Within(es, a, depth)
      invariant Done(es, a, depth, visited - Elements(queue)) && visited - Elements(queue) !! unreadable
      decreases |Known(es, a) - visited|, |queue|
    {
      var next: seq<Id> := [];
      ghost var level := visited;
      assert queue[..0] == [];
      for i := 0 to |queue|
        invariant visited == level + Sources(es, Elements(queue[..i])) <= Known(es, a)
        invariant Elements(next) == visited - level
        invariant forall id :: id in Elements(queue[..i]) ==> !CitesT2(es, id) && id !in unreadable
      {
        var id := queue[i];
        ElementsHas(queue, i);
        if id in unreadable {
          return Err(id);
        }
        AddOne(es, a, queue[..i], id);
        var hit;
        hit, visited, next := Scan(es, id, visited, next);
        if hit {
          HitAt(es, a, depth, id);
          HitAfterReading(es, a, depth, level - Elements(queue), unreadable);
          return Ok(depth + 1);
        }
        assert queue[..i + 1] == queue[..i] + [id];
      }
      assert queue[..|queue|] == queue;
      NextLevel(es, a, depth, Elements(queue), visited);
      Progress(es, a, level, visited, queue, next);
      assert visited - Elements(next) == level;
      LevelDone(es, a, depth);
      queue := next;
      depth := depth + 1;
    }
    assert visited - Elements(queue) == visited;
    Exhausted(es, a, depth);
    AllRead(es, a, depth, unreadable);
    return Ok(1);
  }

  /** Everything that has to be queried before a T2 path can be found. */
  ghost predicate NearerAreReadable(es: seq<Edge>, a: Id, unreadable: set<Id>) {
    forall id, k: nat :: id in Within(es, a, k) && !T2Within(es, a, k + 1) ==> id !in unreadable
  }

  /** The records queried when the search comes to this depth: all those at fewer hops. */
  ghost predicate Done(es: seq<Edge>, a: Id, depth: nat, done: set<Id>) {
    done == if depth == 0 then {} else Within(es, a, depth - 1)
  }

  lemma NoneDone(es: seq<Edge>, a: Id)
    ensures Done(es, a, 0, {})
  {
  }

  lemma LevelDone(es: seq<Edge>, a: Id, depth: nat)
    ensures Done(es, a, depth + 1, Within(es, a, depth))
  {
  }

  lemma HitAfterReading(es: seq<Edge>, a: Id, depth: nat, done: set<Id>, unreadable: set<Id>)
    requires Done(es, a, depth, done) && done !! unreadable && IsInferenceDistance(es, a, depth + 1)
    requires T2Within(es, a, depth + 1)
    ensures NearerAreReadable(es, a, unreadable)
  {
    hide T2Within, IsInferenceDistance, Within;
    forall id, k: nat | id in Within(es, a, k) && !T2Within(es, a, k + 1) ensures id !in unreadable {
      if k + 1 <= depth {
        WithinGrows(es, a, k, depth - 1);
      } else {
        T2WithinGrows(es, a, depth + 1, k + 1);
      }
    }
  }

  lemma T2WithinGrows(es: seq<Edge>, a: Id, j: nat, k: nat)
    requires T2Within(es, a, j) && j <= k
    ensures T2Within(es, a, k)
  {
    hide Within, CitesT2;
    WithinGrows(es, a, j - 1, k - 1);
    var id :| id in Within(es, a, j - 1) && CitesT2(es, id);
    assert id in Within(es, a, k - 1);
  }

  lemma AllRead(es: seq<Edge>, a: Id, depth: nat, unreadable: set<Id>)
    requires Within(es, a, depth) !! unreadable && Explored(es, Within(es, a, depth), Within(es, a, depth))
    ensures NearerAreReadable(es, a, unreadable)
  {
    hide Within;
    forall id, k: nat | id in Within(es, a, k) ensures id !in unreadable {
      if k <= depth {
        WithinGrows(es, a, k, depth);
      } else {
        FixpointStays(es, a, depth, k);
      }
    }
  }

  lemma Start(es: seq<Edge>, a: Id)
    ensures Within(es, a, 0) == {a} <= Known(es, a) && !T2Within(es, a, 0) && Elements([a]) == {a}
    ensures Explored(es, {}, {a}) && Sources(es, {}) == {} && Elements<Id>([]) == {}
  {
  }

  lemma AddOne(es: seq<Edge>, a: Id, done: seq<Id>, id: Id)
    ensures Elements(done + [id]) == Elements(done) + {id}
    ensures Sources(es, Elements(done + [id])) == Sources(es, Elements(done)) + Sources(es, {id})
    ensures Sources(es, {id}) <= Known(es, a)
  {
    ElementsAppend(done, id);
  }

  lemma HitAt(es: seq<Edge>, a: Id, depth: nat, id: Id)
    requires id in Within(es, a, depth) && CitesT2(es, id) && !T2Within(es, a, depth)
    ensures IsInferenceDistance(es, a, depth + 1) && T2Within(es, a, depth + 1)
  {
    LeastT2WithinIsDistance(es, a, depth + 1);
  }

  lemma Exhausted(es: seq<Edge>, a: Id, depth: nat)
    requires Explored(es, Within(es, a, depth), Within(es, a, depth))
    ensures IsInferenceDistance(es, a, 1)
  {
    NoT2MeansOne(es, a, depth);
  }

  lemma Progress(es: seq<Edge>, a: Id, level: set<Id>, visited: set<Id>, queue: seq<Id>, next: seq<Id>)
    requires level <= visited <= Known(es, a) && Elements(next) == visited - level && queue != []
    ensures next != [] ==> |Known(es, a) - visited| < |Known(es, a) - level|
    ensures next == [] ==> visited == level
  {
    hide Known;
    var before, after := Known(es, a) - level, Known(es, a) - visited;
    if next != [] {
      ElementsHas(next, 0);
      var id := next[0];
      assert id in visited - level;
      assert id in before && id !in after;
      assert forall x :: x in after ==> x in before;
      ProperSubsetIsSmaller(after, before);
    } else {
      assert Elements(next) == {};
      forall id | id in visited ensures id in level {
        assert id !in visited - level;
      }
    }
  }
}
