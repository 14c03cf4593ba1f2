/** PropagateDistrust: a worklist search downstream from a record that is no longer trusted. */
module Distrust {
  import opened Wrappers
  import opened Provenance

  /** The records' verification_state column, as far as needs_review goes. */
  class BeliefTable {
    var needsReview: set<Id>
    const broken: set<Id>   // records the database fails to update

    constructor (broken: set<Id>)
      ensures this.broken == broken && needsReview == {}
    {
      this.broken, needsReview := broken, {};
    }

    /** An unknown tier is an error; a tier-2 log has no belief and is left alone, successfully. */
    predicate Markable(n: EdgeNode) {
      2 <= n.tier <= 5 && (n.tier == 2 || n.id !in broken)
    }

    method MarkNeedsReview(n: EdgeNode) returns (ok: bool)
      modifies this
      ensures ok == Markable(n)
      ensures ok <==> n.tier == 2 || (3 <= n.tier <= 5 && n.id !in broken)
      ensures needsReview == old(needsReview) + if ok && n.tier != 2 then {n.id} else {}
    {
      if n.tier < 2 || 5 < n.tier {
        return false;
      }
      if n.tier == 2 {
        return true;
      }
      if n.id in broken {
        return false;
      }
      needsReview := needsReview + {n.id};
      return true;
    }

    function Marked(ns: seq<EdgeNode>): set<Id> {
      set n | n in ns && Markable(n) :: n.id
    }

    function Annotated(ns: seq<EdgeNode>): set<Id> {
      set n | n in ns && Markable(n) && n.tier != 2 :: n.id
    }

    /** A log counts as marked without an update; a belief or above is marked unless the update fails. */
    lemma MarksAre(ns: seq<EdgeNode>, id: Id)
      ensures id in Marked(ns) <==>
                exists n :: n in ns && n.id == id && (n.tier == 2 || (3 <= n.tier <= 5 && id !in broken))
      ensures id in Annotated(ns) <==> exists n :: n in ns && n.id == id && 3 <= n.tier <= 5 && id !in broken
    {
    }
  }

  function Ids(ns: seq<EdgeNode>): set<Id> {
    set n | n in ns :: n.id
  }

  ghost predicate Distinct(ns: seq<EdgeNode>) {
    forall i, k :: 0 <= i < k < |ns| ==> ns[i].id != ns[k].id
  }

  /** A derived_from path from `id` down to `source` whose inner records are all in `via`. */
  ghost predicate Chain(es: seq<Edge>, id: Id, source: Id, p: seq<Edge>, via: set<Id>) {
    IsPath(es, id, p) && Target(p) == source && forall i :: 0 < i < |p| ==> p[i].from in via
  }

  ghost predicate Reaches(es: seq<Edge>, id: Id, source: Id, via: set<Id>) {
    exists p :: Chain(es, id, source, p, via)
  }

  function All(es: seq<Edge>, source: Id): set<Id> {
    {source} + set e | e in es :: e.from
  }

  lemma ReachesMore(es: seq<Edge>, id: Id, source: Id, via: set<Id>, more: set<Id>)
    requires Reaches(es, id, source, via) && via <= more
    ensures Reaches(es, id, source, more)
  {
    var p :| Chain(es, id, source, p, via);
    assert Chain(es, id, source, p, more);
  }

  lemma ReachesThrough(es: seq<Edge>, n: EdgeNode, mid: Id, source: Id, via: set<Id>)
    requires n in Downstream(es, mid) && (mid == source || (mid in via && Reaches(es, mid, source, via)))
    ensures Reaches(es, n.id, source, via)
  {
    var e :| e in es && e.kind.DerivedFrom? && e.to == mid && n == EdgeNode(e.from, e.fromTier);
    if mid == source {
      assert Chain(es, n.id, source, [e], via);
    } else {
      var p :| Chain(es, mid, source, p, via);
      assert Chain(es, n.id, source, [e] + p, via);
    }
  }

  /** Everything directly downstream of the source and of the marked records has been seen. */
  ghost predicate Closed(es: seq<Edge>, source: Id, via: set<Id>, visited: set<Id>) {
    source in visited && forall m :: m == source || m in via ==> Ids(Downstream(es, m)) <= visited
  }

  lemma {:induction false} ClosedReaches(
      es: seq<Edge>, id: Id, source: Id, p: seq<Edge>, via: set<Id>, visited: set<Id>)
    requires Closed(es, source, via, visited) && Chain(es, id, source, p, via)
    ensures id in visited
  {
    var n := EdgeNode(id, p[0].fromTier);
    assert n in Downstream(es, p[0].to);
    assert |p| > 1 ==> p[1].from in via;
  }

  lemma {:induction false} DistinctIds(ns: seq<EdgeNode>)
    requires Distinct(ns)
    ensures |Ids(ns)| == |ns|
  {
    if ns != [] {
      var k := |ns| - 1;
      DistinctIds(ns[..k]);
      assert Ids(ns) == Ids(ns[..k]) + {ns[k].id};
    }
  }

  /** The loop both the seeding and the expansion run: queue what has not been visited. */
  method Enqueue(nodes: seq<EdgeNode>, visited: set<Id>, queue: seq<EdgeNode>)
    returns (visited': set<Id>, added: seq<EdgeNode>, queue': seq<EdgeNode>)
    ensures queue' == queue + added && visited' == visited + Ids(nodes)
    ensures Distinct(added) && Ids(added) == visited' - visited && forall n :: n in added ==> n in nodes
  {
    visited', added, queue' := visited, [], queue;
    for i := 0 to |nodes|
      invariant queue' == queue + added && visited' == visited + Ids(nodes[..i])
      invariant Distinct(added) && Ids(added) == visited' - visited && forall n :: n in added ==> n in nodes
    {
      var n := nodes[i];
      assert Ids(nodes[..i + 1]) == Ids(nodes[..i]) + {n.id};
      if n.id !in visited' {
        assert n.id !in Ids(added);
        assert Ids(added + [n]) == Ids(added) + {n.id};
        visited' := visited' + {n.id};
        added := added + [n];
        queue' := queue' + [n];
      }
    }
    assert nodes[..|nodes|] == nodes;
  }

  /** What the search knows after attempting `done`, with `queue` still to go. */
  ghost predicate SearchInv(es: seq<Edge>, b: BeliefTable, source: Id, visited: set<Id>,
                            done: seq<EdgeNode>, queue: seq<EdgeNode>) {
    && Distinct(done + queue) && source !in Ids(done + queue)
    && visited == {source} + Ids(done + queue) <= All(es, source)
    && forall n :: n in done + queue ==> Reaches(es, n.id, source, b.Marked(done))
  }

  lemma Extend(es: seq<Edge>, b: BeliefTable, source: Id, visited: set<Id>,
               done: seq<EdgeNode>, queue: seq<EdgeNode>, mid: Id, added: seq<EdgeNode>)
    requires SearchInv(es, b, source, visited, done, queue)
    requires mid == source || mid in b.Marked(done)
    requires Distinct(added) && Ids(added) !! visited && forall n :: n in added ==> n in Downstream(es, mid)
    ensures SearchInv(es, b, source, visited + Ids(added), done, queue + added)
  {
    var trail := done + queue;
    assert done + (queue + added) == trail + added;
    assert Ids(trail + added) == Ids(trail) + Ids(added);
    forall n | n in added ensures Reaches(es, n.id, source, b.Marked(done)) && n.id in All(es, source) {
      if mid != source {
        var m :| m in done && b.Markable(m) && m.id == mid;
        assert m in trail;
      }
      ReachesThrough(es, n, mid, source, b.Marked(done));
    }
    forall i, j | 0 <= i < |trail| && 0 <= j < |added| ensures trail[i].id != added[j].id {
      assert trail[i].id in Ids(trail) && added[j].id in Ids(added);
    }
  }

  lemma MarkedOne(b: BeliefTable, done: seq<EdgeNode>, cur: EdgeNode)
    ensures b.Marked(done + [cur]) == b.Marked(done) + if b.Markable(cur) then {cur.id} else {}
    ensures b.Annotated(done + [cur]) == b.Annotated(done) + if b.Markable(cur) && cur.tier != 2 then {cur.id} else {}
    ensures cur.id !in Ids(done) ==> cur.id !in b.Marked(done)
  {
  }

  lemma Attempt(es: seq<Edge>, b: BeliefTable, source: Id, visited: set<Id>,
                done: seq<EdgeNode>, cur: EdgeNode, rest: seq<EdgeNode>)
    requires SearchInv(es, b, source, visited, done, [cur] + rest)
    ensures SearchInv(es, b, source, visited, done + [cur], rest)
    ensures cur.id !in Ids(done) && |done| < |All(es, source)|
  {
    var trail := done + [cur] + rest;
    assert done + ([cur] + rest) == trail;
    MarkedOne(b, done, cur);
    forall n | n in trail ensures Reaches(es, n.id, source, b.Marked(done + [cur])) {
      ReachesMore(es, n.id, source, b.Marked(done), b.Marked(done + [cur]));
    }
    TrailIsBounded(es, source, trail);
    assert trail[|done|] == cur;
    assert forall n :: n in done ==> n in trail[..|done|];
  }

  lemma Dequeue(es: seq<Edge>, b: BeliefTable, source: Id, visited: set<Id>, done: seq<EdgeNode>, queue: seq<EdgeNode>)
    requires SearchInv(es, b, source, visited, done, queue) && queue != []
    ensures SearchInv(es, b, source, visited, done + [queue[0]], queue[1..])
    ensures |done| < |All(es, source)|
    ensures queue[0].id !in Ids(done)
  {
    hide SearchInv, Ids, All, BeliefTable.Marked, BeliefTable.Annotated;
    assert queue == [queue[0]] + queue[1..];
    Attempt(es, b, source, visited, done, queue[0], queue[1..]);
  }

  /** The table and the count say what has been attempted. */
  ghost predicate Tally(b: BeliefTable, before: set<Id>, done: seq<EdgeNode>, needsReview: set<Id>, affected: nat) {
    affected == |b.Marked(done)| && needsReview == before + b.Annotated(done)
  }

  lemma Untouched(b: BeliefTable, before: set<Id>)
    ensures Tally(b, before, [], before, 0)
  {
  }

  lemma TallyOne(b: BeliefTable, before: set<Id>, done: seq<EdgeNode>, cur: EdgeNode, needsReview: set<Id>,
                 affected: nat)
    requires Tally(b, before, done, needsReview, affected) && cur.id !in Ids(done)
    ensures Tally(b, before, done + [cur], needsReview + (if b.Markable(cur) && cur.tier != 2 then {cur.id} else {}),
                  affected + if b.Markable(cur) then 1 else 0)
    ensures if b.Markable(cur) then cur.id in b.Marked(done + [cur]) else b.Marked(done + [cur]) == b.Marked(done)
  {
    hide Ids, BeliefTable.Marked, BeliefTable.Annotated, BeliefTable.Markable;
    MarkedOne(b, done, cur);
  }

  lemma TrailIsBounded(es: seq<Edge>, source: Id, trail: seq<EdgeNode>)
    requires Distinct(trail) && Ids(trail) <= All(es, source)
    ensures |trail| <= |All(es, source)|
  {
    DistinctIds(trail);
    if Ids(trail) != All(es, source) {
      ProperSubsetIsSmaller(Ids(trail), All(es, source));
    }
  }

  lemma MarkKeepsClosed(es: seq<Edge>, source: Id, via: set<Id>, visited: set<Id>, m: Id)
    requires Closed(es, source, via, visited)
    ensures Closed(es, source, via + {m}, visited + Ids(Downstream(es, m)))
  {
  }

  /**
   * Attempts each record at most once and never the source; attempts exactly the records with a derived_from path
   * to the source through successfully marked records; counts the successes. A failed mark stops the search only
   * behind that record, a failed query stops it altogether.
   */
  method PropagateDistrust(es: seq<Edge>, unreadable: set<Id>, beliefs: BeliefTable, source: Id)
    returns (affected: nat, err: Option<Id>, ghost attempts: seq<EdgeNode>)
    modifies beliefs
    ensures Distinct(attempts) && source !in Ids(attempts)
    ensures affected == |beliefs.Marked(attempts)|
    ensures beliefs.needsReview == old(beliefs.needsReview) + beliefs.Annotated(attempts)
    ensures forall n :: n in attempts ==> Reaches(es, n.id, source, beliefs.Marked(attempts))
    ensures err.None? ==>
              forall id :: id in Ids(attempts) <==> id != source && Reaches(es, id, source, beliefs.Marked(attempts))
    ensures err.Some? ==> err.value in unreadable && (err.value == source || err.value in beliefs.Marked(attempts))
    ensures err.None? ==> source !in unreadable && beliefs.Marked(attempts) !! unreadable
  {
    hide *;
    attempts := [];
    Start(es, beliefs, source);
    if source in unreadable {
      return 0, Some(source), [];
    }
    var visited, added, queue := Enqueue(Downstream(es, source), {source}, []);
    Extend(es, beliefs, source, {source}, [], [], source, added);
    assert {source} + Ids(added) == visited;
    affected := 0;
    Untouched(beliefs, beliefs.needsReview);
    while queue != []
      invariant SearchInv(es, beliefs, source, visited, attempts, queue)
      invariant Closed(es, source, beliefs.Marked(attempts), visited) && beliefs.Marked(attempts) !! unreadable
      invariant Tally(beliefs, old(beliefs.needsReview), attempts, beliefs.needsReview, affected)
      decreases |All(es, source)| - |attempts|
    {
      var cur := queue[0];
      Dequeue(es, beliefs, source, visited, attempts, queue);
      MarkedOne(beliefs, attempts, cur);
      TallyOne(beliefs, old(beliefs.needsReview), attempts, cur, beliefs.needsReview, affected);
      queue := queue[1..];
      var ok := beliefs.MarkNeedsReview(cur);
      ghost var before := attempts;
      attempts := attempts + [cur];
      if !ok {
        continue;
      }
      affected := affected + 1;
      if cur.id in unreadable {
        Facts(es, beliefs, source, visited, attempts, queue);
        Count(beliefs, old(beliefs.needsReview), attempts, beliefs.needsReview, affected);
        return affected, Some(cur.id), attempts;
      }
      ghost var seen, waiting := visited, queue;
      visited, added, queue := Enqueue(Downstream(es, cur.id), visited, queue);
      Expand(es, beliefs, source, seen, before, cur, waiting, visited, added);
    }
    Facts(es, beliefs, source, visited, attempts, []);
    Finished(es, beliefs, source, visited, attempts);
    Count(beliefs, old(beliefs.needsReview), attempts, beliefs.needsReview, affected);
    return affected, None, attempts;
  }

  lemma Expand(es: seq<Edge>, b: BeliefTable, source: Id, seen: set<Id>, before: seq<EdgeNode>, cur: EdgeNode,
               queue: seq<EdgeNode>, visited: set<Id>, added: seq<EdgeNode>)
    requires SearchInv(es, b, source, seen, before + [cur], queue)
    requires b.Markable(cur) && Closed(es, source, b.Marked(before), seen)
    requires visited == seen + Ids(Downstream(es, cur.id))
    requires Distinct(added) && Ids(added) == visited - seen
    requires forall n :: n in added ==> n in Downstream(es, cur.id)
    ensures SearchInv(es, b, source, visited, before + [cur], queue + added)
    ensures Closed(es, source, b.Marked(before + [cur]), visited)
  {
    hide Distinct, SearchInv, Closed, Ids, BeliefTable.Marked;
    MarkedOne(b, before, cur);
    MarkKeepsClosed(es, source, b.Marked(before), seen, cur.id);
    assert seen + Ids(added) == visited;
    Extend(es, b, source, seen, before + [cur], queue, cur.id, added);
  }

  lemma Start(es: seq<Edge>, b: BeliefTable, source: Id)
    ensures SearchInv(es, b, source, {source}, [], []) && b.Marked([]) == {} && b.Annotated([]) == {}
    ensures Closed(es, source, {}, {source} + Ids(Downstream(es, source))) && Ids([]) == {} && Distinct([])
  {
  }

  lemma Count(b: BeliefTable, before: set<Id>, done: seq<EdgeNode>, needsReview: set<Id>, affected: nat)
    requires Tally(b, before, done, needsReview, affected)
    ensures affected == |b.Marked(done)| && needsReview == before + b.Annotated(done)
  {
  }

  lemma Facts(es: seq<Edge>, b: BeliefTable, source: Id, visited: set<Id>, done: seq<EdgeNode>, queue: seq<EdgeNode>)
    requires SearchInv(es, b, source, visited, done, queue)
    ensures Distinct(done) && source !in Ids(done)
    ensures forall n :: n in done ==> Reaches(es, n.id, source, b.Marked(done))
  {
    assert (done + queue)[..|done|] == done;
    forall i, k | 0 <= i < k < |done| ensures done[i].id != done[k].id {
      assert (done + queue)[i] == done[i] && (done + queue)[k] == done[k];
    }
  }

  lemma Finished(es: seq<Edge>, b: BeliefTable, source: Id, visited: set<Id>, done: seq<EdgeNode>)
    requires SearchInv(es, b, source, visited, done, []) && Closed(es, source, b.Marked(done), visited)
    ensures forall id :: id in Ids(done) <==> id != source && Reaches(es, id, source, b.Marked(done))
  {
    assert done + [] == done;
    forall id | id != source && Reaches(es, id, source, b.Marked(done)) ensures id in Ids(done) {
      var p :| Chain(es, id, source, p, b.Marked(done));
      ClosedReaches(es, id, source, p, b.Marked(done), visited);
    }
  }

  /** When every mark succeeds, the records attempted are the whole downstream closure of the source. */
  lemma NoFailuresMeansClosure(es: seq<Edge>, b: BeliefTable, source: Id, attempts: seq<EdgeNode>)
    requires source !in Ids(attempts) && forall n :: n in attempts ==> b.Markable(n)
    requires forall id :: id in Ids(attempts) <==> id != source && Reaches(es, id, source, b.Marked(attempts))
    ensures b.Marked(attempts) == Ids(attempts)
    ensures forall id :: id in Ids(attempts) <==> id != source && exists p :: IsPath(es, id, p) && Target(p) == source
  {
    assert b.Marked(attempts) == Ids(attempts);
    forall id, p | id != source && IsPath(es, id, p) && Target(p) == source ensures id in Ids(attempts) {
      PathIsAttempted(es, source, id, p, Ids(attempts));
    }
    forall id | id in Ids(attempts) ensures exists p :: IsPath(es, id, p) && Target(p) == source {
      var p :| Chain(es, id, source, p, b.Marked(attempts));
    }
  }

  lemma {:induction false} PathIsAttempted(es: seq<Edge>, source: Id, id: Id, p: seq<Edge>, attempted: set<Id>)
    requires id != source && IsPath(es, id, p) && Target(p) == source
    requires forall x :: x in attempted <==> x != source && Reaches(es, x, source, attempted)
    ensures id in attempted
    decreases |p|
  {
    if |p| == 1 {
      assert Chain(es, id, source, p, attempted);
    } else if p[1].from == source {
      assert Chain(es, id, source, [p[0]], attempted);
    } else {
      assert IsPath(es, p[1].from, p[1..]);
      PathIsAttempted(es, source, p[1].from, p[1..], attempted);
      var q :| Chain(es, p[1].from, source, q, attempted);
      assert Chain(es, id, source, [p[0]] + q, attempted);
    }
  }

  /**
   * The two searches are dual: if every edge into the source gives it tier 2, then every record the propagation
   * attempts has a genuine T2 path, and its inference distance is at most its distance from the source.
   */
  lemma DownstreamIsNearT2(es: seq<Edge>, source: Id, via: set<Id>, id: Id, d: int)
    requires forall e :: e in es && e.kind.DerivedFrom? && e.to == source ==> e.toTier == 2
    requires Reaches(es, id, source, via) && IsInferenceDistance(es, id, d)
    ensures exists q :: IsT2Path(es, id, q) && |q| == d
    ensures forall p :: IsPath(es, id, p) && Target(p) == source ==> d <= |p|
  {
    forall p | IsPath(es, id, p) && Target(p) == source ensures IsT2Path(es, id, p) {}
    var p :| Chain(es, id, source, p, via);
    assert IsT2Path(es, id, p);
  }
}
