/** Hybrid search: two ranked result lists fused by reciprocal rank. */
module Ranking {
  import opened Sorting
  import opened Wrappers

  type Id = string
  type Meta = string

  datatype Hit = Hit(id: Id, score: real, meta: Meta)

  const SMOOTHING: real := 60.0

  /** RRFScore: ranks count from 1, and a rank that is not positive means "not in that list". */
  function RRFScore(ftsRank: int, vectorRank: int, k: real): (score: real)
    ensures score >= 0.0 && (score == 0.0 <==> ftsRank <= 0 && vectorRank <= 0)
  {
    var smoothing := if k <= 0.0 then SMOOTHING else k;
    Share(ftsRank, smoothing) + Share(vectorRank, smoothing)
  }

  function Share(rank: int, k: real): (share: real)
    requires k > 0.0
    ensures share >= 0.0 && (share == 0.0 <==> rank <= 0)
  {
    if rank > 0 then ReciprocalIsPositive(k + rank as real); 1.0 / (k + rank as real) else 0.0
  }

  lemma ReciprocalIsPositive(x: real)
    requires x > 0.0
    ensures 1.0 / x > 0.0
  {
    assert 1.0 / x * x == 1.0;
  }

  // ----- What a fused result must be -----

  function Ids(hits: seq<Hit>): set<Id> {
    set h | h in hits :: h.id
  }

  /** The 1-based position of the last hit with this id, and 0 without one. */
  function LastRank(hits: seq<Hit>, id: Id): (rank: nat)
    ensures rank <= |hits|
    ensures rank == 0 <==> id !in Ids(hits)
    ensures rank > 0 ==> hits[rank - 1].id == id
    ensures forall j :: rank <= j < |hits| ==> hits[j].id != id
  {
    if hits == [] then 0
    else
      var n := |hits| - 1;
      assert hits == hits[..n] + [hits[n]];
      if hits[n].id == id then n + 1 else LastRank(hits[..n], id)
  }

  /** The metadata of the first hit with this id. */
  function FirstMeta(hits: seq<Hit>, id: Id): (meta: Meta)
    requires id in Ids(hits)
  {
    if hits[0].id == id then hits[0].meta
    else
      assert hits == [hits[0]] + hits[1..];
      FirstMeta(hits[1..], id)
  }

  /** The metadata of the last hit with this id. */
  function LastMeta(hits: seq<Hit>, id: Id): Meta
    requires id in Ids(hits)
  {
    hits[LastRank(hits, id) - 1].meta
  }

  function Union(fts: seq<Hit>, vector: seq<Hit>): set<Id> {
    Ids(fts) + Ids(vector)
  }

  /** The hit that stands for `id` in the fusion of the two lists. */
  function Fuse(fts: seq<Hit>, vector: seq<Hit>, id: Id): (h: Hit)
    requires id in Union(fts, vector)
    ensures h.id == id
  {
    Hit(
      id,
      RRFScore(LastRank(fts, id), LastRank(vector, id), SMOOTHING),
      if id in Ids(fts) then LastMeta(fts, id) else FirstMeta(vector, id))
  }

  function IdOf(h: Hit): Id {
    h.id
  }

  /** The key of the sort by descending score. */
  function Rank(h: Hit): real {
    -h.score
  }

  predicate Descending(hits: seq<Hit>) {
    forall i, j :: 0 <= i < j < |hits| ==> hits[i].score >= hits[j].score
  }

  function Wanted(topK: int, available: nat): nat {
    if 0 < topK < available then topK else available
  }

  /** Nothing that was left out scores above anything that was returned. */
  ghost predicate NothingBetterOmitted(fts: seq<Hit>, vector: seq<Hit>, out: seq<Hit>) {
    forall id, i :: id in Union(fts, vector) - Ids(out) && 0 <= i < |out|
      ==> Fuse(fts, vector, id).score <= out[i].score
  }

  /** The best `topK` of the union, each once, best first; all of it when `topK` is not positive. */
  ghost predicate IsFusion(fts: seq<Hit>, vector: seq<Hit>, topK: int, out: seq<Hit>) {
    && DistinctBy(out, IdOf)
    && Descending(out)
    && (forall i :: 0 <= i < |out| ==> out[i].id in Union(fts, vector) && out[i] == Fuse(fts, vector, out[i].id))
    && |out| == Wanted(topK, |Union(fts, vector)|)
    && NothingBetterOmitted(fts, vector, out)
  }

  // ----- The search -----

  predicate IsRankTable(hits: seq<Hit>, rankOf: map<Id, nat>) {
    rankOf.Keys == Ids(hits) && forall id :: id in rankOf ==> rankOf[id] == LastRank(hits, id)
  }

  predicate IsMetaTable(fts: seq<Hit>, vector: seq<Hit>, metaOf: map<Id, Meta>) {
    metaOf.Keys == Union(fts, vector) && forall id :: id in metaOf ==> metaOf[id] == Fuse(fts, vector, id).meta
  }

  /** The rank table of one list: a later hit with the same id overwrites the rank of an earlier one. */
  method RankTable(hits: seq<Hit>) returns (rankOf: map<Id, nat>)
    ensures IsRankTable(hits, rankOf)
  {
    hide LastRank, Ids;
    rankOf := map[];
    assert hits[..0] == [];
    NoIds();
    for i := 0 to |hits|
      invariant rankOf.Keys == Ids(hits[..i])
      invariant forall id :: id in rankOf ==> rankOf[id] == LastRank(hits[..i], id)
    {
      PrefixGrows(hits, i);
      rankOf := rankOf[hits[i].id := i + 1];
    }
    assert hits[..|hits|] == hits;
  }

  lemma NoIds()
    ensures Ids([]) == {}
  {
  }

  lemma PrefixGrows(hits: seq<Hit>, i: nat)
    requires i < |hits|
    ensures Ids(hits[..i + 1]) == Ids(hits[..i]) + {hits[i].id}
    ensures LastRank(hits[..i + 1], hits[i].id) == i + 1
    ensures forall id :: id != hits[i].id ==> LastRank(hits[..i + 1], id) == LastRank(hits[..i], id)
  {
    assert hits[..i + 1] == hits[..i] + [hits[i]];
    assert hits[..i + 1][..i] == hits[..i];
  }

  ghost predicate Unique(ids: seq<Id>) {
    forall i, j :: 0 <= i < j < |ids| ==> ids[i] != ids[j]
  }

  lemma UniqueAppend(ids: seq<Id>, id: Id)
    requires Unique(ids) && id !in Elements(ids)
    ensures Unique(ids + [id])
  {
    assert forall i :: 0 <= i < |ids| ==> ids[i] in Elements(ids);
  }

  /** One pass of the collection of ids: append those of `hits` that were not seen yet. */
  method AppendUnseen(ids: seq<Id>, seen: set<Id>, hits: seq<Hit>) returns (ids': seq<Id>, seen': set<Id>)
    requires seen == Elements(ids) && Unique(ids)
    ensures seen' == Elements(ids') == seen + Ids(hits) && Unique(ids')
  {
    hide LastRank, Ids, Unique;
    ids', seen' := ids, seen;
    assert hits[..0] == [];
    NoIds();
    for i := 0 to |hits|
      invariant seen' == Elements(ids') == seen + Ids(hits[..i]) && Unique(ids')
    {
      PrefixGrows(hits, i);
      if hits[i].id !in seen' {
        ElementsAppend(ids', hits[i].id);
        UniqueAppend(ids', hits[i].id);
        ids' := ids' + [hits[i].id];
        seen' := seen' + {hits[i].id};
      }
    }
    assert hits[..|hits|] == hits;
  }

  /** Each id of the two lists once. */
  method UniqueIds(fts: seq<Hit>, vector: seq<Hit>) returns (ids: seq<Id>)
    ensures Elements(ids) == Union(fts, vector) && Unique(ids)
  {
    var seen: set<Id>;
    ids, seen := AppendUnseen([], {}, fts);
    ids, seen := AppendUnseen(ids, seen, vector);
  }

  lemma FirstMetaOfPrefix(hits: seq<Hit>, i: nat, id: Id)
    requires i < |hits| && id in Ids(hits[..i + 1])
    ensures id in Ids(hits[..i]) ==> FirstMeta(hits[..i + 1], id) == FirstMeta(hits[..i], id)
    ensures id !in Ids(hits[..i]) ==> FirstMeta(hits[..i + 1], id) == hits[i].meta
    decreases i
  {
    assert hits[..i + 1] == hits[..i] + [hits[i]];
    if i > 0 && hits[0].id != id {
      assert hits[..i + 1][1..] == hits[1..][..i];
      assert hits[..i][1..] == hits[1..][..i - 1];
      assert hits[..i + 1] == [hits[0]] + hits[1..][..i];
      assert hits[..i] == [hits[0]] + hits[1..][..i - 1];
      FirstMetaOfPrefix(hits[1..], i - 1, id);
    }
  }

  lemma FirstMetaGrows(hits: seq<Hit>, i: nat)
    requires i < |hits|
    ensures Ids(hits[..i]) <= Ids(hits[..i + 1])
    ensures forall id :: id in Ids(hits[..i]) ==> FirstMeta(hits[..i + 1], id) == FirstMeta(hits[..i], id)
    ensures hits[i].id in Ids(hits[..i + 1])
    ensures hits[i].id !in Ids(hits[..i]) ==> FirstMeta(hits[..i + 1], hits[i].id) == hits[i].meta
  {
    hide LastRank, FirstMeta, Ids;
    PrefixGrows(hits, i);
    forall id | id in Ids(hits[..i]) ensures FirstMeta(hits[..i + 1], id) == FirstMeta(hits[..i], id) {
      FirstMetaOfPrefix(hits, i, id);
    }
    FirstMetaOfPrefix(hits, i, hits[i].id);
  }

  lemma LastMetaGrows(hits: seq<Hit>, i: nat)
    requires i < |hits|
    ensures Ids(hits[..i]) <= Ids(hits[..i + 1])
    ensures forall id :: id in Ids(hits[..i]) - {hits[i].id} ==> LastMeta(hits[..i + 1], id) == LastMeta(hits[..i], id)
    ensures hits[i].id in Ids(hits[..i + 1]) && LastMeta(hits[..i + 1], hits[i].id) == hits[i].meta
  {
    hide LastRank, Ids;
    PrefixGrows(hits, i);
  }

  /** In the full-text list a later hit overwrites the metadata of an earlier one. */
  method LastMetas(hits: seq<Hit>) returns (metaOf: map<Id, Meta>)
    ensures metaOf.Keys == Ids(hits)
    ensures forall id :: id in metaOf ==> metaOf[id] == LastMeta(hits, id)
  {
    hide LastRank, LastMeta, Ids;
    metaOf := map[];
    assert hits[..0] == [];
    NoIds();
    for i := 0 to |hits|
      invariant metaOf.Keys == Ids(hits[..i])
      invariant forall id :: id in metaOf ==> metaOf[id] == LastMeta(hits[..i], id)
    {
      PrefixGrows(hits, i);
      LastMetaGrows(hits, i);
      metaOf := metaOf[hits[i].id := hits[i].meta];
    }
    assert hits[..|hits|] == hits;
  }

  /** The vector list only supplies metadata that is still missing, so its first hit counts. */
  method AddMissingMetas(ghost fts: seq<Hit>, known: map<Id, Meta>, hits: seq<Hit>) returns (metaOf: map<Id, Meta>)
    requires known.Keys == Ids(fts) && forall id :: id in known ==> known[id] == LastMeta(fts, id)
    ensures IsMetaTable(fts, hits, metaOf)
  {
    hide LastRank, LastMeta, FirstMeta, Ids;
    metaOf := known;
    assert hits[..0] == [];
    NoIds();
    for i := 0 to |hits|
      invariant metaOf.Keys == known.Keys + Ids(hits[..i])
      invariant forall id :: id in known ==> metaOf[id] == known[id]
      invariant forall id :: id in Ids(hits[..i]) - known.Keys ==> metaOf[id] == FirstMeta(hits[..i], id)
    {
      PrefixGrows(hits, i);
      FirstMetaGrows(hits, i);
      if hits[i].id !in metaOf {
        metaOf := metaOf[hits[i].id := hits[i].meta];
      }
    }
    assert hits[..|hits|] == hits;
  }

  /** One step of the scoring loop; an id that is missing from a rank table has rank 0 there. */
  method ScoreId(ghost fts: seq<Hit>, ghost vector: seq<Hit>, id: Id,
                 ftsRankOf: map<Id, nat>, vectorRankOf: map<Id, nat>, metaOf: map<Id, Meta>)
    returns (h: Hit)
    requires id in Union(fts, vector)
    requires IsRankTable(fts, ftsRankOf) && IsRankTable(vector, vectorRankOf) && IsMetaTable(fts, vector, metaOf)
    ensures h == Fuse(fts, vector, id)
  {
    var ftsRank := if id in ftsRankOf then ftsRankOf[id] else 0;
    var vectorRank := if id in vectorRankOf then vectorRankOf[id] else 0;
    h := Hit(id, RRFScore(ftsRank, vectorRank, SMOOTHING), metaOf[id]);
  }

  lemma FuseScore(fts: seq<Hit>, vector: seq<Hit>, id: Id)
    requires id in Union(fts, vector)
    ensures Fuse(fts, vector, id).score == RRFScore(LastRank(fts, id), LastRank(vector, id), SMOOTHING)
  {
  }

  method HybridSearch(fts: seq<Hit>, vector: seq<Hit>, topK: int) returns (out: seq<Hit>)
    ensures IsFusion(fts, vector, topK, out)
  {
    hide LastRank, LastMeta, FirstMeta, RRFScore, Ids, Fuse, IsFusion, IsRankTable, IsMetaTable, Unique, SortedBy;
    var ftsRankOf := RankTable(fts);
    var vectorRankOf := RankTable(vector);
    var allIds := UniqueIds(fts, vector);
    var metaOf := LastMetas(fts);
    metaOf := AddMissingMetas(fts, metaOf, vector);
    var results: seq<Hit> := [];
    for i := 0 to |allIds|
      invariant |results| == i
      invariant forall j :: 0 <= j < i ==> results[j] == Fuse(fts, vector, allIds[j])
    {
      ElementsHas(allIds, i);
      var h := ScoreId(fts, vector, allIds[i], ftsRankOf, vectorRankOf, metaOf);
      results := results + [h];
    }
    var sorted := SortBy(results, Rank);
    SortedIsFusion(fts, vector, allIds, results, sorted);
    if topK > 0 && |sorted| > topK {
      TrimmedIsFusion(fts, vector, sorted, topK);
      return sorted[..topK];
    }
    UntrimmedIsFusion(fts, vector, sorted, topK);
    return sorted;
  }

  // ----- Why sorting and trimming gives the fusion -----

  lemma {:induction false} IdsCount(hits: seq<Hit>)
    requires DistinctBy(hits, IdOf)
    ensures |Ids(hits)| == |hits|
  {
    if hits != [] {
      var n := |hits| - 1;
      assert hits == hits[..n] + [hits[n]];
      assert hits[..n + 1] == hits;
      assert forall i :: 0 <= i < n ==> IdOf(hits[i]) != IdOf(hits[n]);
      assert hits[n].id !in Ids(hits[..n]);
      PrefixGrows(hits, n);
      IdsCount(hits[..n]);
    }
  }

  lemma HasId(hits: seq<Hit>, j: nat)
    requires j < |hits|
    ensures hits[j].id in Ids(hits)
  {
  }

  lemma HasPrefixIds(hits: seq<Hit>, n: nat)
    requires n <= |hits|
    ensures forall j :: 0 <= j < n ==> hits[j].id in Ids(hits[..n])
  {
    forall j | 0 <= j < n ensures hits[j].id in Ids(hits[..n]) {
      HasId(hits[..n], j);
    }
  }

  lemma SortedIsFusion(fts: seq<Hit>, vector: seq<Hit>, ids: seq<Id>, results: seq<Hit>, sorted: seq<Hit>)
    requires Elements(ids) == Union(fts, vector) && Unique(ids)
    requires |results| == |ids|
    requires forall j :: 0 <= j < |ids| ==> ids[j] in Union(fts, vector) && results[j] == Fuse(fts, vector, ids[j])
    requires multiset(sorted) == multiset(results) && SortedBy(sorted, Rank)
    ensures IsFusion(fts, vector, 0, sorted)
  {
    hide RRFScore, LastRank, FirstMeta, Fuse;
    PermutationKeepsMembers(sorted, results);
    forall i, j | 0 <= i < j < |results| ensures IdOf(results[i]) != IdOf(results[j]) {
      assert ids[i] != ids[j];
    }
    PermutationStaysDistinct(results, sorted, IdOf);
    IdsCount(sorted);
    SortedHasUnion(fts, vector, ids, results, sorted);
    forall i, j | 0 <= i < j < |sorted| ensures sorted[i].score >= sorted[j].score {
      assert Rank(sorted[i]) <= Rank(sorted[j]);
    }
    forall i | 0 <= i < |sorted|
      ensures sorted[i].id in Union(fts, vector) && sorted[i] == Fuse(fts, vector, sorted[i].id)
    {
      assert sorted[i] in results;
    }
  }

  lemma SortedHasUnion(fts: seq<Hit>, vector: seq<Hit>, ids: seq<Id>, results: seq<Hit>, sorted: seq<Hit>)
    requires Elements(ids) == Union(fts, vector) && |results| == |ids|
    requires forall j :: 0 <= j < |ids| ==> results[j].id == ids[j]
    requires forall h :: h in sorted <==> h in results
    ensures Ids(sorted) == Union(fts, vector)
  {
    forall id | id in Union(fts, vector) ensures id in Ids(sorted) {
      assert id in Elements(ids);
      var j :| 0 <= j < |ids| && ids[j] == id;
      assert results[j] in sorted;
    }
    forall id | id in Ids(sorted) ensures id in Union(fts, vector) {
      var h :| h in sorted && h.id == id;
      assert h in results;
      var j :| 0 <= j < |results| && results[j] == h;
      ElementsHas(ids, j);
    }
  }

  lemma TrimmedIsFusion(fts: seq<Hit>, vector: seq<Hit>, sorted: seq<Hit>, topK: nat)
    requires IsFusion(fts, vector, 0, sorted) && 0 < topK < |sorted|
    ensures IsFusion(fts, vector, topK, sorted[..topK])
  {
    hide RRFScore, LastRank, FirstMeta, Fuse;
    var out := sorted[..topK];
    IdsCount(sorted);
    assert Ids(sorted) == Union(fts, vector) by {
      assert Ids(sorted) <= Union(fts, vector);
      SubsetOfSameSize(Ids(sorted), Union(fts, vector));
    }
    forall id, i | id in Union(fts, vector) - Ids(out) && 0 <= i < |out|
      ensures Fuse(fts, vector, id).score <= out[i].score
    {
      var j :| 0 <= j < |sorted| && sorted[j].id == id;
      HasPrefixIds(sorted, topK);
      assert j >= topK;
      assert sorted[i].score >= sorted[j].score;
    }
  }

  lemma UntrimmedIsFusion(fts: seq<Hit>, vector: seq<Hit>, sorted: seq<Hit>, topK: int)
    requires IsFusion(fts, vector, 0, sorted) && !(0 < topK < |sorted|)
    ensures IsFusion(fts, vector, topK, sorted)
  {
  }

  lemma SubsetOfSameSize(a: set<Id>, b: set<Id>)
    requires a <= b && |a| == |b|
    ensures a == b
  {
    if a != b {
      ProperSubsetIsSmaller(a, b);
      assert false;
    }
  }

  // ----- What every fusion guarantees -----

  lemma ScoresOf(fts: seq<Hit>, vector: seq<Hit>, topK: int, out: seq<Hit>, i: nat)
    requires IsFusion(fts, vector, topK, out) && i < |out|
    ensures out[i].id in Union(fts, vector) && out[i].score == Fuse(fts, vector, out[i].id).score
  {
  }

  lemma {:induction false} FirstMetaIs(hits: seq<Hit>, id: Id) returns (i: nat)
    requires id in Ids(hits)
    ensures i < |hits| && hits[i].id == id && FirstMeta(hits, id) == hits[i].meta
    ensures forall j :: 0 <= j < i ==> hits[j].id != id
  {
    if hits[0].id == id {
      i := 0;
    } else {
      assert hits == [hits[0]] + hits[1..];
      var later := FirstMetaIs(hits[1..], id);
      i := later + 1;
      assert forall j :: 0 < j < i ==> hits[j] == hits[1..][j - 1];
    }
  }

  /**
   * A hit of the fusion, from the two lists alone: one over 60 plus the rank of its last occurrence in each list, and
   * the metadata of the last full-text occurrence, or else of the first vector one.
   */
  lemma FusedHitIs(fts: seq<Hit>, vector: seq<Hit>, topK: int, out: seq<Hit>, i: nat)
    returns (f: nat, v: nat, first: nat)
    requires IsFusion(fts, vector, topK, out) && i < |out|
    ensures f <= |fts| && (f > 0 ==> fts[f - 1].id == out[i].id)
    ensures forall j :: f <= j < |fts| ==> fts[j].id != out[i].id
    ensures v <= |vector| && (v > 0 ==> vector[v - 1].id == out[i].id)
    ensures forall j :: v <= j < |vector| ==> vector[j].id != out[i].id
    ensures f > 0 || v > 0
    ensures out[i].score == (if f > 0 then 1.0 / (60.0 + f as real) else 0.0)
                            + (if v > 0 then 1.0 / (60.0 + v as real) else 0.0)
    ensures f > 0 ==> out[i].meta == fts[f - 1].meta
    ensures f == 0 ==> first < v && vector[first].id == out[i].id && out[i].meta == vector[first].meta
                       && forall j :: 0 <= j < first ==> vector[j].id != out[i].id
  {
    hide LastRank, FirstMeta, Descending, Wanted, NothingBetterOmitted;
    var id := out[i].id;
    assert out[i] == Fuse(fts, vector, id);
    f, v, first := LastRank(fts, id), LastRank(vector, id), 0;
    if f == 0 {
      first := FirstMetaIs(vector, id);
    }
  }

  /** Every id of either list is in the fusion, unless the limit is positive and smaller than their number. */
  lemma FusionSize(fts: seq<Hit>, vector: seq<Hit>, topK: int, out: seq<Hit>)
    requires IsFusion(fts, vector, topK, out)
    ensures var all := set h | h in fts + vector :: h.id;
            && (0 < topK <= |all| ==> |out| == topK)
            && (topK <= 0 || topK >= |all| ==> |out| == |all| && forall h :: h in fts + vector ==> h.id in Ids(out))
  {
    hide Fuse, Descending, NothingBetterOmitted;
    var all := set h | h in fts + vector :: h.id;
    assert all == Union(fts, vector);
    IdsCount(out);
    if topK <= 0 || topK >= |all| {
      assert Ids(out) <= all;
      SubsetOfSameSize(Ids(out), all);
    }
  }

  /**
   * The library sort may order ties as it likes, and two calls may trim differently; position by position the
   * scores of two fusions of the same lists still agree.
   */
  lemma ScoresAreDetermined(
      fts: seq<Hit>, vector: seq<Hit>, topK: int, out: seq<Hit>, topK': int, out': seq<Hit>, i: nat)
    requires IsFusion(fts, vector, topK, out) && IsFusion(fts, vector, topK', out')
    requires i < |out| && i < |out'|
    ensures out[i].score == out'[i].score
  {
    NotAbove(fts, vector, topK, out, topK', out', i);
    NotAbove(fts, vector, topK', out', topK, out, i);
  }

  /** If position `i` of one fusion scored above position `i` of another, i + 1 ids would share i places. */
  lemma NotAbove(fts: seq<Hit>, vector: seq<Hit>, topK: int, out: seq<Hit>, topK': int, out': seq<Hit>, i: nat)
    requires IsFusion(fts, vector, topK, out) && IsFusion(fts, vector, topK', out')
    requires i < |out| && i < |out'|
    ensures out[i].score <= out'[i].score
  {
    hide NothingBetterOmitted, Fuse, Ids;
    if out[i].score > out'[i].score {
      var above, places := out[..i + 1], out'[..i];
      HigherArePlaced(fts, vector, topK, out, topK', out', i);
      IdsCount(above);
      IdsCount(places);
      SubsetIsNoLarger(Ids(above), Ids(places));
      assert false;
    }
  }

  lemma HigherArePlaced(
      fts: seq<Hit>, vector: seq<Hit>, topK: int, out: seq<Hit>, topK': int, out': seq<Hit>, i: nat)
    requires IsFusion(fts, vector, topK, out) && IsFusion(fts, vector, topK', out')
    requires i < |out| && i < |out'| && out[i].score > out'[i].score
    ensures Ids(out[..i + 1]) <= Ids(out'[..i])
  {
    hide IsFusion;
    forall id | id in Ids(out[..i + 1]) ensures id in Ids(out'[..i]) {
      var j :| 0 <= j < i + 1 && out[..i + 1][j].id == id;
      HigherIsPlaced(fts, vector, topK, out, topK', out', i, j);
    }
  }

  lemma HigherIsPlaced(
      fts: seq<Hit>, vector: seq<Hit>, topK: int, out: seq<Hit>, topK': int, out': seq<Hit>, i: nat, j: nat)
    requires IsFusion(fts, vector, topK, out) && IsFusion(fts, vector, topK', out')
    requires j <= i < |out| && i < |out'| && out[i].score > out'[i].score
    ensures out[j].id in Ids(out'[..i])
  {
    hide RRFScore, LastRank, FirstMeta, Fuse;
    var h := out[j];
    assert h.score >= out[i].score;
    ScoresOf(fts, vector, topK, out, j);
    assert h.id in Ids(out');
    var j' :| 0 <= j' < |out'| && out'[j'].id == h.id;
    ScoresOf(fts, vector, topK', out', j');
    assert j' < i;
    HasId(out'[..i], j');
  }

  /** A rank at least as good: higher up the list, or in the list at all. */
  predicate AsGood(p: nat, p': nat) {
    p == p' || (p > 0 && (p' == 0 || p <= p'))
  }

  /** Ranks that are at least as good in both lists never lower the score. */
  lemma BetterRankScoresHigher(p: nat, q: nat, p': nat, q': nat)
    requires AsGood(p, p') && AsGood(q, q')
    ensures RRFScore(p, q, SMOOTHING) >= RRFScore(p', q', SMOOTHING)
  {
    BetterRankSharesMore(p, p');
    BetterRankSharesMore(q, q');
  }

  lemma BetterRankSharesMore(p: nat, p': nat)
    requires AsGood(p, p')
    ensures Share(p, SMOOTHING) >= Share(p', SMOOTHING)
  {
    if 0 < p <= p' {
      ReciprocalFalls(SMOOTHING + p as real, SMOOTHING + p' as real);
    }
  }

  lemma ReciprocalFalls(x: real, y: real)
    requires 0.0 < x <= y
    ensures 1.0 / x >= 1.0 / y
  {
    assert 1.0 / x * x == 1.0 && 1.0 / y * y == 1.0;
    ReciprocalIsPositive(x);
    ReciprocalIsPositive(y);
    var gap := 1.0 / x - 1.0 / y;
    assert gap * (x * y) == y - x by {
      assert 1.0 / x * (x * y) == y;
      assert 1.0 / y * (x * y) == x;
    }
    if gap < 0.0 {
      assert -gap * (x * y) > 0.0;
    }
  }

  /**
   * An id ranked p and q in the two lists beats every id found in only one list exactly when
   * 61 * (120 + p + q) >= (60 + p) * (60 + q).
   */
  lemma BothListsBeatOneIff(p: nat, q: nat)
    requires p > 0 && q > 0
    ensures (forall r: nat :: r > 0 ==> RRFScore(p, q, SMOOTHING) >= RRFScore(r, 0, SMOOTHING))
       <==> 61 * (120 + p + q) >= (60 + p) * (60 + q)
  {
    var x, y := (60 + p) as real, (60 + q) as real;
    SumAgainstBest(x, y);
    assert RRFScore(1, 0, SMOOTHING) == 1.0 / 61.0;
    assert RRFScore(p, q, SMOOTHING) == 1.0 / x + 1.0 / y;
    assert x * y == ((60 + p) * (60 + q)) as real;
    forall r: nat | r > 0 ensures RRFScore(1, 0, SMOOTHING) >= RRFScore(r, 0, SMOOTHING) {
      BetterRankScoresHigher(1, 0, r, 0);
    }
  }

  lemma SumAgainstBest(x: real, y: real)
    requires x > 0.0 && y > 0.0
    ensures 1.0 / x + 1.0 / y >= 1.0 / 61.0 <==> 61.0 * (x + y) >= x * y
  {
    var s := 1.0 / x + 1.0 / y;
    assert 1.0 / x * x == 1.0 && 1.0 / y * y == 1.0;
    assert s * (x * y) == x + y by {
      assert 1.0 / x * (x * y) == y;
      assert 1.0 / y * (x * y) == x;
    }
    assert x * y > 0.0;
    var gap := s - 1.0 / 61.0;
    assert 61.0 * gap * (x * y) == 61.0 * (x + y) - x * y;
    assert gap >= 0.0 <==> 61.0 * gap * (x * y) >= 0.0;
  }

  /** Ranks up to 62 in both lists always suffice, and 63 in both is the first that does not. */
  lemma Rank62InBothBeatsOne(fts: seq<Hit>, vector: seq<Hit>, both: Id, one: Id)
    requires both in Ids(fts) && both in Ids(vector)
    requires one in Union(fts, vector) && !(one in Ids(fts) && one in Ids(vector))
    requires LastRank(fts, both) <= 62 && LastRank(vector, both) <= 62
    ensures Fuse(fts, vector, both).score >= Fuse(fts, vector, one).score
  {
    hide RRFScore, LastRank, FirstMeta, Fuse, Ids;
    FuseScore(fts, vector, both);
    FuseScore(fts, vector, one);
    RanksWithin62(LastRank(fts, both), LastRank(vector, both), LastRank(fts, one), LastRank(vector, one));
  }

  lemma RanksWithin62(p: nat, q: nat, f: nat, v: nat)
    requires 0 < p <= 62 && 0 < q <= 62 && (f == 0 <==> v > 0)
    ensures RRFScore(p, q, SMOOTHING) >= RRFScore(f, v, SMOOTHING)
  {
    hide RRFScore;
    WithinSixtyTwo(p, q);
    BothListsBeatOneIff(p, q);
    if v == 0 {
      assert RRFScore(p, q, SMOOTHING) >= RRFScore(f, 0, SMOOTHING);
    } else {
      assert RRFScore(p, q, SMOOTHING) >= RRFScore(v, 0, SMOOTHING);
      SymmetricScore(v, 0);
    }
  }

  lemma SymmetricScore(p: nat, q: nat)
    ensures RRFScore(p, q, SMOOTHING) == RRFScore(q, p, SMOOTHING)
  {
  }

  lemma WithinSixtyTwo(p: nat, q: nat)
    requires 0 < p <= 62 && 0 < q <= 62
    ensures 61 * (120 + p + q) >= (60 + p) * (60 + q)
  {
    assert (62 - p) * (60 + q) == 122 * (60 + q) - (60 + p) * (60 + q) >= 0;
    assert (62 - q) * (60 + p) == 122 * (60 + p) - (60 + p) * (60 + q) >= 0;
  }

  lemma Rank63InBothCanLose()
    ensures RRFScore(63, 63, SMOOTHING) < RRFScore(1, 0, SMOOTHING)
  {
  }
}
