/** Tier-2 logs, tier-3 narratives, and the transaction that links them. */
module Consolidation {
  import opened Wrappers
  import opened JobStore

  type LogId = nat
  type NarrativeId = nat

  /** A tier-2 log; `narrative` is the narrative_summary_id column. */
  datatype LogRow = LogRow(session: SessionId, narrative: Option<NarrativeId>)

  datatype Fence = Fence(job: JobId, token: Token)

  datatype LinkError = NoSources | InsertFailed | UpdateFailed | CommitFailed | FenceMissing | FenceLost

  /** Which statement of the link transaction the database refuses, if any. */
  datatype Fault = NoFault | InsertFault | UpdateFault | CommitFault

  predicate Uncovered(row: LogRow, session: SessionId) {
    row.session == session && row.narrative.None?
  }

  predicate Wanted(row: LogRow, session: SessionId, uncovered: bool) {
    if uncovered then Uncovered(row, session) else row.session == session
  }

  /** UPDATE experiential_logs SET narrative_summary_id = n WHERE id IN sources */
  function Linked(logs: map<LogId, LogRow>, sources: set<LogId>, n: NarrativeId): (linked: map<LogId, LogRow>)
    ensures linked.Keys == logs.Keys
    ensures forall l :: l in logs && l in sources ==> linked[l] == LogRow(logs[l].session, Some(n))
    ensures forall l :: l in logs && l !in sources ==> linked[l] == logs[l]
  {
    map l | l in logs :: if l in sources then logs[l].(narrative := Some(n)) else logs[l]
  }

  class SQLiteConsolidationStore {
    var logs: map<LogId, LogRow>
    var inserted: seq<LogId>   // the order of created_at
    var narratives: map<NarrativeId, SessionId>

    ghost predicate Valid()
      reads this
    {
      && (forall l :: l in logs <==> l in inserted)
      && (forall i, k :: 0 <= i < k < |inserted| ==> inserted[i] != inserted[k])
    }

    constructor ()
      ensures Valid() && logs == map[] && inserted == [] && narratives == map[]
    {
      logs, inserted, narratives := map[], [], map[];
    }

    method Append(l: LogId, session: SessionId)
      requires Valid() && l !in logs
      modifies this`logs, this`inserted
      ensures Valid()
      ensures logs == old(logs)[l := LogRow(session, None)] && inserted == old(inserted) + [l]
    {
      logs := logs[l := LogRow(session, None)];
      inserted := inserted + [l];
    }

    /** The idempotent read: the session's logs that no narrative covers yet, oldest first, none twice. */
    method UncoveredLogs(session: SessionId) returns (ids: seq<LogId>)
      requires Valid()
      ensures forall l :: l in ids <==> l in logs && logs[l].session == session && logs[l].narrative == None
      ensures forall i, k :: 0 <= i < k < |ids| ==> Precedes(inserted, ids[i], ids[k])
    {
      ids := Select(session, true);
    }

    /** QueryLogs with limit 0: every log of the session, linked or not. */
    method QueryLogs(session: SessionId) returns (ids: seq<LogId>)
      requires Valid()
      ensures forall l :: l in ids <==> l in logs && logs[l].session == session
      ensures forall i, k :: 0 <= i < k < |ids| ==> Precedes(inserted, ids[i], ids[k])
    {
      ids := Select(session, false);
    }

    method Select(session: SessionId, uncovered: bool) returns (ids: seq<LogId>)
      requires Valid()
      ensures forall l :: l in ids <==> l in logs && Wanted(logs[l], session, uncovered)
      ensures forall i, k :: 0 <= i < k < |ids| ==> Precedes(inserted, ids[i], ids[k])
    {
      ids := [];
      ghost var at: seq<nat> := [];
      for n := 0 to |inserted|
        invariant |at| == |ids|
        invariant forall i :: 0 <= i < |at| ==> at[i] < n && inserted[at[i]] == ids[i]
        invariant forall i, k :: 0 <= i < k < |at| ==> at[i] < at[k]
        invariant forall i, k :: 0 <= i < k < |ids| ==> Precedes(inserted, ids[i], ids[k])
        invariant forall l :: l in ids ==> l in logs && Wanted(logs[l], session, uncovered)
        invariant forall a :: 0 <= a < n && Wanted(logs[inserted[a]], session, uncovered) ==> inserted[a] in ids
      {
        if Wanted(logs[inserted[n]], session, uncovered) {
          ids := ids + [inserted[n]];
          at := at + [n];
        }
      }
    }

    /**
     * Inserts the narrative and sets its back-links in one transaction: both happen or neither does.
     * There is no fence here, and nothing tests that the sources are still uncovered.
     */
    method CommitNarrative(n: NarrativeId, session: SessionId, sources: seq<LogId>, fault: Fault)
      returns (r: Result<(), LinkError>)
      requires Valid()
      modifies this`logs, this`narratives
      ensures Valid()
      ensures r.Ok? <==> sources != [] && n !in old(narratives) && fault == NoFault
      ensures r.Ok? ==>
                && narratives == old(narratives)[n := session]
                && logs == Linked(old(logs), Elements(sources), n)
      ensures r.Err? ==> narratives == old(narratives) && logs == old(logs)
    {
      r := Transact(n, session, sources, fault);
    }

    /** AtomicT2T3Link: the same transaction behind a check that `fence` still holds the job. */
    method AtomicT2T3Link(store: SQLiteJobStore, n: NarrativeId, session: SessionId, sources: seq<LogId>,
                          fence: Option<Fence>, fault: Fault)
      returns (r: Result<(), LinkError>)
      requires Valid()
      modifies this`logs, this`narratives
      ensures Valid()
      ensures r.Ok? <==>
              && sources != [] && n !in old(narratives) && fault == NoFault
              && (fence.Some? ==> && fence.value.job in store.jobs
                                  && store.jobs[fence.value.job].claimToken == Some(fence.value.token))
      ensures r.Ok? ==>
                && narratives == old(narratives)[n := session]
                && logs == Linked(old(logs), Elements(sources), n)
      ensures r.Err? ==> narratives == old(narratives) && logs == old(logs)
    {
      if sources == [] {
        return Err(NoSources);
      }
      if fence.Some? {
        if fence.value.job !in store.jobs {
          return Err(FenceMissing);
        }
        if store.jobs[fence.value.job].claimToken != Some(fence.value.token) {
          return Err(FenceLost);
        }
      }
      r := Transact(n, session, sources, fault);
    }

    /** BEGIN, INSERT, UPDATE, COMMIT, with a rollback on every early return. */
    method Transact(n: NarrativeId, session: SessionId, sources: seq<LogId>, fault: Fault)
      returns (r: Result<(), LinkError>)
      requires Valid()
      modifies this`logs, this`narratives
      ensures Valid()
      ensures r.Ok? <==> sources != [] && n !in old(narratives) && fault == NoFault
      ensures r.Ok? ==>
                && narratives == old(narratives)[n := session]
                && logs == Linked(old(logs), Elements(sources), n)
      ensures r.Err? ==> narratives == old(narratives) && logs == old(logs)
    {
      if sources == [] {
        return Err(NoSources);
      }
      var savedLogs, savedNarratives := logs, narratives;
      if fault == InsertFault || n in narratives {
        return Err(InsertFailed);
      }
      narratives := narratives[n := session];
      if fault == UpdateFault {
        logs, narratives := savedLogs, savedNarratives;
        return Err(UpdateFailed);
      }
      logs := Linked(logs, Elements(sources), n);
      if fault == CommitFault {
        logs, narratives := savedLogs, savedNarratives;
        return Err(CommitFailed);
      }
      return Ok(());
    }
  }
}
