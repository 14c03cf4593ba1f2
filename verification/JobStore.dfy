/** The metabolism_jobs table and its guarded row updates. */
module JobStore {
  import opened Wrappers

  // Identifiers are random UUIDs in the program; here they are opaque numbers.
  type JobId = nat
  type SessionId = nat
  type Token = nat
  type Seconds = nat

  const MAX_CLAIM_COUNT: nat := 5

  datatype Status = Pending | Running | Completed | Failed | ReviewRequired

  datatype JobRow = JobRow(
    session: SessionId,
    status: Status,
    claimToken: Option<Token>,
    claimCount: nat,
    retryCount: nat,
    startedAt: Option<Seconds>)

  /** The one write a run makes when it is over. */
  datatype Outcome = Complete | Fail | Review

  datatype StoreError = JobNotPending | ClaimFenced | NotFound

  function NewRow(session: SessionId): JobRow {
    JobRow(session, Pending, None, 0, 0, None)
  }

  predicate Terminal(row: JobRow) {
    row.status == Completed || row.status == ReviewRequired
  }

  /** The WHERE clause of the claim: under the cap, and pending, failed or stale. */
  predicate Claimable(row: JobRow, now: Seconds, stale: Seconds) {
    && row.claimCount < MAX_CLAIM_COUNT
    && (|| row.status == Pending
        || row.status == Failed
        || (row.status == Running && row.startedAt.Some? && row.startedAt.value + stale < now))
  }

  function ClaimedRow(row: JobRow, token: Token, now: Seconds): JobRow {
    row.(status := Running, startedAt := Some(now), claimToken := Some(token), claimCount := row.claimCount + 1)
  }

  /** The finishers test the token and nothing else: not the status, not the age of the lease. */
  function FinishedRow(row: JobRow, token: Token, outcome: Outcome): JobRow {
    if row.claimToken != Some(token) then row
    else match outcome
      case Complete => row.(status := Completed)
      case Fail => row.(status := Failed, retryCount := row.retryCount + 1)
      case Review => row.(status := ReviewRequired)
  }

  predicate IsRecoverable(row: JobRow, maxRetries: nat) {
    && row.status in {Pending, Running, Failed}
    && row.retryCount < maxRetries
    && row.claimCount < MAX_CLAIM_COUNT
  }

  class SQLiteJobStore {
    var jobs: map<JobId, JobRow>
    var created: seq<JobId>   // the order of created_at

    ghost predicate Valid()
      reads this
    {
      && (forall id :: id in jobs <==> id in created)
      && (forall i, k :: 0 <= i < k < |created| ==> created[i] != created[k])
    }

    constructor ()
      ensures Valid() && jobs == map[] && created == []
    {
      jobs, created := map[], [];
    }

    method Commit(id: JobId, session: SessionId)
      requires Valid() && id !in jobs
      modifies this
      ensures Valid()
      ensures jobs == old(jobs)[id := NewRow(session)] && created == old(created) + [id]
      ensures jobs[id] == JobRow(session, Pending, None, 0, 0, None)
    {
      jobs := jobs[id := NewRow(session)];
      created := created + [id];
    }

    method Claim(id: JobId, token: Token, now: Seconds, stale: Seconds) returns (r: Result<Token, StoreError>)
      requires Valid()
      modifies this`jobs
      ensures Valid()
      ensures r == if id in old(jobs) && Claimable(old(jobs)[id], now, stale) then Ok(token) else Err(JobNotPending)
      ensures jobs == if r.Ok? then old(jobs)[id := ClaimedRow(old(jobs)[id], token, now)] else old(jobs)
      ensures r.Ok? <==>
              && id in old(jobs) && old(jobs)[id].claimCount < 5
              && (|| old(jobs)[id].status in {Pending, Failed}
                  || (old(jobs)[id].status == Running
                      && old(jobs)[id].startedAt.Some? && old(jobs)[id].startedAt.value + stale < now))
      ensures r.Ok? ==> jobs[id] == JobRow(
                old(jobs)[id].session, Running, Some(token), old(jobs)[id].claimCount + 1, old(jobs)[id].retryCount,
                Some(now))
    {
      if id in jobs && Claimable(jobs[id], now, stale) {
        jobs := jobs[id := ClaimedRow(jobs[id], token, now)];
        return Ok(token);
      }
      return Err(JobNotPending);
    }

    /** Complete, Fail and MarkReviewRequired: one UPDATE each, guarded by the claim token. */
    method Finish(id: JobId, token: Token, outcome: Outcome) returns (r: Result<(), StoreError>)
      requires Valid()
      modifies this`jobs
      ensures Valid()
      ensures id !in old(jobs) ==> r == Err(NotFound) && jobs == old(jobs)
      ensures id in old(jobs) ==>
                && r == (if old(jobs)[id].claimToken == Some(token) then Ok(()) else Err(ClaimFenced))
                && jobs == old(jobs)[id := FinishedRow(old(jobs)[id], token, outcome)]
      ensures r.Err? ==> jobs == old(jobs)
      ensures r.Ok? && outcome.Complete? ==> jobs == old(jobs)[id := old(jobs)[id].(status := Completed)]
      ensures r.Ok? && outcome.Review? ==> jobs == old(jobs)[id := old(jobs)[id].(status := ReviewRequired)]
      ensures r.Ok? && outcome.Fail? ==>
                jobs == old(jobs)[id := old(jobs)[id].(status := Failed, retryCount := old(jobs)[id].retryCount + 1)]
    {
      if id !in jobs {
        return Err(NotFound);
      }
      if jobs[id].claimToken != Some(token) {
        assert jobs == jobs[id := jobs[id]];
        return Err(ClaimFenced);
      }
      jobs := jobs[id := FinishedRow(jobs[id], token, outcome)];
      return Ok(());
    }

    /** The startup scan: exactly the recoverable jobs, oldest first. */
    method Recoverable(maxRetries: nat) returns (ids: seq<JobId>)
      requires Valid()
      ensures forall id :: id in ids <==>
                && id in jobs && (jobs[id].status.Pending? || jobs[id].status.Running? || jobs[id].status.Failed?)
                && jobs[id].retryCount < maxRetries && jobs[id].claimCount < 5
      ensures forall id :: id in ids <==> id in jobs && IsRecoverable(jobs[id], maxRetries)
      ensures forall i, k :: 0 <= i < k < |ids| ==> Precedes(created, ids[i], ids[k])
    {
      ids := [];
      ghost var at: seq<nat> := [];
      for n := 0 to |created|
        invariant |at| == |ids|
        invariant forall i :: 0 <= i < |at| ==> at[i] < n && created[at[i]] == ids[i]
        invariant forall i, k :: 0 <= i < k < |at| ==> at[i] < at[k]
        invariant forall i, k :: 0 <= i < k < |ids| ==> Precedes(created, ids[i], ids[k])
        invariant forall id :: id in ids ==> id in jobs && IsRecoverable(jobs[id], maxRetries)
        invariant forall a :: 0 <= a < n && IsRecoverable(jobs[created[a]], maxRetries) ==> created[a] in ids
      {
        assert created[n] in created;
        if IsRecoverable(jobs[created[n]], maxRetries) {
          ids := ids + [created[n]];
          at := at + [n];
        }
      }
    }
  }
}
