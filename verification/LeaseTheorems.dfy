/** What the lease protocol guarantees over whole runs. */
module LeaseTheorems {
  import opened Wrappers
  import opened JobStore
  import opened Consolidation
  import opened LeaseProtocol

  /** The state after the first i events of a run. */
  function At(mode: Mode, es: seq<Event>, i: nat): System
    requires i <= |es|
  {
    Exec(Init(mode), es[..i])
  }

  lemma AtStep(mode: Mode, es: seq<Event>, i: nat)
    requires i < |es|
    ensures At(mode, es, i + 1) == Next(At(mode, es, i), es[i])
    ensures At(mode, es, |es|) == Exec(Init(mode), es)
  {
    assert es[..i + 1][..i] == es[..i];
    assert es[..|es|] == es;
  }

  /** Event e is a claim of job j that succeeds; a recorded failure of job j. */
  predicate Claims(s: System, e: Event, j: JobId) {
    Enabled(s, e) && e.Claim? && CanClaim(s, e.worker) && s.workers[e.worker].job == j
  }

  predicate Fails(s: System, e: Event, j: JobId) {
    && Enabled(s, e) && e.Finish? && s.workers[e.worker].job == j
    && s.workers[e.worker].phase.outcome.Fail? && HoldsFence(s, e.worker)
  }

  // ----- Terminal states -----

  lemma StepKeepsTerminal(s: System, e: Event, j: JobId)
    requires LeaseInv(s) && j in s.jobs && Terminal(s.jobs[j])
    ensures j in Next(s, e).jobs && Next(s, e).jobs[j] == s.jobs[j]
  {
    if Enabled(s, e) && e.Finish? {
      FinishSparesTerminal(s, e.worker, j);
    } else {
      hide LeaseInv, VisibleLogs, NextLink, Linked, HoldsFence, NewRow, ClaimedRow;
      if Enabled(s, e) && e.Link? {
        LinkSparesJobs(s, e.worker, e.narrative);
      }
    }
  }

  lemma LinkSparesJobs(s: System, w: WorkerId, n: NarrativeId)
    requires w in s.workers && s.workers[w].phase.Loaded?
    ensures NextLink(s, w, n).jobs == s.jobs
  {
  }

  /** Whoever still holds the token of a row has not finished, so the row is running. */
  lemma FinishSparesTerminal(s: System, w: WorkerId, j: JobId)
    requires LeaseInv(s) && j in s.jobs && Terminal(s.jobs[j]) && Enabled(s, Event.Finish(w))
    ensures j in Next(s, Event.Finish(w)).jobs && Next(s, Event.Finish(w)).jobs[j] == s.jobs[j]
  {
    assert WorkerOk(s, w);
    hide LeaseInv;
    assert Next(s, Event.Finish(w)) == NextFinish(s, w);
  }

  /** Completed and review_required are absorbing in every interleaving. */
  lemma {:induction false} TerminalIsAbsorbing(mode: Mode, es: seq<Event>, more: seq<Event>, j: JobId)
    requires j in Exec(Init(mode), es).jobs && Terminal(Exec(Init(mode), es).jobs[j])
    ensures j in Exec(Init(mode), es + more).jobs
    ensures Exec(Init(mode), es + more).jobs[j] == Exec(Init(mode), es).jobs[j]
  {
    hide Next, LeaseInv;
    if more == [] {
      assert es + more == es;
    } else {
      var k := |more| - 1;
      TerminalIsAbsorbing(mode, es, more[..k], j);
      RunKeepsLease(mode, es + more[..k]);
      StepKeepsTerminal(Exec(Init(mode), es + more[..k]), more[k], j);
      assert (es + more)[..|es| + k] == es + more[..k];
    }
  }

  /** What a worker would do that called a second finisher: the same event again, with the same token. */
  function FinishingAgain(s: System, w: WorkerId, token: Token, outcome: Outcome): System
    requires w in s.workers
  {
    SetPhase(s, w, Finishing(token, outcome))
  }

  /**
   * The guards alone do not make terminal states absorbing. If a worker that holds its job could call Complete and
   * then Fail, the job would be failed again, and claimable exactly as long as it has claims left.
   */
  lemma SecondFinisherReopens(s: System, w: WorkerId)
    requires HoldsFence(s, w) && s.workers[w].phase == Finishing(s.workers[w].phase.token, Complete)
    ensures var j, token := s.workers[w].job, s.workers[w].phase.token;
            var done := Next(s, Event.Finish(w));
            var again := Next(FinishingAgain(done, w, token, Fail), Event.Finish(w));
            && Terminal(done.jobs[j]) && again.jobs[j].status.Failed?
            && (Claimable(again.jobs[j], again.now, STALE) <==> s.jobs[j].claimCount < MAX_CLAIM_COUNT)
  {
    var done := Next(s, Event.Finish(w));
    assert done == NextFinish(s, w);
    assert done.jobs[s.workers[w].job].claimToken == Some(s.workers[w].phase.token);
  }

  /**
   * The finisher of whoever holds the token records its outcome: completed, review_required, or failed with one more
   * retry. Nothing else in the row changes, and no other row does.
   */
  lemma FinisherRecordsOutcome(mode: Mode, es: seq<Event>, w: WorkerId)
    requires var s := Exec(Init(mode), es); HoldsFence(s, w) && s.workers[w].phase.Finishing?
    ensures var s, s' := Exec(Init(mode), es), Exec(Init(mode), es + [Event.Finish(w)]);
            var j, outcome := s.workers[w].job, s.workers[w].phase.outcome;
            && s'.jobs.Keys == s.jobs.Keys && (forall i :: i in s.jobs && i != j ==> s'.jobs[i] == s.jobs[i])
            && s.jobs[j].status == Running
            && (outcome == Complete ==> s'.jobs[j] == s.jobs[j].(status := Completed))
            && (outcome == Review ==> s'.jobs[j] == s.jobs[j].(status := ReviewRequired))
            && (outcome == Fail ==> s'.jobs[j] == s.jobs[j].(status := Failed, retryCount := s.jobs[j].retryCount + 1))
            && s'.workers == s.workers[w := s.workers[w].(phase := Exited)]
  {
    hide LeaseInv;
    var s := Exec(Init(mode), es);
    assert (es + [Event.Finish(w)])[..|es|] == es;
    assert Next(s, Event.Finish(w)) == NextFinish(s, w);
    RunKeepsLease(mode, es);
    HolderIsRunning(s, w);
  }

  lemma HolderIsRunning(s: System, w: WorkerId)
    requires LeaseInv(s) && HoldsFence(s, w)
    ensures s.jobs[s.workers[w].job].status == Running
  {
    assert WorkerOk(s, w);
  }

  // ----- Bounded attempts -----

  /** How often ProcessSession was entered for job j: the claims that succeeded. */
  function Starts(mode: Mode, es: seq<Event>, j: JobId): nat {
    if es == [] then 0
    else
      var s, e := Exec(Init(mode), es[..|es|-1]), es[|es|-1];
      Starts(mode, es[..|es|-1], j)
      + if Claims(s, e, j) then 1 else 0
  }

  lemma ClaimCounts(s: System, e: Event, j: JobId)
    ensures var s' := Next(s, e);
            (if j in s'.jobs then s'.jobs[j].claimCount else 0)
            == (if j in s.jobs then s.jobs[j].claimCount else 0)
             + if Claims(s, e, j) then 1 else 0
  {
    if !(e.Claim? && CanClaim(s, e.worker)) && !e.Finish? {
      OtherStepsAreQuiet(s, e);
    }
  }

  lemma {:induction false} StartsAreClaims(mode: Mode, es: seq<Event>, j: JobId)
    ensures var s := Exec(Init(mode), es);
            Starts(mode, es, j) == if j in s.jobs then s.jobs[j].claimCount else 0
  {
    hide Next;
    if es != [] {
      StartsAreClaims(mode, es[..|es|-1], j);
      ClaimCounts(Exec(Init(mode), es[..|es|-1]), es[|es|-1], j);
    }
  }

  /** At most five attempts per job, ever, and no more retries than attempts that are over. */
  lemma BoundedAttempts(mode: Mode, es: seq<Event>, j: JobId)
    ensures Starts(mode, es, j) <= 5
    ensures var s := Exec(Init(mode), es);
            j in s.jobs ==> s.jobs[j].retryCount + (if s.jobs[j].status.Running? then 1 else 0) <= Starts(mode, es, j)
  {
    StartsAreClaims(mode, es, j);
    RunKeepsLease(mode, es);
    assert j in Exec(Init(mode), es).jobs ==> RowOk(Exec(Init(mode), es), j);
  }

  // ----- Lease exclusivity -----

  lemma LeaseImpliesFence(s: System, w: WorkerId)
    requires LeaseInv(s) && HoldsLease(s, w)
    ensures HoldsFence(s, w) && s.jobs[s.workers[w].job].status.Running?
  {
    assert WorkerOk(s, w);
  }

  /** At most one worker per job is inside Run with an unexpired lease, and the row is its own. */
  lemma LeaseIsExclusive(mode: Mode, es: seq<Event>, w: WorkerId, v: WorkerId)
    requires var s := Exec(Init(mode), es);
             HoldsLease(s, w) && HoldsLease(s, v) && s.workers[w].job == s.workers[v].job
    ensures w == v
    ensures HoldsFence(Exec(Init(mode), es), w)
  {
    RunKeepsLease(mode, es);
    LeaseImpliesFence(Exec(Init(mode), es), w);
    LeaseImpliesFence(Exec(Init(mode), es), v);
  }

  predicate ClaimsAt(mode: Mode, es: seq<Event>, i: nat, j: JobId)
    requires i < |es|
  {
    Claims(At(mode, es, i), es[i], j)
  }

  predicate FailsAt(mode: Mode, es: seq<Event>, i: nat, j: JobId)
    requires i < |es|
  {
    Fails(At(mode, es, i), es[i], j)
  }

  lemma LeaseStandsStep(s: System, e: Event, j: JobId)
    requires j in s.jobs && !Fails(s, e, j)
    ensures var s' := Next(s, e);
            && j in s'.jobs
            && (Claims(s, e, j) ==> s'.jobs[j].startedAt == Some(s.now) && s'.jobs[j].status.Running?)
            && (!Claims(s, e, j) && !s.jobs[j].status.Pending? && !s.jobs[j].status.Failed? ==>
                  && s'.jobs[j].startedAt == s.jobs[j].startedAt
                  && !s'.jobs[j].status.Pending? && !s'.jobs[j].status.Failed?)
  {
    if !(e.Claim? && CanClaim(s, e.worker)) && !e.Finish? {
      OtherStepsAreQuiet(s, e);
    }
  }

  lemma {:induction false} LeaseStands(mode: Mode, es: seq<Event>, i: nat, k: nat, j: JobId)
    requires i < k <= |es| && ClaimsAt(mode, es, i, j)
    requires forall m :: i < m < k ==> !ClaimsAt(mode, es, m, j) && !FailsAt(mode, es, m, j)
    ensures var s := At(mode, es, k);
            && j in s.jobs
            && s.jobs[j].startedAt == Some(At(mode, es, i).now)
            && !s.jobs[j].status.Pending? && !s.jobs[j].status.Failed?
  {
    hide Next;
    AtStep(mode, es, k - 1);
    if i + 1 < k {
      LeaseStands(mode, es, i, k - 1, j);
      assert !ClaimsAt(mode, es, k - 1, j) && !FailsAt(mode, es, k - 1, j);
    }
    LeaseStandsStep(At(mode, es, k - 1), es[k - 1], j);
  }

  /** With no failure recorded in between, two successive claims of a job are more than five minutes apart. */
  lemma SuccessiveClaimsAreStaleApart(mode: Mode, es: seq<Event>, i: nat, k: nat, j: JobId)
    requires i < k < |es| && ClaimsAt(mode, es, i, j) && ClaimsAt(mode, es, k, j)
    requires forall m :: i < m < k ==> !ClaimsAt(mode, es, m, j) && !FailsAt(mode, es, m, j)
    ensures At(mode, es, i).now + 300 < At(mode, es, k).now
  {
    LeaseStands(mode, es, i, k, j);
  }

  // ----- Fencing -----

  /** No worker gets a second token. */
  lemma WorkerKeepsToken(s: System, e: Event, w: WorkerId)
    requires w in s.workers
    ensures var s' := Next(s, e);
            && w in s'.workers && s'.workers[w].job == s.workers[w].job
            && (s'.workers[w].phase.Ready? ==> s.workers[w].phase.Ready?)
            && (Active(s'.workers[w].phase) && !s.workers[w].phase.Ready? ==>
                  Active(s.workers[w].phase) && s'.workers[w].phase.token == s.workers[w].phase.token)
  {
    hide CanClaim, NextClaim, NextLink, NextFinish, VisibleLogs, HoldsFence, NewRow;
    if Enabled(s, e) {
      match e
      case Claim(v, t) => ClaimMoves(s, v, t);
      case Link(v, n) => LinkMoves(s, v, n);
      case Finish(v) => FinishMoves(s, v);
      case _ =>
    }
  }

  /** Grants and claim counts are never taken back. */
  lemma ClaimsOnlyGrow(s: System, e: Event, t: Token)
    requires t in s.grants && s.grants[t].job in s.jobs
    ensures var s', j := Next(s, e), s.grants[t].job;
            && t in s'.grants && s'.grants[t] == s.grants[t]
            && j in s'.jobs && s.jobs[j].claimCount <= s'.jobs[j].claimCount
  {
  }

  /** w is past its claim and the row of its job does not carry its token. */
  predicate Superseded(s: System, w: WorkerId) {
    w in s.workers && !s.workers[w].phase.Ready? && !HoldsFence(s, w)
  }

  lemma StepKeepsSuperseded(s: System, e: Event, w: WorkerId)
    requires LeaseInv(s) && Superseded(s, w)
    ensures Superseded(Next(s, e), w)
  {
    NextKeepsLease(s, e);
    WorkerKeepsToken(s, e, w);
    var s' := Next(s, e);
    assert WorkerOk(s, w) && WorkerOk(s', w);
    if Active(s.workers[w].phase) {
      var t := s.workers[w].phase.token;
      assert GrantOk(s, t) && RowOk(s, s.workers[w].job) && RowOk(s', s.workers[w].job);
      ClaimsOnlyGrow(s, e, t);
    }
    hide Next, LeaseInv;
  }

  lemma LostFinisherIsIdle(s: System, w: WorkerId)
    requires !HoldsFence(s, w)
    ensures Next(s, Event.Finish(w)).jobs == s.jobs
  {
    if Enabled(s, Event.Finish(w)) && s.workers[w].job in s.jobs {
      assert s.jobs == s.jobs[s.workers[w].job := s.jobs[s.workers[w].job]];
    }
  }

  /** A superseded worker never gets its row back, and none of its finishers ever changes a row. */
  lemma {:induction false} SupersededForGood(mode: Mode, es: seq<Event>, more: seq<Event>, w: WorkerId)
    requires Superseded(Exec(Init(mode), es), w)
    ensures var s' := Exec(Init(mode), es + more);
            Superseded(s', w) && Next(s', Event.Finish(w)).jobs == s'.jobs
  {
    hide Next, LeaseInv;
    if more == [] {
      assert es + more == es;
    } else {
      var k := |more| - 1;
      assert (es + more)[..|es| + k] == es + more[..k];
      SupersededForGood(mode, es, more[..k], w);
      RunKeepsLease(mode, es + more[..k]);
      StepKeepsSuperseded(Exec(Init(mode), es + more[..k]), more[k], w);
    }
    LostFinisherIsIdle(Exec(Init(mode), es + more), w);
  }
}
