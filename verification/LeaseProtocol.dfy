/**
 * The metabolism pipeline as a step system: any number of workers run JobRunner.Run against the shared
 * tables, each database statement or transaction is one atomic event, and a worker may stop anywhere.
 * An event that is not enabled changes nothing, so every sequence of events is a run.
 */
module LeaseProtocol {
  import opened Wrappers
  import opened JobStore
  import opened Consolidation

  type WorkerId = nat

  /** The stale duration JobRunner.Run passes to Claim: five minutes. */
  const STALE: Seconds := 300

  /** Where a worker is inside Run; between claim and finish it carries its claim token. */
  datatype Phase =
    | Ready
    | Claimed(token: Token)
    | Loaded(token: Token, sources: set<LogId>)
    | Finishing(token: Token, outcome: Outcome)
    | Exited

  datatype Worker = Worker(job: JobId, session: SessionId, phase: Phase)

  /** Consolidated: UncoveredLogs and CommitNarrative. Fallback: QueryLogs and the fenced AtomicT2T3Link. */
  datatype Mode = Consolidated | Fallback

  /** A successful claim: the `number`-th one of its job. */
  datatype Grant = Grant(job: JobId, number: nat, at: Seconds)

  /** The tables and the workers; `grants` and `sources` record what tokens and narratives were made for. */
  datatype System = System(
    mode: Mode,
    now: Seconds,
    jobs: map<JobId, JobRow>,
    logs: map<LogId, LogRow>,
    narratives: map<NarrativeId, SessionId>,
    workers: map<WorkerId, Worker>,
    grants: map<Token, Grant>,
    sources: map<NarrativeId, set<LogId>>)

  datatype Event =
    | Commit(job: JobId, session: SessionId)
    | Append(log: LogId, session: SessionId)
    | Tick(seconds: nat)
    | Spawn(worker: WorkerId, job: JobId)      // Submit or Recover starts Run
    | Claim(worker: WorkerId, token: Token)
    | Read(worker: WorkerId)
    | Link(worker: WorkerId, narrative: NarrativeId)
    | Decide(worker: WorkerId, outcome: Outcome)  // ProcessSession returns without (or despite) a link
    | Finish(worker: WorkerId)
    | Crash(worker: WorkerId)

  function Init(mode: Mode): System {
    System(mode, 0, map[], map[], map[], map[], map[], map[])
  }

  predicate Active(p: Phase) {
    p.Claimed? || p.Loaded? || p.Finishing?
  }

  function SetPhase(s: System, w: WorkerId, p: Phase): System
    requires w in s.workers
  {
    s.(workers := s.workers[w := s.workers[w].(phase := p)])
  }

  predicate CanClaim(s: System, w: WorkerId) {
    && w in s.workers && s.workers[w].phase.Ready?
    && s.workers[w].job in s.jobs && Claimable(s.jobs[s.workers[w].job], s.now, STALE)
  }

  /** The row of w's job still carries the token w was given. */
  predicate HoldsFence(s: System, w: WorkerId) {
    && w in s.workers && Active(s.workers[w].phase)
    && s.workers[w].job in s.jobs
    && s.jobs[s.workers[w].job].claimToken == Some(s.workers[w].phase.token)
  }

  /** w is between its claim and its finisher, and its claim is at most STALE old. */
  predicate HoldsLease(s: System, w: WorkerId) {
    && w in s.workers && Active(s.workers[w].phase)
    && s.workers[w].phase.token in s.grants
    && s.now <= s.grants[s.workers[w].phase.token].at + STALE
  }

  predicate Enabled(s: System, e: Event) {
    match e
    case Commit(j, _) => j !in s.jobs
    case Append(l, _) => l !in s.logs
    case Tick(_) => true
    case Spawn(w, j) => w !in s.workers && j in s.jobs
    case Claim(w, t) => w in s.workers && s.workers[w].phase.Ready? && t !in s.grants
    case Read(w) => w in s.workers && s.workers[w].phase.Claimed?
    case Link(w, n) => w in s.workers && s.workers[w].phase.Loaded? && s.workers[w].phase.sources != {}
                       && n !in s.narratives
    case Decide(w, _) => w in s.workers && (s.workers[w].phase.Claimed? || s.workers[w].phase.Loaded?)
    case Finish(w) => w in s.workers && s.workers[w].phase.Finishing?
    case Crash(w) => w in s.workers
  }

  function Next(s: System, e: Event): System {
    if !Enabled(s, e) then s else
    match e
    case Commit(j, session) => s.(jobs := s.jobs[j := NewRow(session)])
    case Append(l, session) => s.(logs := s.logs[l := LogRow(session, None)])
    case Tick(d) => s.(now := s.now + d)
    case Spawn(w, j) => s.(workers := s.workers[w := Worker(j, s.jobs[j].session, Ready)])
    case Claim(w, t) => NextClaim(s, w, t)
    case Read(w) => SetPhase(s, w, Loaded(s.workers[w].phase.token, VisibleLogs(s, s.workers[w].session)))
    case Link(w, n) => NextLink(s, w, n)
    case Decide(w, outcome) => SetPhase(s, w, Finishing(s.workers[w].phase.token, outcome))
    case Finish(w) => NextFinish(s, w)
    case Crash(w) => SetPhase(s, w, Exited)
  }

  /** A claim that finds the job not claimable ends the run: it is someone else's responsibility. */
  function NextClaim(s: System, w: WorkerId, t: Token): System
    requires w in s.workers
  {
    if !CanClaim(s, w) then SetPhase(s, w, Exited)
    else
      var j := s.workers[w].job;
      var row := ClaimedRow(s.jobs[j], t, s.now);
      SetPhase(s, w, Claimed(t)).(
        jobs := s.jobs[j := row],
        grants := s.grants[t := Grant(j, row.claimCount, s.now)])
  }

  function VisibleLogs(s: System, session: SessionId): set<LogId> {
    set l | l in s.logs && s.logs[l].session == session && (s.mode.Consolidated? ==> s.logs[l].narrative.None?)
  }

  /** Only the fallback link checks the fence; losing it is an error, so the run goes on to Fail. */
  function NextLink(s: System, w: WorkerId, n: NarrativeId): System
    requires w in s.workers && s.workers[w].phase.Loaded?
  {
    var worker := s.workers[w];
    var token := worker.phase.token;
    if s.mode.Fallback? && !HoldsFence(s, w) then SetPhase(s, w, Finishing(token, Fail))
    else
      SetPhase(s, w, Finishing(token, Complete)).(
        logs := Linked(s.logs, worker.phase.sources, n),
        narratives := s.narratives[n := worker.session],
        sources := s.sources[n := worker.phase.sources])
  }

  function NextFinish(s: System, w: WorkerId): System
    requires w in s.workers && s.workers[w].phase.Finishing?
  {
    var Worker(j, _, Finishing(token, outcome)) := s.workers[w];
    var s' := SetPhase(s, w, Exited);
    if j in s.jobs then s'.(jobs := s.jobs[j := FinishedRow(s.jobs[j], token, outcome)]) else s'
  }

  // The compound steps move one worker only, and add at most their own token or narrative.

  lemma ClaimMoves(s: System, w: WorkerId, t: Token)
    requires w in s.workers
    ensures var s' := NextClaim(s, w, t);
            && s'.workers == s.workers[w := s.workers[w].(phase := if CanClaim(s, w) then Claimed(t) else Exited)]
            && s'.narratives == s.narratives && s'.grants.Keys <= s.grants.Keys + {t}
            && s'.logs == s.logs && s'.sources == s.sources && s'.mode == s.mode
  {
  }

  lemma LinkMoves(s: System, w: WorkerId, n: NarrativeId)
    requires w in s.workers && s.workers[w].phase.Loaded?
    ensures var s' := NextLink(s, w, n);
            var outcome := if s.mode.Fallback? && !HoldsFence(s, w) then Fail else Complete;
            && s'.workers == s.workers[w := s.workers[w].(phase := Finishing(s.workers[w].phase.token, outcome))]
            && s'.grants == s.grants && s'.narratives.Keys <= s.narratives.Keys + {n}
            && s'.narratives == (if outcome.Fail? then s.narratives else s.narratives[n := s.workers[w].session])
            && s'.sources == (if outcome.Fail? then s.sources else s.sources[n := s.workers[w].phase.sources])
            && s'.mode == s.mode
  {
    hide HoldsFence, Linked;
  }

  lemma FinishMoves(s: System, w: WorkerId)
    requires w in s.workers && s.workers[w].phase.Finishing?
    ensures var s' := NextFinish(s, w);
            && s'.workers == s.workers[w := s.workers[w].(phase := Exited)]
            && s'.grants == s.grants && s'.narratives == s.narratives
            && s'.logs == s.logs && s'.sources == s.sources && s'.mode == s.mode
  {
    hide FinishedRow;
  }

  function Exec(s: System, es: seq<Event>): System {
    if es == [] then s else Next(Exec(s, es[..|es|-1]), es[|es|-1])
  }

  lemma {:induction false} ExecAppend(s: System, es: seq<Event>, more: seq<Event>)
    ensures Exec(s, es + more) == Exec(Exec(s, es), more)
  {
    if more == [] {
      assert es + more == es;
    } else {
      var k := |more| - 1;
      assert (es + more)[..|es| + k] == es + more[..k];
      ExecAppend(s, es, more[..k]);
    }
  }

  lemma ExecOne(s: System, e: Event, es: seq<Event>)
    ensures Exec(s, [e] + es) == Exec(Next(s, e), es)
  {
    ExecAppend(s, [e], es);
    assert [e][..0] == [];
  }

  // ----- What every step keeps -----

  /** Retries and the running attempt are paid for by claims, and the row's token is its latest grant. */
  ghost predicate RowOk(s: System, j: JobId)
    requires j in s.jobs
  {
    var row := s.jobs[j];
    && row.retryCount + (if row.status.Running? then 1 else 0) <= row.claimCount <= MAX_CLAIM_COUNT
    && (row.claimToken.None? ==> row.claimCount == 0 && row.status.Pending?)
    && (row.claimToken.Some? ==>
          && row.claimToken.value in s.grants
          && row.startedAt.Some?
          && s.grants[row.claimToken.value] == Grant(j, row.claimCount, row.startedAt.value))
  }

  ghost predicate GrantOk(s: System, t: Token)
    requires t in s.grants
  {
    var g := s.grants[t];
    && g.job in s.jobs
    && 1 <= g.number <= s.jobs[g.job].claimCount
    && g.at <= s.now
    && (g.number == s.jobs[g.job].claimCount ==> s.jobs[g.job].claimToken == Some(t))
  }

  /**
   * The heart of the protocol: the holder of the row's current token has not finished, so its row is
   * running; and whoever lost its token did so only after its lease went stale.
   */
  ghost predicate WorkerOk(s: System, w: WorkerId)
    requires w in s.workers
  {
    var worker := s.workers[w];
    && worker.job in s.jobs
    && s.jobs[worker.job].session == worker.session
    && (Active(worker.phase) ==>
          var t := worker.phase.token;
          && t in s.grants
          && s.grants[t].job == worker.job
          && if s.jobs[worker.job].claimToken == Some(t) then s.jobs[worker.job].status.Running?
             else s.grants[t].at + STALE < s.now)
  }

  ghost predicate TokensOk(s: System) {
    && (forall w, v :: w in s.workers && v in s.workers && w != v
                       && Active(s.workers[w].phase) && Active(s.workers[v].phase)
                       ==> s.workers[w].phase.token != s.workers[v].phase.token)
    && (forall t, u :: t in s.grants && u in s.grants && t != u && s.grants[t].job == s.grants[u].job
                       ==> s.grants[t].number != s.grants[u].number)
  }

  ghost predicate LeaseInv(s: System) {
    && (forall j :: j in s.jobs ==> RowOk(s, j))
    && (forall t :: t in s.grants ==> GrantOk(s, t))
    && (forall w :: w in s.workers ==> WorkerOk(s, w))
    && TokensOk(s)
  }

  lemma LeaseInvInit(mode: Mode)
    ensures LeaseInv(Init(mode))
  {
  }

  lemma ClaimKeepsWorker(s: System, w: WorkerId, t: Token, v: WorkerId)
    requires CanClaim(s, w) && t !in s.grants && v in s.workers && WorkerOk(s, w) && WorkerOk(s, v)
    requires RowOk(s, s.workers[w].job) && !(Active(s.workers[v].phase) && s.workers[v].phase.token == t)
    ensures v in NextClaim(s, w, t).workers && WorkerOk(NextClaim(s, w, t), v)
  {
  }

  lemma ClaimKeepsGrant(s: System, w: WorkerId, t: Token, u: Token)
    requires CanClaim(s, w) && t !in s.grants && (u == t || (u in s.grants && GrantOk(s, u)))
    ensures u in NextClaim(s, w, t).grants && GrantOk(NextClaim(s, w, t), u)
  {
  }

  lemma ClaimKeepsRow(s: System, w: WorkerId, t: Token, j: JobId)
    requires CanClaim(s, w) && t !in s.grants && j in s.jobs && RowOk(s, j)
    ensures j in NextClaim(s, w, t).jobs && RowOk(NextClaim(s, w, t), j)
  {
  }

  lemma ClaimKeepsTokens(s: System, w: WorkerId, t: Token)
    requires CanClaim(s, w) && t !in s.grants && TokensOk(s)
    requires forall v :: v in s.workers && Active(s.workers[v].phase) ==> s.workers[v].phase.token in s.grants
    requires forall u :: u in s.grants ==> GrantOk(s, u)
    ensures TokensOk(NextClaim(s, w, t))
  {
  }

  lemma ClaimKeepsLease(s: System, w: WorkerId, t: Token)
    requires LeaseInv(s) && CanClaim(s, w) && t !in s.grants
    ensures LeaseInv(NextClaim(s, w, t))
  {
    var s' := NextClaim(s, w, t);
    forall v | v in s'.workers ensures WorkerOk(s', v) { ClaimKeepsWorker(s, w, t, v); }
    forall u | u in s'.grants ensures GrantOk(s', u) { ClaimKeepsGrant(s, w, t, u); }
    forall j | j in s'.jobs ensures RowOk(s', j) { ClaimKeepsRow(s, w, t, j); }
    ClaimKeepsTokens(s, w, t);
  }

  lemma FinishKeepsWorker(s: System, w: WorkerId, v: WorkerId)
    requires w in s.workers && s.workers[w].phase.Finishing? && WorkerOk(s, w)
    requires v in s.workers && WorkerOk(s, v)
    requires v != w && Active(s.workers[v].phase) ==> s.workers[v].phase.token != s.workers[w].phase.token
    ensures v in NextFinish(s, w).workers && WorkerOk(NextFinish(s, w), v)
  {
  }

  lemma FinishKeepsRow(s: System, w: WorkerId, j: JobId)
    requires w in s.workers && s.workers[w].phase.Finishing? && WorkerOk(s, w)
    requires j in s.jobs && RowOk(s, j)
    ensures j in NextFinish(s, w).jobs && RowOk(NextFinish(s, w), j)
  {
  }

  lemma FinishKeepsTokens(s: System, w: WorkerId)
    requires w in s.workers && s.workers[w].phase.Finishing? && TokensOk(s)
    ensures TokensOk(NextFinish(s, w))
  {
    hide FinishedRow;
  }

  lemma FinishKeepsLease(s: System, w: WorkerId)
    requires LeaseInv(s) && w in s.workers && s.workers[w].phase.Finishing?
    ensures LeaseInv(NextFinish(s, w))
  {
    var s' := NextFinish(s, w);
    forall v | v in s'.workers ensures WorkerOk(s', v) { FinishKeepsWorker(s, w, v); }
    forall u | u in s'.grants ensures GrantOk(s', u) { assert GrantOk(s, u); }
    forall j | j in s'.jobs ensures RowOk(s', j) { FinishKeepsRow(s, w, j); }
    FinishKeepsTokens(s, w);
    hide TokensOk;
  }

  /** A step that writes no job row it did not create, grants nothing, and lets no worker change token. */
  ghost predicate Quiet(s: System, s': System) {
    && s.now <= s'.now
    && s'.grants == s.grants
    && (forall j :: j in s.jobs ==> j in s'.jobs && s'.jobs[j] == s.jobs[j])
    && (forall j :: j in s'.jobs && j !in s.jobs ==> s'.jobs[j] == NewRow(s'.jobs[j].session))
    && (forall w :: w in s'.workers ==>
          var worker := s'.workers[w];
          if w in s.workers
          then s.workers[w].job == worker.job && s.workers[w].session == worker.session
               && (Active(worker.phase) ==>
                     Active(s.workers[w].phase) && s.workers[w].phase.token == worker.phase.token)
          else worker.phase.Ready? && worker.job in s.jobs && s.jobs[worker.job].session == worker.session)
  }

  lemma QuietKeepsLease(s: System, s': System)
    requires LeaseInv(s) && Quiet(s, s')
    ensures LeaseInv(s')
  {
    forall v | v in s'.workers ensures WorkerOk(s', v) { assert v in s.workers ==> WorkerOk(s, v); }
    forall u | u in s'.grants ensures GrantOk(s', u) { assert GrantOk(s, u); }
    forall j | j in s'.jobs ensures RowOk(s', j) { assert j in s.jobs ==> RowOk(s, j); }
  }

  lemma PhaseChangeIsQuiet(s: System, w: WorkerId, p: Phase, s': System)
    requires w in s.workers && s'.workers == SetPhase(s, w, p).workers
    requires s'.jobs == s.jobs && s'.grants == s.grants && s'.now == s.now
    requires Active(p) ==> Active(s.workers[w].phase) && s.workers[w].phase.token == p.token
    ensures Quiet(s, s')
  {
  }

  lemma TableStepIsQuiet(s: System, e: Event)
    requires e.Commit? || e.Append? || e.Tick? || e.Spawn?
    ensures Quiet(s, Next(s, e))
  {
  }

  lemma PhaseStepIsQuiet(s: System, e: Event)
    requires e.Read? || e.Link? || e.Decide? || e.Crash? || (e.Claim? && !CanClaim(s, e.worker))
    ensures Quiet(s, Next(s, e))
  {
    hide Quiet, Linked, VisibleLogs, CanClaim, HoldsFence;
    var s' := Next(s, e);
    if Enabled(s, e) {
      match e
      case Read(w) => PhaseChangeIsQuiet(s, w, s'.workers[w].phase, s');
      case Link(w, n) => PhaseChangeIsQuiet(s, w, s'.workers[w].phase, s');
      case Decide(w, outcome) => PhaseChangeIsQuiet(s, w, Finishing(s.workers[w].phase.token, outcome), s');
      case Crash(w) => PhaseChangeIsQuiet(s, w, Exited, s');
      case Claim(w, t) => PhaseChangeIsQuiet(s, w, Exited, s');
    } else {
      QuietIsReflexive(s);
    }
  }

  lemma QuietIsReflexive(s: System)
    ensures Quiet(s, s)
  {
  }

  lemma OtherStepsAreQuiet(s: System, e: Event)
    requires Enabled(s, e) ==> !(e.Claim? && CanClaim(s, e.worker)) && !e.Finish?
    ensures Quiet(s, Next(s, e))
  {
    if Enabled(s, e) {
      hide Next, Quiet, CanClaim;
      if e.Commit? || e.Append? || e.Tick? || e.Spawn? {
        TableStepIsQuiet(s, e);
      } else {
        PhaseStepIsQuiet(s, e);
      }
    }
  }

  lemma NextKeepsLease(s: System, e: Event)
    requires LeaseInv(s)
    ensures LeaseInv(Next(s, e))
  {
    hide LeaseInv, Quiet, Claimable;
    if !Enabled(s, e) {
    } else if e.Claim? && CanClaim(s, e.worker) {
      ClaimKeepsLease(s, e.worker, e.token);
    } else if e.Finish? {
      FinishKeepsLease(s, e.worker);
    } else {
      OtherStepsAreQuiet(s, e);
      QuietKeepsLease(s, Next(s, e));
    }
  }

  lemma {:induction false} RunKeepsLease(mode: Mode, es: seq<Event>)
    ensures LeaseInv(Exec(Init(mode), es))
  {
    if es == [] {
      LeaseInvInit(mode);
    } else {
      RunKeepsLease(mode, es[..|es|-1]);
      NextKeepsLease(Exec(Init(mode), es[..|es|-1]), es[|es|-1]);
    }
  }
}
