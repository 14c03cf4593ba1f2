/**
 * JobRunner.Run and Pipeline.ProcessSession as the programs they are, with other workers' events let in around
 * each of their own database operations. Run turns out to be one worker of the step system.
 */
module Runner {
  import opened Wrappers
  import opened JobStore
  import opened Consolidation
  import opened LeaseProtocol

  datatype ProcessError = ErrReviewRequired | ProcessFailed
  datatype RunError = NotProcessed | NotCompleted

  /** Which compression dependencies are wired: LLM and database, neither, or only one of them. */
  datatype Wiring = Both | Neither | Partial

  /** What CompressSession makes of a non-empty list of logs, and how the database treats the link. */
  datatype Compression = Narrative(fault: Fault) | NeedsReview | Broken

  /** The outside of one run: what it is wired to, what its calls return, and what others do meanwhile. */
  datatype Context = Context(
    token: Token,              // the fresh claim token
    narrative: NarrativeId,    // the fresh narrative id
    wiring: Wiring,
    readFails: bool,
    compression: Compression,
    others: nat -> seq<Event>) // the events between this run's i-th operation and the next

  predicate ByOther(e: Event, w: WorkerId, c: Context) {
    match e
    case Commit(_, _) => true
    case Append(_, _) => true
    case Tick(_) => true
    case Spawn(v, _) => v != w
    case Read(v) => v != w
    case Decide(v, _) => v != w
    case Finish(v) => v != w
    case Crash(v) => v != w
    case Claim(v, t) => v != w && t != c.token
    case Link(v, n) => v != w && n != c.narrative
  }

  ghost predicate Fair(w: WorkerId, c: Context) {
    forall i, k :: 0 <= k < |c.others(i)| ==> ByOther(c.others(i)[k], w, c)
  }

  /** others(0), own[0], others(1), own[1], ..., own[n-1], others(n) */
  ghost function Woven(own: seq<Event>, c: Context): seq<Event> {
    if own == [] then c.others(0)
    else Woven(own[..|own|-1], c) + [own[|own|-1]] + c.others(|own|)
  }

  lemma WeaveOne(s: System, own: seq<Event>, e: Event, c: Context)
    ensures Exec(Next(Exec(s, Woven(own, c)), e), c.others(|own| + 1)) == Exec(s, Woven(own + [e], c))
  {
    assert (own + [e])[..|own|] == own;
    assert (Woven(own, c) + [e])[..|Woven(own, c)|] == Woven(own, c);
    ExecAppend(s, Woven(own, c) + [e], c.others(|own| + 1));
  }

  /** Narrative n exists; it is still for the same session and the same sources. */
  predicate Wrote(s: System, n: NarrativeId) {
    n in s.narratives && n in s.sources
  }

  predicate SameNarrative(s: System, s': System, n: NarrativeId)
    requires Wrote(s, n)
  {
    Wrote(s', n) && s'.narratives[n] == s.narratives[n] && s'.sources[n] == s.sources[n]
  }

  lemma OthersSpare(s: System, e: Event, w: WorkerId, c: Context)
    requires ByOther(e, w, c) && w in s.workers
    ensures w in Next(s, e).workers && Next(s, e).workers[w] == s.workers[w]
    ensures c.token in Next(s, e).grants ==> c.token in s.grants
    ensures c.narrative in Next(s, e).narratives ==> c.narrative in s.narratives
    ensures Next(s, e).mode == s.mode && (Wrote(s, c.narrative) ==> SameNarrative(s, Next(s, e), c.narrative))
  {
    hide CanClaim, NextClaim, NextLink, NextFinish, VisibleLogs, HoldsFence, NewRow;
    if Enabled(s, e) {
      match e
      case Claim(v, t) => ClaimMoves(s, v, t);
      case Link(v, n) => LinkMoves(s, v, n);
      case Finish(v) => FinishMoves(s, v);
      case _ =>
    }
  }

  lemma TableKeys(s: System, e: Event)
    ensures Next(s, e).jobs.Keys == s.jobs.Keys + if Enabled(s, e) && e.Commit? then {e.job} else {}
    ensures Next(s, e).logs.Keys == s.logs.Keys + if Enabled(s, e) && e.Append? then {e.log} else {}
  {
    if Enabled(s, e) && e.Finish? && s.workers[e.worker].job in s.jobs {
      assert Next(s, e).jobs.Keys == s.jobs.Keys;
    }
  }

  ghost predicate AboutToRun(s: System, w: WorkerId, j: JobId) {
    w in s.workers && j in s.jobs && s.workers[w] == Worker(j, s.jobs[j].session, Ready)
  }

  lemma NoEvents(s: System)
    ensures Exec(s, []) == s
  {
  }

  lemma OneMoreEvent(s: System, es: seq<Event>, e: Event)
    ensures Exec(s, es + [e]) == Next(Exec(s, es), e)
  {
    assert (es + [e])[..|es|] == es;
  }

  lemma SpawnAdds(s: System, w: WorkerId, j: JobId)
    requires w !in s.workers && j in s.jobs
    ensures Next(s, Spawn(w, j)) == s.(workers := s.workers[w := Worker(j, s.jobs[j].session, Ready)])
  {
  }

  class Database {
    const store: SQLiteJobStore
    const memory: SQLiteConsolidationStore
    var sys: System   // the same tables as values, with the clock and the workers

    ghost predicate Valid()
      reads this, store, memory
    {
      && store.Valid() && memory.Valid()
      && store.jobs == sys.jobs && memory.logs == sys.logs && memory.narratives == sys.narratives
    }

    constructor (mode: Mode)
      ensures Valid() && sys == Init(mode) && fresh(store) && fresh(memory)
    {
      store := new SQLiteJobStore();
      memory := new SQLiteConsolidationStore();
      sys := Init(mode);
    }

    /** What others do, starting from their i-th turn. */
    method Interleave(w: WorkerId, c: Context, i: nat)
      requires Valid() && Fair(w, c) && w in sys.workers
      modifies this, store, memory
      ensures Valid() && sys == Exec(old(sys), c.others(i))
      ensures w in sys.workers && sys.workers[w] == old(sys).workers[w]
      ensures c.token in sys.grants ==> c.token in old(sys).grants
      ensures c.narrative in sys.narratives ==> c.narrative in old(sys).narratives
      ensures sys.mode == old(sys).mode
      ensures Wrote(old(sys), c.narrative) ==> SameNarrative(old(sys), sys, c.narrative)
    {
      var es := c.others(i);
      for k := 0 to |es|
        invariant Valid() && sys == Exec(old(sys), es[..k])
        invariant w in sys.workers && sys.workers[w] == old(sys).workers[w]
        invariant c.token in sys.grants ==> c.token in old(sys).grants
        invariant c.narrative in sys.narratives ==> c.narrative in old(sys).narratives
        invariant sys.mode == old(sys).mode
        invariant Wrote(old(sys), c.narrative) ==> SameNarrative(old(sys), sys, c.narrative)
      {
        assert es[..k + 1][..k] == es[..k];
        OthersSpare(sys, es[k], w, c);
        Happen(es[k]);
      }
      assert es[..|es|] == es;
    }

    method Happen(e: Event)
      requires Valid()
      modifies this, store, memory
      ensures Valid() && sys == Next(old(sys), e)
    {
      TableKeys(sys, e);
      if e.Commit? && Enabled(sys, e) {
        store.Commit(e.job, e.session);
      } else if e.Append? && Enabled(sys, e) {
        memory.Append(e.log, e.session);
      }
      sys := Next(sys, e);
      store.jobs, memory.logs, memory.narratives := sys.jobs, sys.logs, sys.narratives;
    }

    /**
     * RecoverStalled: one new worker, about to run, for every recoverable job and for no other; `first` and the
     * numbers after it are the new goroutines. The rows are left as they are.
     */
    method RecoverStalled(maxRetries: nat, first: WorkerId) returns (ids: seq<JobId>, ghost own: seq<Event>)
      requires Valid() && forall w :: w in sys.workers ==> w < first
      modifies this, store, memory
      ensures Valid() && sys == Exec(old(sys), own) && sys.jobs == old(sys).jobs
      ensures forall j :: j in ids <==> j in sys.jobs && IsRecoverable(sys.jobs[j], maxRetries)
      ensures forall k :: 0 <= k < |ids| ==> AboutToRun(sys, first + k, ids[k])
      ensures forall w :: w in sys.workers && w !in old(sys).workers ==> first <= w < first + |ids|
      ensures sys == old(sys).(workers := sys.workers)
      ensures forall w :: w in old(sys).workers ==> w in sys.workers && sys.workers[w] == old(sys).workers[w]
      ensures forall i, k :: 0 <= i < k < |ids| ==> Precedes(old(store.created), ids[i], ids[k])
    {
      hide Exec, Next;
      ids := store.Recoverable(maxRetries);
      own := [];
      NoEvents(sys);
      for i := 0 to |ids|
        invariant Valid() && sys == Exec(old(sys), own) && sys == old(sys).(workers := sys.workers)
        invariant forall w :: w in old(sys).workers ==> w in sys.workers && sys.workers[w] == old(sys).workers[w]
        invariant forall k :: 0 <= k < i ==> AboutToRun(sys, first + k, ids[k])
        invariant forall w :: w in sys.workers && w !in old(sys).workers ==> first <= w < first + i
        invariant forall w :: w in sys.workers && w in old(sys).workers ==> w < first
      {
        assert ids[i] in ids;
        SpawnAdds(sys, first + i, ids[i]);
        OneMoreEvent(old(sys), own, Spawn(first + i, ids[i]));
        own := own + [Spawn(first + i, ids[i])];
        ghost var before := sys;
        Happen(Spawn(first + i, ids[i]));
        forall k | 0 <= k <= i ensures AboutToRun(sys, first + k, ids[k]) {
          assert k < i ==> AboutToRun(before, first + k, ids[k]);
        }
      }
    }

    method ClaimJob(w: WorkerId, token: Token) returns (r: Result<Token, StoreError>)
      requires Valid() && w in sys.workers && sys.workers[w].phase.Ready? && token !in sys.grants
      modifies this, store
      ensures Valid() && sys == Next(old(sys), Event.Claim(w, token))
      ensures r.Ok? <==> CanClaim(old(sys), w)
      ensures w in sys.workers
           && sys.workers[w] == old(sys).workers[w].(phase := if r.Ok? then Claimed(token) else Exited)
      ensures sys.narratives == old(sys).narratives && sys.mode == old(sys).mode
    {
      r := store.Claim(sys.workers[w].job, token, sys.now, STALE);
      sys := Next(sys, Event.Claim(w, token));
    }

    /** UncoveredLogs when a ConsolidationStore is wired, QueryLogs otherwise. */
    method LoadLogs(w: WorkerId) returns (logs: seq<LogId>)
      requires Valid() && w in sys.workers && sys.workers[w].phase.Claimed?
      modifies this
      ensures Valid() && sys == Next(old(sys), Event.Read(w))
      ensures w in sys.workers && sys.workers[w]
           == old(sys).workers[w].(phase := Loaded(old(sys).workers[w].phase.token, Elements(logs)))
      ensures sys.narratives == old(sys).narratives && sys.mode == old(sys).mode
      ensures Elements(logs) == VisibleLogs(old(sys), old(sys).workers[w].session)
    {
      if sys.mode.Consolidated? {
        logs := memory.UncoveredLogs(sys.workers[w].session);
      } else {
        logs := memory.QueryLogs(sys.workers[w].session);
      }
      assert Elements(logs) == VisibleLogs(sys, sys.workers[w].session);
      sys := Next(sys, Event.Read(w));
    }

    /** CommitNarrative when a ConsolidationStore is wired, AtomicT2T3Link with the claim fence otherwise. */
    method WriteNarrative(w: WorkerId, n: NarrativeId, logs: seq<LogId>, fault: Fault)
      returns (r: Result<(), LinkError>)
      requires Valid() && w in sys.workers && sys.workers[w].phase.Loaded? && n !in sys.narratives
      requires logs != [] && sys.workers[w].phase.sources == Elements(logs)
      modifies this, memory
      ensures Valid()
      ensures sys == if r.Ok? then Next(old(sys), Event.Link(w, n)) else old(sys)
      ensures r.Ok? <==> fault.NoFault? && (old(sys).mode.Consolidated? || HoldsFence(old(sys), w))
      ensures r.Ok? ==>
                && Wrote(sys, n) && sys.narratives[n] == old(sys).workers[w].session && sys.sources[n] == Elements(logs)
                && w in sys.workers
                && sys.workers[w] == old(sys).workers[w].(phase := Finishing(old(sys).workers[w].phase.token, Complete))
    {
      var worker := sys.workers[w];
      assert logs[0] in Elements(logs);
      if sys.mode.Consolidated? {
        r := memory.CommitNarrative(n, worker.session, logs, fault);
      } else {
        r := memory.AtomicT2T3Link(store, n, worker.session, logs, Some(Fence(worker.job, worker.phase.token)), fault);
      }
      if r.Ok? {
        sys := Next(sys, Event.Link(w, n));
      }
    }

    /** The compression phase: a narrative, written and linked in one transaction, or the reason why there is none. */
    method Compress(w: WorkerId, c: Context, logs: seq<LogId>) returns (r: Result<(), ProcessError>, linked: bool)
      requires Valid() && w in sys.workers && sys.workers[w].phase.Loaded? && c.narrative !in sys.narratives
      requires sys.workers[w].phase.sources == Elements(logs)
      modifies this, memory
      ensures Valid() && sys == if linked then Next(old(sys), Event.Link(w, c.narrative)) else old(sys)
      ensures linked ==>
                && Wrote(sys, c.narrative) && sys.narratives[c.narrative] == old(sys).workers[w].session
                && sys.sources[c.narrative] == Elements(logs) && w in sys.workers
                && sys.workers[w] == old(sys).workers[w].(phase := Finishing(old(sys).workers[w].phase.token, Complete))
      ensures CompressesAs(Elements(logs), old(sys), w, c, r, linked)
    {
      hide Next, HoldsFence;
      SomeOrNone(logs);
      r, linked := Ok(()), false;
      if c.wiring.Both? && logs != [] {
        match c.compression
        case NeedsReview => r := Err(ErrReviewRequired);
        case Broken => r := Err(ProcessFailed);
        case Narrative(fault) =>
          var link := WriteNarrative(w, c.narrative, logs, fault);
          linked := link.Ok?;
          r := if linked then Ok(()) else Err(ProcessFailed);
      } else if c.wiring.Partial? && logs != [] {
        r := Err(ProcessFailed);
      }
    }

    method DecideOn(w: WorkerId, outcome: Outcome)
      requires Valid() && w in sys.workers && (sys.workers[w].phase.Claimed? || sys.workers[w].phase.Loaded?)
      modifies this
      ensures Valid() && sys == Next(old(sys), Decide(w, outcome)) && sys.narratives == old(sys).narratives
      ensures w in sys.workers
           && sys.workers[w] == old(sys).workers[w].(phase := Finishing(old(sys).workers[w].phase.token, outcome))
    {
      sys := Next(sys, Decide(w, outcome));
    }

    method FinishJob(w: WorkerId) returns (r: Result<(), StoreError>)
      requires Valid() && w in sys.workers && sys.workers[w].phase.Finishing?
      modifies this, store
      ensures Valid() && sys == Next(old(sys), Event.Finish(w))
      ensures w in sys.workers && sys.workers[w].phase.Exited?
      ensures r.Ok? <==> HoldsFence(old(sys), w)
      ensures sys.narratives == old(sys).narratives && sys.sources == old(sys).sources
    {
      var worker := sys.workers[w];
      r := store.Finish(worker.job, worker.phase.token, worker.phase.outcome);
      sys := Next(sys, Event.Finish(w));
    }

    /**
     * Every case of the processing: what it returns, which events it makes, and which finisher is due. The logs read
     * are those visible at the read; the link works exactly if the database raises no fault and, without a
     * ConsolidationStore, the fence still holds the job; then the narrative covers exactly the logs read.
     */
    method ProcessSession(w: WorkerId, c: Context, ghost start: System, done: seq<Event>)
      returns (r: Result<(), ProcessError>, own: seq<Event>)
      requires Valid() && Fair(w, c)
      requires w in sys.workers && sys.workers[w].phase == Claimed(c.token) && c.narrative !in sys.narratives
      requires sys == Exec(start, Woven(done, c))
      modifies this, store, memory
      ensures Valid() && sys == Exec(start, Woven(own, c))
      ensures w in sys.workers && sys.workers[w].phase.Finishing?
      ensures sys.workers[w] == old(sys).workers[w].(phase := Finishing(c.token, sys.workers[w].phase.outcome))
      ensures done <= own
      ensures ProcessesAs(
                VisibleLogs(old(sys), old(sys).workers[w].session), Exec(start, Woven(done + [Event.Read(w)], c)),
                w, c, own[|done|..], r, sys.workers[w].phase.outcome)
      ensures c.narrative in sys.narratives <==> own[|own| - 1] == Event.Link(w, c.narrative)
      ensures c.narrative in sys.narratives ==>
                && c.narrative in sys.sources && sys.narratives[c.narrative] == old(sys).workers[w].session
                && sys.sources[c.narrative] == VisibleLogs(old(sys), old(sys).workers[w].session)
    {
      hide Exec, Next, Woven, HoldsFence, CompressesAs, LinkWorks;
      if c.readFails {
        DecideOn(w, Fail);
        own := done + [Decide(w, Fail)];
        WeaveOne(start, done, Decide(w, Fail), c);
        assert own[|done|..] == [Decide(w, Fail)];
        Interleave(w, c, |own|);
        return Err(ProcessFailed), own;
      }
      var logs := LoadLogs(w);
      own := done + [Event.Read(w)];
      WeaveOne(start, done, Event.Read(w), c);
      Interleave(w, c, |own|);

      ghost var read := sys;
      var linked;
      r, linked := Compress(w, c, logs);
      var e := if linked then Event.Link(w, c.narrative) else Decide(w, OutcomeOf(r));
      if !linked {
        DecideOn(w, OutcomeOf(r));
      }
      WeaveOne(start, own, e, c);
      own := own + [e];
      assert own[|done|..] == [Event.Read(w), e];
      CompressionProcesses(Elements(logs), read, w, c, r, linked, e);
      Interleave(w, c, |own|);
    }

    /**
     * Claim, process, then at most one finisher, and nothing after it. Woven into what the others do, the run is
     * a run of the step system in which w ends Exited; RunsAs says which run it is and what Run returns.
     */
    method Run(w: WorkerId, c: Context) returns (err: Option<RunError>, own: seq<Event>)
      requires Valid() && Fair(w, c) && w in sys.workers && sys.workers[w].phase.Ready?
      requires c.token !in sys.grants && c.narrative !in sys.narratives
      modifies this, store, memory
      ensures Valid() && sys == Exec(old(sys), Woven(own, c))
      ensures w in sys.workers && sys.workers[w].phase.Exited?
      ensures IsRun(own, w, c)
      ensures |own| > 1 <==> CanClaim(Exec(old(sys), c.others(0)), w)
      ensures |own| == 1 ==> err == None
      ensures |own| > 1 ==> RunsAs(old(sys), w, c, own, err)
      ensures |own| > 1 && c.narrative in sys.narratives ==>
                && own == [Event.Claim(w, c.token), Event.Read(w), Event.Link(w, c.narrative), Event.Finish(w)]
                && c.narrative in sys.sources && sys.narratives[c.narrative] == old(sys).workers[w].session
                && sys.sources[c.narrative] == LogsRead(old(sys), w, c)
    {
      hide *;
      ghost var start := sys;
      Interleave(w, c, 0);
      var claim := ClaimJob(w, c.token);
      var first := [Event.Claim(w, c.token)];
      own := first;
      WeaveFirst(start, Event.Claim(w, c.token), c);
      Interleave(w, c, 1);
      if claim.Err? {
        RefusedIsRun(w, c);
        return None, own;
      }
      LogsReadAre(start, w, c);
      ghost var session := start.workers[w].session;
      var r;
      r, own := ProcessSession(w, c, start, first);
      ghost var done, fin := own, sys;
      var finish := FinishJob(w);
      ghost var after := sys;
      WeaveOne(start, own, Event.Finish(w), c);
      own := own + [Event.Finish(w)];
      Interleave(w, c, |own|);
      err := match r
        case Ok(_) => if finish.Err? then Some(NotCompleted) else None
        case Err(ErrReviewRequired) => None
        case Err(ProcessFailed) => Some(NotProcessed);
      NarrativeStays(after, sys, c.narrative);
      ReturnedIs(r, fin, w, finish.Ok?, err);
      RunIs(start, w, c, done, r, fin, own, err);
    }
  }

  // ----- What a run comes to -----

  /** The logs that are visible when w, having claimed, reads its session. */
  ghost function LogsRead(s: System, w: WorkerId, c: Context): set<LogId>
    requires w in s.workers
  {
    VisibleLogs(Exec(s, Woven([Event.Claim(w, c.token)], c)), s.workers[w].session)
  }

  /** The link will succeed: no fault, and with the fenced link the job is still w's. */
  ghost predicate LinkWorks(read: System, w: WorkerId, fault: Fault) {
    fault.NoFault? && (read.mode.Consolidated? || HoldsFence(read, w))
  }

  /** When the compression phase links, and what it returns. */
  ghost predicate CompressesAs(
    logs: set<LogId>, read: System, w: WorkerId, c: Context, r: Result<(), ProcessError>, linked: bool)
  {
    if logs == {} || c.wiring.Neither? then r == Ok(()) && !linked
    else if c.wiring.Partial? || c.compression.Broken? then r == Err(ProcessFailed) && !linked
    else if c.compression.NeedsReview? then r == Err(ErrReviewRequired) && !linked
    else linked == LinkWorks(read, w, c.compression.fault) && r == if linked then Ok(()) else Err(ProcessFailed)
  }

  lemma CompressionProcesses(logs: set<LogId>, read: System, w: WorkerId, c: Context, r: Result<(), ProcessError>,
                             linked: bool, e: Event)
    requires !c.readFails && CompressesAs(logs, read, w, c, r, linked)
    requires e == if linked then Event.Link(w, c.narrative) else Decide(w, OutcomeOf(r))
    ensures ProcessesAs(logs, read, w, c, [Event.Read(w), e], r, OutcomeOf(r)) && (linked ==> OutcomeOf(r) == Complete)
  {
    hide LinkWorks;
  }

  /**
   * Case by case: the steps of the processing, what it returns, and the finisher that is due. `logs` are those
   * visible at the read, `read` is the moment after it.
   */
  ghost predicate ProcessesAs(
    logs: set<LogId>, read: System, w: WorkerId, c: Context, steps: seq<Event>, r: Result<(), ProcessError>,
    outcome: Outcome)
  {
    if c.readFails then
      steps == [Decide(w, Fail)] && r == Err(ProcessFailed) && outcome == Fail
    else if logs == {} || c.wiring.Neither? then
      steps == [Event.Read(w), Decide(w, Complete)] && r == Ok(()) && outcome == Complete
    else if c.wiring.Partial? || c.compression.Broken? then
      steps == [Event.Read(w), Decide(w, Fail)] && r == Err(ProcessFailed) && outcome == Fail
    else if c.compression.NeedsReview? then
      steps == [Event.Read(w), Decide(w, Review)] && r == Err(ErrReviewRequired) && outcome == Review
    else if LinkWorks(read, w, c.compression.fault) then
      steps == [Event.Read(w), Event.Link(w, c.narrative)] && r == Ok(()) && outcome == Complete
    else
      steps == [Event.Read(w), Decide(w, Fail)] && r == Err(ProcessFailed) && outcome == Fail
  }

  /** The run claims, makes these steps, and calls the finisher for `outcome`; `fin` is the moment of that call. */
  ghost predicate Makes(own: seq<Event>, w: WorkerId, c: Context, steps: seq<Event>, fin: System, outcome: Outcome) {
    && own == [Event.Claim(w, c.token)] + steps + [Event.Finish(w)]
    && w in fin.workers && fin.workers[w].phase == Finishing(c.token, outcome)
  }

  /** What Run returns after Complete: an error exactly if the job was no longer its own. */
  ghost predicate CompletionError(fin: System, w: WorkerId, err: Option<RunError>) {
    err == if HoldsFence(fin, w) then None else Some(NotCompleted)
  }

  /** Case by case: the steps, the finisher and the returned error of a run that claimed its job. */
  ghost predicate RunsAs(s: System, w: WorkerId, c: Context, own: seq<Event>, err: Option<RunError>)
    requires w in s.workers && own != []
  {
    var logs, read := LogsRead(s, w, c), Exec(s, Woven([Event.Claim(w, c.token), Event.Read(w)], c));
    var fin := Exec(s, Woven(own[..|own| - 1], c));
    if c.readFails then
      Makes(own, w, c, [Decide(w, Fail)], fin, Fail) && err == Some(NotProcessed)
    else if logs == {} || c.wiring.Neither? then
      Makes(own, w, c, [Event.Read(w), Decide(w, Complete)], fin, Complete) && CompletionError(fin, w, err)
    else if c.wiring.Partial? || c.compression.Broken? then
      Makes(own, w, c, [Event.Read(w), Decide(w, Fail)], fin, Fail) && err == Some(NotProcessed)
    else if c.compression.NeedsReview? then
      Makes(own, w, c, [Event.Read(w), Decide(w, Review)], fin, Review) && err == None
    else if LinkWorks(read, w, c.compression.fault) then
      && Makes(own, w, c, [Event.Read(w), Event.Link(w, c.narrative)], fin, Complete)
      && CompletionError(fin, w, err)
    else
      Makes(own, w, c, [Event.Read(w), Decide(w, Fail)], fin, Fail) && err == Some(NotProcessed)
  }

  /** How Run turns the result of the processing into its own. */
  ghost predicate Returns(r: Result<(), ProcessError>, fin: System, w: WorkerId, err: Option<RunError>) {
    match r
    case Ok(_) => CompletionError(fin, w, err)
    case Err(ErrReviewRequired) => err == None
    case Err(ProcessFailed) => err == Some(NotProcessed)
  }

  lemma NarrativeStays(s: System, s': System, n: NarrativeId)
    requires Wrote(s, n) ==> SameNarrative(s, s', n)
    ensures n in s.narratives && n in s.sources ==>
              && n in s'.narratives && s'.narratives[n] == s.narratives[n]
              && n in s'.sources && s'.sources[n] == s.sources[n]
  {
  }

  lemma ReturnedIs(r: Result<(), ProcessError>, fin: System, w: WorkerId, finished: bool, err: Option<RunError>)
    requires finished <==> HoldsFence(fin, w)
    requires err == match r
                    case Ok(_) => if finished then None else Some(NotCompleted)
                    case Err(ErrReviewRequired) => None
                    case Err(ProcessFailed) => Some(NotProcessed)
    ensures Returns(r, fin, w, err)
  {
  }

  lemma RunIs(s: System, w: WorkerId, c: Context, done: seq<Event>, r: Result<(), ProcessError>, fin: System,
              own: seq<Event>, err: Option<RunError>)
    requires w in s.workers && own == done + [Event.Finish(w)] && fin == Exec(s, Woven(done, c))
    requires [Event.Claim(w, c.token)] <= done
    requires w in fin.workers && fin.workers[w].phase.Finishing? && fin.workers[w].phase.token == c.token
    requires ProcessesAs(
               LogsRead(s, w, c), Exec(s, Woven([Event.Claim(w, c.token)] + [Event.Read(w)], c)), w, c,
               done[1..], r, fin.workers[w].phase.outcome)
    requires Returns(r, fin, w, err)
    ensures RunsAs(s, w, c, own, err) && IsRun(own, w, c) && |own| > 1
    ensures own[|own| - 2] == Event.Link(w, c.narrative) ==>
              own == [Event.Claim(w, c.token), Event.Read(w), Event.Link(w, c.narrative), Event.Finish(w)]
  {
    hide Exec, Woven, LogsRead, LinkWorks, CompletionError;
    assert own[..|own| - 1] == done && own[1..|own| - 1] == done[1..];
    assert done == [Event.Claim(w, c.token)] + done[1..];
    assert [Event.Claim(w, c.token)] + [Event.Read(w)] == [Event.Claim(w, c.token), Event.Read(w)];
  }

  lemma LogsReadAre(s: System, w: WorkerId, c: Context)
    requires w in s.workers
    ensures LogsRead(s, w, c) == VisibleLogs(Exec(s, Woven([Event.Claim(w, c.token)], c)), s.workers[w].session)
  {
  }

  lemma WeaveFirst(s: System, e: Event, c: Context)
    ensures Exec(Next(Exec(s, c.others(0)), e), c.others(1)) == Exec(s, Woven([e], c))
  {
    hide Exec, Next;
    assert [] + [e] == [e];
    WeaveOne(s, [], e, c);
  }

  lemma RefusedIsRun(w: WorkerId, c: Context)
    ensures IsRun([Event.Claim(w, c.token)], w, c)
  {
  }

  lemma SomeOrNone(logs: seq<LogId>)
    ensures logs == [] <==> Elements(logs) == {}
  {
    assert logs != [] ==> logs[0] in Elements(logs);
  }

  /** Processing: a failed read, or one read and then at most one link or the decision against it. */
  ghost predicate IsProcessing(es: seq<Event>, w: WorkerId, n: NarrativeId) {
    if |es| == 1 then es[0].Decide? && es[0].worker == w
    else
      && |es| == 2 && es[0] == Event.Read(w)
      && (es[1] == Event.Link(w, n) || (es[1].Decide? && es[1].worker == w))
  }

  /** The operations of one run: a claim that is refused, or one claim, the processing, and one finisher, last. */
  ghost predicate IsRun(own: seq<Event>, w: WorkerId, c: Context) {
    && own != [] && own[0] == Event.Claim(w, c.token)
    && (|own| > 1 ==> |own| > 2 && own[|own| - 1] == Event.Finish(w)
                      && IsProcessing(own[1..|own| - 1], w, c.narrative))
  }

  function OutcomeOf(r: Result<(), ProcessError>): Outcome {
    match r
    case Ok(_) => Complete
    case Err(ErrReviewRequired) => Review
    case Err(ProcessFailed) => Fail
  }
}
