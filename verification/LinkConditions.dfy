/**
 * When links last: the exact condition for one commit and for a whole run, in either mode, and concrete runs that
 * show where the hypotheses of exactly-once consolidation are needed.
 */
module LinkConditions {
  import opened Wrappers
  import opened JobStore
  import opened Consolidation
  import opened LeaseProtocol
  import opened LeaseTheorems
  import opened ExactlyOnce

  // ----- Links last if every single link step keeps them -----

  lemma OthersKeepLinks(s: System, e: Event)
    requires !Links(s, e)
    ensures KeepsLinks(s, Next(s, e))
  {
    OtherStepsGrow(s, e);
  }

  ghost predicate KeepsLinksAt(mode: Mode, es: seq<Event>, i: nat)
    requires i < |es|
  {
    KeepsLinks(At(mode, es, i), Next(At(mode, es, i), es[i]))
  }

  lemma {:induction false} LinksLastBetween(mode: Mode, es: seq<Event>, i: nat, k: nat)
    requires i <= k <= |es| && forall j :: 0 <= j < |es| ==> KeepsLinksAt(mode, es, j)
    ensures LinksLast(mode, es, i, k)
  {
    hide Next, At;
    if i < k {
      LinksLastBetween(mode, es, i, k - 1);
      AtStep(mode, es, k - 1);
      assert KeepsLinksAt(mode, es, k - 1);
    }
  }

  ghost predicate AllLinksLast(mode: Mode, es: seq<Event>) {
    forall i, k :: 0 <= i <= k <= |es| ==> LinksLast(mode, es, i, k)
  }

  lemma AllLinksLastIff(mode: Mode, es: seq<Event>)
    ensures AllLinksLast(mode, es) <==> forall j :: 0 <= j < |es| ==> KeepsLinksAt(mode, es, j)
  {
    hide Next, At, KeepsLinks;
    if AllLinksLast(mode, es) {
      forall j | 0 <= j < |es| ensures KeepsLinksAt(mode, es, j) {
        assert LinksLast(mode, es, j, j + 1);
        AtStep(mode, es, j);
      }
    }
    if forall j :: 0 <= j < |es| ==> KeepsLinksAt(mode, es, j) {
      forall i, k | 0 <= i <= k <= |es| ensures LinksLast(mode, es, i, k) {
        LinksLastBetween(mode, es, i, k);
      }
    }
  }

  lemma StepKeepsAttributed(s: System, e: Event)
    requires MemoryInv(s) && Attributed(s) && KeepsLinks(s, Next(s, e))
    ensures Attributed(Next(s, e))
  {
    hide Attributed, MemoryInv, KeepsLinks;
    if Links(s, e) {
      LinkIsNext(s, e);
      hide Next;
      LinkAttributes(s, e.worker, e.narrative);
    } else {
      hide Next;
      OtherStepsGrow(s, e);
      GrowthKeepsAttributed(s, Next(s, e));
    }
  }

  lemma LinkIsNext(s: System, e: Event)
    requires Links(s, e)
    ensures Next(s, e) == NextLink(s, e.worker, e.narrative)
  {
    hide NextLink;
  }

  lemma GrowthKeepsAttributed(s: System, s': System)
    requires Attributed(s) && MemoryGrows(s, s')
    ensures Attributed(s')
  {
  }

  lemma LinkAttributes(s: System, w: WorkerId, n: NarrativeId)
    requires MemoryInv(s) && Attributed(s) && Links(s, Event.Link(w, n)) && KeepsLinks(s, NextLink(s, w, n))
    ensures Attributed(NextLink(s, w, n))
  {
    assert SourcesOk(s, w);
  }

  lemma {:induction false} LastingLinksAreAttributed(mode: Mode, es: seq<Event>, k: nat)
    requires AllLinksLast(mode, es) && k <= |es|
    ensures Attributed(At(mode, es, k))
  {
    hide Next, MemoryInv, Attributed, KeepsLinks;
    if k == 0 {
      NothingIsAttributed(mode);
    } else {
      LastingLinksAreAttributed(mode, es, k - 1);
      RunKeepsMemory(mode, es[..k - 1]);
      AllLinksLastIff(mode, es);
      assert KeepsLinksAt(mode, es, k - 1);
      AtStep(mode, es, k - 1);
      StepKeepsAttributed(At(mode, es, k - 1), es[k - 1]);
    }
  }

  lemma NothingIsAttributed(mode: Mode)
    ensures Attributed(Init(mode))
  {
  }

  /** In either mode, a run that never changes a link gives every log to exactly one narrative. */
  lemma LastingLinksMeanOnce(mode: Mode, es: seq<Event>)
    requires AllLinksLast(mode, es)
    ensures EachLogOnce(Exec(Init(mode), es))
  {
    hide Next, MemoryInv, Attributed, AllLinksLast, EachLogOnce;
    LastingLinksAreAttributed(mode, es, |es|);
    assert es[..|es|] == es;
    RunKeepsMemory(mode, es);
    AttributedMeansOnce(Exec(Init(mode), es));
  }

  // ----- With a ConsolidationStore: every commit must find its sources still uncovered -----

  /** The test CommitNarrative does not make: the logs that were read are still without a narrative. */
  predicate StillUncovered(s: System, w: WorkerId)
    requires w in s.workers && s.workers[w].phase.Loaded?
  {
    s.workers[w].phase.sources <= VisibleLogs(s, s.workers[w].session)
  }

  lemma CommitKeepsLinksIff(s: System, w: WorkerId, n: NarrativeId)
    requires MemoryInv(s) && s.mode.Consolidated? && Enabled(s, Event.Link(w, n))
    ensures KeepsLinks(s, Next(s, Event.Link(w, n))) <==> StillUncovered(s, w)
  {
    var s' := Next(s, Event.Link(w, n));
    assert s' == NextLink(s, w, n);
    assert SourcesOk(s, w);
    forall l | l in s.workers[w].phase.sources && s.logs[l].narrative.Some? ensures s'.logs[l] != s.logs[l] {
      assert LogOk(s, l);
    }
  }

  /** A commit overwrites no link exactly when the logs read earlier are still all uncovered. */
  lemma CommitOverwritesNothingIff(es: seq<Event>, w: WorkerId, n: NarrativeId)
    requires Enabled(Exec(Init(Consolidated), es), Event.Link(w, n))
    ensures var s := Exec(Init(Consolidated), es);
            KeepsLinks(s, Next(s, Event.Link(w, n))) <==> StillUncovered(s, w)
  {
    hide Next, MemoryInv, KeepsLinks, StillUncovered, Enabled;
    RunKeepsMemory(Consolidated, es);
    ModeIsFixed(Consolidated, es);
    CommitKeepsLinksIff(Exec(Init(Consolidated), es), w, n);
  }

  ghost predicate CommitsUncovered(es: seq<Event>, i: nat)
    requires i < |es|
  {
    var s := At(Consolidated, es, i);
    es[i].Link? && Enabled(s, es[i]) ==> StillUncovered(s, es[i].worker)
  }

  ghost predicate CommitsOnlyUncovered(es: seq<Event>) {
    forall i :: 0 <= i < |es| ==> CommitsUncovered(es, i)
  }

  /** Over a whole run no link ever changes exactly if every commit finds its sources still uncovered. */
  lemma ConsolidatedLinksLastIff(es: seq<Event>)
    ensures AllLinksLast(Consolidated, es) <==> CommitsOnlyUncovered(es)
    ensures CommitsOnlyUncovered(es) ==> EachLogOnce(Exec(Init(Consolidated), es))
  {
    hide Next, KeepsLinks, StillUncovered, AllLinksLast, EachLogOnce, Exec;
    AllLinksLastIff(Consolidated, es);
    forall i | 0 <= i < |es| ensures KeepsLinksAt(Consolidated, es, i) <==> CommitsUncovered(es, i) {
      if es[i].Link? && Enabled(At(Consolidated, es, i), es[i]) {
        CommitOverwritesNothingIff(es[..i], es[i].worker, es[i].narrative);
      } else {
        OthersKeepLinks(At(Consolidated, es, i), es[i]);
      }
    }
    if CommitsOnlyUncovered(es) {
      assert forall i :: 0 <= i < |es| ==> KeepsLinksAt(Consolidated, es, i);
      LastingLinksMeanOnce(Consolidated, es);
    }
  }

  // ----- Without one: every session must be linked at most once -----

  predicate Nests(a: set<LogId>, b: set<LogId>) {
    a <= b || b <= a
  }

  predicate Reads(s: System, w: WorkerId, session: SessionId) {
    w in s.workers && s.workers[w].phase.Loaded? && s.workers[w].session == session
  }

  /** Whatever was read of a session, at whatever time, is comparable: QueryLogs only ever sees more. */
  ghost predicate Nested(s: System) {
    && s.sources.Keys == s.narratives.Keys
    && (forall m, n :: m in s.narratives && n in s.narratives && s.narratives[m] == s.narratives[n]
                       ==> Nests(s.sources[m], s.sources[n]))
    && (forall n, w :: n in s.narratives && Reads(s, w, s.narratives[n])
                       ==> Nests(s.sources[n], s.workers[w].phase.sources))
    && (forall session, v, w :: Reads(s, v, session) && Reads(s, w, session)
                                ==> Nests(s.workers[v].phase.sources, s.workers[w].phase.sources))
  }

  /** Every earlier read is contained in what is visible now. */
  lemma ReadsAreVisible(s: System)
    requires MemoryInv(s) && s.mode.Fallback?
    ensures forall n :: n in s.narratives ==> s.sources[n] <= VisibleLogs(s, s.narratives[n])
    ensures forall w :: w in s.workers && s.workers[w].phase.Loaded?
              ==> s.workers[w].phase.sources <= VisibleLogs(s, s.workers[w].session)
  {
    forall n | n in s.narratives ensures s.sources[n] <= VisibleLogs(s, s.narratives[n]) {
      assert NarrativeOk(s, n);
    }
    forall w | w in s.workers && s.workers[w].phase.Loaded?
      ensures s.workers[w].phase.sources <= VisibleLogs(s, s.workers[w].session)
    {
      assert SourcesOk(s, w);
    }
  }

  /** A read is an old one, or it saw everything. */
  predicate OldOrFull(s: System, s': System, w: WorkerId, session: SessionId)
    requires Reads(s', w, session)
  {
    || (Reads(s, w, session) && s'.workers[w].phase.sources == s.workers[w].phase.sources)
    || s'.workers[w].phase.sources == VisibleLogs(s, session)
  }

  lemma NewReadsNest(s: System, s': System, v: WorkerId, w: WorkerId, session: SessionId)
    requires MemoryInv(s) && s.mode.Fallback? && Nested(s) && Reads(s', v, session) && Reads(s', w, session)
    requires OldOrFull(s, s', v, session) && OldOrFull(s, s', w, session)
    ensures Nests(s'.workers[v].phase.sources, s'.workers[w].phase.sources)
  {
    ReadsAreVisible(s);
    hide MemoryInv, VisibleLogs;
  }

  lemma NewReadNestsWith(s: System, s': System, n: NarrativeId, w: WorkerId)
    requires MemoryInv(s) && s.mode.Fallback? && Nested(s)
    requires n in s.narratives && Reads(s', w, s.narratives[n]) && OldOrFull(s, s', w, s.narratives[n])
    ensures Nests(s.sources[n], s'.workers[w].phase.sources)
  {
    ReadsAreVisible(s);
    hide MemoryInv, VisibleLogs;
  }

  lemma GrowthKeepsNested(s: System, s': System)
    requires MemoryInv(s) && s.mode.Fallback? && Nested(s) && MemoryGrows(s, s')
    ensures Nested(s')
  {
    hide MemoryInv, VisibleLogs, Nests;
    forall w, session | Reads(s', w, session) ensures OldOrFull(s, s', w, session) {}
    forall n, w | n in s'.narratives && Reads(s', w, s'.narratives[n])
      ensures Nests(s'.sources[n], s'.workers[w].phase.sources)
    {
      NewReadNestsWith(s, s', n, w);
    }
    forall session, v, w | Reads(s', v, session) && Reads(s', w, session)
      ensures Nests(s'.workers[v].phase.sources, s'.workers[w].phase.sources)
    {
      NewReadsNest(s, s', v, w, session);
    }
  }

  lemma LinkKeepsNested(s: System, w: WorkerId, n: NarrativeId)
    requires Nested(s) && Links(s, Event.Link(w, n))
    ensures Nested(NextLink(s, w, n))
  {
    var s' := NextLink(s, w, n);
    LinkMoves(s, w, n);
    assert s'.narratives == s.narratives[n := s.workers[w].session];
    assert s'.sources == s.sources[n := s.workers[w].phase.sources];
    assert Reads(s, w, s.workers[w].session);
    hide NextLink, HoldsFence, Enabled, Links;
    forall v, session | Reads(s', v, session) ensures v != w && Reads(s, v, session) && s'.workers[v] == s.workers[v] {}
  }

  lemma StepKeepsNested(s: System, e: Event)
    requires MemoryInv(s) && s.mode.Fallback? && Nested(s)
    ensures Nested(Next(s, e))
  {
    hide MemoryInv, Nested, HoldsFence;
    if Links(s, e) {
      LinkKeepsNested(s, e.worker, e.narrative);
    } else {
      hide Next;
      OtherStepsGrow(s, e);
      GrowthKeepsNested(s, Next(s, e));
    }
  }

  lemma {:induction false} RunKeepsNested(es: seq<Event>)
    ensures Nested(Exec(Init(Fallback), es))
  {
    hide Next, MemoryInv;
    if es != [] {
      var s := Exec(Init(Fallback), es[..|es| - 1]);
      RunKeepsNested(es[..|es| - 1]);
      RunKeepsMemory(Fallback, es[..|es| - 1]);
      ModeIsFixed(Fallback, es[..|es| - 1]);
      hide Nested;
      StepKeepsNested(s, es[|es| - 1]);
    }
  }

  predicate SessionIsNew(s: System, session: SessionId) {
    forall m :: m in s.narratives ==> s.narratives[m] != session
  }

  /** Comparable and not empty, two reads of a session share a log. */
  lemma SharedLog(a: set<LogId>, b: set<LogId>) returns (l: LogId)
    requires Nests(a, b) && a != {} && b != {}
    ensures l in a && l in b
  {
    if a <= b {
      l :| l in a;
    } else {
      l :| l in b;
    }
  }

  lemma FallbackKeepsLinksIff(s: System, w: WorkerId, n: NarrativeId)
    requires MemoryInv(s) && Nested(s) && s.mode.Fallback? && Links(s, Event.Link(w, n))
    ensures KeepsLinks(s, NextLink(s, w, n)) <==> SessionIsNew(s, s.workers[w].session)
  {
    var s' := NextLink(s, w, n);
    var worker := s.workers[w];
    assert SourcesOk(s, w);
    if SessionIsNew(s, worker.session) {
      forall l | l in s.logs && s.logs[l].narrative.Some? ensures l !in worker.phase.sources {
        assert LogOk(s, l);
      }
    } else {
      var m :| m in s.narratives && s.narratives[m] == worker.session;
      assert NarrativeOk(s, m) && Reads(s, w, worker.session);
      var l := SharedLog(s.sources[m], worker.phase.sources);
      assert LogOk(s, l);
      assert s'.logs[l].narrative == Some(n) != s.logs[l].narrative;
    }
  }

  /** A fenced link overwrites no link exactly when its session has no narrative yet. */
  lemma FallbackOverwritesNothingIff(es: seq<Event>, w: WorkerId, n: NarrativeId)
    requires Links(Exec(Init(Fallback), es), Event.Link(w, n))
    ensures var s := Exec(Init(Fallback), es);
            KeepsLinks(s, Next(s, Event.Link(w, n))) <==> SessionIsNew(s, s.workers[w].session)
  {
    hide MemoryInv, Nested, KeepsLinks, SessionIsNew, NextLink, HoldsFence;
    RunKeepsMemory(Fallback, es);
    RunKeepsNested(es);
    ModeIsFixed(Fallback, es);
    FallbackKeepsLinksIff(Exec(Init(Fallback), es), w, n);
  }

  ghost predicate OneNarrativePerSession(s: System) {
    forall m, n :: m in s.narratives && n in s.narratives && s.narratives[m] == s.narratives[n] ==> m == n
  }

  lemma LinkKeepsOneIff(s: System, w: WorkerId, n: NarrativeId)
    requires Links(s, Event.Link(w, n))
    ensures OneNarrativePerSession(NextLink(s, w, n))
       <==> OneNarrativePerSession(s) && SessionIsNew(s, s.workers[w].session)
  {
    var s', session := NextLink(s, w, n), s.workers[w].session;
    assert s'.narratives == s.narratives[n := session];
    hide NextLink, HoldsFence;
    if OneNarrativePerSession(s') {
      forall m | m in s.narratives ensures s.narratives[m] != session {
        assert n !in s.narratives && s'.narratives[m] == s.narratives[m] && s'.narratives[n] == session;
        assert s'.narratives[m] == s'.narratives[n] ==> m == n;
      }
      forall m, k | m in s.narratives && k in s.narratives && s.narratives[m] == s.narratives[k] ensures m == k {
        assert s'.narratives[m] == s'.narratives[k];
      }
    }
  }

  lemma OneNarrativeStepIff(es: seq<Event>, j: nat)
    requires j < |es|
    ensures OneNarrativePerSession(At(Fallback, es, j + 1))
       <==> OneNarrativePerSession(At(Fallback, es, j)) && KeepsLinksAt(Fallback, es, j)
  {
    hide KeepsLinks, OneNarrativePerSession, SessionIsNew, NextLink, HoldsFence;
    var s := At(Fallback, es, j);
    AtStep(Fallback, es, j);
    if Links(s, es[j]) {
      FallbackOverwritesNothingIff(es[..j], es[j].worker, es[j].narrative);
      LinkKeepsOneIff(s, es[j].worker, es[j].narrative);
    } else {
      hide Next;
      OthersKeepLinks(s, es[j]);
      OtherStepsGrow(s, es[j]);
      SameNarratives(s, Next(s, es[j]));
    }
  }

  lemma SameNarratives(s: System, s': System)
    requires s'.narratives == s.narratives
    ensures OneNarrativePerSession(s') <==> OneNarrativePerSession(s)
  {
  }

  lemma {:induction false} OneNarrativeIff(es: seq<Event>, k: nat)
    requires k <= |es|
    ensures OneNarrativePerSession(At(Fallback, es, k)) <==> forall j :: 0 <= j < k ==> KeepsLinksAt(Fallback, es, j)
  {
    hide Next, KeepsLinksAt;
    if k > 0 {
      OneNarrativeIff(es, k - 1);
      hide OneNarrativePerSession;
      OneNarrativeStepIff(es, k - 1);
    }
  }

  /** Two narratives of one session always share a log here. */
  lemma OnceMeansOneNarrative(s: System)
    requires MemoryInv(s) && Nested(s) && EachLogOnce(s)
    ensures OneNarrativePerSession(s)
  {
    forall m, n | m in s.narratives && n in s.narratives && s.narratives[m] == s.narratives[n] ensures m == n {
      assert NarrativeOk(s, m) && NarrativeOk(s, n);
      var l := SharedLog(s.sources[m], s.sources[n]);
    }
  }

  /**
   * Without a ConsolidationStore, over every run: no link ever changes exactly if each session got at most one
   * narrative, and exactly then is every log in exactly one narrative. One job per session is not needed.
   */
  lemma FallbackIsExactlyOnceIff(es: seq<Event>)
    ensures AllLinksLast(Fallback, es) <==> OneNarrativePerSession(Exec(Init(Fallback), es))
    ensures EachLogOnce(Exec(Init(Fallback), es)) <==> OneNarrativePerSession(Exec(Init(Fallback), es))
  {
    hide Next, KeepsLinksAt, OneNarrativePerSession, EachLogOnce, MemoryInv, Nested, AllLinksLast;
    var s := Exec(Init(Fallback), es);
    assert es[..|es|] == es;
    AllLinksLastIff(Fallback, es);
    OneNarrativeIff(es, |es|);
    RunKeepsMemory(Fallback, es);
    RunKeepsNested(es);
    if AllLinksLast(Fallback, es) {
      LastingLinksMeanOnce(Fallback, es);
    }
    if EachLogOnce(s) {
      OnceMeansOneNarrative(s);
    }
  }

  // ----- Concrete runs -----

  /** Exec on a non-empty run, unrolled from the front. */
  lemma Unroll(s: System, es: seq<Event>)
    requires es != []
    ensures Exec(s, es) == Exec(Next(s, es[0]), es[1..])
  {
    assert es == [es[0]] + es[1..];
    ExecOne(s, es[0], es[1..]);
  }

  /** Session 7 with its job 0 and its log 1; worker 0 has read the log under claim token 100. */
  const READER: seq<Event> :=
    [Event.Commit(0, 7), Append(1, 7), Spawn(0, 0), Event.Claim(0, 100), Read(0)]

  function ReaderState(mode: Mode): System {
    System(mode, 0, map[0 := JobRow(7, Running, Some(100), 1, 0, Some(0))], map[1 := LogRow(7, None)], map[],
           map[0 := Worker(0, 7, Loaded(100, {1}))], map[100 := Grant(0, 1, 0)], map[])
  }

  lemma ReaderRuns(mode: Mode)
    ensures Exec(Init(mode), READER) == ReaderState(mode)
  {
    var s1 := Next(Init(mode), READER[0]);
    var s2 := Next(s1, READER[1]);
    var s3 := Next(s2, READER[2]);
    var s4 := Next(s3, READER[3]);
    assert Exec(Init(mode), READER) == Next(s4, READER[4]) by {
      hide Next;
      Unroll(Init(mode), READER);
      Unroll(s1, READER[1..]);
      Unroll(s2, READER[2..]);
      Unroll(s3, READER[3..]);
      Unroll(s4, READER[4..]);
    }
    hide Exec;
    assert VisibleLogs(s4, 7) == {1};
    assert s4.workers == map[0 := Worker(0, 7, Claimed(100))];
  }

  /** The lease goes stale; worker 1 takes the job over under token 101 and reads. */
  const TAKEOVER: seq<Event> :=
    [Tick(301), Spawn(1, 0), Event.Claim(1, 101), Read(1)]

  lemma TakeoverRuns(s: System)
    requires s.jobs == map[0 := JobRow(7, Running, Some(100), 1, 0, Some(0))]
    requires s.now == 0 && s.workers.Keys == {0} && s.grants == map[100 := Grant(0, 1, 0)]
    requires s.logs.Keys == {1} && s.logs[1].session == 7 && (s.mode.Consolidated? ==> s.logs[1].narrative.None?)
    ensures var s' := Exec(s, TAKEOVER);
            s' == s.(now := 301,
                     jobs := map[0 := JobRow(7, Running, Some(101), 2, 0, Some(301))],
                     workers := s.workers[1 := Worker(0, 7, Loaded(101, {1}))],
                     grants := s.grants[101 := Grant(0, 2, 301)])
  {
    hide Next, Exec;
    FourSteps(s, TAKEOVER);
    var s1 := s.(now := 301);
    var s2 := s1.(workers := s.workers[1 := Worker(0, 7, Ready)]);
    var s3 := s2.(jobs := map[0 := JobRow(7, Running, Some(101), 2, 0, Some(301))],
                  workers := s2.workers[1 := Worker(0, 7, Claimed(101))],
                  grants := s.grants[101 := Grant(0, 2, 301)]);
    LeaseGoesStale(s);
    WorkerAppears(s1);
    TakesOver(s2);
    ReadsLog(s3);
    assert s3.workers[1 := Worker(0, 7, Loaded(101, {1}))] == s.workers[1 := Worker(0, 7, Loaded(101, {1}))];
  }

  lemma FourSteps(s: System, es: seq<Event>)
    requires |es| == 4
    ensures Exec(s, es) == Next(Next(Next(Next(s, es[0]), es[1]), es[2]), es[3])
  {
    hide Next;
    Unroll(s, es);
    Unroll(Next(s, es[0]), es[1..]);
    Unroll(Next(Next(s, es[0]), es[1]), es[2..]);
    Unroll(Next(Next(Next(s, es[0]), es[1]), es[2]), es[3..]);
    assert es[1..][1..] == es[2..] && es[2..][1..] == es[3..] && es[3..][1..] == [];
  }

  lemma LeaseGoesStale(s: System)
    ensures Next(s, TAKEOVER[0]) == s.(now := s.now + 301)
  {
  }

  lemma WorkerAppears(s: System)
    requires 1 !in s.workers && 0 in s.jobs && s.jobs[0].session == 7
    ensures Next(s, TAKEOVER[1]) == s.(workers := s.workers[1 := Worker(0, 7, Ready)])
  {
  }

  lemma TakesOver(s: System)
    requires 1 in s.workers && s.workers[1] == Worker(0, 7, Ready) && 101 !in s.grants && s.now == 301
    requires s.jobs == map[0 := JobRow(7, Running, Some(100), 1, 0, Some(0))]
    ensures Next(s, TAKEOVER[2]) == s.(jobs := map[0 := JobRow(7, Running, Some(101), 2, 0, Some(301))],
                                       workers := s.workers[1 := Worker(0, 7, Claimed(101))],
                                       grants := s.grants[101 := Grant(0, 2, 301)])
  {
    assert CanClaim(s, 1);
    assert Next(s, TAKEOVER[2]) == NextClaim(s, 1, 101);
  }

  lemma ReadsLog(s: System)
    requires 1 in s.workers && s.workers[1] == Worker(0, 7, Claimed(101))
    requires s.logs.Keys == {1} && s.logs[1].session == 7 && (s.mode.Consolidated? ==> s.logs[1].narrative.None?)
    ensures Next(s, TAKEOVER[3]) == s.(workers := s.workers[1 := Worker(0, 7, Loaded(101, {1}))])
  {
    assert VisibleLogs(s, 7) == {1};
  }

  /** A link by a worker that read just log 1, in the mode whose links are not fenced. */
  lemma LinksLog(s: System, w: WorkerId, n: NarrativeId)
    requires s.mode == Consolidated && s.logs.Keys == {1} && s.logs[1].session == 7 && n !in s.narratives
    requires w in s.workers && s.workers[w].phase.Loaded? && s.workers[w].phase.sources == {1}
    ensures var s' := Next(s, Event.Link(w, n));
            && s'.mode == s.mode && s'.logs == map[1 := LogRow(7, Some(n))] && s'.jobs == s.jobs
            && s'.sources == s.sources[n := {1}] && s'.narratives.Keys == s.narratives.Keys + {n}
            && forall v :: v in s.workers && v != w ==> v in s'.workers && s'.workers[v] == s.workers[v]
  {
    assert Next(s, Event.Link(w, n)) == NextLink(s, w, n);
  }

  /**
   * A superseded commit is what the theorem excludes: CommitNarrative has no fence, so the first worker's late
   * commit takes log 1 away from the narrative its successor wrote, and both narratives claim it.
   */
  lemma SupersededCommitOverwrites()
    ensures var s := Exec(Init(Consolidated), READER + TAKEOVER + [Event.Link(1, 50)]);
            var s' := Exec(Init(Consolidated), READER + TAKEOVER + [Event.Link(1, 50)] + [Event.Link(0, 51)]);
            && OneJobPerSession(s')
            && s.logs == map[1 := LogRow(7, Some(50))] && s'.logs == map[1 := LogRow(7, Some(51))]
            && s'.sources == map[50 := {1}, 51 := {1}]
  {
    hide Next, Exec, Init;
    var both := READER + TAKEOVER;
    ReaderRuns(Consolidated);
    TakeoverRuns(ReaderState(Consolidated));
    ExecAppend(Init(Consolidated), READER, TAKEOVER);
    var t := Exec(ReaderState(Consolidated), TAKEOVER);
    ExecLast(Init(Consolidated), both, Event.Link(1, 50));
    ExecLast(Init(Consolidated), both + [Event.Link(1, 50)], Event.Link(0, 51));
    LinksLog(t, 1, 50);
    LinksLog(Next(t, Event.Link(1, 50)), 0, 51);
  }

  lemma ExecLast(s: System, es: seq<Event>, e: Event)
    ensures Exec(s, es + [e]) == Next(Exec(s, es), e)
  {
    assert (es + [e])[..|es|] == es;
  }

  /** A second job of session 7; worker 1 reads the same log under claim token 101, at the same time. */
  const RIVAL: seq<Event> :=
    [Event.Commit(1, 7), Spawn(1, 1), Event.Claim(1, 101), Read(1)]

  function RivalState(): System {
    var s := ReaderState(Consolidated);
    s.(jobs := s.jobs[1 := JobRow(7, Running, Some(101), 1, 0, Some(0))],
       workers := s.workers[1 := Worker(1, 7, Loaded(101, {1}))],
       grants := s.grants[101 := Grant(1, 1, 0)])
  }

  lemma RivalClaims(s: System)
    requires s == ReaderState(Consolidated).(jobs := ReaderState(Consolidated).jobs[1 := NewRow(7)])
    ensures Next(Next(s, RIVAL[1]), RIVAL[2]) == RivalState().(
      workers := RivalState().workers[1 := Worker(1, 7, Claimed(101))])
  {
    var t := Next(s, RIVAL[1]);
    assert t == s.(workers := s.workers[1 := Worker(1, 7, Ready)]);
    assert CanClaim(t, 1);
    assert Next(t, RIVAL[2]) == NextClaim(t, 1, 101);
  }

  lemma RivalReads(s: System)
    requires s == RivalState().(workers := RivalState().workers[1 := Worker(1, 7, Claimed(101))])
    ensures Next(s, RIVAL[3]) == RivalState()
  {
    assert VisibleLogs(s, 7) == {1};
  }

  lemma RivalRuns()
    ensures Exec(ReaderState(Consolidated), RIVAL) == RivalState()
  {
    hide Exec, RivalState;
    var s := ReaderState(Consolidated);
    FourSteps(s, RIVAL);
    assert Next(s, RIVAL[0]) == s.(jobs := s.jobs[1 := NewRow(7)]);
    hide Next, ReaderState;
    RivalClaims(s.(jobs := s.jobs[1 := NewRow(7)]));
    RivalReads(RivalState().(workers := RivalState().workers[1 := Worker(1, 7, Claimed(101))]));
  }

  /**
   * One job per session is needed as well: two jobs of one session, with every commit timely and fenced, and the
   * later commit takes log 1 away from the narrative of the earlier one.
   */
  lemma TwoJobsOverwrite()
    ensures var es := READER + RIVAL + [Event.Link(1, 50)] + [Event.Link(0, 51)];
            var s := Exec(Init(Consolidated), READER + RIVAL + [Event.Link(1, 50)]);
            var s' := Exec(Init(Consolidated), es);
            && TimelyRun(Consolidated, es) && FencedRun(Consolidated, es)
            && s.logs == map[1 := LogRow(7, Some(50))] && s'.logs == map[1 := LogRow(7, Some(51))]
            && s'.sources == map[50 := {1}, 51 := {1}]
  {
    hide Next, Exec, Init, TimelyRun;
    var both := READER + RIVAL;
    ReaderRuns(Consolidated);
    RivalRuns();
    ExecAppend(Init(Consolidated), READER, RIVAL);
    ExecLast(Init(Consolidated), both, Event.Link(1, 50));
    ExecLast(Init(Consolidated), both + [Event.Link(1, 50)], Event.Link(0, 51));
    var t := RivalState();
    LinksLog(t, 1, 50);
    LinksLog(Next(t, Event.Link(1, 50)), 0, 51);
    BothAreTimely();
    TimelyRunIsFenced(Consolidated, both + [Event.Link(1, 50)] + [Event.Link(0, 51)]);
  }

  lemma RivalTimes()
    ensures var es := READER + RIVAL + [Event.Link(1, 50)] + [Event.Link(0, 51)];
            && es[..9] == READER + RIVAL && es[..10] == READER + RIVAL + [Event.Link(1, 50)] && |es| == 11
            && es[9] == Event.Link(1, 50) && es[10] == Event.Link(0, 51)
            && forall i :: 0 <= i < |es| && es[i].Link? ==> i == 9 || i == 10
  {
  }

  lemma BothHoldLeases()
    ensures HoldsLease(RivalState(), 1)
    ensures HoldsLease(Next(RivalState(), Event.Link(1, 50)), 0)
  {
    assert Enabled(RivalState(), Event.Link(1, 50));
    assert Next(RivalState(), Event.Link(1, 50)) == NextLink(RivalState(), 1, 50);
  }

  lemma BothAreTimely()
    ensures TimelyRun(Consolidated, READER + RIVAL + [Event.Link(1, 50)] + [Event.Link(0, 51)])
  {
    hide Next, Exec, Init, RivalState, HoldsLease, Enabled;
    RivalTimes();
    ReaderRuns(Consolidated);
    RivalRuns();
    ExecAppend(Init(Consolidated), READER, RIVAL);
    ExecLast(Init(Consolidated), READER + RIVAL, Event.Link(1, 50));
    BothHoldLeases();
  }

  function LinkedState(): System {
    ReaderState(Fallback).(logs := map[1 := LogRow(7, Some(50))], narratives := map[50 := 7],
                           sources := map[50 := {1}], workers := map[0 := Worker(0, 7, Exited)])
  }

  lemma LinkThenCrash()
    ensures Enabled(ReaderState(Fallback), Event.Link(0, 50)) && HoldsLease(ReaderState(Fallback), 0)
    ensures Next(Next(ReaderState(Fallback), Event.Link(0, 50)), Crash(0)) == LinkedState()
  {
  }

  /**
   * Without a ConsolidationStore the theorem fails even when every link is timely and fenced: QueryLogs reads
   * linked logs again, so a crash between the link and Complete leads to a second narrative for log 1.
   */
  lemma FallbackRelinksAfterCrash()
    ensures var es := READER + [Event.Link(0, 50), Crash(0)] + TAKEOVER + [Event.Link(1, 51)];
            var s := Exec(Init(Fallback), es);
            && TimelyRun(Fallback, es) && OneJobPerSession(s)
            && s.logs == map[1 := LogRow(7, Some(51))] && s.sources == map[50 := {1}, 51 := {1}]
  {
    hide Next, Init, Exec, LinkedState, ReaderState;
    var crash := [Event.Link(0, 50), Crash(0)];
    var es := READER + crash + TAKEOVER + [Event.Link(1, 51)];
    RelinkTimes();
    RelinkStates();
    ExecLast(Init(Fallback), READER + crash + TAKEOVER, Event.Link(1, 51));
    LinkThenCrash();
    TakeoverFollows();
    RelinkOverwrites(Exec(LinkedState(), TAKEOVER));
  }

  /** The run links at two moments only. */
  lemma RelinkTimes()
    ensures var es := READER + [Event.Link(0, 50), Crash(0)] + TAKEOVER + [Event.Link(1, 51)];
            && es[..5] == READER && es[..11] == READER + [Event.Link(0, 50), Crash(0)] + TAKEOVER && |es| == 12
            && es[5] == Event.Link(0, 50) && es[11] == Event.Link(1, 51)
            && forall i :: 0 <= i < |es| && es[i].Link? ==> i == 5 || i == 11
  {
  }

  lemma RelinkStates()
    ensures Exec(Init(Fallback), READER) == ReaderState(Fallback)
    ensures Exec(Init(Fallback), READER + [Event.Link(0, 50), Crash(0)] + TAKEOVER) == Exec(LinkedState(), TAKEOVER)
  {
    hide Next, Init, LinkedState, ReaderState;
    var crash := [Event.Link(0, 50), Crash(0)];
    ReaderRuns(Fallback);
    LinkThenCrash();
    ExecAppend(Init(Fallback), READER + crash, TAKEOVER);
    ExecAppend(Init(Fallback), READER, crash);
    ExecLast(ReaderState(Fallback), [], Event.Link(0, 50));
    ExecLast(ReaderState(Fallback), [Event.Link(0, 50)], Crash(0));
    assert [] + [Event.Link(0, 50)] == [Event.Link(0, 50)] && [Event.Link(0, 50)] + [Crash(0)] == crash;
  }

  lemma TakeoverFollows()
    ensures var s := Exec(LinkedState(), TAKEOVER);
            && s.mode == Fallback && s.now == 301 && s.workers.Keys == {0, 1}
            && s.workers[1] == Worker(0, 7, Loaded(101, {1}))
            && s.jobs == map[0 := JobRow(7, Running, Some(101), 2, 0, Some(301))]
            && s.logs == map[1 := LogRow(7, Some(50))] && s.narratives == map[50 := 7] && s.sources == map[50 := {1}]
            && 101 in s.grants && s.grants[101] == Grant(0, 2, 301)
  {
    hide Exec;
    TakeoverRuns(LinkedState());
  }

  lemma RelinkOverwrites(s: System)
    requires s.mode == Fallback && s.workers.Keys == {0, 1} && s.workers[1] == Worker(0, 7, Loaded(101, {1}))
    requires s.jobs == map[0 := JobRow(7, Running, Some(101), 2, 0, Some(301))]
    requires s.logs == map[1 := LogRow(7, Some(50))] && s.narratives == map[50 := 7] && s.sources == map[50 := {1}]
    ensures var s' := Next(s, Event.Link(1, 51));
            s'.logs == map[1 := LogRow(7, Some(51))] && s'.sources == map[50 := {1}, 51 := {1}] && s'.jobs == s.jobs
  {
    assert HoldsFence(s, 1);
    hide HoldsFence;
    assert Next(s, Event.Link(1, 51)) == NextLink(s, 1, 51);
  }
}
