/** What the link transaction guarantees over whole runs: integrity, fencing, and exactly-once coverage. */
module ExactlyOnce {
  import opened Wrappers
  import opened JobStore
  import opened Consolidation
  import opened LeaseProtocol
  import opened LeaseTheorems

  // ----- Link integrity -----

  ghost predicate LogOk(s: System, l: LogId)
    requires l in s.logs
  {
    s.logs[l].narrative.Some? ==>
      var n := s.logs[l].narrative.value;
      n in s.narratives && s.narratives[n] == s.logs[l].session && n in s.sources && l in s.sources[n]
  }

  ghost predicate NarrativeOk(s: System, n: NarrativeId)
    requires n in s.narratives
  {
    && n in s.sources && s.sources[n] != {}
    && forall l :: l in s.sources[n] ==>
         l in s.logs && s.logs[l].session == s.narratives[n] && s.logs[l].narrative.Some?
  }

  ghost predicate SourcesOk(s: System, w: WorkerId)
    requires w in s.workers
  {
    s.workers[w].phase.Loaded? ==>
      forall l :: l in s.workers[w].phase.sources ==> l in s.logs && s.logs[l].session == s.workers[w].session
  }

  ghost predicate MemoryInv(s: System) {
    && s.sources.Keys == s.narratives.Keys
    && (forall l :: l in s.logs ==> LogOk(s, l))
    && (forall n :: n in s.narratives ==> NarrativeOk(s, n))
    && (forall w :: w in s.workers ==> SourcesOk(s, w))
  }

  predicate Links(s: System, e: Event) {
    Enabled(s, e) && e.Link? && (s.mode.Fallback? ==> HoldsFence(s, e.worker))
  }

  /** Everything but a successful link leaves narratives alone and only adds uncovered logs. */
  ghost predicate MemoryGrows(s: System, s': System) {
    && s'.narratives == s.narratives && s'.sources == s.sources
    && (forall l :: l in s.logs ==> l in s'.logs && s'.logs[l] == s.logs[l])
    && (forall l :: l in s'.logs && l !in s.logs ==> s'.logs[l].narrative.None?)
    && (forall w :: w in s'.workers && s'.workers[w].phase.Loaded? ==>
          || (w in s.workers && s.workers[w] == s'.workers[w])
          || s'.workers[w].phase.sources == VisibleLogs(s, s'.workers[w].session))
  }

  lemma OtherStepsGrow(s: System, e: Event)
    requires !Links(s, e)
    ensures MemoryGrows(s, Next(s, e))
  {
    hide CanClaim, NextClaim, NextFinish, Linked, VisibleLogs, HoldsFence, NewRow;
    if Enabled(s, e) {
      match e
      case Claim(v, t) => ClaimMoves(s, v, t);
      case Finish(v) => FinishMoves(s, v);
      case Read(v) => VisibleLogsExist(s, s.workers[v].session);
      case _ =>
    }
  }

  lemma VisibleLogsExist(s: System, session: SessionId)
    ensures forall l :: l in VisibleLogs(s, session) ==> l in s.logs && s.logs[l].session == session
  {
  }

  lemma GrowthKeepsMemory(s: System, s': System)
    requires MemoryInv(s) && MemoryGrows(s, s')
    ensures MemoryInv(s')
  {
    forall l | l in s'.logs ensures LogOk(s', l) { assert l in s.logs ==> LogOk(s, l); }
    forall n | n in s'.narratives ensures NarrativeOk(s', n) { assert NarrativeOk(s, n); }
    forall w | w in s'.workers ensures SourcesOk(s', w) { assert w in s.workers ==> SourcesOk(s, w); }
  }

  lemma LinkKeepsNarrative(s: System, w: WorkerId, n: NarrativeId, m: NarrativeId)
    requires Links(s, Event.Link(w, n)) && SourcesOk(s, w) && (m == n || (m in s.narratives && NarrativeOk(s, m)))
    ensures m in NextLink(s, w, n).narratives && NarrativeOk(NextLink(s, w, n), m)
  {
  }

  lemma LinkKeepsMemory(s: System, w: WorkerId, n: NarrativeId)
    requires MemoryInv(s) && Links(s, Event.Link(w, n))
    ensures MemoryInv(NextLink(s, w, n))
  {
    hide NarrativeOk;
    var s' := NextLink(s, w, n);
    assert SourcesOk(s, w);
    forall l | l in s'.logs ensures LogOk(s', l) { assert LogOk(s, l); }
    forall m | m in s'.narratives ensures NarrativeOk(s', m) { LinkKeepsNarrative(s, w, n, m); }
    forall v | v in s'.workers ensures SourcesOk(s', v) { assert SourcesOk(s, v); }
  }

  lemma StepKeepsMemory(s: System, e: Event)
    requires MemoryInv(s)
    ensures MemoryInv(Next(s, e))
  {
    if Links(s, e) {
      LinkKeepsMemory(s, e.worker, e.narrative);
    } else {
      OtherStepsGrow(s, e);
      GrowthKeepsMemory(s, Next(s, e));
    }
  }

  lemma {:induction false} RunKeepsMemory(mode: Mode, es: seq<Event>)
    ensures MemoryInv(Exec(Init(mode), es))
  {
    hide Next, Enabled;
    if es != [] {
      RunKeepsMemory(mode, es[..|es|-1]);
      StepKeepsMemory(Exec(Init(mode), es[..|es|-1]), es[|es|-1]);
    }
  }

  /**
   * Every back-link names an existing narrative of the log's own session, which counts the log among its sources; and
   * every narrative has sources, all of them logs of its session that are linked.
   */
  lemma LinkIntegrity(mode: Mode, es: seq<Event>)
    ensures var s := Exec(Init(mode), es);
            && (forall l :: l in s.logs && s.logs[l].narrative.Some? ==>
                  var n := s.logs[l].narrative.value;
                  && n in s.narratives && s.narratives[n] == s.logs[l].session
                  && n in s.sources && l in s.sources[n])
            && (forall n :: n in s.narratives ==> n in s.sources && s.sources[n] != {})
            && (forall n, l :: n in s.narratives && n in s.sources && l in s.sources[n] ==>
                  l in s.logs && s.logs[l].session == s.narratives[n] && s.logs[l].narrative.Some?)
  {
    hide Exec, Init;
    RunKeepsMemory(mode, es);
    var s := Exec(Init(mode), es);
    assert forall l :: l in s.logs ==> LogOk(s, l);
    assert forall n :: n in s.narratives ==> NarrativeOk(s, n);
  }

  // ----- Fencing of the fallback link -----

  lemma NewNarrativeIsLinked(s: System, e: Event, n: NarrativeId)
    requires n in Next(s, e).narratives && n !in s.narratives
    ensures Links(s, e) && e.narrative == n
  {
    if !Links(s, e) {
      OtherStepsGrow(s, e);
    }
  }

  /** Every fallback narrative was written by a worker that held its job's current token at that very step. */
  lemma {:induction false} FallbackWritesAreFenced(es: seq<Event>, n: NarrativeId) returns (i: nat)
    requires n in Exec(Init(Fallback), es).narratives
    ensures i < |es| && es[i].Link? && es[i].narrative == n
    ensures n !in At(Fallback, es, i).narratives && HoldsFence(At(Fallback, es, i), es[i].worker)
  {
    hide Next, Enabled;
    var k := |es| - 1;
    assert es == es[..k] + [es[k]];
    var s := Exec(Init(Fallback), es[..k]);
    if n in s.narratives {
      i := FallbackWritesAreFenced(es[..k], n);
      assert es[..k][..i] == es[..i];
    } else {
      NewNarrativeIsLinked(s, es[k], n);
      ModeIsFixed(Fallback, es[..k]);
      i := k;
    }
  }

  lemma StepKeepsMode(s: System, e: Event)
    ensures Next(s, e).mode == s.mode
  {
  }

  lemma {:induction false} ModeIsFixed(mode: Mode, es: seq<Event>)
    ensures Exec(Init(mode), es).mode == mode
  {
    hide Next;
    if es != [] {
      ModeIsFixed(mode, es[..|es|-1]);
      StepKeepsMode(Exec(Init(mode), es[..|es|-1]), es[|es|-1]);
    }
  }

  // ----- Exactly-once coverage through UncoveredLogs and CommitNarrative -----

  /** Whenever a link is attempted, the lease of its worker has not gone stale. */
  predicate TimelyRun(mode: Mode, es: seq<Event>) {
    forall i :: 0 <= i < |es| && es[i].Link? && Enabled(At(mode, es, i), es[i])
      ==> HoldsLease(At(mode, es, i), es[i].worker)
  }

  /** Whenever a link is attempted, its worker has not been superseded: it may be late, but not replaced. */
  predicate FencedRun(mode: Mode, es: seq<Event>) {
    forall i :: 0 <= i < |es| && es[i].Link? && Enabled(At(mode, es, i), es[i])
      ==> HoldsFence(At(mode, es, i), es[i].worker)
  }

  lemma TimelyRunIsFenced(mode: Mode, es: seq<Event>)
    requires TimelyRun(mode, es)
    ensures FencedRun(mode, es)
  {
    hide Next, Enabled, LeaseInv, HoldsLease, HoldsFence;
    forall i | 0 <= i < |es| && es[i].Link? && Enabled(At(mode, es, i), es[i])
      ensures HoldsFence(At(mode, es, i), es[i].worker)
    {
      RunKeepsLease(mode, es[..i]);
      LeaseImpliesFence(At(mode, es, i), es[i].worker);
    }
  }

  predicate OneJobPerSession(s: System) {
    forall i, j :: i in s.jobs && j in s.jobs && s.jobs[i].session == s.jobs[j].session ==> i == j
  }

  ghost predicate PendingOk(s: System, w: WorkerId)
    requires w in s.workers
  {
    s.workers[w].phase.Loaded? && HoldsFence(s, w) ==>
      forall l :: l in s.workers[w].phase.sources ==> l in s.logs && s.logs[l].narrative.None?
  }

  /** Narratives and links agree both ways, and whoever holds a fence still reads only uncovered logs. */
  /** Every source of a narrative is linked to that narrative. */
  ghost predicate Attributed(s: System) {
    forall n, l :: n in s.sources && l in s.sources[n] ==> l in s.logs && s.logs[l].narrative == Some(n)
  }

  ghost predicate CoverInv(s: System) {
    && Attributed(s)
    && (forall w :: w in s.workers ==> PendingOk(s, w))
  }

  ghost predicate FenceKept(s: System, s': System) {
    forall w :: w in s.workers && HoldsFence(s', w) && s.workers[w] == s'.workers[w] ==> HoldsFence(s, w)
  }

  lemma ClaimKeepsFence(s: System, w: WorkerId, t: Token, v: WorkerId)
    requires CanClaim(s, w) && t !in s.grants && v in s.workers && v != w && WorkerOk(s, v)
    requires HoldsFence(NextClaim(s, w, t), v)
    ensures HoldsFence(s, v)
  {
  }

  lemma FinishKeepsFence(s: System, w: WorkerId, v: WorkerId)
    requires w in s.workers && s.workers[w].phase.Finishing? && v in s.workers && HoldsFence(NextFinish(s, w), v)
    ensures HoldsFence(s, v)
  {
  }

  lemma StepKeepsFence(s: System, e: Event)
    requires LeaseInv(s)
    ensures FenceKept(s, Next(s, e))
  {
    var s' := Next(s, e);
    forall v | v in s.workers && HoldsFence(s', v) && s.workers[v] == s'.workers[v] ensures HoldsFence(s, v) {
      assert WorkerOk(s, v);
      hide LeaseInv;
      if !Enabled(s, e) {
      } else if e.Claim? && CanClaim(s, e.worker) {
        ClaimKeepsFence(s, e.worker, e.token, v);
      } else if e.Finish? {
        FinishKeepsFence(s, e.worker, v);
      } else {
        OtherStepsAreQuiet(s, e);
      }
    }
  }

  lemma GrowthKeepsCover(s: System, s': System)
    requires CoverInv(s) && s.mode.Consolidated? && MemoryGrows(s, s') && FenceKept(s, s')
    ensures CoverInv(s')
  {
  }

  lemma LinkKeepsPending(s: System, w: WorkerId, n: NarrativeId, v: WorkerId)
    requires Links(s, Event.Link(w, n)) && v in s.workers && PendingOk(s, v) && SourcesOk(s, v) && SourcesOk(s, w)
    requires v != w && HoldsFence(s, v) ==> s.workers[v].session != s.workers[w].session
    ensures v in NextLink(s, w, n).workers && PendingOk(NextLink(s, w, n), v)
  {
  }

  lemma LinkKeepsCovered(s: System, w: WorkerId, n: NarrativeId, m: NarrativeId, l: LogId)
    requires Links(s, Event.Link(w, n)) && HoldsFence(s, w) && PendingOk(s, w) && SourcesOk(s, w)
    requires m != n ==> m in s.sources && l in s.sources[m] && l in s.logs && s.logs[l].narrative == Some(m)
    requires m == n ==> l in s.workers[w].phase.sources
    ensures var s' := NextLink(s, w, n); l in s'.logs && s'.logs[l].narrative == Some(m)
  {
  }

  /** With one job per session, no two fences are held on the same session. */
  lemma SessionFenceIsUnique(s: System, w: WorkerId)
    requires LeaseInv(s) && OneJobPerSession(s) && HoldsFence(s, w)
    ensures forall v :: v in s.workers && v != w && HoldsFence(s, v) ==> s.workers[v].session != s.workers[w].session
  {
    forall v | v in s.workers && v != w && HoldsFence(s, v) ensures s.workers[v].session != s.workers[w].session {
      assert WorkerOk(s, w) && WorkerOk(s, v);
    }
  }

  lemma LinkKeepsCover(s: System, w: WorkerId, n: NarrativeId)
    requires CoverInv(s) && Links(s, Event.Link(w, n)) && HoldsFence(s, w)
    requires forall v :: v in s.workers ==> SourcesOk(s, v)
    requires forall v :: v in s.workers && v != w && HoldsFence(s, v) ==> s.workers[v].session != s.workers[w].session
    ensures CoverInv(NextLink(s, w, n))
  {
    var s' := NextLink(s, w, n);
    forall v | v in s'.workers ensures PendingOk(s', v) {
      LinkKeepsPending(s, w, n, v);
    }
    forall m, l | m in s'.sources && l in s'.sources[m] ensures l in s'.logs && s'.logs[l].narrative == Some(m) {
      LinkKeepsCovered(s, w, n, m, l);
    }
  }

  lemma OthersKeepCover(s: System, e: Event)
    requires LeaseInv(s) && CoverInv(s) && s.mode.Consolidated? && !Links(s, e)
    ensures CoverInv(Next(s, e))
  {
    OtherStepsGrow(s, e);
    StepKeepsFence(s, e);
    hide Next, LeaseInv, CoverInv, MemoryGrows, FenceKept, Links;
    GrowthKeepsCover(s, Next(s, e));
  }

  lemma FencedLinkKeepsCover(s: System, w: WorkerId, n: NarrativeId)
    requires LeaseInv(s) && MemoryInv(s) && CoverInv(s) && OneJobPerSession(s)
    requires Links(s, Event.Link(w, n)) && HoldsFence(s, w)
    ensures CoverInv(NextLink(s, w, n))
  {
    SessionFenceIsUnique(s, w);
    hide LeaseInv, CoverInv, OneJobPerSession, LogOk, NarrativeOk, SourcesOk, NextLink;
    LinkKeepsCover(s, w, n);
  }

  lemma StepKeepsCover(s: System, e: Event)
    requires LeaseInv(s) && MemoryInv(s) && CoverInv(s) && OneJobPerSession(s) && s.mode.Consolidated?
    requires Links(s, e) ==> HoldsFence(s, e.worker)
    ensures CoverInv(Next(s, e))
  {
    hide LeaseInv, MemoryInv, CoverInv, OneJobPerSession, HoldsFence, NextLink;
    if Links(s, e) {
      FencedLinkKeepsCover(s, e.worker, e.narrative);
    } else {
      OthersKeepCover(s, e);
    }
  }

  lemma StepKeepsLinks(s: System, e: Event, l: LogId)
    requires CoverInv(s) && s.mode.Consolidated? && (Links(s, e) ==> HoldsFence(s, e.worker))
    requires l in s.logs && s.logs[l].narrative.Some?
    ensures l in Next(s, e).logs && Next(s, e).logs[l] == s.logs[l]
  {
    if Links(s, e) {
      assert PendingOk(s, e.worker);
    } else {
      OtherStepsGrow(s, e);
    }
  }

  lemma {:induction false} JobsOnlyGrow(mode: Mode, es: seq<Event>, i: nat, k: nat)
    requires i <= k <= |es|
    ensures var s, s' := At(mode, es, i), At(mode, es, k);
            forall j :: j in s.jobs ==> j in s'.jobs && s'.jobs[j].session == s.jobs[j].session
  {
    hide Next;
    if i < k {
      JobsOnlyGrow(mode, es, i, k - 1);
      AtStep(mode, es, k - 1);
      StepKeepsSessions(At(mode, es, k - 1), es[k - 1]);
    }
  }

  lemma StepKeepsSessions(s: System, e: Event)
    ensures forall j :: j in s.jobs ==> j in Next(s, e).jobs && Next(s, e).jobs[j].session == s.jobs[j].session
  {
    if Enabled(s, e) && !(e.Claim? && CanClaim(s, e.worker)) && !e.Finish? {
      OtherStepsAreQuiet(s, e);
    }
  }

  lemma {:induction false} FencedRunCovers(es: seq<Event>, i: nat)
    requires i <= |es| && FencedRun(Consolidated, es) && OneJobPerSession(Exec(Init(Consolidated), es))
    ensures CoverInv(At(Consolidated, es, i))
  {
    hide Next, LeaseInv, MemoryInv, CoverInv, HoldsFence, Enabled;
    if i == 0 {
      EmptyCovers();
    } else {
      var s := At(Consolidated, es, i - 1);
      FencedRunCovers(es, i - 1);
      RunKeepsLease(Consolidated, es[..i - 1]);
      RunKeepsMemory(Consolidated, es[..i - 1]);
      ModeIsFixed(Consolidated, es[..i - 1]);
      JobsOnlyGrow(Consolidated, es, i - 1, |es|);
      AtStep(Consolidated, es, i - 1);
      assert es[..|es|] == es;
      StepKeepsCover(s, es[i - 1]);
    }
  }

  lemma EmptyCovers()
    ensures CoverInv(Init(Consolidated))
  {
  }

  lemma {:induction false} FencedRunKeepsLinks(es: seq<Event>, i: nat, k: nat, l: LogId)
    requires i <= k <= |es| && FencedRun(Consolidated, es) && OneJobPerSession(Exec(Init(Consolidated), es))
    requires l in At(Consolidated, es, i).logs && At(Consolidated, es, i).logs[l].narrative.Some?
    ensures l in At(Consolidated, es, k).logs && At(Consolidated, es, k).logs[l] == At(Consolidated, es, i).logs[l]
  {
    hide Next, LeaseInv, CoverInv, HoldsFence, Enabled;
    if i < k {
      var s := At(Consolidated, es, k - 1);
      FencedRunKeepsLinks(es, i, k - 1, l);
      FencedRunCovers(es, k - 1);
      RunKeepsLease(Consolidated, es[..k - 1]);
      ModeIsFixed(Consolidated, es[..k - 1]);
      AtStep(Consolidated, es, k - 1);
      StepKeepsLinks(s, es[k - 1], l);
    }
  }

  ghost predicate KeepsLinks(s: System, s': System) {
    forall l :: l in s.logs && s.logs[l].narrative.Some? ==> l in s'.logs && s'.logs[l] == s.logs[l]
  }

  /** Links set by the i-th event are still there, unchanged, after the k-th. */
  ghost predicate LinksLast(mode: Mode, es: seq<Event>, i: nat, k: nat)
    requires i <= k <= |es|
  {
    KeepsLinks(At(mode, es, i), At(mode, es, k))
  }

  /** A log is linked to a narrative exactly when it is one of its sources; narratives share no source. */
  ghost predicate EachLogOnce(s: System) {
    && s.sources.Keys == s.narratives.Keys
    && (forall n, l :: n in s.sources && l in s.logs ==> (l in s.sources[n] <==> s.logs[l].narrative == Some(n)))
    && (forall n, m :: n in s.sources && m in s.sources && n != m ==> s.sources[n] !! s.sources[m])
  }

  lemma AttributedMeansOnce(s: System)
    requires MemoryInv(s) && Attributed(s)
    ensures EachLogOnce(s)
  {
    hide Attributed, LogOk, NarrativeOk, SourcesOk;
    forall n, l | n in s.sources && l in s.logs ensures l in s.sources[n] <==> s.logs[l].narrative == Some(n) {
      assert LogOk(s, l);
      LinkIsSource(s, n, l);
    }
    forall n, m, l | n in s.sources && m in s.sources && l in s.sources[n] && l in s.sources[m] ensures n == m {
      SourceIsLink(s, n, l);
      SourceIsLink(s, m, l);
    }
  }

  lemma SourceIsLink(s: System, n: NarrativeId, l: LogId)
    requires Attributed(s) && n in s.sources && l in s.sources[n]
    ensures l in s.logs && s.logs[l].narrative == Some(n)
  {
  }

  lemma LinkIsSource(s: System, n: NarrativeId, l: LogId)
    requires Attributed(s) && n in s.sources && l in s.logs && LogOk(s, l)
    ensures l in s.sources[n] <==> s.logs[l].narrative == Some(n)
  {
  }

  /**
   * Exactly-once consolidation, over every interleaving with crashes, reclaims and new logs, as long as each
   * session has one job and no superseded worker commits. A link once set never changes and no two narratives
   * share a log, so a crash after the link never leads to a second narrative for its logs.
   */
  lemma ConsolidationIsExactlyOnce(es: seq<Event>)
    requires FencedRun(Consolidated, es) && OneJobPerSession(Exec(Init(Consolidated), es))
    ensures forall i, k :: 0 <= i <= k <= |es| ==> LinksLast(Consolidated, es, i, k)
    ensures EachLogOnce(Exec(Init(Consolidated), es))
  {
    hide Exec, Next, FencedRun, OneJobPerSession, MemoryInv, CoverInv, Attributed, EachLogOnce, At;
    forall i, k | 0 <= i <= k <= |es| ensures LinksLast(Consolidated, es, i, k) {
      forall l | l in At(Consolidated, es, i).logs && At(Consolidated, es, i).logs[l].narrative.Some?
        ensures l in At(Consolidated, es, k).logs && At(Consolidated, es, k).logs[l] == At(Consolidated, es, i).logs[l]
      {
        FencedRunKeepsLinks(es, i, k, l);
      }
    }
    FencedRunEndsCovered(es);
    RunKeepsMemory(Consolidated, es);
    AttributedMeansOnce(Exec(Init(Consolidated), es));
  }

  lemma FencedRunEndsCovered(es: seq<Event>)
    requires FencedRun(Consolidated, es) && OneJobPerSession(Exec(Init(Consolidated), es))
    ensures CoverInv(Exec(Init(Consolidated), es)) && Attributed(Exec(Init(Consolidated), es))
  {
    hide Next, FencedRun, PendingOk, Attributed;
    FencedRunCovers(es, |es|);
    assert es[..|es|] == es;
  }
}
