/**
 * The Supervisor under every interleaving of its goroutines. A thread is a goroutine inside Submit, Recover or
 * Drain, or a dispatched job; each access to the stop flag, the semaphore or the wait group is one step.
 */
module Supervisor {
  import opened Wrappers

  type ThreadId = nat

  datatype Pc =
    | Submitting                  // Submit, about to load the stop flag
    | Admitted                    // flag was clear, about to commit the job
    | Committed                   // job is durable, about to take a slot
    | Refused                     // Submit returned an error
    | Recovering(left: nat)       // Recover, at its loop head with `left` jobs to go
    | Recruiting(left: nat)       // flag was clear, about to take a slot; `left` more jobs after this one
    | Holding(more: Option<nat>)  // slot taken, about to call wg.Add; None for Submit
    | Counted(more: Option<nat>)  // wg.Add done, about to start the goroutine
    | Returned                    // Submit or Recover returned
    | InRun                       // a dispatched job inside JobRunner.Run
    | Ran                         // Run is over, the slot not yet released
    | Released                    // slot released, wg.Done not yet called
    | Gone
    | Stopping                    // Drain, about to set the stop flag
    | Waiting                     // Drain, in wg.Wait
    | Drained
    | TimedOut

  datatype State = State(
    capacity: nat,   // the buffer of the sem channel
    stopped: bool,
    slots: nat,      // elements in the channel
    waiting: nat,    // the wait group's counter
    commits: nat,
    threads: map<ThreadId, Pc>)

  datatype Event =
    | Enter(thread: ThreadId, at: Pc)          // a new call of Submit, Recover or Drain
    | Step(thread: ThreadId, child: ThreadId)  // the thread's next action; `child` names the goroutine it may start
    | Fail(thread: ThreadId)                   // the commit returns an error
    | Expire(thread: ThreadId)                 // the drain timeout fires

  /** NewSupervisor: a limit of zero or less means two. */
  function Init(maxConcurrent: int): State {
    State(if maxConcurrent <= 0 then 2 else maxConcurrent, false, 0, 0, 0, map[])
  }

  predicate EntryPoint(p: Pc) {
    p.Submitting? || p.Recovering? || p.Stopping?
  }

  predicate CanStep(s: State, t: ThreadId, child: ThreadId) {
    && t in s.threads
    && match s.threads[t]
       case Committed => s.slots < s.capacity
       case Recruiting(_) => s.slots < s.capacity
       case Counted(_) => child !in s.threads
       case Waiting => s.waiting == 0
       case Refused => false
       case Returned => false
       case Gone => false
       case Drained => false
       case TimedOut => false
       case _ => true
  }

  predicate Enabled(s: State, e: Event) {
    match e
    case Enter(t, p) => t !in s.threads && EntryPoint(p)
    case Step(t, child) => CanStep(s, t, child)
    case Fail(t) => t in s.threads && s.threads[t].Admitted?
    case Expire(t) => t in s.threads && s.threads[t].Waiting?
  }

  function Goto(s: State, t: ThreadId, p: Pc): State {
    s.(threads := s.threads[t := p])
  }

  function Next(s: State, e: Event): State {
    if !Enabled(s, e) then s else
    match e
    case Enter(t, p) => Goto(s, t, p)
    case Fail(t) => Goto(s, t, Refused)
    case Expire(t) => Goto(s, t, TimedOut)
    case Step(t, child) => NextStep(s, t, child)
  }

  function NextStep(s: State, t: ThreadId, child: ThreadId): State
    requires CanStep(s, t, child)
  {
    match s.threads[t]
    case Submitting => Goto(s, t, if s.stopped then Refused else Admitted)
    case Admitted => Goto(s, t, Committed).(commits := s.commits + 1)
    case Committed => Goto(s, t, Holding(None)).(slots := s.slots + 1)
    case Recovering(k) => Goto(s, t, if k == 0 || s.stopped then Returned else Recruiting(k - 1))
    case Recruiting(k) => Goto(s, t, Holding(Some(k))).(slots := s.slots + 1)
    case Holding(more) => Goto(s, t, Counted(more)).(waiting := s.waiting + 1)
    case Counted(more) => Goto(Goto(s, t, if more.None? then Returned else Recovering(more.value)), child, InRun)
    case InRun => Goto(s, t, Ran)
    case Ran => Goto(s, t, Released).(slots := if s.slots == 0 then 0 else s.slots - 1)
    case Released => Goto(s, t, Gone).(waiting := if s.waiting == 0 then 0 else s.waiting - 1)
    case Stopping => Goto(s, t, Waiting).(stopped := true)
    case Waiting => Goto(s, t, Drained)
    case _ => s
  }

  function Exec(s: State, es: seq<Event>): State {
    if es == [] then s else Next(Exec(s, es[..|es|-1]), es[|es|-1])
  }

  lemma {:induction false} ExecAppend(s: State, es: seq<Event>, more: seq<Event>)
    ensures Exec(s, es + more) == Exec(Exec(s, es), more)
  {
    hide Next;
    if more == [] {
      assert es + more == es;
    } else {
      var k := |more| - 1;
      assert (es + more)[..|es| + k] == es + more[..k];
      ExecAppend(s, es, more[..k]);
    }
  }

  // ----- Slots and the wait group are exactly the threads that hold them -----

  predicate HoldsSlot(p: Pc) {
    p.Holding? || p.Counted? || p.InRun? || p.Ran?
  }

  predicate InGroup(p: Pc) {
    p.Counted? || p.InRun? || p.Ran? || p.Released?
  }

  function SlotHolders(s: State): set<ThreadId> {
    set t | t in s.threads && HoldsSlot(s.threads[t])
  }

  function GroupMembers(s: State): set<ThreadId> {
    set t | t in s.threads && InGroup(s.threads[t])
  }

  function Running(s: State): set<ThreadId> {
    set t | t in s.threads && s.threads[t].InRun?
  }

  ghost predicate Inv(s: State) {
    && 0 < s.capacity && s.slots <= s.capacity
    && |SlotHolders(s)| == s.slots
    && |GroupMembers(s)| == s.waiting
  }

  function One(b: bool): int {
    if b then 1 else 0
  }

  function Before(s: State, t: ThreadId): Pc {
    if t in s.threads then s.threads[t] else Gone
  }

  lemma Recount(a: set<ThreadId>, b: set<ThreadId>, t: ThreadId)
    requires forall u :: u != t ==> (u in a <==> u in b)
    ensures |b| == |a| - One(t in a) + One(t in b)
  {
    assert a - {t} == b - {t};
    assert t in a ==> |a - {t}| == |a| - 1;
    assert t !in a ==> a - {t} == a;
    assert t in b ==> |b - {t}| == |b| - 1;
    assert t !in b ==> b - {t} == b;
  }

  /** Moving one thread keeps the counts right if the counters move with it. */
  lemma MoveKeepsInv(s: State, t: ThreadId, p: Pc, s': State)
    requires Inv(s) && s'.threads == s.threads[t := p] && s'.capacity == s.capacity
    requires s'.slots == s.slots - One(HoldsSlot(Before(s, t))) + One(HoldsSlot(p)) <= s.capacity
    requires s'.waiting == s.waiting - One(InGroup(Before(s, t))) + One(InGroup(p))
    ensures Inv(s')
  {
    Recount(SlotHolders(s), SlotHolders(s'), t);
    Recount(GroupMembers(s), GroupMembers(s'), t);
  }

  lemma HoldersAreCounted(s: State, t: ThreadId)
    requires Inv(s) && t in s.threads
    ensures HoldsSlot(s.threads[t]) ==> 0 < s.slots
    ensures InGroup(s.threads[t]) ==> 0 < s.waiting
  {
    assert HoldsSlot(s.threads[t]) ==> t in SlotHolders(s);
    assert InGroup(s.threads[t]) ==> t in GroupMembers(s);
  }

  lemma StartKeepsInv(s: State, t: ThreadId, child: ThreadId)
    requires Inv(s) && CanStep(s, t, child) && s.threads[t].Counted?
    ensures Inv(NextStep(s, t, child))
  {
    HoldersAreCounted(s, t);
    hide Inv;
    var p := if s.threads[t].more.None? then Returned else Recovering(s.threads[t].more.value);
    var between := Goto(s, t, p).(slots := s.slots - 1, waiting := s.waiting - 1);
    MoveKeepsInv(s, t, p, between);
    MoveKeepsInv(between, child, InRun, NextStep(s, t, child));
  }

  lemma CapsSlots(s: State)
    requires Inv(s)
    ensures s.slots <= s.capacity
  {
  }

  lemma StepKeepsInv(s: State, t: ThreadId, child: ThreadId)
    requires Inv(s) && CanStep(s, t, child)
    ensures Inv(NextStep(s, t, child))
  {
    if s.threads[t].Counted? {
      StartKeepsInv(s, t, child);
    } else {
      HoldersAreCounted(s, t);
      CapsSlots(s);
      hide Inv;
      MoveKeepsInv(s, t, NextStep(s, t, child).threads[t], NextStep(s, t, child));
    }
  }

  lemma NextKeepsInv(s: State, e: Event)
    requires Inv(s)
    ensures Inv(Next(s, e))
  {
    if Enabled(s, e) {
      CapsSlots(s);
      hide Inv, NextStep;
      match e
      case Enter(t, p) => MoveKeepsInv(s, t, p, Next(s, e));
      case Fail(t) => MoveKeepsInv(s, t, Refused, Next(s, e));
      case Expire(t) => MoveKeepsInv(s, t, TimedOut, Next(s, e));
      case Step(t, child) => StepKeepsInv(s, t, child);
    }
  }

  lemma {:induction false} RunKeepsInv(maxConcurrent: int, es: seq<Event>)
    ensures Inv(Exec(Init(maxConcurrent), es))
  {
    hide Next;
    if es != [] {
      RunKeepsInv(maxConcurrent, es[..|es|-1]);
      hide Inv;
      NextKeepsInv(Exec(Init(maxConcurrent), es[..|es|-1]), es[|es|-1]);
    }
  }

  // ----- Bounded concurrency and the meaning of the wait group -----

  /** Jobs inside Run never outnumber the occupied slots, nor those the limit. */
  lemma ConcurrencyIsBounded(maxConcurrent: int, es: seq<Event>)
    ensures var s := Exec(Init(maxConcurrent), es);
            |Running(s)| <= s.slots <= s.capacity == if maxConcurrent <= 0 then 2 else maxConcurrent
    ensures var s := Exec(Init(maxConcurrent), es);
            s.waiting == 0 ==> Running(s) == {}
  {
    RunKeepsInv(maxConcurrent, es);
    CapacityIsFixed(maxConcurrent, es);
    var s := Exec(Init(maxConcurrent), es);
    SubsetIsNoLarger(Running(s), SlotHolders(s));
    SubsetIsNoLarger(Running(s), GroupMembers(s));
  }

  lemma StepKeepsCapacity(s: State, e: Event)
    ensures Next(s, e).capacity == s.capacity && (s.stopped ==> Next(s, e).stopped)
  {
  }

  lemma {:induction false} CapacityIsFixed(maxConcurrent: int, es: seq<Event>)
    ensures Exec(Init(maxConcurrent), es).capacity == Init(maxConcurrent).capacity
  {
    hide Next, Init;
    if es != [] {
      CapacityIsFixed(maxConcurrent, es[..|es|-1]);
      StepKeepsCapacity(Exec(Init(maxConcurrent), es[..|es|-1]), es[|es|-1]);
    }
  }

  // ----- Submissions after the stop flag -----

  predicate TurnedAway(s: State, t: ThreadId) {
    s.stopped && t in s.threads && (s.threads[t].Submitting? || s.threads[t].Refused?)
  }

  lemma StepKeepsTurnedAway(s: State, e: Event, t: ThreadId)
    requires TurnedAway(s, t)
    ensures TurnedAway(Next(s, e), t)
  {
  }

  /** A Submit that has not looked at the flag when it is set never commits, dispatches or runs anything. */
  lemma {:induction false} LateSubmitIsTurnedAway(s: State, es: seq<Event>, t: ThreadId)
    requires TurnedAway(s, t)
    ensures TurnedAway(Exec(s, es), t)
  {
    hide Next, TurnedAway;
    if es != [] {
      LateSubmitIsTurnedAway(s, es[..|es|-1], t);
      StepKeepsTurnedAway(Exec(s, es[..|es|-1]), es[|es|-1], t);
    }
  }

  // ----- What Submit and Recover do by the time they return -----

  /** How many jobs the thread has started: how often a step of its put one more thread inside Run. */
  function Started(s: State, es: seq<Event>, t: ThreadId): nat {
    if es == [] then 0
    else
      var n := |es| - 1;
      var before, e := Exec(s, es[..n]), es[n];
      Started(s, es[..n], t)
      + if e.Step? && e.thread == t && Running(before) < Running(Next(before, e)) then 1 else 0
  }

  /** How many jobs the thread has committed. */
  function CommittedBy(s: State, es: seq<Event>, t: ThreadId): nat {
    if es == [] then 0
    else
      var n := |es| - 1;
      var before, e := Exec(s, es[..n]), es[n];
      CommittedBy(s, es[..n], t)
      + if e.Step? && e.thread == t && before.commits < Next(before, e).commits then 1 else 0
  }

  lemma StepStartsIff(s: State, e: Event)
    requires e.Step? && e.thread in s.threads
    ensures Running(s) < Running(Next(s, e)) <==> CanStep(s, e.thread, e.child) && s.threads[e.thread].Counted?
    ensures s.commits < Next(s, e).commits <==> s.threads[e.thread].Admitted?
  {
    var s', t := Next(s, e), e.thread;
    if CanStep(s, t, e.child) && s.threads[t].Counted? {
      assert e.child in Running(s') && e.child !in Running(s);
      forall u | u in Running(s) ensures u in Running(s') {}
    } else {
      forall u | u in Running(s') ensures u in Running(s) {}
    }
  }

  lemma OthersStay(s: State, e: Event, t: ThreadId)
    requires t in s.threads && e.thread != t
    ensures t in Next(s, e).threads && Next(s, e).threads[t] == s.threads[t]
  {
  }

  /** Of the n jobs that Recover found, those started and those to go, in each of its program points. */
  predicate Dispatching(s: State, t: ThreadId, n: nat, started: nat) {
    && t in s.threads
    && match s.threads[t]
       case Recovering(k) => started + k == n
       case Recruiting(k) => started + 1 + k == n
       case Holding(Some(k)) => started + 1 + k == n
       case Counted(Some(k)) => started + 1 + k == n
       case Returned => started == n || (started < n && s.stopped)
       case _ => false
  }

  lemma StepKeepsDispatching(s: State, e: Event, t: ThreadId, n: nat, started: nat)
    requires Dispatching(s, t, n, started)
    ensures var starts := e.Step? && e.thread == t && Running(s) < Running(Next(s, e));
            Dispatching(Next(s, e), t, n, started + if starts then 1 else 0)
  {
    if e.thread != t {
      OthersStay(s, e, t);
    } else if e.Step? {
      StepStartsIff(s, e);
    }
  }

  /** Recover starts its jobs one by one, and returns when it has started all of them or the stop flag is set. */
  lemma {:induction false} RecoverDispatches(s: State, es: seq<Event>, t: ThreadId, n: nat)
    requires t in s.threads && s.threads[t] == Recovering(n)
    ensures Dispatching(Exec(s, es), t, n, Started(s, es, t))
    ensures var s' := Exec(s, es);
            t in s'.threads && s'.threads[t].Returned? ==>
              Started(s, es, t) <= n && (Started(s, es, t) == n || s'.stopped)
  {
    hide Next, Running;
    if es != [] {
      var k := |es| - 1;
      RecoverDispatches(s, es[..k], t, n);
      hide Dispatching;
      StepKeepsDispatching(Exec(s, es[..k]), es[k], t, n, Started(s, es[..k], t));
      var s' := Exec(s, es);
      if t in s'.threads && s'.threads[t].Returned? {
        ReturnedHasDispatched(s', t, n, Started(s, es, t));
      }
    }
  }

  lemma ReturnedHasDispatched(s: State, t: ThreadId, n: nat, started: nat)
    requires Dispatching(s, t, n, started) && t in s.threads && s.threads[t].Returned?
    ensures started <= n && (started == n || s.stopped)
  {
  }

  /** Submit commits its job before it starts it, and each at most once. */
  predicate SubmittedSoFar(s: State, t: ThreadId, committed: nat, started: nat) {
    && t in s.threads
    && match s.threads[t]
       case Submitting => committed == 0 && started == 0
       case Admitted => committed == 0 && started == 0
       case Refused => committed == 0 && started == 0
       case Committed => committed == 1 && started == 0
       case Holding(None) => committed == 1 && started == 0
       case Counted(None) => committed == 1 && started == 0
       case Returned => committed == 1 && started == 1
       case _ => false
  }

  lemma StepKeepsSubmitted(s: State, e: Event, t: ThreadId, committed: nat, started: nat)
    requires SubmittedSoFar(s, t, committed, started)
    ensures var s' := Next(s, e);
            var commits := e.Step? && e.thread == t && s.commits < s'.commits;
            var starts := e.Step? && e.thread == t && Running(s) < Running(s');
            SubmittedSoFar(s', t, committed + if commits then 1 else 0, started + if starts then 1 else 0)
  {
    if e.thread != t {
      OthersStay(s, e, t);
    } else if e.Step? {
      StepStartsIff(s, e);
    }
  }

  /** A Submit that returned has committed and started exactly one job, one that was refused none. */
  lemma {:induction false} SubmitCommitsAndStartsOne(s: State, es: seq<Event>, t: ThreadId)
    requires t in s.threads && s.threads[t].Submitting?
    ensures SubmittedSoFar(Exec(s, es), t, CommittedBy(s, es, t), Started(s, es, t))
  {
    hide Next, Running, SubmittedSoFar;
    if es == [] {
      NothingSubmitted(s, t);
    } else {
      var k := |es| - 1;
      SubmitCommitsAndStartsOne(s, es[..k], t);
      StepKeepsSubmitted(Exec(s, es[..k]), es[k], t, CommittedBy(s, es[..k], t), Started(s, es[..k], t));
    }
  }

  lemma NothingSubmitted(s: State, t: ThreadId)
    requires t in s.threads && s.threads[t].Submitting?
    ensures SubmittedSoFar(s, t, 0, 0)
  {
  }

  // ----- No deadlock -----

  predicate Blocked(s: State, t: ThreadId) {
    t in s.threads && (s.threads[t].Committed? || s.threads[t].Recruiting?) && s.capacity <= s.slots
  }

  lemma Unroll(s: State, es: seq<Event>)
    requires es != []
    ensures Exec(s, es) == Exec(Next(s, es[0]), es[1..])
  {
    assert es == [es[0]] + es[1..];
    assert [es[0]][..0] == [];
    ExecAppend(s, [es[0]], es[1..]);
  }

  lemma FreshThread(ts: set<ThreadId>) returns (g: ThreadId)
    ensures forall t :: t in ts ==> t < g
  {
    if ts == {} {
      g := 0;
    } else {
      var t :| t in ts;
      var rest := FreshThread(ts - {t});
      g := if t < rest then rest else t + 1;
      assert forall u :: u in ts ==> u == t || u in ts - {t};
    }
  }

  /** How many steps a slot holder is away from releasing its slot. */
  function Distance(p: Pc): nat {
    if p.Holding? then 4 else if p.Counted? then 3 else if p.InRun? then 2 else 1
  }

  lemma HolderAdvances(s: State, h: ThreadId, g: ThreadId, t: ThreadId)
    requires h in s.threads && HoldsSlot(s.threads[h]) && !s.threads[h].Ran? && g !in s.threads
    requires t in s.threads && t != h
    ensures var s', h' := Next(s, Step(h, g)), if s.threads[h].Counted? then g else h;
            && h' in s'.threads && HoldsSlot(s'.threads[h']) && h' != t
            && Distance(s'.threads[h']) == Distance(s.threads[h]) - 1
            && t in s'.threads && s'.threads[t] == s.threads[t] && s'.capacity == s.capacity
  {
  }

  lemma RanReleases(s: State, h: ThreadId, t: ThreadId)
    requires Inv(s) && h in s.threads && s.threads[h].Ran? && t in s.threads && t != h
    ensures var s' := Next(s, Step(h, h));
            s'.slots < s.capacity == s'.capacity && t in s'.threads && s'.threads[t] == s.threads[t]
  {
    HoldersAreCounted(s, h);
  }

  lemma {:induction false} HolderReleases(s: State, h: ThreadId, t: ThreadId) returns (es: seq<Event>)
    requires Inv(s) && h in s.threads && HoldsSlot(s.threads[h]) && t in s.threads && t != h
    ensures |es| <= Distance(s.threads[h]) && forall e :: e in es ==> e.Step? && e.thread != t
    ensures var s' := Exec(s, es);
            s'.slots < s'.capacity && t in s'.threads && s'.threads[t] == s.threads[t]
    decreases Distance(s.threads[h])
  {
    if s.threads[h].Ran? {
      es := [Step(h, h)];
      Unroll(s, es);
      RanReleases(s, h, t);
    } else {
      var g := FreshThread(s.threads.Keys);
      HolderAdvances(s, h, g, t);
      NextKeepsInv(s, Step(h, g));
      var h' := if s.threads[h].Counted? then g else h;
      hide Next, Inv;
      es := HolderReleases(Next(s, Step(h, g)), h', t);
      Unroll(s, [Step(h, g)] + es);
      es := [Step(h, g)] + es;
    }
  }

  /**
   * No deadlock: from every reachable state where t waits for a slot, at most four steps of other threads free
   * one, and t can take it.
   */
  lemma BlockedCanAlwaysProceed(maxConcurrent: int, es: seq<Event>, t: ThreadId) returns (more: seq<Event>)
    requires Blocked(Exec(Init(maxConcurrent), es), t)
    ensures |more| <= 4 && forall e :: e in more ==> e.Step? && e.thread != t
    ensures var s := Exec(Init(maxConcurrent), es + more);
            !Blocked(s, t) && CanStep(s, t, t) && Next(s, Step(t, t)).threads[t].Holding?
  {
    var s := Exec(Init(maxConcurrent), es);
    RunKeepsInv(maxConcurrent, es);
    var h :| h in SlotHolders(s);
    more := HolderReleases(s, h, t);
    ExecAppend(Init(maxConcurrent), es, more);
  }

  // ----- What a completed drain means -----

  /** Past the stop-flag check, but its job has not been started: nobody is waiting for it yet, or only just. */
  predicate InWindow(p: Pc) {
    p.Admitted? || p.Committed? || p.Recruiting? || p.Holding? || p.Counted?
  }

  ghost predicate Quiescent(s: State) {
    s.stopped && forall t :: t in s.threads ==> !InWindow(s.threads[t]) && !s.threads[t].InRun?
  }

  lemma StepKeepsQuiescent(s: State, e: Event)
    requires Quiescent(s)
    ensures Quiescent(Next(s, e))
  {
  }

  lemma {:induction false} QuiescentForGood(s: State, es: seq<Event>)
    requires Quiescent(s)
    ensures Quiescent(Exec(s, es))
  {
    hide Next, Quiescent;
    if es != [] {
      QuiescentForGood(s, es[..|es|-1]);
      StepKeepsQuiescent(Exec(s, es[..|es|-1]), es[|es|-1]);
    }
  }

  lemma WindowAdvances(s: State, t: ThreadId, g: ThreadId)
    requires t in s.threads && InWindow(s.threads[t]) && g !in s.threads
    requires s.threads[t].Committed? || s.threads[t].Recruiting? ==> s.slots < s.capacity
    ensures var s' := Next(s, Step(t, g));
            if s.threads[t].Counted? then g in s'.threads && s'.threads[g].InRun?
            else t in s'.threads && InWindow(s'.threads[t])
                 && WindowDistance(s'.threads[t]) < WindowDistance(s.threads[t])
                 && s'.threads.Keys == s.threads.Keys
                 && (s'.threads[t].Committed? ==> s'.slots == s.slots && s'.capacity == s.capacity)
  {
  }

  function WindowDistance(p: Pc): nat {
    if p.Admitted? then 4 else if p.Committed? || p.Recruiting? then 3 else if p.Holding? then 2 else 1
  }

  lemma {:induction false} WindowReachesRun(s: State, t: ThreadId, g: ThreadId) returns (es: seq<Event>)
    requires t in s.threads && InWindow(s.threads[t]) && g !in s.threads
    requires !s.threads[t].Holding? && !s.threads[t].Counted? ==> s.slots < s.capacity
    ensures Running(Exec(s, es)) != {}
    decreases WindowDistance(s.threads[t])
  {
    var e := Step(t, g);
    WindowAdvances(s, t, g);
    if s.threads[t].Counted? {
      es := [e];
      Unroll(s, es);
      assert g in Running(Exec(s, es));
    } else {
      hide Next;
      es := WindowReachesRun(Next(s, e), t, g);
      Unroll(s, [e] + es);
      es := [e] + es;
    }
  }

  /**
   * Drain returns when the stop flag is set and the wait group is at zero. At that instant no job is inside Run;
   * one can still enter Run later exactly if some Submit or Recover is between its stop-flag check and the start
   * of its goroutine.
   */
  lemma DrainIsFinalIff(maxConcurrent: int, es: seq<Event>)
    requires var s := Exec(Init(maxConcurrent), es); s.stopped && s.waiting == 0
    ensures var s := Exec(Init(maxConcurrent), es);
            && Running(s) == {}
            && ((exists more :: Running(Exec(s, more)) != {})
                  <==> (exists t :: t in s.threads && InWindow(s.threads[t])))
  {
    var s := Exec(Init(maxConcurrent), es);
    ConcurrencyIsBounded(maxConcurrent, es);
    RunKeepsInv(maxConcurrent, es);
    if exists t :: t in s.threads && InWindow(s.threads[t]) {
      var t :| t in s.threads && InWindow(s.threads[t]);
      if SlotHolders(s) != {} {
        t :| t in SlotHolders(s);
        assert GroupMembers(s) == {};
        assert InGroup(s.threads[t]) ==> t in GroupMembers(s);
      }
      var g := FreshThread(s.threads.Keys);
      var more := WindowReachesRun(s, t, g);
    } else {
      forall t | t in s.threads ensures !s.threads[t].InRun? {
        assert s.threads[t].InRun? ==> t in Running(s);
      }
      forall more ensures Running(Exec(s, more)) == {} {
        QuiescentForGood(s, more);
      }
    }
  }

  predicate DrainHasStopped(s: State) {
    forall t :: t in s.threads && (s.threads[t].Waiting? || s.threads[t].Drained?) ==> s.stopped
  }

  lemma StepKeepsDrainStopped(s: State, e: Event)
    requires DrainHasStopped(s)
    ensures DrainHasStopped(Next(s, e))
  {
  }

  lemma {:induction false} RunKeepsDrainStopped(maxConcurrent: int, es: seq<Event>)
    ensures DrainHasStopped(Exec(Init(maxConcurrent), es))
  {
    hide Next, DrainHasStopped;
    if es == [] {
      NoDrainYet(maxConcurrent);
    } else {
      RunKeepsDrainStopped(maxConcurrent, es[..|es|-1]);
      StepKeepsDrainStopped(Exec(Init(maxConcurrent), es[..|es|-1]), es[|es|-1]);
    }
  }

  lemma NoDrainYet(maxConcurrent: int)
    ensures DrainHasStopped(Init(maxConcurrent))
  {
  }

  /** At the step in which Drain returns without timing out, the flag is set, the wait group at zero, nothing runs. */
  lemma DrainReturnsWhenEmpty(maxConcurrent: int, es: seq<Event>, e: Event, t: ThreadId)
    requires var s := Exec(Init(maxConcurrent), es);
             !(t in s.threads && s.threads[t].Drained?) && t in Next(s, e).threads && Next(s, e).threads[t].Drained?
    ensures var s' := Exec(Init(maxConcurrent), es + [e]);
            s'.stopped && s'.waiting == 0 && Running(s') == {}
  {
    var s := Exec(Init(maxConcurrent), es);
    RunKeepsDrainStopped(maxConcurrent, es);
    DrainStep(s, e, t);
    hide Next, Running, DrainHasStopped;
    assert (es + [e])[..|es|] == es;
    ConcurrencyIsBounded(maxConcurrent, es + [e]);
  }

  lemma DrainStep(s: State, e: Event, t: ThreadId)
    requires DrainHasStopped(s) && !(t in s.threads && s.threads[t].Drained?)
    requires t in Next(s, e).threads && Next(s, e).threads[t].Drained?
    ensures Next(s, e).stopped && Next(s, e).waiting == 0
  {
  }

  /** A Submit passes its stop-flag check; then a Drain sets the flag, finds the wait group at zero and returns. */
  const EARLY_DRAIN: seq<Event> :=
    [Enter(0, Submitting), Step(0, 9), Enter(1, Stopping), Step(1, 9), Step(1, 9)]

  lemma EarlyDrainRuns(s: State)
    requires s.threads == map[] && !s.stopped && s.waiting == 0
    ensures Exec(s, EARLY_DRAIN) == s.(stopped := true, threads := map[0 := Admitted, 1 := Drained])
  {
    var s1 := Next(s, EARLY_DRAIN[0]);
    var s2 := Next(s1, EARLY_DRAIN[1]);
    var s3 := Next(s2, EARLY_DRAIN[2]);
    var s4 := Next(s3, EARLY_DRAIN[3]);
    assert Exec(s, EARLY_DRAIN) == Next(s4, EARLY_DRAIN[4]) by {
      hide Next;
      Unroll(s, EARLY_DRAIN);
      Unroll(s1, EARLY_DRAIN[1..]);
      Unroll(s2, EARLY_DRAIN[2..]);
      Unroll(s3, EARLY_DRAIN[3..]);
      Unroll(s4, EARLY_DRAIN[4..]);
    }
    hide Exec;
    assert Next(s4, EARLY_DRAIN[4]).threads == map[0 := Admitted, 1 := Drained];
  }

  /** So the window is real: after that run Drain has returned, nothing runs, and a job can still enter Run. */
  lemma DrainCanReturnEarly(maxConcurrent: int) returns (more: seq<Event>)
    ensures var s := Exec(Init(maxConcurrent), EARLY_DRAIN);
            && s.stopped && s.waiting == 0 && 1 in s.threads && s.threads[1].Drained? && Running(s) == {}
            && Running(Exec(Init(maxConcurrent), EARLY_DRAIN + more)) != {}
  {
    var s := Exec(Init(maxConcurrent), EARLY_DRAIN);
    EarlyDrainRuns(Init(maxConcurrent));
    hide Exec, Next;
    DrainIsFinalIff(maxConcurrent, EARLY_DRAIN);
    assert InWindow(s.threads[0]);
    more :| Running(Exec(s, more)) != {};
    ExecAppend(Init(maxConcurrent), EARLY_DRAIN, more);
  }
}
