/** Assembling the context window: phases in priority order under a character budget. */
module Assembler {
  import opened Sorting
  import opened Wrappers

  datatype DepthManifest = DepthManifest(counts: seq<int>, accessHints: seq<string>)

  const EMPTY_MANIFEST := DepthManifest([], [])

  datatype PhaseResult = PhaseResult(
    content: string,
    charsUsed: int,
    tokenEstimate: int,
    identityDocs: Option<string>,
    integrityReport: Option<string>,
    bridgeAbstained: bool)

  /** What running a phase did: it may have changed the manifest even if it failed. */
  datatype Outcome = Outcome(result: Result<PhaseResult, string>, manifest: DepthManifest)

  /** A phase is any function of the remaining characters and the manifest, with its registration data. */
  datatype Phase = Phase(
    name: string,
    priority: int,
    minBudget: int,
    isFatal: bool,
    assemble: (int, DepthManifest) -> Outcome)

  datatype SkipReason = BudgetPressure(remaining: int, required: int) | Failure(message: string)

  datatype Assembly = Assembly(
    sections: seq<string>,
    depthManifest: DepthManifest,
    identityDocs: Option<string>,
    integrityReport: Option<string>,
    bridgeAbstained: bool,
    phasesRun: seq<string>,
    phasesSkipped: seq<string>,
    skipReasons: map<string, SkipReason>,
    budgetTotal: int,
    budgetUsed: int,
    phaseCosts: map<string, int>)

  // ----- One phase -----

  datatype Verdict =
    | Skipped(reason: SkipReason)
    | Ran(result: PhaseResult)
    | Aborted(message: string)

  /** A phase in its turn: what was left for it, and what came of it. */
  datatype Step = Step(name: string, remaining: int, verdict: Verdict, manifest: DepthManifest)

  function OmittedHint(name: string): string {
    name + " omitted \U{2014} budget pressure"
  }

  function Take(phase: Phase, remaining: int, manifest: DepthManifest): Step {
    if phase.minBudget > 0 && remaining < phase.minBudget then
      Step(
        phase.name, remaining, Skipped(BudgetPressure(remaining, phase.minBudget)),
        manifest.(accessHints := manifest.accessHints + [OmittedHint(phase.name)]))
    else
      var outcome := phase.assemble(remaining, manifest);
      var verdict := match outcome.result
        case Ok(result) => Ran(result)
        case Err(m) => if phase.isFatal then Aborted(m) else Skipped(Failure(m));
      Step(phase.name, remaining, verdict, outcome.manifest)
  }

  /** The characters a step takes from the budget; a phase cannot give any back. */
  function Charge(step: Step): nat {
    if step.verdict.Ran? && step.verdict.result.charsUsed > 0 then step.verdict.result.charsUsed else 0
  }

  /** The token estimate on record: the phase's own, or a quarter of the characters rounded up if it gave none. */
  function Cost(result: PhaseResult): int {
    if result.tokenEstimate == 0 && result.charsUsed > 0 then (result.charsUsed + 3) / 4 else result.tokenEstimate
  }

  // ----- All phases -----

  /** The turns of the phases, in order, up to the first that aborts. */
  function Walk(phases: seq<Phase>, remaining: int, manifest: DepthManifest): seq<Step> {
    if phases == [] then []
    else
      var step := Take(phases[0], remaining, manifest);
      [step] + (if step.verdict.Aborted? then [] else Walk(phases[1..], remaining - Charge(step), step.manifest))
  }

  predicate Aborts(steps: seq<Step>) {
    steps != [] && steps[|steps| - 1].verdict.Aborted?
  }

  function RunNames(steps: seq<Step>): seq<string> {
    if steps == [] then []
    else
      var n := |steps| - 1;
      RunNames(steps[..n]) + (if steps[n].verdict.Ran? then [steps[n].name] else [])
  }

  function SkippedNames(steps: seq<Step>): seq<string> {
    if steps == [] then []
    else
      var n := |steps| - 1;
      SkippedNames(steps[..n]) + (if steps[n].verdict.Skipped? then [steps[n].name] else [])
  }

  function Charged(steps: seq<Step>): nat {
    if steps == [] then 0 else Charged(steps[..|steps| - 1]) + Charge(steps[|steps| - 1])
  }

  function Sections(steps: seq<Step>): seq<string> {
    if steps == [] then []
    else
      var n := |steps| - 1;
      var v := steps[n].verdict;
      Sections(steps[..n]) + (if v.Ran? && v.result.content != "" then [v.result.content] else [])
  }

  /** The estimate of the last step that ran under this name. */
  function LastCost(steps: seq<Step>, name: string): Option<int> {
    if steps == [] then None
    else
      var last := steps[|steps| - 1];
      if last.name == name && last.verdict.Ran? then Some(Cost(last.verdict.result))
      else LastCost(steps[..|steps| - 1], name)
  }

  /** The reason of the last step that was skipped under this name. */
  function LastReason(steps: seq<Step>, name: string): Option<SkipReason> {
    if steps == [] then None
    else
      var last := steps[|steps| - 1];
      if last.name == name && last.verdict.Skipped? then Some(last.verdict.reason)
      else LastReason(steps[..|steps| - 1], name)
  }

  ghost predicate RecordsCosts(steps: seq<Step>, costs: map<string, int>) {
    forall name :: LastCost(steps, name) == if name in costs then Some(costs[name]) else None
  }

  ghost predicate RecordsReasons(steps: seq<Step>, reasons: map<string, SkipReason>) {
    forall name :: LastReason(steps, name) == if name in reasons then Some(reasons[name]) else None
  }

  function LastDocs(steps: seq<Step>): Option<string> {
    if steps == [] then None
    else
      var v := steps[|steps| - 1].verdict;
      if v.Ran? && v.result.identityDocs.Some? then v.result.identityDocs else LastDocs(steps[..|steps| - 1])
  }

  function LastReport(steps: seq<Step>): Option<string> {
    if steps == [] then None
    else
      var v := steps[|steps| - 1].verdict;
      if v.Ran? && v.result.integrityReport.Some? then v.result.integrityReport else LastReport(steps[..|steps| - 1])
  }

  ghost predicate Abstains(steps: seq<Step>) {
    exists k :: 0 <= k < |steps| && steps[k].verdict.Ran? && steps[k].verdict.result.bridgeAbstained
  }

  function FinalManifest(steps: seq<Step>): DepthManifest {
    if steps == [] then EMPTY_MANIFEST else steps[|steps| - 1].manifest
  }

  /** What the assembly reports, field by field, about the turns that were taken. */
  ghost predicate Reports(a: Assembly, steps: seq<Step>, total: int) {
    && a.sections == Sections(steps)
    && a.depthManifest == FinalManifest(steps)
    && a.identityDocs == LastDocs(steps) && a.integrityReport == LastReport(steps)
    && (a.bridgeAbstained <==> Abstains(steps))
    && a.phasesRun == RunNames(steps) && a.phasesSkipped == SkippedNames(steps)
    && RecordsReasons(steps, a.skipReasons) && RecordsCosts(steps, a.phaseCosts)
    && a.budgetTotal == total && a.budgetUsed == Charged(steps)
  }

  function NameOf(phase: Phase): string {
    phase.name
  }

  function PriorityOf(phase: Phase): int {
    phase.priority
  }

  function Rank(phase: Phase): real {
    phase.priority as real
  }

  /** The registry sorted by priority; the library sort may put equal priorities in any order. */
  ghost predicate IsOrder(registry: seq<Phase>, order: seq<Phase>) {
    multiset(order) == multiset(registry) && SortedBy(order, Rank)
  }

  /** An assembly that took the phases in this order: an error if one of them aborted, otherwise the full report. */
  ghost predicate IsAssembly(order: seq<Phase>, total: int, r: Result<Assembly, string>) {
    var steps := Walk(order, total, EMPTY_MANIFEST);
    if Aborts(steps) then r == Err(steps[|steps| - 1].verdict.message)
    else r.Ok? && Reports(r.value, steps, total)
  }

  // ----- The assembler -----

  /** The record of one more step that did not abort. */
  ghost function Record(a: Assembly, step: Step): Assembly
    requires !step.verdict.Aborted?
  {
    var base := a.(depthManifest := step.manifest);
    match step.verdict
    case Skipped(reason) =>
      base.(
        phasesSkipped := a.phasesSkipped + [step.name],
        skipReasons := a.skipReasons[step.name := reason])
    case Ran(result) =>
      base.(
        sections := if result.content != "" then a.sections + [result.content] else a.sections,
        identityDocs := if result.identityDocs.Some? then result.identityDocs else a.identityDocs,
        integrityReport := if result.integrityReport.Some? then result.integrityReport else a.integrityReport,
        bridgeAbstained := a.bridgeAbstained || result.bridgeAbstained,
        phasesRun := a.phasesRun + [step.name],
        budgetUsed := a.budgetUsed + Charge(step),
        phaseCosts := a.phaseCosts[step.name := Cost(result)])
  }

  lemma CostsGrow(steps: seq<Step>, step: Step, costs: map<string, int>)
    requires RecordsCosts(steps, costs)
    ensures step.verdict.Ran? ==> RecordsCosts(steps + [step], costs[step.name := Cost(step.verdict.result)])
    ensures !step.verdict.Ran? ==> RecordsCosts(steps + [step], costs)
  {
    assert (steps + [step])[..|steps|] == steps;
  }

  lemma ReasonsGrow(steps: seq<Step>, step: Step, reasons: map<string, SkipReason>)
    requires RecordsReasons(steps, reasons)
    ensures step.verdict.Skipped? ==> RecordsReasons(steps + [step], reasons[step.name := step.verdict.reason])
    ensures !step.verdict.Skipped? ==> RecordsReasons(steps + [step], reasons)
  {
    assert (steps + [step])[..|steps|] == steps;
  }

  lemma AbstainsGrows(steps: seq<Step>, step: Step)
    ensures Abstains(steps + [step]) <==> Abstains(steps) || (step.verdict.Ran? && step.verdict.result.bridgeAbstained)
  {
    var longer := steps + [step];
    assert longer[|steps|] == step;
    if Abstains(steps) {
      var k :| 0 <= k < |steps| && steps[k].verdict.Ran? && steps[k].verdict.result.bridgeAbstained;
      assert longer[k] == steps[k];
    }
  }

  lemma ReportGrows(a: Assembly, steps: seq<Step>, step: Step, total: int)
    requires Reports(a, steps, total) && !step.verdict.Aborted?
    ensures Reports(Record(a, step), steps + [step], total)
  {
    hide RecordsCosts, RecordsReasons, Abstains, Cost;
    assert (steps + [step])[..|steps|] == steps;
    assert a.phasesRun + [] == a.phasesRun && a.phasesSkipped + [] == a.phasesSkipped && a.sections + [] == a.sections;
    CostsGrow(steps, step, a.phaseCosts);
    ReasonsGrow(steps, step, a.skipReasons);
    AbstainsGrows(steps, step);
  }

  lemma NothingReported(total: int)
    ensures Reports(Assembly([], EMPTY_MANIFEST, None, None, false, [], [], map[], total, 0, map[]), [], total)
  {
  }

  /** The next phase takes its turn: either the walk goes on after it, or this was the last step. */
  lemma WalkAdvances(steps: seq<Step>, phases: seq<Phase>, remaining: int, manifest: DepthManifest)
    requires phases != []
    ensures var step := Take(phases[0], remaining, manifest);
            var rest := if step.verdict.Aborted? then []
                        else Walk(phases[1..], remaining - Charge(step), step.manifest);
            steps + Walk(phases, remaining, manifest) == steps + [step] + rest
  {
    hide Take, Charge;
    var step := Take(phases[0], remaining, manifest);
    var rest := if step.verdict.Aborted? then [] else Walk(phases[1..], remaining - Charge(step), step.manifest);
    assert Walk(phases, remaining, manifest) == [step] + rest;
  }

  /** The body of the assembly loop: one phase takes its turn. */
  method TakeTurn(a: Assembly, phase: Phase, remaining: int)
    returns (a': Assembly, remaining': int, failure: Option<string>)
    ensures var step := Take(phase, remaining, a.depthManifest);
            if step.verdict.Aborted? then failure == Some(step.verdict.message)
            else failure == None && a' == Record(a, step) && remaining' == remaining - Charge(step)
  {
    a', remaining', failure := a, remaining, None;
    if phase.minBudget > 0 && remaining < phase.minBudget {
      var hints := a.depthManifest.accessHints + [OmittedHint(phase.name)];
      a' := a.(
        depthManifest := a.depthManifest.(accessHints := hints),
        phasesSkipped := a.phasesSkipped + [phase.name],
        skipReasons := a.skipReasons[phase.name := BudgetPressure(remaining, phase.minBudget)]);
      return;
    }
    var outcome := phase.assemble(remaining, a.depthManifest);
    a' := a.(depthManifest := outcome.manifest);
    if outcome.result.Err? {
      if phase.isFatal {
        failure := Some(outcome.result.error);
        return;
      }
      a' := a'.(
        phasesSkipped := a.phasesSkipped + [phase.name],
        skipReasons := a.skipReasons[phase.name := Failure(outcome.result.error)]);
      return;
    }
    var result := outcome.result.value;
    if result.tokenEstimate == 0 && result.charsUsed > 0 {
      result := result.(tokenEstimate := (result.charsUsed + 3) / 4);
    }
    a' := a'.(
      phaseCosts := a.phaseCosts[phase.name := result.tokenEstimate],
      phasesRun := a.phasesRun + [phase.name]);
    if result.content != "" {
      a' := a'.(sections := a.sections + [result.content]);
    }
    if result.charsUsed > 0 {
      remaining' := remaining - result.charsUsed;
    }
    if result.identityDocs.Some? {
      a' := a'.(identityDocs := result.identityDocs);
    }
    if result.integrityReport.Some? {
      a' := a'.(integrityReport := result.integrityReport);
    }
    if result.bridgeAbstained {
      a' := a'.(bridgeAbstained := true);
    }
    a' := a'.(budgetUsed := a.budgetUsed + (remaining - remaining'));
  }

  method Assemble(registry: seq<Phase>, budget: int) returns (r: Result<Assembly, string>)
    ensures exists order :: IsOrder(registry, order) && IsAssembly(order, budget * 4, r)
  {
    hide Reports, Take, Record, Walk;
    var budgetChars := budget * 4;
    var remaining := budgetChars;
    var phases := SortBy(registry, Rank);
    ghost var steps: seq<Step> := [];
    var a := Assembly([], EMPTY_MANIFEST, None, None, false, [], [], map[], budgetChars, 0, map[]);
    NothingReported(budgetChars);
    assert phases[0..] == phases;
    for i := 0 to |phases|
      invariant Walk(phases, budgetChars, EMPTY_MANIFEST) == steps + Walk(phases[i..], remaining, a.depthManifest)
      invariant !Aborts(steps) && Reports(a, steps, budgetChars)
    {
      ghost var step := Take(phases[i], remaining, a.depthManifest);
      WalkAdvances(steps, phases[i..], remaining, a.depthManifest);
      assert phases[i..][1..] == phases[i + 1..];
      var failure: Option<string>;
      if !step.verdict.Aborted? {
        ReportGrows(a, steps, step, budgetChars);
        RecordsManifest(a, step);
      }
      steps := steps + [step];
      a, remaining, failure := TakeTurn(a, phases[i], remaining);
      if failure.Some? {
        assert Walk(phases, budgetChars, EMPTY_MANIFEST) == steps;
        r := Err(failure.value);
        assert IsAssembly(phases, budgetChars, r);
        return;
      }
    }
    NoMoreSteps(phases[|phases|..], remaining, a.depthManifest);
    assert Walk(phases, budgetChars, EMPTY_MANIFEST) == steps;
    r := Ok(a);
    assert IsAssembly(phases, budgetChars, r);
  }

  lemma RecordsManifest(a: Assembly, step: Step)
    requires !step.verdict.Aborted?
    ensures Record(a, step).depthManifest == step.manifest
  {
  }

  lemma NoMoreSteps(phases: seq<Phase>, remaining: int, manifest: DepthManifest)
    requires phases == []
    ensures Walk(phases, remaining, manifest) == []
  {
  }

  // ----- Where the budget goes -----

  /** `run` and `skipped` are what remains of `names` at the marked and at the unmarked places. */
  ghost predicate Partition(names: seq<string>, marks: seq<bool>, run: seq<string>, skipped: seq<string>) {
    if names == [] then marks == [] && run == [] && skipped == []
    else
      && |marks| == |names|
      && var n := |names| - 1;
      if marks[n]
      then run != [] && run[|run| - 1] == names[n] && Partition(names[..n], marks[..n], run[..|run| - 1], skipped)
      else && skipped != [] && skipped[|skipped| - 1] == names[n]
           && Partition(names[..n], marks[..n], run, skipped[..|skipped| - 1])
  }

  function NamesOf(phases: seq<Phase>): (names: seq<string>)
    ensures |names| == |phases|
  {
    seq(|phases|, i requires 0 <= i < |phases| => phases[i].name)
  }

  /** The steps that follow the first phase's. */
  function Later(phases: seq<Phase>, remaining: int, manifest: DepthManifest): seq<Step>
    requires phases != []
  {
    var step := Take(phases[0], remaining, manifest);
    if step.verdict.Aborted? then [] else Walk(phases[1..], remaining - Charge(step), step.manifest)
  }

  lemma WalkUnfolds(phases: seq<Phase>, remaining: int, manifest: DepthManifest)
    requires phases != []
    ensures Walk(phases, remaining, manifest)
         == [Take(phases[0], remaining, manifest)] + Later(phases, remaining, manifest)
  {
  }

  /** If the walk is not aborted, its first step is not, and neither is the walk of the other phases. */
  lemma AbortsShows(phases: seq<Phase>, remaining: int, manifest: DepthManifest)
    requires phases != [] && !Aborts(Walk(phases, remaining, manifest))
    ensures var step := Take(phases[0], remaining, manifest);
            && !step.verdict.Aborted?
            && Later(phases, remaining, manifest) == Walk(phases[1..], remaining - Charge(step), step.manifest)
            && !Aborts(Walk(phases[1..], remaining - Charge(step), step.manifest))
  {
    hide Take;
    var step, later := Take(phases[0], remaining, manifest), Later(phases, remaining, manifest);
    WalkUnfolds(phases, remaining, manifest);
    assert ([step] + later)[|later|] == if later == [] then step else later[|later| - 1];
  }

  lemma {:induction false} WalkIsComplete(phases: seq<Phase>, remaining: int, manifest: DepthManifest)
    requires !Aborts(Walk(phases, remaining, manifest))
    ensures |Walk(phases, remaining, manifest)| == |phases|
  {
    if phases == [] {
    } else {
      hide Take, Walk;
      var step := Take(phases[0], remaining, manifest);
      AbortsShows(phases, remaining, manifest);
      WalkUnfolds(phases, remaining, manifest);
      WalkIsComplete(phases[1..], remaining - Charge(step), step.manifest);
    }
  }

  /** A walk that no phase aborts gives every phase its turn, on the budget and manifest that the earlier ones left. */
  lemma {:induction false} EveryPhaseHasItsTurn(phases: seq<Phase>, remaining: int, manifest: DepthManifest, i: nat)
    requires !Aborts(Walk(phases, remaining, manifest)) && i < |phases|
    ensures var steps := Walk(phases, remaining, manifest);
            && |steps| == |phases| && !steps[i].verdict.Aborted?
            && steps[i] == Take(phases[i], remaining - Charged(steps[..i]), ManifestBefore(steps, i, manifest))
    decreases i
  {
    hide Take, Walk, Charge, Later;
    var step := Take(phases[0], remaining, manifest);
    var later := Later(phases, remaining, manifest);
    var steps := Walk(phases, remaining, manifest);
    WalkIsComplete(phases, remaining, manifest);
    AbortsShows(phases, remaining, manifest);
    WalkUnfolds(phases, remaining, manifest);
    if i == 0 {
      assert steps[..0] == [];
    } else {
      EveryPhaseHasItsTurn(phases[1..], remaining - Charge(step), step.manifest, i - 1);
      assert steps[..i] == [step] + later[..i - 1];
      ChargedFromFront(step, later[..i - 1]);
      assert ManifestBefore(steps, i, manifest) == ManifestBefore(later, i - 1, step.manifest);
    }
  }

  function ManifestBefore(steps: seq<Step>, i: nat, first: DepthManifest): DepthManifest
    requires i <= |steps|
  {
    if i == 0 then first else steps[i - 1].manifest
  }

  lemma {:induction false} ChargedFromFront(step: Step, steps: seq<Step>)
    ensures Charged([step] + steps) == Charge(step) + Charged(steps)
  {
    if steps == [] {
      assert [step] + steps == [step] && [step][..0] == [];
    } else {
      var n := |steps| - 1;
      assert ([step] + steps)[..n + 1] == [step] + steps[..n];
      ChargedFromFront(step, steps[..n]);
    }
  }

  lemma {:induction false} StepsArePartitioned(phases: seq<Phase>, steps: seq<Step>) returns (marks: seq<bool>)
    requires |steps| == |phases|
    requires forall i :: 0 <= i < |steps| ==> steps[i].name == phases[i].name && !steps[i].verdict.Aborted?
    ensures Partition(NamesOf(phases), marks, RunNames(steps), SkippedNames(steps))
  {
    if phases == [] {
      marks := [];
    } else {
      var n := |phases| - 1;
      var before := StepsArePartitioned(phases[..n], steps[..n]);
      assert NamesOf(phases)[..n] == NamesOf(phases[..n]);
      marks := before + [steps[n].verdict.Ran?];
      assert marks[..n] == before;
      assert RunNames(steps[..n]) + [] == RunNames(steps[..n]);
      assert SkippedNames(steps[..n]) + [] == SkippedNames(steps[..n]);
    }
  }

  lemma StepKeepsName(phase: Phase, remaining: int, manifest: DepthManifest)
    ensures Take(phase, remaining, manifest).name == phase.name
  {
  }

  /** The phases run and the phases skipped split the registry between them, both in priority order. */
  lemma RunAndSkippedPartitionTheOrder(order: seq<Phase>, total: int, r: Result<Assembly, string>)
    returns (marks: seq<bool>)
    requires IsAssembly(order, total, r) && r.Ok?
    ensures Partition(NamesOf(order), marks, r.value.phasesRun, r.value.phasesSkipped)
  {
    hide Take, Walk, RecordsCosts, RecordsReasons;
    var steps := Walk(order, total, EMPTY_MANIFEST);
    WalkIsComplete(order, total, EMPTY_MANIFEST);
    forall i | 0 <= i < |steps| ensures steps[i].name == order[i].name && !steps[i].verdict.Aborted? {
      EveryPhaseHasItsTurn(order, total, EMPTY_MANIFEST, i);
      StepKeepsName(order[i], total - Charged(steps[..i]), ManifestBefore(steps, i, EMPTY_MANIFEST));
    }
    marks := StepsArePartitioned(order, steps);
  }

  ghost predicate OutcomeFits(outcome: Outcome, remaining: int) {
    outcome.result.Ok? ==> outcome.result.value.charsUsed <= remaining
  }

  /** A phase that never uses more characters than it was offered, when it was offered any. */
  ghost predicate KeepsToBudget(phase: Phase) {
    forall remaining: nat, manifest :: OutcomeFits(phase.assemble(remaining, manifest), remaining)
  }

  lemma ChargeFits(phase: Phase, remaining: nat, manifest: DepthManifest)
    requires KeepsToBudget(phase)
    ensures Charge(Take(phase, remaining, manifest)) <= remaining
  {
    assert OutcomeFits(phase.assemble(remaining, manifest), remaining);
  }

  lemma {:induction false} WalkKeepsToBudget(phases: seq<Phase>, remaining: nat, manifest: DepthManifest)
    requires forall i :: 0 <= i < |phases| ==> KeepsToBudget(phases[i])
    ensures Charged(Walk(phases, remaining, manifest)) <= remaining
  {
    if phases != [] {
      var step := Take(phases[0], remaining, manifest);
      ChargeFits(phases[0], remaining, manifest);
      hide Take, Walk, Charge, KeepsToBudget;
      WalkUnfolds(phases, remaining, manifest);
      ChargedFromFront(step, Later(phases, remaining, manifest));
      if !step.verdict.Aborted? {
        WalkKeepsToBudget(phases[1..], remaining - Charge(step), step.manifest);
      }
    }
  }

  lemma BudgetIsKept(order: seq<Phase>, total: nat, r: Result<Assembly, string>)
    requires IsAssembly(order, total, r) && r.Ok?
    requires forall i :: 0 <= i < |order| ==> KeepsToBudget(order[i])
    ensures r.value.budgetUsed <= r.value.budgetTotal
  {
    hide Walk;
    WalkKeepsToBudget(order, total, EMPTY_MANIFEST);
  }

  // ----- Token estimates -----

  ghost predicate EstimatesAreDerived(steps: seq<Step>) {
    forall i :: 0 <= i < |steps| && steps[i].verdict.Ran? ==> steps[i].verdict.result.tokenEstimate == 0
  }

  /** The token cost of every phase that ran, added up. */
  function SummedCost(steps: seq<Step>): int {
    if steps == [] then 0
    else
      var last := steps[|steps| - 1].verdict;
      SummedCost(steps[..|steps| - 1]) + (if last.Ran? then Cost(last.result) else 0)
  }

  /** Rounding up to whole tokens of four characters costs at most three characters. */
  lemma CostBracketsCharge(step: Step)
    requires step.verdict.Ran? && step.verdict.result.tokenEstimate == 0
    ensures Charge(step) <= 4 * Cost(step.verdict.result) <= Charge(step) + 3
  {
  }

  /** Four characters a token, the costs cover the charges, with at most three characters of rounding per phase. */
  lemma {:induction false} CostsBracketCharges(steps: seq<Step>)
    requires EstimatesAreDerived(steps)
    ensures Charged(steps) <= 4 * SummedCost(steps) <= Charged(steps) + 3 * |RunNames(steps)|
  {
    hide Cost;
    if steps != [] {
      var n := |steps| - 1;
      CostsBracketCharges(steps[..n]);
      if steps[n].verdict.Ran? {
        CostBracketsCharge(steps[n]);
      }
    }
  }

  /** A cost is on record for exactly the phases that ran. */
  lemma {:induction false} CostedIffRun(steps: seq<Step>, costs: map<string, int>, name: string)
    requires RecordsCosts(steps, costs)
    ensures name in costs <==> name in RunNames(steps)
  {
    assert LastCost(steps, name).Some? <==> name in costs;
    LastCostOfRun(steps, name);
  }

  lemma {:induction false} LastCostOfRun(steps: seq<Step>, name: string)
    ensures LastCost(steps, name).Some? <==> name in RunNames(steps)
  {
    if steps != [] {
      LastCostOfRun(steps[..|steps| - 1], name);
    }
  }

  // ----- When the table of costs is complete -----

  predicate RanAs(step: Step, name: string) {
    step.verdict.Ran? && step.name == name
  }

  /** An entry that a later phase of the same name overwrites was worth nothing. */
  ghost predicate OverwrittenAreFree(steps: seq<Step>) {
    forall i, j :: 0 <= i < j < |steps| && steps[i].verdict.Ran? && RanAs(steps[j], steps[i].name)
      ==> Cost(steps[i].verdict.result) == 0
  }

  /** The entry for a name is the cost of one step that ran under it, and no later step did. */
  lemma {:induction false} EntryIsLastRun(steps: seq<Step>, name: string) returns (i: nat)
    requires LastCost(steps, name).Some?
    ensures i < |steps| && RanAs(steps[i], name) && LastCost(steps, name) == Some(Cost(steps[i].verdict.result))
    ensures forall j :: i < j < |steps| ==> !RanAs(steps[j], name)
  {
    var n := |steps| - 1;
    if RanAs(steps[n], name) {
      i := n;
    } else {
      i := EntryIsLastRun(steps[..n], name);
      assert steps[..n][i] == steps[i];
      forall j | i < j < |steps| ensures !RanAs(steps[j], name) {
        assert j < n ==> steps[..n][j] == steps[j];
      }
    }
  }

  /** Every run under a name has an entry at its time, so no entry means no run. */
  lemma {:induction false} NoEntryNoRun(steps: seq<Step>, name: string)
    requires LastCost(steps, name).None?
    ensures forall i :: 0 <= i < |steps| ==> !RanAs(steps[i], name)
  {
    if steps != [] {
      var n := |steps| - 1;
      NoEntryNoRun(steps[..n], name);
      forall i | 0 <= i < |steps| ensures !RanAs(steps[i], name) {
        assert i < n ==> steps[..n][i] == steps[i];
      }
    }
  }

  function Overwritten(steps: seq<Step>, name: string): int {
    if LastCost(steps, name).Some? then LastCost(steps, name).value else 0
  }

  /** One more run under `name` leaves the table complete exactly if it was, and overwrites an entry of 0 or none. */
  lemma FreeGrows(steps: seq<Step>, step: Step)
    requires step.verdict.Ran?
    ensures OverwrittenAreFree(steps + [step]) <==> OverwrittenAreFree(steps) && Overwritten(steps, step.name) == 0
  {
    hide Cost, LastCost;
    var longer := steps + [step];
    assert longer[|steps|] == step && forall i :: 0 <= i < |steps| ==> longer[i] == steps[i];
    if LastCost(steps, step.name).Some? {
      var last := EntryIsLastRun(steps, step.name);
      if OverwrittenAreFree(steps) && Overwritten(steps, step.name) == 0 {
        forall i, j | 0 <= i < j < |longer| && longer[i].verdict.Ran? && RanAs(longer[j], longer[i].name)
          ensures Cost(longer[i].verdict.result) == 0
        {
          if j == |steps| {
            assert RanAs(steps[i], step.name);
            assert i < last ==> RanAs(steps[last], steps[i].name);
          }
        }
      }
      if OverwrittenAreFree(longer) {
        assert RanAs(longer[|steps|], longer[last].name);
        FreeBefore(steps, step);
      }
    } else {
      NoEntryNoRun(steps, step.name);
      if OverwrittenAreFree(longer) {
        FreeBefore(steps, step);
      }
      forall i | 0 <= i < |steps| ensures !RanAs(steps[i], step.name) {}
    }
  }

  lemma FreeBefore(steps: seq<Step>, step: Step)
    requires OverwrittenAreFree(steps + [step])
    ensures OverwrittenAreFree(steps)
  {
    var longer := steps + [step];
    forall i, j | 0 <= i < j < |steps| && steps[i].verdict.Ran? && RanAs(steps[j], steps[i].name)
      ensures Cost(steps[i].verdict.result) == 0
    {
      assert longer[i] == steps[i] && longer[j] == steps[j];
    }
  }

  lemma SkippingIsFree(steps: seq<Step>, step: Step)
    requires !step.verdict.Ran?
    ensures OverwrittenAreFree(steps + [step]) <==> OverwrittenAreFree(steps)
  {
    var longer := steps + [step];
    assert longer[|steps|] == step && forall i :: 0 <= i < |steps| ==> longer[i] == steps[i];
    if OverwrittenAreFree(longer) {
      FreeBefore(steps, step);
    }
  }

  /** The table as it is built up: a later run under a name replaces the entry. */
  function CostTable(steps: seq<Step>): map<string, int> {
    if steps == [] then map[]
    else
      var n := |steps| - 1;
      var before := CostTable(steps[..n]);
      if steps[n].verdict.Ran? then before[steps[n].name := Cost(steps[n].verdict.result)] else before
  }

  lemma {:induction false} CostTableRecords(steps: seq<Step>)
    ensures RecordsCosts(steps, CostTable(steps))
  {
    if steps != [] {
      var n := |steps| - 1;
      CostTableRecords(steps[..n]);
      assert steps == steps[..n] + [steps[n]];
      CostsGrow(steps[..n], steps[n], CostTable(steps[..n]));
    }
  }

  lemma RecordIsUnique(steps: seq<Step>, costs: map<string, int>, costs': map<string, int>)
    requires RecordsCosts(steps, costs) && RecordsCosts(steps, costs')
    ensures costs == costs'
  {
    forall name ensures (name in costs <==> name in costs') && (name in costs ==> costs[name] == costs'[name]) {
      assert LastCost(steps, name) == LastCost(steps, name);
    }
  }

  lemma EntryIsNotNegative(steps: seq<Step>, name: string)
    requires EstimatesAreDerived(steps)
    ensures Overwritten(steps, name) >= 0
  {
    if LastCost(steps, name).Some? {
      var i := EntryIsLastRun(steps, name);
    }
  }

  lemma {:induction false} TableTotals(steps: seq<Step>)
    requires EstimatesAreDerived(steps)
    ensures Total(CostTable(steps)) <= SummedCost(steps)
    ensures Total(CostTable(steps)) == SummedCost(steps) <==> OverwrittenAreFree(steps)
  {
    hide Cost, LastCost, OverwrittenAreFree, Total;
    if steps == [] {
      NothingToTotal();
    } else {
      var n := |steps| - 1;
      var before, step := steps[..n], steps[n];
      TableTotals(before);
      assert steps == before + [step];
      if step.verdict.Ran? {
        EntryIsNotNegative(before, step.name);
        CostTableRecords(before);
        assert LastCost(before, step.name)
            == if step.name in CostTable(before) then Some(CostTable(before)[step.name]) else None;
        TotalUpdate(CostTable(before), step.name, Cost(step.verdict.result));
        FreeGrows(before, step);
      } else {
        SkippingIsFree(before, step);
      }
    }
  }

  lemma NothingToTotal()
    ensures Total<string>(map[]) == 0 && OverwrittenAreFree([])
  {
  }

  /**
   * If no phase has an estimate of its own, the entries of the table add up to at most the costs of the phases run,
   * and to exactly these costs if and only if every entry that was overwritten was 0. So the table never shows more
   * than what was charged plus rounding, and covers what was charged whenever no cost was overwritten.
   */
  lemma CostTableIsCompleteIff(order: seq<Phase>, total: int, r: Result<Assembly, string>)
    requires IsAssembly(order, total, r) && r.Ok? && EstimatesAreDerived(Walk(order, total, EMPTY_MANIFEST))
    ensures var steps, shown := Walk(order, total, EMPTY_MANIFEST), Total(r.value.phaseCosts);
            && (shown == SummedCost(steps) <==> OverwrittenAreFree(steps))
            && 4 * shown <= r.value.budgetUsed + 3 * |r.value.phasesRun|
            && (OverwrittenAreFree(steps) ==> r.value.budgetUsed <= 4 * shown)
  {
    hide Walk, Cost, LastCost, OverwrittenAreFree, Total, RecordsReasons, RecordsCosts, EstimatesAreDerived;
    var steps := Walk(order, total, EMPTY_MANIFEST);
    CostTableRecords(steps);
    RecordIsUnique(steps, r.value.phaseCosts, CostTable(steps));
    TableTotals(steps);
    CostsBracketCharges(steps);
  }

  /** With distinct names no entry is ever overwritten. */
  lemma CostsCoverTheBudgetUsed(order: seq<Phase>, total: int, r: Result<Assembly, string>)
    requires IsAssembly(order, total, r) && r.Ok? && DistinctBy(order, NameOf)
    requires EstimatesAreDerived(Walk(order, total, EMPTY_MANIFEST))
    ensures var shown := Total(r.value.phaseCosts);
            r.value.budgetUsed <= 4 * shown <= r.value.budgetUsed + 3 * |r.value.phasesRun|
  {
    hide Take, Walk, Cost, RunNames, Charged, LastCost, RecordsReasons, RecordsCosts, Total;
    var steps := Walk(order, total, EMPTY_MANIFEST);
    TurnsKeepNames(order, total);
    forall i, j | 0 <= i < j < |steps| ensures steps[i].name != steps[j].name {
      assert NameOf(order[i]) != NameOf(order[j]);
    }
    CostTableIsCompleteIff(order, total, r);
  }

  lemma TurnsKeepNames(order: seq<Phase>, total: int)
    requires !Aborts(Walk(order, total, EMPTY_MANIFEST))
    ensures var steps := Walk(order, total, EMPTY_MANIFEST);
            |steps| == |order| && forall i :: 0 <= i < |steps| ==> steps[i].name == order[i].name
  {
    hide Take, Walk;
    var steps := Walk(order, total, EMPTY_MANIFEST);
    WalkIsComplete(order, total, EMPTY_MANIFEST);
    forall i | 0 <= i < |steps| ensures steps[i].name == order[i].name {
      EveryPhaseHasItsTurn(order, total, EMPTY_MANIFEST, i);
      StepKeepsName(order[i], total - Charged(steps[..i]), ManifestBefore(steps, i, EMPTY_MANIFEST));
    }
  }

  // ----- What an assembly says about its phases -----

  /**
   * The phase's turn, given what the earlier ones left: skipped, unconsulted, if it asks for more than that; run if
   * its assemble succeeds; and if that fails, aborted or skipped by whether the phase is fatal.
   */
  ghost predicate IsTurnOf(phase: Phase, before: DepthManifest, step: Step) {
    && step.name == phase.name
    && (phase.minBudget > 0 && step.remaining < phase.minBudget ==>
          && step.verdict == Skipped(BudgetPressure(step.remaining, phase.minBudget))
          && step.manifest.counts == before.counts
          && step.manifest.accessHints == before.accessHints + [phase.name + " omitted \U{2014} budget pressure"])
    && (!(phase.minBudget > 0 && step.remaining < phase.minBudget) ==>
          var outcome := phase.assemble(step.remaining, before);
          && step.manifest == outcome.manifest
          && (outcome.result.Ok? ==> step.verdict == Ran(outcome.result.value))
          && (outcome.result.Err? && phase.isFatal ==> step.verdict == Aborted(outcome.result.error))
          && (outcome.result.Err? && !phase.isFatal ==> step.verdict == Skipped(Failure(outcome.result.error))))
  }

  /** What a step leaves of the budget. */
  function LeftBy(step: Step): int {
    match step.verdict
    case Ran(result) => if result.charsUsed > 0 then step.remaining - result.charsUsed else step.remaining
    case _ => step.remaining
  }

  function BudgetBefore(steps: seq<Step>, i: nat, first: int): int
    requires i <= |steps|
  {
    if i == 0 then first else LeftBy(steps[i - 1])
  }

  /** The i-th step is the turn of the i-th phase on what the step before left, and only the last may abort. */
  ghost predicate HasTurn(phases: seq<Phase>, remaining: int, manifest: DepthManifest, steps: seq<Step>, i: nat)
    requires i < |steps| <= |phases|
  {
    && IsTurnOf(phases[i], ManifestBefore(steps, i, manifest), steps[i])
    && steps[i].remaining == BudgetBefore(steps, i, remaining)
    && (steps[i].verdict.Aborted? ==> i == |steps| - 1)
  }

  /** One turn after the other, up to the last phase or the first that aborts. */
  ghost predicate IsTrace(phases: seq<Phase>, remaining: int, manifest: DepthManifest, steps: seq<Step>) {
    && |steps| <= |phases|
    && (forall i :: 0 <= i < |steps| ==> HasTurn(phases, remaining, manifest, steps, i))
    && (|steps| < |phases| ==> Aborts(steps))
  }

  lemma TakeIsTurn(phase: Phase, remaining: int, manifest: DepthManifest)
    ensures var step := Take(phase, remaining, manifest);
            IsTurnOf(phase, manifest, step) && step.remaining == remaining && LeftBy(step) == remaining - Charge(step)
  {
  }

  lemma {:induction false} WalkIsTrace(phases: seq<Phase>, remaining: int, manifest: DepthManifest)
    ensures IsTrace(phases, remaining, manifest, Walk(phases, remaining, manifest))
  {
    if phases == [] {
      NoTrace(remaining, manifest);
    } else {
      hide Take, Charge, IsTurnOf, LeftBy, HasTurn, Walk, IsTrace;
      var step := Take(phases[0], remaining, manifest);
      WalkUnfolds(phases, remaining, manifest);
      TakeIsTurn(phases[0], remaining, manifest);
      if !step.verdict.Aborted? {
        WalkIsTrace(phases[1..], remaining - Charge(step), step.manifest);
      }
      TraceGrows(phases, remaining, manifest, step, Later(phases, remaining, manifest));
    }
  }

  lemma NoTrace(remaining: int, manifest: DepthManifest)
    ensures IsTrace([], remaining, manifest, Walk([], remaining, manifest))
  {
  }

  lemma TraceGrows(phases: seq<Phase>, remaining: int, manifest: DepthManifest, step: Step, later: seq<Step>)
    requires phases != [] && IsTurnOf(phases[0], manifest, step) && step.remaining == remaining
    requires if step.verdict.Aborted? then later == [] else IsTrace(phases[1..], LeftBy(step), step.manifest, later)
    ensures IsTrace(phases, remaining, manifest, [step] + later)
  {
    hide IsTurnOf, LeftBy, HasTurn;
    var steps := [step] + later;
    FirstTurn(phases, remaining, manifest, step, later);
    forall i | 0 <= i < |steps| ensures HasTurn(phases, remaining, manifest, steps, i) {
      if i > 0 {
        LaterTurn(phases, remaining, manifest, step, later, i - 1);
      }
    }
    assert steps[|steps| - 1] == if later == [] then step else later[|later| - 1];
  }

  lemma FirstTurn(phases: seq<Phase>, remaining: int, manifest: DepthManifest, step: Step, later: seq<Step>)
    requires |later| < |phases| && IsTurnOf(phases[0], manifest, step) && step.remaining == remaining
    requires step.verdict.Aborted? ==> later == []
    ensures HasTurn(phases, remaining, manifest, [step] + later, 0)
  {
    hide IsTurnOf;
  }

  lemma LaterTurn(phases: seq<Phase>, remaining: int, manifest: DepthManifest, step: Step, later: seq<Step>, i: nat)
    requires i < |later| < |phases| && HasTurn(phases[1..], LeftBy(step), step.manifest, later, i)
    ensures HasTurn(phases, remaining, manifest, [step] + later, i + 1)
  {
    hide IsTurnOf, LeftBy;
    var steps := [step] + later;
    assert phases[1..][i] == phases[i + 1] && steps[i + 1] == later[i];
    assert ManifestBefore(steps, i + 1, manifest) == ManifestBefore(later, i, step.manifest);
  }

  /** The phase was consulted, failed, and may not fail. */
  ghost predicate FailsAt(phase: Phase, steps: seq<Step>, i: nat, m: string)
    requires i < |steps|
  {
    && var remaining, manifest := steps[i].remaining, ManifestBefore(steps, i, EMPTY_MANIFEST);
    && phase.isFatal && !(phase.minBudget > 0 && remaining < phase.minBudget)
    && phase.assemble(remaining, manifest).result == Err(m)
  }

  /**
   * An assembly fails, and with which message, exactly if a phase that has its turn is consulted, fails with it and
   * is fatal. Without fatal phases it succeeds, and then every phase has its turn.
   */
  lemma AssemblyFailsIff(order: seq<Phase>, total: int, r: Result<Assembly, string>) returns (steps: seq<Step>)
    requires IsAssembly(order, total, r)
    ensures IsTrace(order, total, EMPTY_MANIFEST, steps)
    ensures forall m ::
              r == Err(m) <==> exists i :: 0 <= i < |steps| && FailsAt(order[i], steps, i, m)
    ensures (forall i :: 0 <= i < |order| ==> !order[i].isFatal) ==> r.Ok?
    ensures r.Ok? ==> |steps| == |order|
  {
    hide Walk, Reports, HasTurn, FailsAt;
    steps := Walk(order, total, EMPTY_MANIFEST);
    WalkIsTrace(order, total, EMPTY_MANIFEST);
    forall i, m: string | 0 <= i < |steps|
      ensures FailsAt(order[i], steps, i, m) <==> steps[i].verdict == Aborted(m)
      ensures steps[i].verdict.Aborted? ==> i == |steps| - 1 && order[i].isFatal
    {
      AbortsIff(order, total, steps, i, m);
    }
    forall m: string ensures r == Err(m) <==> exists i :: 0 <= i < |steps| && FailsAt(order[i], steps, i, m) {
      if r == Err(m) {
        assert steps[|steps| - 1].verdict == Aborted(m);
        AbortsIff(order, total, steps, |steps| - 1, m);
      }
      if i :| 0 <= i < |steps| && FailsAt(order[i], steps, i, m) {
        AbortsIff(order, total, steps, i, m);
        assert steps[|steps| - 1].verdict == Aborted(m);
      }
    }
  }

  lemma AbortsIff(order: seq<Phase>, total: int, steps: seq<Step>, i: nat, m: string)
    requires i < |steps| <= |order| && HasTurn(order, total, EMPTY_MANIFEST, steps, i)
    ensures FailsAt(order[i], steps, i, m) <==> steps[i].verdict == Aborted(m)
    ensures steps[i].verdict.Aborted? ==> i == |steps| - 1 && order[i].isFatal
  {
  }

  ghost predicate TextsAt(names: seq<string>, steps: seq<Step>, text: Step -> string, at: seq<nat>) {
    |names| == |at| && forall k :: 0 <= k < |at| ==> at[k] < |steps| && names[k] == text(steps[at[k]])
  }

  /** `names` lists the chosen steps, in order. */
  ghost predicate Lists(names: seq<string>, steps: seq<Step>, chosen: Step -> bool, text: Step -> string) {
    exists at: seq<nat> :: Picks(steps, chosen, at) && TextsAt(names, steps, text, at)
  }

  lemma ListsNothing(chosen: Step -> bool, text: Step -> string)
    ensures Lists([], [], chosen, text)
  {
    PicksNone(chosen);
    assert TextsAt([], [], text, []);
  }

  lemma ListsMore(names: seq<string>, steps: seq<Step>, step: Step, chosen: Step -> bool, text: Step -> string)
    requires Lists(names, steps, chosen, text)
    ensures Lists(if chosen(step) then names + [text(step)] else names, steps + [step], chosen, text)
  {
    hide Picks;
    var at: seq<nat> :| Picks(steps, chosen, at) && TextsAt(names, steps, text, at);
    PicksMore(steps, step, chosen, at);
    var longer, at' := steps + [step], if chosen(step) then at + [|steps|] else at;
    assert longer[|steps|] == step && forall i :: 0 <= i < |steps| ==> longer[i] == steps[i];
    assert TextsAt(if chosen(step) then names + [text(step)] else names, longer, text, at');
  }

  function StepName(step: Step): string {
    step.name
  }

  function StepContent(step: Step): string {
    if step.verdict.Ran? then step.verdict.result.content else ""
  }

  predicate DidRun(step: Step) {
    step.verdict.Ran?
  }

  predicate WasSkipped(step: Step) {
    step.verdict.Skipped?
  }

  predicate HasContent(step: Step) {
    step.verdict.Ran? && step.verdict.result.content != ""
  }

  lemma {:induction false} NamesAreListed(steps: seq<Step>)
    ensures Lists(RunNames(steps), steps, DidRun, StepName)
    ensures Lists(SkippedNames(steps), steps, WasSkipped, StepName)
    ensures Lists(Sections(steps), steps, HasContent, StepContent)
  {
    hide Lists;
    if steps == [] {
      ListsNothing(DidRun, StepName);
      ListsNothing(WasSkipped, StepName);
      ListsNothing(HasContent, StepContent);
    } else {
      var n := |steps| - 1;
      var before, last := steps[..n], steps[n];
      NamesAreListed(before);
      assert steps == before + [last];
      assert RunNames(before) + [] == RunNames(before) && SkippedNames(before) + [] == SkippedNames(before);
      assert Sections(before) + [] == Sections(before);
      ListsMore(RunNames(before), before, last, DidRun, StepName);
      ListsMore(SkippedNames(before), before, last, WasSkipped, StepName);
      ListsMore(Sections(before), before, last, HasContent, StepContent);
    }
  }

  /** The i-th step is the last that ran, or was skipped, under its name. */
  ghost predicate LastOfItsName(steps: seq<Step>, i: nat, chosen: Step -> bool)
    requires i < |steps|
  {
    chosen(steps[i]) && forall j :: i < j < |steps| && steps[j].name == steps[i].name ==> !chosen(steps[j])
  }

  /** Once a phase is skipped the reason stands, unless a later phase of that name is skipped as well. */
  lemma {:induction false} ReasonStands(steps: seq<Step>, i: nat)
    requires i < |steps| && LastOfItsName(steps, i, WasSkipped)
    ensures LastReason(steps, steps[i].name) == Some(steps[i].verdict.reason)
  {
    var n := |steps| - 1;
    if i < n {
      assert forall j :: i < j < n ==> steps[..n][j] == steps[j];
      ReasonStands(steps[..n], i);
    }
  }

  lemma {:induction false} CostStands(steps: seq<Step>, i: nat)
    requires i < |steps| && LastOfItsName(steps, i, DidRun)
    ensures LastCost(steps, steps[i].name) == Some(Cost(steps[i].verdict.result))
  {
    hide Cost;
    var n := |steps| - 1;
    if i < n {
      assert forall j :: i < j < n ==> steps[..n][j] == steps[j];
      CostStands(steps[..n], i);
    }
  }

  lemma {:induction false} LastReasonOfSkipped(steps: seq<Step>, name: string)
    ensures LastReason(steps, name).Some? <==> name in SkippedNames(steps)
  {
    if steps != [] {
      LastReasonOfSkipped(steps[..|steps| - 1], name);
    }
  }

  /** `found` is what the last step that has one gives, and nothing if none has. */
  ghost predicate IsLastGiven(found: Option<string>, steps: seq<Step>, given: Step -> Option<string>) {
    if found.None? then forall i :: 0 <= i < |steps| ==> given(steps[i]).None?
    else exists i ::
      0 <= i < |steps| && given(steps[i]) == found && forall j :: i < j < |steps| ==> given(steps[j]).None?
  }

  function DocsOf(step: Step): Option<string> {
    if step.verdict.Ran? then step.verdict.result.identityDocs else None
  }

  function ReportOf(step: Step): Option<string> {
    if step.verdict.Ran? then step.verdict.result.integrityReport else None
  }

  lemma LastGivenGrows(found: Option<string>, steps: seq<Step>, step: Step, given: Step -> Option<string>)
    requires IsLastGiven(found, steps, given)
    ensures IsLastGiven(if given(step).Some? then given(step) else found, steps + [step], given)
  {
    var longer := steps + [step];
    assert longer[|steps|] == step && forall i :: 0 <= i < |steps| ==> longer[i] == steps[i];
    if given(step).None? && found.Some? {
      var i :| 0 <= i < |steps| && given(steps[i]) == found && forall j :: i < j < |steps| ==> given(steps[j]).None?;
      assert given(longer[i]) == found;
    }
  }

  lemma {:induction false} LastDocsAreGiven(steps: seq<Step>)
    ensures IsLastGiven(LastDocs(steps), steps, DocsOf) && IsLastGiven(LastReport(steps), steps, ReportOf)
  {
    if steps != [] {
      hide IsLastGiven;
      var n := |steps| - 1;
      LastDocsAreGiven(steps[..n]);
      assert steps == steps[..n] + [steps[n]];
      LastGivenGrows(LastDocs(steps[..n]), steps[..n], steps[n], DocsOf);
      LastGivenGrows(LastReport(steps[..n]), steps[..n], steps[n], ReportOf);
    }
  }

  lemma {:induction false} ChargedIsSpent(phases: seq<Phase>, remaining: int, manifest: DepthManifest,
                                          steps: seq<Step>, n: nat)
    requires IsTrace(phases, remaining, manifest, steps) && n <= |steps|
    ensures Charged(steps[..n]) == remaining - BudgetBefore(steps, n, remaining)
  {
    hide IsTurnOf;
    if n > 0 {
      ChargedIsSpent(phases, remaining, manifest, steps, n - 1);
      assert steps[..n][..n - 1] == steps[..n - 1];
      assert HasTurn(phases, remaining, manifest, steps, n - 1);
    }
  }

  lemma ReasonsOfSkipped(steps: seq<Step>, reasons: map<string, SkipReason>)
    requires RecordsReasons(steps, reasons)
    ensures forall name :: name in reasons <==> name in SkippedNames(steps)
    ensures forall i :: 0 <= i < |steps| && LastOfItsName(steps, i, WasSkipped) ==>
              steps[i].name in reasons && reasons[steps[i].name] == steps[i].verdict.reason
  {
    hide LastReason, SkippedNames;
    forall name: string ensures name in reasons <==> name in SkippedNames(steps) {
      assert LastReason(steps, name).Some? <==> name in reasons;
      LastReasonOfSkipped(steps, name);
    }
    forall i | 0 <= i < |steps| && LastOfItsName(steps, i, WasSkipped)
      ensures steps[i].name in reasons && reasons[steps[i].name] == steps[i].verdict.reason
    {
      ReasonStands(steps, i);
    }
  }

  lemma CostsOfRun(steps: seq<Step>, costs: map<string, int>)
    requires RecordsCosts(steps, costs)
    ensures forall name :: name in costs <==> name in RunNames(steps)
    ensures forall i :: 0 <= i < |steps| && LastOfItsName(steps, i, DidRun) ==>
              var result := steps[i].verdict.result;
              && steps[i].name in costs
              && costs[steps[i].name]
              == if result.tokenEstimate == 0 && result.charsUsed > 0 then (result.charsUsed + 3) / 4
                 else result.tokenEstimate
  {
    hide LastCost, RunNames;
    forall name: string ensures name in costs <==> name in RunNames(steps) {
      CostedIffRun(steps, costs, name);
    }
    forall i | 0 <= i < |steps| && LastOfItsName(steps, i, DidRun)
      ensures steps[i].name in costs && costs[steps[i].name] == Cost(steps[i].verdict.result)
    {
      CostStands(steps, i);
    }
  }

  /**
   * The report of a successful assembly about its turns: names, sections and skips in turn order; the reason, and the
   * cost, of the last step of a name; the last documents; the final manifest; and the budget spent.
   */
  lemma AssemblyReports(order: seq<Phase>, total: int, a: Assembly) returns (steps: seq<Step>)
    requires IsAssembly(order, total, Ok(a))
    ensures IsTrace(order, total, EMPTY_MANIFEST, steps) && |steps| == |order|
    ensures forall i :: 0 <= i < |steps| ==> !steps[i].verdict.Aborted?
    ensures Lists(a.phasesRun, steps, DidRun, StepName) && Lists(a.phasesSkipped, steps, WasSkipped, StepName)
    ensures Lists(a.sections, steps, HasContent, StepContent)
    ensures forall name :: name in a.skipReasons <==> name in a.phasesSkipped
    ensures forall i :: 0 <= i < |steps| && LastOfItsName(steps, i, WasSkipped) ==>
              steps[i].name in a.skipReasons && a.skipReasons[steps[i].name] == steps[i].verdict.reason
    ensures forall name :: name in a.phaseCosts <==> name in a.phasesRun
    ensures forall i :: 0 <= i < |steps| && LastOfItsName(steps, i, DidRun) ==>
              var result := steps[i].verdict.result;
              && steps[i].name in a.phaseCosts
              && a.phaseCosts[steps[i].name]
              == if result.tokenEstimate == 0 && result.charsUsed > 0 then (result.charsUsed + 3) / 4
                 else result.tokenEstimate
    ensures IsLastGiven(a.identityDocs, steps, DocsOf) && IsLastGiven(a.integrityReport, steps, ReportOf)
    ensures a.bridgeAbstained
       <==> exists i :: 0 <= i < |steps| && steps[i].verdict.Ran? && steps[i].verdict.result.bridgeAbstained
    ensures a.depthManifest == ManifestBefore(steps, |steps|, EMPTY_MANIFEST)
    ensures a.budgetTotal == total && a.budgetUsed == total - BudgetBefore(steps, |steps|, total)
  {
    hide Walk, HasTurn, LeftBy, Lists, IsLastGiven, LastOfItsName, RecordsCosts, RecordsReasons, Charged, Sections,
         RunNames, SkippedNames, LastDocs, LastReport;
    steps := Walk(order, total, EMPTY_MANIFEST);
    WalkIsTrace(order, total, EMPTY_MANIFEST);
    NamesAreListed(steps);
    LastDocsAreGiven(steps);
    ReasonsOfSkipped(steps, a.skipReasons);
    CostsOfRun(steps, a.phaseCosts);
    assert steps[..|steps|] == steps;
    ChargedIsSpent(order, total, EMPTY_MANIFEST, steps, |steps|);
    forall i | 0 <= i < |steps| ensures !steps[i].verdict.Aborted? {
      AbortsIff(order, total, steps, i, "");
    }
  }

  lemma ListedIfChosen(names: seq<string>, steps: seq<Step>, chosen: Step -> bool, i: nat)
    requires Lists(names, steps, chosen, StepName) && i < |steps| && chosen(steps[i])
    ensures steps[i].name in names
  {
    var at: seq<nat> :| Picks(steps, chosen, at) && TextsAt(names, steps, StepName, at);
    var k :| 0 <= k < |at| && at[k] == i;
    assert names[k] == StepName(steps[i]);
  }

  /**
   * Asking for more than is left, or failing, puts the phase among the skipped, with that as the reason on record
   * unless a later phase of its name is skipped too; otherwise it is among the run.
   */
  ghost predicate Accounted(a: Assembly, phase: Phase, steps: seq<Step>, i: nat)
    requires i < |steps|
  {
    var remaining, before := steps[i].remaining, ManifestBefore(steps, i, EMPTY_MANIFEST);
    var pressed, tried := phase.minBudget > 0 && remaining < phase.minBudget, phase.assemble(remaining, before).result;
    if pressed || tried.Err? then
      && phase.name in a.phasesSkipped && phase.name in a.skipReasons
      && (LastOfItsName(steps, i, WasSkipped) ==>
            a.skipReasons[phase.name]
            == if pressed then BudgetPressure(remaining, phase.minBudget) else Failure(tried.error))
    else phase.name in a.phasesRun && phase.name in a.phaseCosts
  }

  lemma EveryPhaseIsAccounted(order: seq<Phase>, total: int, a: Assembly) returns (steps: seq<Step>)
    requires IsAssembly(order, total, Ok(a))
    ensures IsTrace(order, total, EMPTY_MANIFEST, steps) && |steps| == |order|
    ensures forall i :: 0 <= i < |order| ==> Accounted(a, order[i], steps, i)
  {
    hide IsAssembly, Lists, LastOfItsName, Accounted, IsTurnOf;
    steps := AssemblyReports(order, total, a);
    forall i | 0 <= i < |order| ensures Accounted(a, order[i], steps, i) {
      assert HasTurn(order, total, EMPTY_MANIFEST, steps, i);
      if WasSkipped(steps[i]) {
        ListedIfChosen(a.phasesSkipped, steps, WasSkipped, i);
      } else {
        ListedIfChosen(a.phasesRun, steps, DidRun, i);
      }
      TurnIsAccounted(a, order[i], steps, i);
    }
  }

  lemma TurnIsAccounted(a: Assembly, phase: Phase, steps: seq<Step>, i: nat)
    requires i < |steps| && !steps[i].verdict.Aborted?
    requires IsTurnOf(phase, ManifestBefore(steps, i, EMPTY_MANIFEST), steps[i])
    requires WasSkipped(steps[i]) ==> steps[i].name in a.phasesSkipped && steps[i].name in a.skipReasons
    requires LastOfItsName(steps, i, WasSkipped) ==>
               steps[i].name in a.skipReasons && a.skipReasons[steps[i].name] == steps[i].verdict.reason
    requires DidRun(steps[i]) ==> steps[i].name in a.phasesRun && steps[i].name in a.phaseCosts
    ensures Accounted(a, phase, steps, i)
  {
  }

  /** A phase that asks for more than is left is not consulted: any other phase in its place gives the same assembly. */
  lemma SkippedForBudgetIsNotConsulted(order: seq<Phase>, total: int, r: Result<Assembly, string>, i: nat,
                                       other: (int, DepthManifest) -> Outcome)
    returns (steps: seq<Step>)
    requires IsAssembly(order, total, r)
    ensures IsTrace(order, total, EMPTY_MANIFEST, steps)
    ensures i < |steps| && order[i].minBudget > 0 && steps[i].remaining < order[i].minBudget ==>
              IsAssembly(order[i := order[i].(assemble := other)], total, r)
  {
    hide Walk, IsTrace, Reports;
    steps := Walk(order, total, EMPTY_MANIFEST);
    WalkIsTrace(order, total, EMPTY_MANIFEST);
    if i < |steps| {
      StepsAreFew(order, total, steps);
      if order[i].minBudget > 0 && steps[i].remaining < order[i].minBudget {
        WalkDoesNotConsult(order, total, EMPTY_MANIFEST, i, other);
      }
    }
  }

  lemma StepsAreFew(order: seq<Phase>, total: int, steps: seq<Step>)
    requires IsTrace(order, total, EMPTY_MANIFEST, steps)
    ensures |steps| <= |order|
  {
  }

  lemma {:induction false} WalkDoesNotConsult(phases: seq<Phase>, remaining: int, manifest: DepthManifest, i: nat,
                                              other: (int, DepthManifest) -> Outcome)
    requires i < |phases| && i < |Walk(phases, remaining, manifest)|
    requires phases[i].minBudget > 0 && Walk(phases, remaining, manifest)[i].remaining < phases[i].minBudget
    ensures Walk(phases[i := phases[i].(assemble := other)], remaining, manifest) == Walk(phases, remaining, manifest)
    decreases i
  {
    hide Charge;
    var phases' := phases[i := phases[i].(assemble := other)];
    var step := Take(phases[0], remaining, manifest);
    if i == 0 {
      assert phases'[1..] == phases[1..];
    } else {
      assert phases'[1..] == phases[1..][i - 1 := phases[i].(assemble := other)];
      hide Take;
      WalkUnfolds(phases, remaining, manifest);
      WalkUnfolds(phases', remaining, manifest);
      if !step.verdict.Aborted? {
        WalkDoesNotConsult(phases[1..], remaining - Charge(step), step.manifest, i - 1, other);
      }
    }
  }

  // ----- Two phases of one name -----

  const FOUR_CHARS := PhaseResult("", 4, 0, None, None, false)

  function Four(priority: int): Phase {
    Phase("a", priority, 0, false, (remaining: int, manifest: DepthManifest) => Outcome(Ok(FOUR_CHARS), manifest))
  }

  function Two(): seq<Phase> {
    [Four(1), Four(2)]
  }

  const BLANK := Assembly([], EMPTY_MANIFEST, None, None, false, [], [], map[], 8, 0, map[])

  function StepOf(remaining: int): Step {
    Step("a", remaining, Ran(FOUR_CHARS), EMPTY_MANIFEST)
  }

  lemma TwoWalk()
    ensures Walk(Two(), 8, EMPTY_MANIFEST) == [StepOf(8), StepOf(4)] && IsOrder(Two(), Two())
  {
    assert Take(Four(1), 8, EMPTY_MANIFEST) == StepOf(8) && Take(Four(2), 4, EMPTY_MANIFEST) == StepOf(4);
    assert Two()[1..] == [Four(2)] && [Four(2)][1..] == [];
    assert Walk([Four(2)], 4, EMPTY_MANIFEST) == [StepOf(4)] + Walk([], 0, EMPTY_MANIFEST);
  }

  lemma TwoReports() returns (a: Assembly)
    ensures Reports(a, [StepOf(8), StepOf(4)], 8) && a.phaseCosts == map["a" := 1] && a.budgetUsed == 8
  {
    hide Reports;
    assert [] + [StepOf(8)] == [StepOf(8)] && [StepOf(8)] + [StepOf(4)] == [StepOf(8), StepOf(4)];
    NothingReported(8);
    ReportGrows(BLANK, [], StepOf(8), 8);
    var first := Record(BLANK, StepOf(8));
    ReportGrows(first, [StepOf(8)], StepOf(4), 8);
    a := Record(first, StepOf(4));
  }

  lemma TwoCosts()
    ensures SummedCost([StepOf(8), StepOf(4)]) == 2
  {
    assert [StepOf(8), StepOf(4)][..1] == [StepOf(8)] && [StepOf(8)][..0] == [];
    assert SummedCost([StepOf(8)]) == 1;
  }

  /**
   * A registry of two phases of one name, each charging four of eight characters, yields an assembly that used all
   * eight and whose table shows one token, four characters: the second phase's entry replaced the first's.
   */
  lemma SharedNameHidesACost()
    ensures exists r :: IsAssembly(Two(), 8, r) && r.Ok? && r.value.budgetUsed == 8
                     && r.value.phaseCosts == map["a" := 1] && Total(r.value.phaseCosts) == 1
    ensures IsOrder(Two(), Two()) && SummedCost(Walk(Two(), 8, EMPTY_MANIFEST)) == 2
  {
    hide Walk, Reports, SummedCost;
    TwoWalk();
    TwoCosts();
    var a := TwoReports();
    TotalTakes(a.phaseCosts, "a");
    assert a.phaseCosts - {"a"} == map[];
    assert IsAssembly(Two(), 8, Ok(a));
  }

  // ----- The order of registration -----

  lemma SmallestAgree(a: seq<Phase>, b: seq<Phase>)
    requires multiset(a) == multiset(b) && SortedBy(a, Rank) && SortedBy(b, Rank) && DistinctBy(b, PriorityOf)
    requires a != [] && b != []
    ensures a[0] == b[0]
  {
    assert a[0] in multiset(b) && b[0] in multiset(a);
    var i :| 0 <= i < |b| && b[i] == a[0];
    var j :| 0 <= j < |a| && a[j] == b[0];
    assert Rank(a[0]) <= Rank(a[j]) && Rank(b[0]) <= Rank(b[i]);
    assert PriorityOf(a[0]) == PriorityOf(b[0]);
    assert i == 0;
  }

  lemma RestOf(a: seq<Phase>)
    requires a != [] && SortedBy(a, Rank) && DistinctBy(a, PriorityOf)
    ensures multiset(a[1..]) == multiset(a) - multiset{a[0]}
    ensures SortedBy(a[1..], Rank) && DistinctBy(a[1..], PriorityOf)
  {
    assert a == [a[0]] + a[1..];
  }

  /** Distinct priorities leave the sort no choice. */
  lemma {:induction false} OrderIsUnique(a: seq<Phase>, b: seq<Phase>)
    requires multiset(a) == multiset(b) && SortedBy(a, Rank) && SortedBy(b, Rank)
    requires DistinctBy(a, PriorityOf) && DistinctBy(b, PriorityOf)
    ensures a == b
  {
    hide SortedBy, DistinctBy;
    assert |multiset(a)| == |multiset(b)|;
    if a != [] {
      SmallestAgree(a, b);
      RestOf(a);
      RestOf(b);
      OrderIsUnique(a[1..], b[1..]);
      assert a == [a[0]] + a[1..] && b == [b[0]] + b[1..];
    }
  }

  lemma ReportIsUnique(a: Assembly, a': Assembly, steps: seq<Step>, total: int)
    requires Reports(a, steps, total) && Reports(a', steps, total)
    ensures a == a'
  {
    assert a.skipReasons == a'.skipReasons by {
      forall name ensures (name in a.skipReasons <==> name in a'.skipReasons)
                       && (name in a.skipReasons ==> a.skipReasons[name] == a'.skipReasons[name]) {
        assert LastReason(steps, name) == LastReason(steps, name);
      }
    }
    RecordIsUnique(steps, a.phaseCosts, a'.phaseCosts);
  }

  /** However the phases were registered, the outcome is the same, as long as their priorities differ. */
  lemma RegistrationOrderIsIrrelevant(
      registry: seq<Phase>, registry': seq<Phase>, order: seq<Phase>, order': seq<Phase>, total: int,
      r: Result<Assembly, string>, r': Result<Assembly, string>)
    requires multiset(registry) == multiset(registry') && DistinctBy(registry, PriorityOf)
    requires IsOrder(registry, order) && IsAssembly(order, total, r)
    requires IsOrder(registry', order') && IsAssembly(order', total, r')
    ensures order == order' && r == r'
  {
    hide Reports, Walk;
    PermutationStaysDistinct(registry, order, PriorityOf);
    PermutationStaysDistinct(registry, order', PriorityOf);
    OrderIsUnique(order, order');
    var steps := Walk(order, total, EMPTY_MANIFEST);
    if !Aborts(steps) {
      ReportIsUnique(r.value, r'.value, steps, total);
    }
  }
}
