/** The agent engine: single tool calls, batches of them, and the multi-turn loop. */
module Engine {
  import opened Wrappers

  type CallId = nat

  datatype Role = User | Assistant | Tool | Other

  datatype ToolCall = ToolCall(id: CallId, name: string)

  /** A message; an assistant's carries the tool calls of its blocks, a tool's the id of the call it answers. */
  datatype Message = Message(
    role: Role, content: string, toolCalls: seq<ToolCall>, toolCallId: Option<CallId>, isError: bool)

  datatype ToolResult = ToolResult(
    callId: CallId, content: string, isError: bool, terminate: bool, contentSource: string)

  /** A completion: its text blocks, its tool-call blocks, and the finish reason. */
  datatype Response = Response(text: string, calls: seq<ToolCall>, finishReason: string)

  // ----- One tool call -----

  datatype Arguments = WellFormed | TooLong | Malformed
  datatype Before = Allow | Block(reason: string) | BeforeError(message: string)
  datatype Execution =
    | V1(output: Result<string, string>)
    | V2(result: Result<Option<ToolResult>, string>)

  /** What the after-hook returns, and what it leaves in the result it was given a pointer to. */
  datatype Returned = Nothing | Replacement(result: ToolResult) | HookError
  datatype After = After(returned: Returned, left: ToolResult)

  /** Everything outside the engine that decides one call: registry, arguments, hooks and handler. */
  datatype Dispatch = Dispatch(
    known: bool,
    arguments: Arguments,
    before: Before,
    dryRun: bool,
    execution: Execution,
    declaredSource: string,
    after: ToolResult -> After)

  /** Whether the handler is called at all: any failed check, and a dry run, stop short of it. */
  predicate Executes(d: Dispatch) {
    d.known && d.arguments.WellFormed? && d.before.Allow? && !d.dryRun
  }

  predicate SignalsTerminate(e: Execution) {
    e.V2? && e.result.Ok? && e.result.value.Some? && e.result.value.value.terminate
  }

  /** A replacement gets the handler's flag back; a result changed in place keeps whatever the hook put there. */
  function HookOutcome(a: After, raw: ToolResult): ToolResult {
    match a.returned
    case Replacement(mutated) => mutated.(terminate := raw.terminate)
    case Nothing => a.left
    case HookError => a.left
  }

  predicate KeepsCallId(after: ToolResult -> After, raw: ToolResult) {
    var a := after(raw);
    raw.callId == if a.returned.Replacement? then a.returned.result.callId else a.left.callId
  }

  /** The hook returned a replacement, or left the flag alone. */
  predicate KeepsTerminate(after: ToolResult -> After, raw: ToolResult) {
    after(raw).returned.Replacement? || after(raw).left.terminate == raw.terminate
  }

  function ErrorResult(id: CallId, content: string, source: string): ToolResult {
    ToolResult(id, content, true, false, source)
  }

  /** What the handler made of the call, before the after-hook sees it. */
  function RawResult(tc: ToolCall, d: Dispatch): (r: ToolResult)
    ensures r.callId == tc.id && r.terminate == SignalsTerminate(d.execution)
    ensures match d.execution
            case V1(Ok(output)) => r.content == output && !r.isError
            case V2(Ok(Some(result))) => r.content == result.content && r.isError == result.isError
            case V2(Ok(None)) => r.content == "" && !r.isError
            case V1(Err(m)) => r.content == m && r.isError
            case V2(Err(m)) => r.content == m && r.isError
    ensures r.contentSource != d.declaredSource ==>
              r.contentSource != "" && d.execution.V2? && d.execution.result.Ok? && d.execution.result.value.Some?
              && r.contentSource == d.execution.result.value.value.contentSource
    ensures r.contentSource == "" ==> d.declaredSource == ""
  {
    var r := match d.execution
      case V1(Ok(output)) => ToolResult(tc.id, output, false, false, "")
      case V2(Ok(Some(result))) => result.(callId := tc.id)
      case V2(Ok(None)) => ToolResult(tc.id, "", false, false, "")
      case V1(Err(m)) => ErrorResult(tc.id, m, "")
      case V2(Err(m)) => ErrorResult(tc.id, m, "");
    if r.contentSource == "" then r.(contentSource := d.declaredSource) else r
  }

  predicate Fails(e: Execution) {
    match e
    case V1(r) => r.Err?
    case V2(r) => r.Err?
  }

  /** The after-hook is reached: the handler ran and did not fail. */
  predicate Hooked(d: Dispatch) {
    Executes(d) && !Fails(d.execution)
  }

  /**
   * executeSingleTool. The result answers its own call, and carries the Terminate flag of the handler that ran,
   * exactly unless the after-hook interferes. The flag is protected against the result that the hook returns, but
   * not against what it does to the result in place.
   */
  function ExecuteSingleTool(tc: ToolCall, d: Dispatch): (r: ToolResult)
    ensures r.callId == tc.id <==> !Hooked(d) || KeepsCallId(d.after, RawResult(tc, d))
    ensures r.terminate == (Executes(d) && SignalsTerminate(d.execution))
       <==> !Hooked(d) || KeepsTerminate(d.after, RawResult(tc, d))
    ensures !Executes(d) ==> !r.terminate && r.contentSource == ""
                             && (r.isError <==> !(d.known && d.arguments.WellFormed? && d.before.Allow?))
    ensures d.known && d.arguments.WellFormed? ==>
              && (d.before.Block? ==> r.content == d.before.reason)
              && (d.before.BeforeError? ==> r.content == d.before.message)
    ensures Executes(d) && Fails(d.execution) ==> r == RawResult(tc, d)
    ensures Hooked(d) ==>
              var a := d.after(RawResult(tc, d));
              if a.returned.Replacement? then r == a.returned.result.(terminate := SignalsTerminate(d.execution))
              else r == a.left
  {
    if !d.known then ErrorResult(tc.id, "unknown tool", "")
    else if !d.arguments.WellFormed? then ErrorResult(tc.id, "bad arguments", "")
    else if d.before.BeforeError? then ErrorResult(tc.id, d.before.message, "")
    else if d.before.Block? then ErrorResult(tc.id, d.before.reason, "")
    else if d.dryRun then ToolResult(tc.id, "[dry-run] skipped", false, false, "")
    else
      var raw := RawResult(tc, d);
      if Fails(d.execution) then raw else HookOutcome(d.after(raw), raw)
  }

  /** A call that runs its handler and reaches the hook. */
  function Plain(execution: Execution, after: ToolResult -> After): Dispatch {
    Dispatch(true, WellFormed, Allow, false, execution, "", after)
  }

  function Unhooked(r: ToolResult): After {
    After(Nothing, r)
  }

  /** Sets the flag, or renames the call, in place, and returns nothing or an error. */
  function Flip(returned: Returned): ToolResult -> After {
    (r: ToolResult) => After(returned, r.(terminate := !r.terminate, callId := r.callId + 1))
  }

  /**
   * Such a hook gets both changes through: whatever the handler said about Terminate, the engine reports the
   * opposite, under another call's id. Returning the changed result instead would have restored the flag.
   */
  lemma InPlaceHookFlipsTerminate(tc: ToolCall, output: Result<Option<ToolResult>, string>, returned: Returned)
    requires output.Ok?
    ensures var r := ExecuteSingleTool(tc, Plain(V2(output), Flip(returned)));
            returned.Replacement? || (r.terminate != SignalsTerminate(V2(output)) && r.callId == tc.id + 1)
    ensures ExecuteSingleTool(tc, Plain(V2(output), Unhooked)).terminate == SignalsTerminate(V2(output))
  {
    var d := Plain(V2(output), Flip(returned));
    assert ExecuteSingleTool(tc, d) == HookOutcome(Flip(returned)(RawResult(tc, d)), RawResult(tc, d));
  }

  // ----- One batch -----

  /** The result of every call of the batch, in call order. */
  function CallResults(calls: seq<ToolCall>, ds: seq<Dispatch>): (rs: seq<ToolResult>)
    requires |calls| == |ds|
    ensures |rs| == |calls| && forall i :: 0 <= i < |rs| ==> rs[i] == ExecuteSingleTool(calls[i], ds[i])
  {
    seq(|calls|, i requires 0 <= i < |calls| => ExecuteSingleTool(calls[i], ds[i]))
  }

  /** Everything up to and including the first result that signals Terminate. */
  function UpToTerminate(rs: seq<ToolResult>): (cut: seq<ToolResult>)
    ensures cut <= rs
    ensures forall i :: 0 <= i < |cut| - 1 ==> !cut[i].terminate
    ensures |cut| < |rs| ==> cut != [] && cut[|cut| - 1].terminate
  {
    if rs == [] || rs[0].terminate then rs[..if rs == [] then 0 else 1]
    else [rs[0]] + UpToTerminate(rs[1..])
  }

  predicate AllTerminate(rs: seq<ToolResult>) {
    rs != [] && forall i :: 0 <= i < |rs| ==> rs[i].terminate
  }

  /** A goroutine completion order: every index exactly once. */
  ghost predicate IsOrder(order: seq<nat>, n: nat) {
    && (forall k :: 0 <= k < |order| ==> order[k] < n)
    && (forall i :: 0 <= i < n ==> i in order)
    && (forall i, k :: 0 <= i < k < |order| ==> order[i] != order[k])
  }

  predicate RunsParallel(calls: seq<ToolCall>, parallelTools: bool, sequentialOnly: set<string>) {
    parallelTools && 1 < |calls| && forall i :: 0 <= i < |calls| ==> calls[i].name !in sequentialOnly
  }

  /** The goroutines of a parallel batch, each storing its result in its own slot when it completes. */
  method Gather(calls: seq<ToolCall>, ds: seq<Dispatch>, order: seq<nat>, slots: array<ToolResult>)
    requires |calls| == |ds| == slots.Length && IsOrder(order, |calls|)
    modifies slots
    ensures slots[..] == CallResults(calls, ds)
  {
    hide ExecuteSingleTool;
    for k := 0 to |order|
      invariant forall i :: 0 <= i < |calls| && i in order[..k] ==> slots[i] == CallResults(calls, ds)[i]
    {
      var idx := order[k];
      slots[idx] := ExecuteSingleTool(calls[idx], ds[idx]);
    }
    assert order[..|order|] == order;
  }

  /** A sequential batch: one call after the other, up to the first that signals Terminate. */
  method InTurn(calls: seq<ToolCall>, ds: seq<Dispatch>, slots: array<ToolResult>) returns (n: nat)
    requires |calls| == |ds| == slots.Length
    modifies slots
    ensures n <= slots.Length && slots[..n] == UpToTerminate(CallResults(calls, ds))
  {
    hide ExecuteSingleTool, UpToTerminate;
    ghost var all := CallResults(calls, ds);
    n := 0;
    while n < |calls|
      invariant 0 <= n <= |calls|
      invariant forall i :: 0 <= i < n ==> slots[i] == all[i] && !slots[i].terminate
    {
      slots[n] := ExecuteSingleTool(calls[n], ds[n]);
      n := n + 1;
      if slots[n - 1].terminate {
        break;
      }
    }
    assert slots[..n] == all[..n];
    CutAt(all, n);
  }

  /** The batch, in parallel under any completion order unless some tool forces it to be sequential. */
  method ExecuteToolCalls(calls: seq<ToolCall>, ds: seq<Dispatch>, parallelTools: bool, sequentialOnly: set<string>,
                          order: seq<nat>)
    returns (results: seq<ToolResult>, terminated: bool)
    requires |calls| == |ds| && IsOrder(order, |calls|)
    ensures results == if RunsParallel(calls, parallelTools, sequentialOnly) then CallResults(calls, ds)
                       else UpToTerminate(CallResults(calls, ds))
    ensures parallelTools && |calls| > 1 && (forall i :: 0 <= i < |calls| ==> calls[i].name !in sequentialOnly) ==>
              |results| == |calls|
    ensures !parallelTools || |calls| <= 1 || (exists i :: 0 <= i < |calls| && calls[i].name in sequentialOnly) ==>
              && (forall i :: 0 <= i < |results| - 1 ==> !results[i].terminate)
              && (|results| < |calls| ==> results != [] && results[|results| - 1].terminate)
    ensures terminated <==> results != [] && forall i :: 0 <= i < |results| ==> results[i].terminate
  {
    hide ExecuteSingleTool, UpToTerminate, CallResults;
    var slots := new ToolResult[|calls|](i => ToolResult(0, "", false, false, ""));
    var forceSequential := false;
    for i := 0 to |calls|
      invariant forceSequential <==> exists k :: 0 <= k < i && calls[k].name in sequentialOnly
    {
      if calls[i].name in sequentialOnly {
        forceSequential := true;
      }
    }
    if parallelTools && !forceSequential && |calls| > 1 {
      Gather(calls, ds, order, slots);
      results := slots[..];
    } else {
      var n := InTurn(calls, ds, slots);
      results := slots[..n];
    }
    terminated := |results| > 0;
    for i := 0 to |results|
      invariant terminated <==> results != [] && forall k :: 0 <= k < i ==> results[k].terminate
    {
      if !results[i].terminate {
        terminated := false;
        break;
      }
    }
  }

  lemma {:induction false} CutAt(rs: seq<ToolResult>, n: nat)
    requires n <= |rs| && (forall i :: 0 <= i < n - 1 ==> !rs[i].terminate)
    requires n < |rs| ==> 0 < n && rs[n - 1].terminate
    ensures UpToTerminate(rs) == rs[..n]
  {
    if rs != [] && !rs[0].terminate {
      CutAt(rs[1..], n - 1);
    }
  }

  /** No result but possibly the last signals Terminate. */
  predicate NoEarlyTerminate(rs: seq<ToolResult>) {
    forall i :: 0 <= i < |rs| - 1 ==> !rs[i].terminate
  }

  lemma {:induction false} NothingCutIff(rs: seq<ToolResult>)
    ensures |UpToTerminate(rs)| == |rs| <==> NoEarlyTerminate(rs)
  {
    if rs != [] && !rs[0].terminate {
      NothingCutIff(rs[1..]);
      assert NoEarlyTerminate(rs) ==> forall i :: 0 <= i < |rs[1..]| - 1 ==> !rs[1..][i].terminate by {
        assert forall i :: 0 <= i < |rs[1..]| ==> rs[1..][i] == rs[i + 1];
      }
      assert NoEarlyTerminate(rs[1..]) ==> forall i :: 0 < i < |rs| - 1 ==> !rs[i].terminate by {
        assert forall i :: 0 < i < |rs| ==> rs[i] == rs[1..][i - 1];
      }
    }
  }

  /** A sequential batch ends the loop exactly when its first call signals Terminate. */
  lemma SequentialTerminatesIffFirst(rs: seq<ToolResult>)
    ensures AllTerminate(UpToTerminate(rs)) <==> rs != [] && rs[0].terminate
  {
  }

  /** So a batch that ends the loop when run in parallel also ends it when run sequentially. */
  lemma ParallelImpliesSequential(rs: seq<ToolResult>)
    ensures AllTerminate(rs) ==> AllTerminate(UpToTerminate(rs))
  {
    SequentialTerminatesIffFirst(rs);
  }
}
