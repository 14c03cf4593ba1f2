/** RunLoop: the multi-turn loop, driven by an arbitrary model, arbitrary tools and arbitrary channels. */
module EngineLoop {
  import opened Wrappers
  import opened Engine

  const MAX_TOOL_ITERATIONS_DEFAULT: nat := 25
  const MAX_STEERING_DRAIN: nat := 16
  const TRUNCATED := "Error: response was truncated. Re-issue your tool call with shorter arguments."

  /** The model, which counts its calls; what it answers may depend on everything it was ever sent. */
  class LLMClient {
    var calls: nat
    const answer: (nat, seq<Message>) -> Result<Response, string>

    constructor (answer: (nat, seq<Message>) -> Result<Response, string>)
      ensures this.answer == answer && calls == 0
    {
      this.answer, calls := answer, 0;
    }

    method Complete(history: seq<Message>) returns (r: Result<Response, string>)
      modifies this
      ensures r == answer(old(calls), history) && calls == old(calls) + 1
    {
      r := answer(calls, history);
      calls := calls + 1;
    }
  }

  /** The caller's configuration, and what tools, hooks and channels do in the n-th iteration. */
  datatype Config = Config(
    maxIterations: int,
    rehearsal: bool,
    parallelTools: bool,
    sequentialOnly: set<string>,
    dispatch: (nat, nat) -> Dispatch,        // how call k of iteration n goes
    completion: (nat, nat) -> seq<nat>,      // the order in which iteration n's goroutines, so many, complete
    hookFails: nat -> bool,                  // a critical turn hook returns an error
    steering: nat -> seq<Message>,           // what the steering channel holds when iteration n drains it
    followUp: nat -> Option<Message>,        // the first message of the follow-up channel, if any
    shouldStop: nat -> bool,
    transform: Option<(nat, seq<Message>) -> Option<seq<Message>>>)

  datatype LoopResult = LoopResult(final: Option<Response>, history: seq<Message>, iterations: nat, terminated: bool)

  datatype LoopError = CompletionFailed(cause: string) | CriticalHook

  function Bound(c: Config): (b: nat)
    ensures 0 < b
  {
    if c.maxIterations <= 0 then MAX_TOOL_ITERATIONS_DEFAULT else c.maxIterations
  }

  ghost predicate FairOrders(c: Config) {
    forall n, k :: IsOrder(c.completion(n, k), k)
  }

  // ----- What a well-threaded history is -----

  /** One iteration's contribution: an answer of the model, its tool results, and what was injected after them. */
  datatype Turn = Turn(response: Response, results: seq<ToolResult>, steering: seq<Message>, followUp: seq<Message>)

  function AssistantMessage(r: Response): Message {
    Message(Assistant, r.text, r.calls, None, false)
  }

  function ToolMessage(r: ToolResult): Message {
    Message(Tool, r.content, [], Some(r.callId), r.isError)
  }

  function ToolMessages(rs: seq<ToolResult>): (ms: seq<Message>)
    ensures |ms| == |rs| && forall i :: 0 <= i < |ms| ==> ms[i] == ToolMessage(rs[i])
  {
    seq(|rs|, i requires 0 <= i < |rs| => ToolMessage(rs[i]))
  }

  function TurnMessages(t: Turn): seq<Message> {
    [AssistantMessage(t.response)] + ToolMessages(t.results) + t.steering + t.followUp
  }

  function Flatten(ts: seq<Turn>): seq<Message> {
    if ts == [] then [] else Flatten(ts[..|ts|-1]) + TurnMessages(ts[|ts|-1])
  }

  ghost predicate AllFromUser(ms: seq<Message>) {
    forall i :: 0 <= i < |ms| ==> ms[i].role.User?
  }

  /** The tool messages answer the response's own calls, in order; all of them unless a sequential batch was cut. */
  ghost predicate Answers(t: Turn, c: Config) {
    && |t.results| <= |t.response.calls|
    && (forall i :: 0 <= i < |t.results| ==> t.results[i].callId == t.response.calls[i].id)
    && (|t.results| < |t.response.calls| ==>
          && !RunsParallel(t.response.calls, c.parallelTools, c.sequentialOnly)
          && t.results != [] && t.results[|t.results| - 1].terminate)
  }

  /** After the tool messages: only user messages, up to sixteen steering ones, or else at most one follow-up. */
  ghost predicate Injects(t: Turn) {
    && AllFromUser(t.steering) && AllFromUser(t.followUp)
    && |t.steering| <= MAX_STEERING_DRAIN
    && |t.followUp| <= (if t.steering == [] then 1 else 0)
  }

  ghost predicate HooksKeepCallIds(c: Config) {
    forall n, k, r :: KeepsCallId(c.dispatch(n, k).after, r)
  }

  lemma FlattenAppend(ts: seq<Turn>, t: Turn)
    ensures Flatten(ts + [t]) == Flatten(ts) + TurnMessages(t)
  {
    assert (ts + [t])[..|ts|] == ts;
  }

  // ----- The loop -----

  /** `taken` is the user messages of a prefix of the channel: all of it, or just up to the sixteenth. */
  ghost predicate Drained(taken: seq<Message>, pending: seq<Message>) {
    && |taken| <= MAX_STEERING_DRAIN
    && exists k :: 0 <= k <= |pending| && taken == UserMessages(pending[..k])
         && (k < |pending| ==> |taken| == MAX_STEERING_DRAIN)
  }

  /** Non-blocking drain of the steering channel: only user messages count, and at most sixteen are taken. */
  method DrainSteering(pending: seq<Message>) returns (taken: seq<Message>)
    ensures Drained(taken, pending) && AllFromUser(taken)
  {
    taken := [];
    var k := 0;
    while |taken| < MAX_STEERING_DRAIN && k < |pending|
      invariant 0 <= k <= |pending| && taken == UserMessages(pending[..k])
      invariant AllFromUser(taken) && |taken| <= MAX_STEERING_DRAIN
    {
      assert pending[..k + 1][..k] == pending[..k];
      if pending[k].role.User? {
        taken := taken + [pending[k]];
      }
      k := k + 1;
    }
  }

  function UserMessages(ms: seq<Message>): seq<Message> {
    if ms == [] then []
    else UserMessages(ms[..|ms|-1]) + if ms[|ms|-1].role.User? then [ms[|ms|-1]] else []
  }

  function TruncationErrors(calls: seq<ToolCall>): (rs: seq<ToolResult>)
    ensures |rs| == |calls| && forall i :: 0 <= i < |rs| ==> rs[i].callId == calls[i].id && !rs[i].terminate
  {
    seq(|calls|, i requires 0 <= i < |calls| => ErrorResult(calls[i].id, TRUNCATED, ""))
  }

  function Dispatches(c: Config, n: nat, k: nat): (ds: seq<Dispatch>)
    ensures |ds| == k && forall i :: 0 <= i < k ==> ds[i] == c.dispatch(n, i)
  {
    seq(k, i requires 0 <= i < k => c.dispatch(n, i))
  }

  lemma BatchAnswers(calls: seq<ToolCall>, ds: seq<Dispatch>, results: seq<ToolResult>, parallel: bool)
    requires |calls| == |ds|
    requires forall i, r :: 0 <= i < |ds| ==> KeepsCallId(ds[i].after, r)
    requires results == if parallel then CallResults(calls, ds) else UpToTerminate(CallResults(calls, ds))
    ensures |results| <= |calls|
    ensures forall i :: 0 <= i < |results| ==> results[i].callId == calls[i].id
    ensures |results| < |calls| ==> !parallel && results != [] && results[|results| - 1].terminate
  {
    forall i | 0 <= i < |results| ensures results[i].callId == calls[i].id {
      assert results[i] == CallResults(calls, ds)[i];
    }
  }

  // ----- What the n-th turn must be, given the model's response -----

  predicate Truncated(r: Response) {
    r.finishReason == "length" && r.calls != []
  }

  function ResultsOf(c: Config, n: nat, r: Response): seq<ToolResult> {
    if Truncated(r) then TruncationErrors(r.calls)
    else
      var all := CallResults(r.calls, Dispatches(c, n, |r.calls|));
      if RunsParallel(r.calls, c.parallelTools, c.sequentialOnly) then all else UpToTerminate(all)
  }

  function FollowUpOf(c: Config, n: nat, steering: seq<Message>): seq<Message> {
    if steering == [] && c.followUp(n).Some? && c.followUp(n).value.role.User? then [c.followUp(n).value] else []
  }

  /** The loop goes on to the channels after this turn: tools ran and did not all say Terminate. */
  ghost predicate ReachesChannels(t: Turn) {
    t.response.calls != [] && !Truncated(t.response) && !AllTerminate(t.results)
  }

  ghost predicate IsTurn(c: Config, n: nat, t: Turn) {
    && t.results == ResultsOf(c, n, t.response)
    && if ReachesChannels(t)
       then Drained(t.steering, c.steering(n)) && t.followUp == FollowUpOf(c, n, t.steering)
       else t.steering == [] && t.followUp == []
  }

  /** Why the loop stops: no tool calls, all results terminate, the caller says so, or the bound is reached. */
  ghost predicate Ends(c: Config, n: nat, t: Turn) {
    || t.response.calls == []
    || AllTerminate(t.results)
    || (!Truncated(t.response) && c.shouldStop(n))
    || Bound(c) <= n
  }

  lemma {:induction false} UserMessagesAreUsers(ms: seq<Message>)
    ensures AllFromUser(UserMessages(ms))
  {
    if ms != [] {
      UserMessagesAreUsers(ms[..|ms|-1]);
    }
  }

  /** Every turn of the loop threads its messages the way the provider expects, if hooks keep call ids. */
  lemma TurnsAreWellThreaded(c: Config, n: nat, t: Turn)
    requires IsTurn(c, n, t) && HooksKeepCallIds(c)
    ensures Answers(t, c) && Injects(t)
  {
    if !Truncated(t.response) {
      BatchAnswers(t.response.calls, Dispatches(c, n, |t.response.calls|), t.results,
                   RunsParallel(t.response.calls, c.parallelTools, c.sequentialOnly));
    }
    if ReachesChannels(t) {
      var k :| 0 <= k <= |c.steering(n)| && t.steering == UserMessages(c.steering(n)[..k]);
      UserMessagesAreUsers(c.steering(n)[..k]);
    }
  }

  // ----- When calls stay unanswered -----

  /** What the calls of the n-th response would all have returned. */
  function AllResults(c: Config, n: nat, r: Response): seq<ToolResult> {
    CallResults(r.calls, Dispatches(c, n, |r.calls|))
  }

  /** A turn answers all its calls exactly if it is truncated, runs in parallel, or no call but the last terminates. */
  lemma AllCallsAnsweredIff(c: Config, n: nat, t: Turn)
    requires IsTurn(c, n, t)
    ensures |t.results| == |t.response.calls|
       <==> || Truncated(t.response)
            || RunsParallel(t.response.calls, c.parallelTools, c.sequentialOnly)
            || NoEarlyTerminate(AllResults(c, n, t.response))
  {
    NothingCutIff(AllResults(c, n, t.response));
  }

  /** A sequential batch in which the first call does not terminate and some call between it and the last does. */
  predicate CutInTheMiddle(c: Config, n: nat, r: Response) {
    var all := AllResults(c, n, r);
    && !Truncated(r) && !RunsParallel(r.calls, c.parallelTools, c.sequentialOnly)
    && all != [] && !all[0].terminate && !NoEarlyTerminate(all)
  }

  /** The loop goes on after a turn with unanswered calls exactly in that case, short of the bound and a stop. */
  lemma GoesOnUnansweredIff(c: Config, n: nat, t: Turn)
    requires IsTurn(c, n, t)
    ensures |t.results| < |t.response.calls| && !Ends(c, n, t)
       <==> CutInTheMiddle(c, n, t.response) && !c.shouldStop(n) && n < Bound(c)
  {
    AllCallsAnsweredIff(c, n, t);
    SequentialTerminatesIffFirst(AllResults(c, n, t.response));
  }

  // ----- The loop -----

  /** What the n-th completion is sent: from the second on, the transformed history if there is one. */
  function SentIn(c: Config, n: nat, history: seq<Message>): seq<Message> {
    if n <= 1 || c.transform.None? then history
    else
      var compacted := c.transform.value(n, history);
      if compacted.Some? then compacted.value else history
  }

  /** The history after these turns, each of them following what the completion was sent. */
  function HistoryAfter(request: seq<Message>, c: Config, turns: seq<Turn>): seq<Message> {
    if turns == [] then request
    else
      var n := |turns|;
      SentIn(c, n, HistoryAfter(request, c, turns[..n - 1])) + TurnMessages(turns[n - 1])
  }

  /** The history so far, from the model's k-th completion on: one turn per iteration, each of them an answer to it. */
  ghost predicate Threaded(client: LLMClient, k: nat, request: seq<Message>, c: Config, turns: seq<Turn>,
                           history: seq<Message>) {
    && (forall i :: 0 <= i < |turns| ==> IsTurn(c, i + 1, turns[i]))
    && (forall i :: 0 <= i < |turns| - 1 ==> !Ends(c, i + 1, turns[i]))
    && history == HistoryAfter(request, c, turns)
    && forall i :: 0 <= i < |turns| ==> AnswersTurn(client, k, request, c, turns, i)
  }

  ghost predicate AnswersTurn(client: LLMClient, k: nat, request: seq<Message>, c: Config, turns: seq<Turn>, i: nat)
    requires i < |turns|
  {
    client.answer(k + i, SentIn(c, i + 1, HistoryAfter(request, c, turns[..i]))) == Ok(turns[i].response)
  }

  lemma {:induction false} PlainHistory(request: seq<Message>, c: Config, turns: seq<Turn>)
    requires c.transform.None?
    ensures HistoryAfter(request, c, turns) == request + Flatten(turns)
  {
    hide TurnMessages;
    if turns != [] {
      var n := |turns| - 1;
      PlainHistory(request, c, turns[..n]);
      assert request + Flatten(turns[..n]) + TurnMessages(turns[n]) == request + Flatten(turns);
    }
  }

  /** A finished loop: threaded turns, the last of which, and no earlier one, ends it. */
  ghost predicate IsLoopRun(client: LLMClient, k: nat, request: seq<Message>, c: Config, turns: seq<Turn>,
                            r: LoopResult) {
    && Threaded(client, k, request, c, turns, r.history)
    && turns != [] && Ends(c, |turns|, turns[|turns| - 1])
    && r.final == Some(turns[|turns| - 1].response)
    && r.iterations == |turns|
    && r.terminated == AllTerminate(turns[|turns| - 1].results)
  }

  /**
   * The turns of a finished loop: per iteration one assistant message, answers to its calls, and only user messages.
   * Every turn but the last has calls, all of which are answered exactly unless a sequential batch was cut in the
   * middle. Without TransformContext the history is the request and these turns.
   */
  lemma HistoryIsWellThreaded(client: LLMClient, k: nat, request: seq<Message>, c: Config, turns: seq<Turn>,
                              r: LoopResult)
    requires IsLoopRun(client, k, request, c, turns, r) && HooksKeepCallIds(c)
    ensures c.transform.None? ==> r.history == request + Flatten(turns)
    ensures forall i :: 0 <= i < |turns| ==> Answers(turns[i], c) && Injects(turns[i])
    ensures forall i :: 0 <= i < |turns| - 1 ==> turns[i].response.calls != []
    ensures forall i :: 0 <= i < |turns| - 1 ==>
              (|turns[i].results| < |turns[i].response.calls| <==> CutInTheMiddle(c, i + 1, turns[i].response))
  {
    hide Answers, Injects, IsTurn, HooksKeepCallIds, CutInTheMiddle, HistoryAfter;
    if c.transform.None? {
      PlainHistory(request, c, turns);
    }
    forall i | 0 <= i < |turns| ensures Answers(turns[i], c) && Injects(turns[i]) {
      TurnsAreWellThreaded(c, i + 1, turns[i]);
    }
    forall i | 0 <= i < |turns| - 1
      ensures |turns[i].results| < |turns[i].response.calls| <==> CutInTheMiddle(c, i + 1, turns[i].response)
    {
      GoingOnUnansweredIff(c, i + 1, turns[i]);
    }
  }

  lemma GoingOnUnansweredIff(c: Config, n: nat, t: Turn)
    requires IsTurn(c, n, t) && !Ends(c, n, t)
    ensures |t.results| < |t.response.calls| <==> CutInTheMiddle(c, n, t.response)
  {
    GoesOnUnansweredIff(c, n, t);
  }

  // ----- The messages themselves -----

  /** Where the messages of the i-th turn start, counted from the end of the request. */
  ghost function SegmentStart(turns: seq<Turn>, i: nat): nat
    requires i <= |turns|
  {
    if i == 0 then 0
    else
      var t := turns[i - 1];
      SegmentStart(turns, i - 1) + 1 + |t.results| + |t.steering| + |t.followUp|
  }

  /**
   * The messages of one turn: the assistant's, with the response's text and calls; then, result by result, a tool
   * message that answers the call of the same number; then the injected messages, all from the user.
   */
  ghost predicate IsSegment(ms: seq<Message>, t: Turn) {
    && var n := |t.results|;
    && |ms| == 1 + n + |t.steering| + |t.followUp| && n <= |t.response.calls|
    && ms[0].role == Assistant && ms[0].content == t.response.text && ms[0].toolCalls == t.response.calls
    && ms[0].toolCallId == None
    && (forall k :: 0 < k <= n ==>
          && ms[k].role == Tool && ms[k].toolCallId == Some(t.response.calls[k - 1].id)
          && ms[k].content == t.results[k - 1].content && ms[k].isError == t.results[k - 1].isError)
    && ms[1 + n..] == t.steering + t.followUp
    && (forall k :: n < k < |ms| ==> ms[k].role == User)
  }

  lemma TurnIsSegment(t: Turn, c: Config)
    requires Answers(t, c) && Injects(t)
    ensures IsSegment(TurnMessages(t), t)
  {
    hide Injects, TurnMessages;
    TurnParts(t);
    InjectedAreUsers(t);
  }

  lemma TurnParts(t: Turn)
    ensures var ms, n := TurnMessages(t), |t.results|;
            && |ms| == 1 + n + |t.steering| + |t.followUp|
            && ms[0] == Message(Assistant, t.response.text, t.response.calls, None, false)
            && (forall k :: 0 < k <= n ==>
                  ms[k] == Message(Tool, t.results[k - 1].content, [], Some(t.results[k - 1].callId),
                                   t.results[k - 1].isError))
            && ms[1 + n..] == t.steering + t.followUp
  {
    var ms, n, tools := TurnMessages(t), |t.results|, ToolMessages(t.results);
    assert ms == [AssistantMessage(t.response)] + tools + (t.steering + t.followUp);
    forall k | 0 < k <= n ensures ms[k] == ToolMessage(t.results[k - 1]) {
      assert ms[k] == tools[k - 1];
    }
  }

  lemma InjectedAreUsers(t: Turn)
    requires Injects(t)
    ensures var ms, n := TurnMessages(t), |t.results|;
            forall k :: n < k < |ms| ==> ms[k].role == User
  {
    var ms, n, injected := TurnMessages(t), |t.results|, t.steering + t.followUp;
    assert ms == [AssistantMessage(t.response)] + ToolMessages(t.results) + injected;
    forall k | n < k < |ms| ensures ms[k].role == User {
      assert ms[k] == injected[k - (1 + n)];
    }
  }

  lemma {:induction false} FlattenHasTurn(turns: seq<Turn>, i: nat)
    requires i < |turns|
    ensures |Flatten(turns)| == SegmentStart(turns, |turns|)
    ensures var b := SegmentStart(turns, i);
            && b + |TurnMessages(turns[i])| <= |Flatten(turns)|
            && Flatten(turns)[b..b + |TurnMessages(turns[i])|] == TurnMessages(turns[i])
  {
    hide TurnMessages;
    var n := |turns| - 1;
    TurnLength(turns[n]);
    SegmentsOfPrefix(turns, n, n);
    FlattenLength(turns[..n]);
    if i < n {
      FlattenHasTurn(turns[..n], i);
      SegmentsOfPrefix(turns, n, i);
      assert Flatten(turns) == Flatten(turns[..n]) + TurnMessages(turns[n]);
    }
  }

  lemma TurnLength(t: Turn)
    ensures |TurnMessages(t)| == 1 + |t.results| + |t.steering| + |t.followUp|
  {
  }

  lemma {:induction false} SegmentsOfPrefix(turns: seq<Turn>, n: nat, i: nat)
    requires i <= n <= |turns|
    ensures SegmentStart(turns[..n], i) == SegmentStart(turns, i)
  {
    if i > 0 {
      SegmentsOfPrefix(turns, n, i - 1);
    }
  }

  lemma {:induction false} FlattenLength(turns: seq<Turn>)
    ensures |Flatten(turns)| == SegmentStart(turns, |turns|)
  {
    hide TurnMessages;
    if turns != [] {
      var n := |turns| - 1;
      FlattenLength(turns[..n]);
      TurnLength(turns[n]);
      SegmentsOfPrefix(turns, n, n);
    }
  }

  /** The stretch of the history from b to e is the turn's. */
  ghost predicate SegmentAt(h: seq<Message>, b: nat, e: nat, t: Turn) {
    b <= e <= |h| && IsSegment(h[b..e], t)
  }

  lemma SliceOfSecond<T>(x: seq<T>, y: seq<T>, b: nat, e: nat)
    requires b <= e <= |y|
    ensures (x + y)[|x| + b..|x| + e] == y[b..e]
  {
  }

  lemma TurnWithinHistory(request: seq<Message>, c: Config, turns: seq<Turn>, i: nat)
    requires i < |turns| && Answers(turns[i], c) && Injects(turns[i])
    ensures |Flatten(turns)| == SegmentStart(turns, |turns|)
    ensures SegmentAt(request + Flatten(turns), |request| + SegmentStart(turns, i),
                      |request| + SegmentStart(turns, i + 1), turns[i])
  {
    hide Answers, Injects, TurnMessages, Flatten, IsSegment;
    FlattenHasTurn(turns, i);
    TurnLength(turns[i]);
    SliceOfSecond(request, Flatten(turns), SegmentStart(turns, i), SegmentStart(turns, i + 1));
    TurnIsSegment(turns[i], c);
  }

  lemma SegmentsWithin(request: seq<Message>, c: Config, turns: seq<Turn>)
    requires forall i :: 0 <= i < |turns| ==> Answers(turns[i], c) && Injects(turns[i])
    ensures forall i :: 0 <= i < |turns| ==>
              SegmentAt(request + Flatten(turns), |request| + SegmentStart(turns, i),
                        |request| + SegmentStart(turns, i + 1), turns[i])
  {
    hide *;
    forall i | 0 <= i < |turns|
      ensures SegmentAt(request + Flatten(turns), |request| + SegmentStart(turns, i),
                        |request| + SegmentStart(turns, i + 1), turns[i])
    {
      TurnWithinHistory(request, c, turns, i);
    }
  }

  lemma PrefixOfAppend<T>(x: seq<T>, y: seq<T>)
    ensures (x + y)[..|x|] == x
  {
  }

  /** The final history, message by message: the request, and then one segment for every turn. */
  lemma HistoryMessages(client: LLMClient, k: nat, request: seq<Message>, c: Config, turns: seq<Turn>, r: LoopResult)
    requires IsLoopRun(client, k, request, c, turns, r) && c.transform.None? && HooksKeepCallIds(c)
    ensures |r.history| == |request| + SegmentStart(turns, |turns|) && r.history[..|request|] == request
    ensures forall i :: 0 <= i < |turns| ==>
              SegmentAt(r.history, |request| + SegmentStart(turns, i), |request| + SegmentStart(turns, i + 1), turns[i])
  {
    hide *;
    HistoryIsWellThreaded(client, k, request, c, turns, r);
    FlattenLength(turns);
    PrefixOfAppend(request, Flatten(turns));
    SegmentsWithin(request, c, turns);
  }

  /**
   * With any TransformContext, turn by turn: the history, as transformed from the second completion on, is what the
   * model is sent, its answer is the turn's response, and the turn's messages follow what was sent.
   */
  lemma {:induction false} HistoryStepByStep(client: LLMClient, k: nat, request: seq<Message>, c: Config,
                                             turns: seq<Turn>, i: nat)
    returns (h: seq<Message>, sent: seq<Message>, h': seq<Message>)
    requires i < |turns| && Threaded(client, k, request, c, turns, HistoryAfter(request, c, turns))
    requires HooksKeepCallIds(c)
    ensures h == HistoryAfter(request, c, turns[..i]) && h' == HistoryAfter(request, c, turns[..i + 1])
    ensures i == 0 ==> h == request && sent == request
    ensures i > 0 ==> sent == if c.transform.Some? && c.transform.value(i + 1, h).Some?
                              then c.transform.value(i + 1, h).value else h
    ensures client.answer(k + i, sent) == Ok(turns[i].response)
    ensures sent <= h' && IsSegment(h'[|sent|..], turns[i])
  {
    hide Answers, Injects, IsTurn, HooksKeepCallIds, TurnMessages, IsSegment;
    h, h' := HistoryAfter(request, c, turns[..i]), HistoryAfter(request, c, turns[..i + 1]);
    sent := SentIn(c, i + 1, h);
    assert AnswersTurn(client, k, request, c, turns, i);
    assert turns[..i + 1][..i] == turns[..i];
    assert h' == sent + TurnMessages(turns[i]);
    TurnsAreWellThreaded(c, i + 1, turns[i]);
    TurnIsSegment(turns[i], c);
    assert h'[|sent|..] == TurnMessages(turns[i]);
  }

  /** A truncated answer: every call is answered, in order, by the same error. */
  lemma TruncatedTurnIsErrors(c: Config, n: nat, t: Turn)
    requires IsTurn(c, n, t) && t.response.finishReason == "length" && t.response.calls != []
    ensures |t.results| == |t.response.calls|
    ensures forall k :: 0 <= k < |t.results| ==>
              t.results[k] == ToolResult(t.response.calls[k].id, TRUNCATED, true, false, "")
    ensures t.steering == [] && t.followUp == []
  {
  }

  /** Otherwise each result is what its call returned; all of them in parallel, else those up to the first Terminate. */
  lemma TurnResultsAre(c: Config, n: nat, t: Turn)
    requires IsTurn(c, n, t) && !(t.response.finishReason == "length" && t.response.calls != [])
    ensures |t.results| <= |t.response.calls|
    ensures forall k :: 0 <= k < |t.results| ==>
              t.results[k] == ExecuteSingleTool(t.response.calls[k], c.dispatch(n, k))
    ensures var parallel := c.parallelTools && |t.response.calls| > 1 &&
                            forall k :: 0 <= k < |t.response.calls| ==> t.response.calls[k].name !in c.sequentialOnly;
            && (parallel ==> |t.results| == |t.response.calls|)
            && (!parallel ==> forall k :: 0 <= k < |t.results| - 1 ==> !t.results[k].terminate)
            && (|t.results| < |t.response.calls| ==> t.results != [] && t.results[|t.results| - 1].terminate)
  {
    hide ExecuteSingleTool, UpToTerminate;
  }

  /**
   * What is injected after tools that ran and did not all terminate: the user messages of a prefix of the steering
   * channel, all of them and in order, the prefix being the whole channel unless sixteen were taken; and the
   * follow-up message, if it is from the user and nothing was steered. Otherwise nothing is injected.
   */
  lemma InjectedMessages(c: Config, n: nat, t: Turn) returns (cut: nat, at: seq<nat>)
    requires IsTurn(c, n, t)
    ensures t.response.calls == [] || t.response.finishReason == "length" || AllTerminate(t.results) ==>
              t.steering == [] && t.followUp == []
    ensures !(t.response.calls == [] || t.response.finishReason == "length" || AllTerminate(t.results)) ==>
              && cut <= |c.steering(n)| && |t.steering| <= 16 && (cut < |c.steering(n)| ==> |t.steering| == 16)
              && Picks(c.steering(n)[..cut], (m: Message) => m.role == User, at)
              && |at| == |t.steering| && (forall k :: 0 <= k < |at| ==> t.steering[k] == c.steering(n)[at[k]])
              && (t.followUp != [] <==> t.steering == [] && c.followUp(n).Some? && c.followUp(n).value.role == User)
              && (t.followUp != [] ==> t.followUp == [c.followUp(n).value])
  {
    cut, at := 0, [];
    if ReachesChannels(t) {
      cut :| 0 <= cut <= |c.steering(n)| && t.steering == UserMessages(c.steering(n)[..cut])
          && (cut < |c.steering(n)| ==> |t.steering| == MAX_STEERING_DRAIN);
      at := UserMessagesArePicked(c.steering(n)[..cut]);
    }
  }

  lemma {:induction false} UserMessagesArePicked(ms: seq<Message>) returns (at: seq<nat>)
    ensures Picks(ms, (m: Message) => m.role == User, at)
    ensures |at| == |UserMessages(ms)| && forall k :: 0 <= k < |at| ==> at[k] < |ms| && UserMessages(ms)[k] == ms[at[k]]
  {
    hide Picks;
    var fromUser := (m: Message) => m.role == User;
    if ms == [] {
      at := [];
      PicksNone(fromUser);
    } else {
      var n := |ms| - 1;
      var before, last := ms[..n], ms[n];
      var there := UserMessagesArePicked(before);
      assert ms == before + [last];
      PicksMore(before, last, fromUser, there);
      at := if fromUser(last) then there + [n] else there;
      forall k | 0 <= k < |at| ensures at[k] < |ms| && UserMessages(ms)[k] == ms[at[k]] {
        assert k < |there| ==> before[there[k]] == ms[there[k]];
      }
    }
  }

  lemma EndsIs(c: Config, n: nat, t: Turn)
    ensures Ends(c, n, t) <==>
              || t.response.calls == [] || AllTerminate(t.results)
              || (t.response.finishReason != "length" && c.shouldStop(n))
              || n >= if c.maxIterations <= 0 then 25 else c.maxIterations
  {
  }

  lemma EndsExactlyAtTheLast(client: LLMClient, k: nat, request: seq<Message>, c: Config, turns: seq<Turn>,
                             r: LoopResult)
    requires IsLoopRun(client, k, request, c, turns, r)
    ensures turns != [] && forall i :: 0 <= i < |turns| ==> (i == |turns| - 1 <==> Ends(c, i + 1, turns[i]))
    ensures r.terminated == AllTerminate(turns[|turns| - 1].results)
  {
    hide IsTurn, Ends, AllTerminate;
  }

  /** No critical hook failed: the hooks run after every turn but the truncated ones. */
  ghost predicate HooksPassed(c: Config, turns: seq<Turn>) {
    forall i :: 0 <= i < |turns| && c.hookFails(i + 1) ==>
      turns[i].response.finishReason == "length" && turns[i].response.calls != []
  }

  lemma HooksStillPass(c: Config, turns: seq<Turn>, t: Turn)
    requires HooksPassed(c, turns)
    requires c.hookFails(|turns| + 1) ==> t.response.finishReason == "length" && t.response.calls != []
    ensures HooksPassed(c, turns + [t])
  {
  }

  /** The loop goes on after these turns, with this history. */
  ghost predicate GoesOn(client: LLMClient, k: nat, request: seq<Message>, c: Config, turns: seq<Turn>,
                         history: seq<Message>) {
    && Threaded(client, k, request, c, turns, history) && HooksPassed(c, turns)
    && (turns != [] ==> !Ends(c, |turns|, turns[|turns| - 1]))
  }

  /**
   * The loop gives up in its next iteration: the model returns this error to what it is sent, or it answers, with
   * no truncated calls, and a critical hook fails.
   */
  ghost predicate GivesUp(client: LLMClient, k: nat, request: seq<Message>, c: Config, turns: seq<Turn>,
                          history: seq<Message>, e: LoopError) {
    && GoesOn(client, k, request, c, turns, history)
    && var completion := client.answer(k + |turns|, SentIn(c, |turns| + 1, history));
    match e
    case CompletionFailed(m) => completion == Err(m)
    case CriticalHook =>
      && completion.Ok? && c.hookFails(|turns| + 1)
      && (completion.value.finishReason == "length" ==> completion.value.calls == [])
  }

  /** Which turn is the last: the first that has no calls, or terminates, or is told to stop, or meets the bound. */
  lemma WhyTheLoopStops(client: LLMClient, k: nat, request: seq<Message>, c: Config, turns: seq<Turn>, r: LoopResult)
    requires IsLoopRun(client, k, request, c, turns, r)
    ensures forall i :: 0 <= i < |turns| ==> 
              var t := turns[i];
              (i == |turns| - 1 <==>
                || t.response.calls == [] || AllTerminate(t.results)
                || (t.response.finishReason != "length" && c.shouldStop(i + 1))
                || i + 1 >= if c.maxIterations <= 0 then 25 else c.maxIterations)
    ensures r.terminated == AllTerminate(turns[|turns| - 1].results)
  {
    hide IsTurn, IsLoopRun, Ends, AllTerminate;
    EndsExactlyAtTheLast(client, k, request, c, turns, r);
    forall i | 0 <= i < |turns|
      ensures var t := turns[i];
              i == |turns| - 1 <==>
                || t.response.calls == [] || AllTerminate(t.results)
                || (t.response.finishReason != "length" && c.shouldStop(i + 1))
                || i + 1 >= if c.maxIterations <= 0 then 25 else c.maxIterations
    {
      EndsIs(c, i + 1, turns[i]);
    }
  }

  lemma Starts(client: LLMClient, k: nat, request: seq<Message>, c: Config)
    ensures GoesOn(client, k, request, c, [], request)
  {
    assert request + [] == request;
  }

  lemma AddTurn(client: LLMClient, k: nat, request: seq<Message>, c: Config, turns: seq<Turn>,
                history: seq<Message>, t: Turn)
    requires Threaded(client, k, request, c, turns, history)
    requires turns != [] ==> !Ends(c, |turns|, turns[|turns| - 1])
    requires IsTurn(c, |turns| + 1, t)
    requires client.answer(k + |turns|, SentIn(c, |turns| + 1, history)) == Ok(t.response)
    ensures Threaded(client, k, request, c, turns + [t], SentIn(c, |turns| + 1, history) + TurnMessages(t))
  {
    hide IsTurn, Ends, TurnMessages, SentIn, AnswersTurn;
    var turns' := turns + [t];
    assert forall i :: 0 <= i < |turns| ==> turns'[i] == turns[i];
    assert turns'[..|turns|] == turns;
    forall i | 0 <= i < |turns'| ensures AnswersTurn(client, k, request, c, turns', i) {
      AnswersGrow(client, k, request, c, turns, t, i);
    }
  }

  lemma AnswersGrow(client: LLMClient, k: nat, request: seq<Message>, c: Config, turns: seq<Turn>, t: Turn, i: nat)
    requires i <= |turns|
    requires i < |turns| ==> AnswersTurn(client, k, request, c, turns, i)
    requires client.answer(k + |turns|, SentIn(c, |turns| + 1, HistoryAfter(request, c, turns))) == Ok(t.response)
    ensures AnswersTurn(client, k, request, c, turns + [t], i)
  {
    hide HistoryAfter, SentIn;
    assert (turns + [t])[..i] == turns[..i];
    assert turns[..|turns|] == turns;
  }

  /** The next turn is one more, and either the last or not. */
  lemma OneMoreTurn(client: LLMClient, k: nat, request: seq<Message>, c: Config, turns: seq<Turn>,
                    history: seq<Message>, sent: seq<Message>, t: Turn)
    requires GoesOn(client, k, request, c, turns, history) && sent == SentIn(c, |turns| + 1, history)
    requires IsTurn(c, |turns| + 1, t) && client.answer(k + |turns|, sent) == Ok(t.response)
    requires c.hookFails(|turns| + 1) ==> t.response.finishReason == "length" && t.response.calls != []
    ensures var turns', history' := turns + [t], sent + TurnMessages(t);
            var r := LoopResult(Some(t.response), history', |turns'|, AllTerminate(t.results));
            && HooksPassed(c, turns')
            && if Ends(c, |turns'|, t) then IsLoopRun(client, k, request, c, turns', r)
               else GoesOn(client, k, request, c, turns', history')
  {
    hide IsTurn, Ends, TurnMessages, Threaded, HooksPassed, AllTerminate, SentIn;
    AddTurn(client, k, request, c, turns, history, t);
    HooksStillPass(c, turns, t);
  }

  lemma ShortTurnMessages(sent: seq<Message>, r: Response, results: seq<ToolResult>)
    ensures sent + TurnMessages(Turn(r, results, [], [])) == sent + [AssistantMessage(r)] + ToolMessages(results)
    ensures results == [] ==> sent + TurnMessages(Turn(r, results, [], [])) == sent + [AssistantMessage(r)]
  {
  }

  lemma LongTurnMessages(sent: seq<Message>, t: Turn)
    ensures sent + TurnMessages(t)
         == sent + [AssistantMessage(t.response)] + (ToolMessages(t.results) + t.steering + t.followUp)
  {
  }

  lemma SentIs(c: Config, n: nat, history: seq<Message>, sent: seq<Message>)
    requires sent == if n > 1 && c.transform.Some? && c.transform.value(n, history).Some?
                     then c.transform.value(n, history).value else history
    ensures sent == SentIn(c, n, history)
  {
  }

  lemma BoundIs(c: Config)
    ensures Bound(c) == if c.maxIterations <= 0 then 25 else c.maxIterations
  {
  }

  lemma HasGivenUp(client: LLMClient, k: nat, request: seq<Message>, c: Config, turns: seq<Turn>,
                   history: seq<Message>, r: Response)
    requires GoesOn(client, k, request, c, turns, history)
    requires client.answer(k + |turns|, SentIn(c, |turns| + 1, history)) == Ok(r)
    requires c.hookFails(|turns| + 1) && (r.finishReason == "length" ==> r.calls == [])
    ensures GivesUp(client, k, request, c, turns, history, CriticalHook)
  {
  }

  lemma HasFailed(client: LLMClient, k: nat, request: seq<Message>, c: Config, turns: seq<Turn>,
                  history: seq<Message>, m: string)
    requires GoesOn(client, k, request, c, turns, history)
    requires client.answer(k + |turns|, SentIn(c, |turns| + 1, history)) == Err(m)
    ensures GivesUp(client, k, request, c, turns, history, CompletionFailed(m))
  {
  }

  /** A truncated answer: every call gets an error, and the loop goes on unless the bound is reached. */
  lemma TruncatedTurn(c: Config, n: nat, r: Response)
    requires r.finishReason == "length" && r.calls != []
    ensures var results := TruncationErrors(r.calls); var t := Turn(r, results, [], []);
            IsTurn(c, n, t) && !AllTerminate(results) && (Ends(c, n, t) <==> Bound(c) <= n)
  {
    assert !TruncationErrors(r.calls)[0].terminate;
  }

  /** An answer without calls is the last. */
  lemma FinalTurn(c: Config, n: nat, r: Response)
    requires r.calls == []
    ensures IsTurn(c, n, Turn(r, [], [], [])) && !AllTerminate([]) && Ends(c, n, Turn(r, [], [], []))
  {
  }

  /**
   * A turn with tool calls: the batch, then, unless it terminated or a critical hook failed, the channels.
   * Tool results come first in the history, before anything injected.
   */
  method ToolPhase(c: Config, n: nat, response: Response)
    returns (results: seq<ToolResult>, terminated: bool, steering: seq<Message>, followUp: seq<Message>)
    requires FairOrders(c) && response.calls != [] && response.finishReason != "length"
    ensures terminated == AllTerminate(results)
    ensures var t := Turn(response, results, steering, followUp);
            !c.hookFails(n) ==> IsTurn(c, n, t) && (Ends(c, n, t) <==> terminated || c.shouldStop(n) || Bound(c) <= n)
  {
    hide ExecuteSingleTool, UpToTerminate, CallResults, Drained, RunsParallel, IsOrder, AllFromUser;
    steering, followUp := [], [];
    results, terminated := ExecuteToolCalls(response.calls, Dispatches(c, n, |response.calls|), c.parallelTools,
                                            c.sequentialOnly, c.completion(n, |response.calls|));
    if c.hookFails(n) || terminated {
      return;
    }
    steering := DrainSteering(c.steering(n));
    if steering == [] && c.followUp(n).Some? {
      var message := c.followUp(n).value;
      if message.role.User? {
        followUp := [message];
      }
    }
  }

  /**
   * Over any model, tools, hooks and channels: completions equal Iterations and never exceed the bound; every turn
   * is the one the model, the tools and the channels make it; and the loop stops at the first turn that ends it.
   */
  method RunLoop(client: LLMClient, request: seq<Message>, c: Config)
    returns (r: Result<LoopResult, LoopError>, ghost turns: seq<Turn>, ghost before: seq<Message>)
    requires FairOrders(c)
    modifies client
    ensures client.calls - old(client.calls) <= if c.maxIterations <= 0 then 25 else c.maxIterations
    ensures r.Ok? ==> client.calls == old(client.calls) + r.value.iterations && |turns| == r.value.iterations
    ensures r.Ok? && c.rehearsal ==> r.value == LoopResult(None, [], 0, false)
    ensures r.Ok? && !c.rehearsal ==>
              IsLoopRun(client, old(client.calls), request, c, turns, r.value) && HooksPassed(c, turns)
    ensures r.Err? ==> !c.rehearsal && client.calls == old(client.calls) + |turns| + 1
    ensures r.Err? ==> GivesUp(client, old(client.calls), request, c, turns, before, r.error)
  {
    hide *;
    BoundIs(c);
    turns, before := [], request;
    if c.rehearsal {
      return Ok(LoopResult(None, [], 0, false)), turns, before;
    }
    ghost var k := client.calls;
    var history, iterations := request, 0;
    Starts(client, k, request, c);
    while true
      invariant client.calls == k + iterations && |turns| == iterations < Bound(c)
      invariant GoesOn(client, k, request, c, turns, history)
      decreases Bound(c) - iterations
    {
      before, iterations := history, iterations + 1;
      if iterations > 1 && c.transform.Some? {
        var compacted := c.transform.value(iterations, history);
        if compacted.Some? {
          history := compacted.value;
        }
      }
      ghost var sent := history;
      SentIs(c, iterations, before, sent);
      var completion := client.Complete(history);
      if completion.Err? {
        HasFailed(client, k, request, c, turns, before, completion.error);
        return Err(CompletionFailed(completion.error)), turns, before;
      }
      var response := completion.value;
      history := history + [AssistantMessage(response)];

      if response.finishReason == "length" && response.calls != [] {
        var errors := TruncationErrors(response.calls);
        history := history + ToolMessages(errors);
        TruncatedTurn(c, iterations, response);
        ShortTurnMessages(sent, response, errors);
        OneMoreTurn(client, k, request, c, turns, before, sent, Turn(response, errors, [], []));
        turns := turns + [Turn(response, errors, [], [])];
        if iterations >= Bound(c) {
          return Ok(LoopResult(Some(response), history, iterations, false)), turns, before;
        }
        continue;
      }
      if c.hookFails(iterations) {
        HasGivenUp(client, k, request, c, turns, before, response);
      }
      if response.calls == [] {
        if c.hookFails(iterations) {
          return Err(CriticalHook), turns, before;
        }
        FinalTurn(c, iterations, response);
        ShortTurnMessages(sent, response, []);
        OneMoreTurn(client, k, request, c, turns, before, sent, Turn(response, [], [], []));
        turns := turns + [Turn(response, [], [], [])];
        return Ok(LoopResult(Some(response), history, iterations, false)), turns, before;
      }

      var results, terminated, steering, followUp := ToolPhase(c, iterations, response);
      history := history + (ToolMessages(results) + steering + followUp);
      if c.hookFails(iterations) {
        return Err(CriticalHook), turns, before;
      }
      ghost var t := Turn(response, results, steering, followUp);
      LongTurnMessages(sent, t);
      OneMoreTurn(client, k, request, c, turns, before, sent, t);
      turns := turns + [t];
      if terminated || c.shouldStop(iterations) || iterations >= Bound(c) {
        return Ok(LoopResult(Some(response), history, iterations, terminated)), turns, before;
      }
    }
  }

  // ----- A run with an unanswered call -----

  const THREE_CALLS := Response("", [ToolCall(10, "a"), ToolCall(11, "b"), ToolCall(12, "c")], "tool_calls")
  const DONE := Response("done", [], "stop")

  /** A model that asks for three tools and is then done. */
  function Script(n: nat, history: seq<Message>): Result<Response, string> {
    Ok(if n == 0 then THREE_CALLS else DONE)
  }

  /** The second of the three tools says Terminate. */
  function MiddleTerminates(n: nat, k: nat): Dispatch {
    var r := ToolResult(0, "ok", false, k == 1, "");
    Plain(V2(Ok(Some(r))), Unhooked)
  }

  function InCallOrder(n: nat, k: nat): seq<nat> {
    seq(k, i => i)
  }

  function Sequential(): Config {
    Config(25, false, false, {}, MiddleTerminates, InCallOrder, n => false, n => [], n => None, n => false, None)
  }

  const FIRST_TURN :=
    Turn(THREE_CALLS, [ToolResult(10, "ok", false, false, ""), ToolResult(11, "ok", false, true, "")], [], [])
  const LAST_TURN := Turn(DONE, [], [], [])

  lemma FirstTurnIsCut()
    ensures IsTurn(Sequential(), 1, FIRST_TURN) && !Ends(Sequential(), 1, FIRST_TURN)
  {
    var c := Sequential();
    var all := AllResults(c, 1, THREE_CALLS);
    assert all == [ToolResult(10, "ok", false, false, ""), ToolResult(11, "ok", false, true, ""),
                   ToolResult(12, "ok", false, false, "")];
    CutAt(all, 2);
    assert FIRST_TURN.results == all[..2];
    assert !AllTerminate(FIRST_TURN.results) by { assert !FIRST_TURN.results[0].terminate; }
    assert Drained([], []) by { assert [] == UserMessages([][..0]); }
  }

  lemma LastTurnEnds()
    ensures IsTurn(Sequential(), 2, LAST_TURN) && Ends(Sequential(), 2, LAST_TURN)
  {
    FinalTurn(Sequential(), 2, DONE);
  }

  lemma InCallOrderIsFair(n: nat, k: nat)
    ensures IsOrder(InCallOrder(n, k), k)
  {
    forall i | 0 <= i < k ensures i in InCallOrder(n, k) {
      assert InCallOrder(n, k)[i] == i;
    }
  }

  /**
   * With that model and those tools the loop sends the model a history in which its third call has no answer, and
   * finishes with it: call 12 is in the first of two turns, and no message refers to it.
   */
  lemma UnansweredCallRun(client: LLMClient)
    requires forall n, h :: client.answer(n, h) == Script(n, h)
    ensures var c, turns := Sequential(), [FIRST_TURN, LAST_TURN];
            var history := TurnMessages(FIRST_TURN) + TurnMessages(LAST_TURN);
            && FairOrders(c) && HooksKeepCallIds(c)
            && IsLoopRun(client, 0, [], c, turns, LoopResult(Some(DONE), history, 2, false))
            && |turns[0].results| < |turns[0].response.calls| && turns[0].response.calls[2].id == 12
            && forall i :: 0 <= i < |history| ==> history[i].toolCallId != Some(12)
  {
    var c, turns := Sequential(), [FIRST_TURN, LAST_TURN];
    FirstTurnIsCut();
    LastTurnEnds();
    hide IsTurn, Ends;
    forall n: nat, k: nat ensures IsOrder(c.completion(n, k), k) {
      InCallOrderIsFair(n, k);
    }
    assert [] + [FIRST_TURN] == [FIRST_TURN] && [FIRST_TURN] + [LAST_TURN] == turns;
    assert !AllTerminate([]);
    ScriptedTurn(client, [], [], FIRST_TURN);
    ScriptedTurn(client, [FIRST_TURN], TurnMessages(FIRST_TURN), LAST_TURN);
  }

  lemma ScriptedTurn(client: LLMClient, turns: seq<Turn>, history: seq<Message>, t: Turn)
    requires forall n, h :: client.answer(n, h) == Script(n, h)
    requires Threaded(client, 0, [], Sequential(), turns, history)
    requires turns != [] ==> !Ends(Sequential(), |turns|, turns[|turns| - 1])
    requires IsTurn(Sequential(), |turns| + 1, t) && t.response == if turns == [] then THREE_CALLS else DONE
    ensures Threaded(client, 0, [], Sequential(), turns + [t], history + TurnMessages(t))
  {
    hide IsTurn, Ends, Threaded, TurnMessages;
    AddTurn(client, 0, [], Sequential(), turns, history, t);
  }
}
