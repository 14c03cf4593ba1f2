/** Assembling a completion from the chunks of an event stream. */
module Stream {
  import opened Sorting
  import opened Wrappers
  import opened Text
  import Thinking

  datatype ToolDelta = ToolDelta(index: int, id: string, name: string, arguments: string)

  datatype Delta = Delta(reasoning: string, reasoningContent: string, content: string, toolCalls: seq<ToolDelta>)

  datatype Choice = Choice(finishReason: Option<string>, delta: Delta)

  datatype Usage = Usage(promptTokens: int, completionTokens: int)

  datatype Chunk = Chunk(usage: Option<Usage>, choices: seq<Choice>)

  datatype ToolCall = ToolCall(id: string, name: string, arguments: string)

  datatype Block =
    | ThinkingBlock(thinking: string, fieldName: string)
    | TextBlock(text: string)
    | ToolCallBlock(call: ToolCall)

  datatype Response = Response(blocks: seq<Block>, finishReason: string, usage: Usage, thinkingTokens: nat)

  // ----- What a stretch of the stream contributes -----

  datatype Summary = Summary(
    content: string,
    thinking: string,
    fieldName: string,
    calls: map<int, ToolCall>,
    finishReason: string,
    usage: Option<Usage>)

  const NOTHING := Summary("", "", "", map[], "", None)

  function First(x: string, y: string): string {
    if x != "" then x else y
  }

  function Later(x: string, y: string): string {
    if y != "" then y else x
  }

  function Extend(a: ToolCall, b: ToolCall): ToolCall {
    ToolCall(Later(a.id, b.id), Later(a.name, b.name), a.arguments + b.arguments)
  }

  function Merge(m: map<int, ToolCall>, n: map<int, ToolCall>): map<int, ToolCall> {
    map k | k in m.Keys + n.Keys :: if k !in n then m[k] else if k !in m then n[k] else Extend(m[k], n[k])
  }

  function CallOf(d: ToolDelta): ToolCall {
    ToolCall(d.id, d.name, d.arguments)
  }

  function CallsOf(deltas: seq<ToolDelta>): map<int, ToolCall> {
    if deltas == [] then map[]
    else
      var n := |deltas| - 1;
      Merge(CallsOf(deltas[..n]), map[deltas[n].index := CallOf(deltas[n])])
  }

  /** The provider's native reasoning text, and the field it came in. */
  function ReasoningOf(d: Delta): string {
    First(d.reasoning, d.reasoningContent)
  }

  function FieldOf(d: Delta): string {
    if d.reasoning != "" then "reasoning" else if d.reasoningContent != "" then "reasoning_content" else ""
  }

  function FinishOf(choice: Choice): string {
    if choice.finishReason.Some? then choice.finishReason.value else ""
  }

  /** What one chunk says: usage figures always count, everything else only in a first choice. */
  function Contribution(c: Chunk): Summary {
    if c.choices == [] then NOTHING.(usage := c.usage)
    else
      var choice := c.choices[0];
      Summary(
        choice.delta.content, ReasoningOf(choice.delta), FieldOf(choice.delta), CallsOf(choice.delta.toolCalls),
        FinishOf(choice), c.usage)
  }

  function Combine(s: Summary, t: Summary): Summary {
    Summary(
      s.content + t.content, s.thinking + t.thinking, First(s.fieldName, t.fieldName), Merge(s.calls, t.calls),
      Later(s.finishReason, t.finishReason), if t.usage.Some? then t.usage else s.usage)
  }

  function Summarize(chunks: seq<Chunk>): Summary {
    if chunks == [] then NOTHING
    else Combine(Summarize(chunks[..|chunks| - 1]), Contribution(chunks[|chunks| - 1]))
  }

  // ----- From the summary to the response -----

  ghost predicate IsAscending(s: seq<int>) {
    forall i, j :: 0 <= i < j < |s| ==> s[i] < s[j]
  }

  function CallBlocks(calls: map<int, ToolCall>, indices: seq<int>): (blocks: seq<Block>)
    requires forall k :: 0 <= k < |indices| ==> indices[k] in calls
    ensures |blocks| == |indices|
  {
    seq(|indices|, k requires 0 <= k < |indices| => ToolCallBlock(calls[indices[k]]))
  }

  /** The blocks: thinking, then text, then the tool calls by ascending index. */
  ghost predicate AreBlocks(s: Summary, indices: seq<int>, blocks: seq<Block>) {
    && IsAscending(indices) && Elements(indices) == s.calls.Keys
    && (forall k :: 0 <= k < |indices| ==> indices[k] in s.calls)
    && blocks == (if s.thinking != "" then [ThinkingBlock(Trim(s.thinking), s.fieldName)] else [])
               + (if Trim(s.content) != "" then [TextBlock(Trim(s.content))] else [])
               + CallBlocks(s.calls, indices)
  }

  /** Only without native reasoning, and only in thinking mode, does the text give up its thinking tags. */
  function WithTagsStripped(s: Summary, thinkingMode: bool): Summary {
    var (cleaned, stripped) := Thinking.Strip(s.content);
    if s.thinking == "" && thinkingMode && stripped != ""
    then s.(content := cleaned, thinking := stripped, fieldName := "")
    else s
  }

  ghost predicate IsResponse(s: Summary, thinkingMode: bool, r: Response) {
    var t := WithTagsStripped(s, thinkingMode);
    && r.finishReason == s.finishReason
    && r.usage == (if s.usage.Some? then s.usage.value else Usage(0, 0))
    && r.thinkingTokens == |Trim(t.thinking)| / 4
    && exists indices :: AreBlocks(t, indices, r.blocks)
  }

  // ----- The parser -----

  function Position(index: int): real {
    index as real
  }

  function Identity(index: int): int {
    index
  }

  /** The keys of the table, collected in whatever order it yields them, and then sorted. */
  method SortIndices(keys: set<int>) returns (indices: seq<int>)
    ensures IsAscending(indices) && Elements(indices) == keys
  {
    hide SortedBy, DistinctBy, IsAscending;
    var collected: seq<int> := [];
    var left := keys;
    NoneCollected();
    while left != {}
      invariant Elements(collected) + left == keys && Elements(collected) !! left && DistinctBy(collected, Identity)
      decreases |left|
    {
      var x := Pick(left);
      left := left - {x};
      Collect(collected, x);
      collected := collected + [x];
    }
    indices := SortBy(collected, Position);
    SortedAscends(collected, indices);
  }

  lemma NoneCollected()
    ensures Elements<int>([]) == {} && DistinctBy([], Identity)
  {
  }

  lemma Collect(collected: seq<int>, x: int)
    requires DistinctBy(collected, Identity) && x !in Elements(collected)
    ensures DistinctBy(collected + [x], Identity) && Elements(collected + [x]) == Elements(collected) + {x}
  {
    ElementsAppend(collected, x);
    assert forall i :: 0 <= i < |collected| ==> collected[i] in Elements(collected);
  }

  lemma SortedAscends(collected: seq<int>, indices: seq<int>)
    requires multiset(indices) == multiset(collected) && SortedBy(indices, Position) && DistinctBy(collected, Identity)
    ensures IsAscending(indices) && Elements(indices) == Elements(collected)
  {
    PermutationKeepsMembers(indices, collected);
    PermutationStaysDistinct(collected, indices, Identity);
    forall i, j | 0 <= i < j < |indices| ensures indices[i] < indices[j] {
      assert Position(indices[i]) <= Position(indices[j]) && Identity(indices[i]) != Identity(indices[j]);
    }
  }

  /** One tool-call fragment: a new index starts an empty call, and the fragment extends what is there. */
  method AddFragment(calls: map<int, ToolCall>, tc: ToolDelta) returns (calls': map<int, ToolCall>)
    ensures calls' == Merge(calls, map[tc.index := CallOf(tc)])
  {
    var acc := if tc.index in calls then calls[tc.index] else ToolCall("", "", "");
    if tc.id != "" {
      acc := acc.(id := tc.id);
    }
    if tc.name != "" {
      acc := acc.(name := tc.name);
    }
    acc := acc.(arguments := acc.arguments + tc.arguments);
    assert "" + tc.arguments == tc.arguments;
    calls' := calls[tc.index := acc];
  }

  method AddFragments(calls: map<int, ToolCall>, deltas: seq<ToolDelta>) returns (calls': map<int, ToolCall>)
    ensures calls' == Merge(calls, CallsOf(deltas))
  {
    calls' := calls;
    assert deltas[..0] == [] && Merge(calls, map[]) == calls;
    for j := 0 to |deltas|
      invariant calls' == Merge(calls, CallsOf(deltas[..j]))
    {
      assert deltas[..j + 1][..j] == deltas[..j];
      MergeIsAssociative(calls, CallsOf(deltas[..j]), map[deltas[j].index := CallOf(deltas[j])]);
      calls' := AddFragment(calls', deltas[j]);
    }
    assert deltas[..|deltas|] == deltas;
  }

  lemma UsageOnly(s: Summary, c: Chunk)
    requires c.choices == []
    ensures Combine(s, Contribution(c)) == if c.usage.Some? then s.(usage := c.usage) else s
  {
    CombineNothing(s);
  }

  /** The parser's assignments for a first choice, one field at a time, are the combination. */
  lemma ReadsChoice(s: Summary, c: Chunk, s': Summary)
    requires c.choices != []
    requires var d := c.choices[0].delta;
             && s'.content == (if d.content != "" then s.content + d.content else s.content)
             && s'.calls == Merge(s.calls, CallsOf(d.toolCalls))
    requires var r := c.choices[0].delta.reasoning; var rc := c.choices[0].delta.reasoningContent;
             var text, source := if r == "" then rc else r, if r == "" then "reasoning_content" else "reasoning";
             && s'.thinking == (if text != "" then s.thinking + text else s.thinking)
             && s'.fieldName == (if text != "" && s.fieldName == "" then source else s.fieldName)
    requires var f := c.choices[0].finishReason;
             && s'.finishReason == (if f.Some? && f.value != "" then f.value else s.finishReason)
             && s'.usage == (if c.usage.Some? then c.usage else s.usage)
    ensures s' == Combine(s, Contribution(c))
  {
    hide Merge, CallsOf;
    assert s.content + "" == s.content && s.thinking + "" == s.thinking;
  }

  method ParseStream(chunks: seq<Chunk>, thinkingMode: bool) returns (r: Response)
    ensures IsResponse(Summarize(chunks), thinkingMode, r)
  {
    hide Merge, CallsOf, Combine, Contribution, Summarize, ReasoningOf, FieldOf, FinishOf, Trim, AreBlocks;
    hide Thinking.Strip;
    var content, thinking, fieldName, finishReason := "", "", "", "";
    var calls: map<int, ToolCall> := map[];
    var usage: Option<Usage> := None;
    SummaryOfNothing();
    assert chunks[..0] == [];
    for i := 0 to |chunks|
      invariant Summary(content, thinking, fieldName, calls, finishReason, usage) == Summarize(chunks[..i])
    {
      var chunk := chunks[i];
      ghost var before := Summarize(chunks[..i]);
      assert chunks[..i + 1] == chunks[..i] + [chunk];
      SummaryGrows(chunks[..i], chunk);
      if chunk.usage.Some? {
        usage := chunk.usage;
      }
      if |chunk.choices| == 0 {
        UsageOnly(before, chunk);
        continue;
      }
      var choice := chunk.choices[0];
      if choice.finishReason.Some? && choice.finishReason.value != "" {
        finishReason := choice.finishReason.value;
      }
      var reasoningDelta, reasoningSource := choice.delta.reasoning, "reasoning";
      if reasoningDelta == "" {
        reasoningDelta, reasoningSource := choice.delta.reasoningContent, "reasoning_content";
      }
      if reasoningDelta != "" {
        thinking := thinking + reasoningDelta;
        if fieldName == "" {
          fieldName := reasoningSource;
        }
      }
      if choice.delta.content != "" {
        content := content + choice.delta.content;
      }
      calls := AddFragments(calls, choice.delta.toolCalls);
      ReadsChoice(before, chunk, Summary(content, thinking, fieldName, calls, finishReason, usage));
    }
    assert chunks[..|chunks|] == chunks;
    ghost var s := Summarize(chunks);
    if thinking == "" && thinkingMode {
      var cleaned, stripped := Thinking.StripThinkingTokens(content);
      if stripped != "" {
        content, thinking, fieldName := cleaned, stripped, "";
      }
    }
    var blocks := BuildBlocks(content, thinking, fieldName, calls, WithTagsStripped(s, thinkingMode));
    r := Response(
      blocks, finishReason, if usage.Some? then usage.value else Usage(0, 0), |Trim(thinking)| / 4);
  }

  method BuildBlocks(content: string, thinking: string, fieldName: string, calls: map<int, ToolCall>, ghost s: Summary)
    returns (blocks: seq<Block>)
    requires s.content == content && s.thinking == thinking && s.fieldName == fieldName && s.calls == calls
    ensures exists indices :: AreBlocks(s, indices, blocks)
  {
    hide CallBlocks, Trim, IsAscending;
    blocks := [];
    if thinking != "" {
      blocks := blocks + [ThinkingBlock(Trim(thinking), fieldName)];
    }
    if Trim(content) != "" {
      blocks := blocks + [TextBlock(Trim(content))];
    }
    ghost var texts := blocks;
    var indices := SortIndices(calls.Keys);
    NoCallBlocks(calls);
    assert indices[..0] == [];
    for k := 0 to |indices|
      invariant forall j :: 0 <= j < k ==> indices[j] in calls
      invariant blocks == texts + CallBlocks(calls, indices[..k])
    {
      ElementsHas(indices, k);
      OneMoreCall(calls, indices, k);
      blocks := blocks + [ToolCallBlock(calls[indices[k]])];
    }
    assert indices[..|indices|] == indices;
    assert AreBlocks(s, indices, blocks);
  }

  lemma NoCallBlocks(calls: map<int, ToolCall>)
    ensures CallBlocks(calls, []) == []
  {
  }

  lemma OneMoreCall(calls: map<int, ToolCall>, indices: seq<int>, k: nat)
    requires k < |indices| && forall j :: 0 <= j <= k ==> indices[j] in calls
    ensures CallBlocks(calls, indices[..k + 1]) == CallBlocks(calls, indices[..k]) + [ToolCallBlock(calls[indices[k]])]
  {
  }

  lemma NoElements(s: seq<int>)
    ensures Elements(s) == {} <==> s == []
  {
    assert s != [] ==> s[0] in Elements(s);
  }

  lemma {:induction false} AscendingIsUnique(a: seq<int>, b: seq<int>)
    requires IsAscending(a) && IsAscending(b) && Elements(a) == Elements(b)
    ensures a == b
  {
    NoElements(a);
    NoElements(b);
    if a != [] {
      ElementsHas(a, 0);
      ElementsHas(b, 0);
      var i :| 0 <= i < |a| && a[i] == b[0];
      var j :| 0 <= j < |b| && b[j] == a[0];
      assert a[0] <= a[i] && b[0] <= b[j];
      RestHasTheOthers(a);
      RestHasTheOthers(b);
      AscendingIsUnique(a[1..], b[1..]);
    }
  }

  lemma RestHasTheOthers(a: seq<int>)
    requires IsAscending(a) && a != []
    ensures IsAscending(a[1..]) && Elements(a[1..]) == Elements(a) - {a[0]}
  {
    assert a == [a[0]] + a[1..];
    forall x | x in Elements(a) - {a[0]} ensures x in a[1..] {
      assert x in [a[0]] + a[1..];
    }
  }

  /** The summary determines the response, whatever order the table of calls is iterated in. */
  lemma ResponseIsUnique(s: Summary, thinkingMode: bool, r: Response, r': Response)
    requires IsResponse(s, thinkingMode, r) && IsResponse(s, thinkingMode, r')
    ensures r == r'
  {
    hide IsAscending, Trim, Thinking.Strip;
    var t := WithTagsStripped(s, thinkingMode);
    var a :| AreBlocks(t, a, r.blocks);
    var b :| AreBlocks(t, b, r'.blocks);
    AscendingIsUnique(a, b);
  }

  // ----- Summaries compose -----

  lemma ExtendIsAssociative(a: ToolCall, b: ToolCall, c: ToolCall)
    ensures Extend(Extend(a, b), c) == Extend(a, Extend(b, c))
  {
    assert a.arguments + b.arguments + c.arguments == a.arguments + (b.arguments + c.arguments);
  }

  lemma MergeIsAssociative(m: map<int, ToolCall>, n: map<int, ToolCall>, o: map<int, ToolCall>)
    ensures Merge(Merge(m, n), o) == Merge(m, Merge(n, o))
  {
    hide Extend;
    forall k | k in m && k in n && k in o ensures Extend(Extend(m[k], n[k]), o[k]) == Extend(m[k], Extend(n[k], o[k])) {
      ExtendIsAssociative(m[k], n[k], o[k]);
    }
  }

  lemma MergeNothing(m: map<int, ToolCall>)
    ensures Merge(m, map[]) == m == Merge(map[], m)
  {
  }

  lemma CombineIsAssociative(s: Summary, t: Summary, u: Summary)
    ensures Combine(Combine(s, t), u) == Combine(s, Combine(t, u))
  {
    hide Merge;
    MergeIsAssociative(s.calls, t.calls, u.calls);
    assert s.content + t.content + u.content == s.content + (t.content + u.content);
    assert s.thinking + t.thinking + u.thinking == s.thinking + (t.thinking + u.thinking);
  }

  lemma CombineNothing(s: Summary)
    ensures Combine(s, NOTHING) == s == Combine(NOTHING, s)
  {
    hide Merge;
    MergeNothing(s.calls);
    assert s.content + "" == s.content == "" + s.content;
    assert s.thinking + "" == s.thinking == "" + s.thinking;
  }

  lemma SummaryOfNothing()
    ensures Summarize([]) == NOTHING
  {
  }

  lemma SummaryGrows(chunks: seq<Chunk>, c: Chunk)
    ensures Summarize(chunks + [c]) == Combine(Summarize(chunks), Contribution(c))
  {
    assert (chunks + [c])[..|chunks|] == chunks;
  }

  /** Reading one stretch of the stream and then another adds up to the combination of the two summaries. */
  lemma {:induction false} SummaryOfConcatenation(a: seq<Chunk>, b: seq<Chunk>)
    ensures Summarize(a + b) == Combine(Summarize(a), Summarize(b))
  {
    hide Combine, Contribution;
    if b == [] {
      assert a + b == a;
      CombineNothing(Summarize(a));
    } else {
      var n := |b| - 1;
      assert (a + b)[..|a| + n] == a + b[..n];
      SummaryOfConcatenation(a, b[..n]);
      CombineIsAssociative(Summarize(a), Summarize(b[..n]), Contribution(b[n]));
    }
  }

  lemma SummaryOfPair(c: Chunk, d: Chunk)
    ensures Summarize([c, d]) == Combine(Contribution(c), Contribution(d))
    ensures Summarize([c]) == Contribution(c)
  {
    hide Combine, Contribution, Summarize;
    SummaryOfNothing();
    SummaryGrows([], c);
    SummaryGrows([c], d);
    assert [] + [c] == [c] && [c] + [d] == [c, d];
    CombineNothing(Contribution(c));
  }

  /** Whatever replaces a stretch without changing its summary leaves the response as it was. */
  lemma ReplacingAStretch(
      before: seq<Chunk>, xs: seq<Chunk>, ys: seq<Chunk>, after: seq<Chunk>, thinkingMode: bool,
      r: Response, r': Response)
    requires Summarize(xs) == Summarize(ys)
    requires IsResponse(Summarize(before + xs + after), thinkingMode, r)
    requires IsResponse(Summarize(before + ys + after), thinkingMode, r')
    ensures r == r'
  {
    hide Summarize, Combine, IsResponse;
    SummaryOfConcatenation(before + xs, after);
    SummaryOfConcatenation(before, xs);
    SummaryOfConcatenation(before + ys, after);
    SummaryOfConcatenation(before, ys);
    ResponseIsUnique(Summarize(before + xs + after), thinkingMode, r, r');
  }

  // ----- Chunking does not matter -----

  /** A chunk with one choice that carries nothing but the given delta. */
  function Bare(d: Delta): Chunk {
    Chunk(None, [Choice(None, d)])
  }

  function WithDelta(c: Chunk, d: Delta): Chunk
    requires c.choices != []
  {
    c.(choices := [c.choices[0].(delta := d)] + c.choices[1..])
  }

  lemma WithDeltaContributes(c: Chunk, d: Delta)
    requires c.choices != []
    ensures Contribution(WithDelta(c, d)) == Summary(
      d.content, ReasoningOf(d), FieldOf(d), CallsOf(d.toolCalls), FinishOf(c.choices[0]), c.usage)
    ensures Contribution(Bare(d)) == Summary(d.content, ReasoningOf(d), FieldOf(d), CallsOf(d.toolCalls), "", None)
  {
  }

  /** The content of a chunk may arrive in two chunks instead. */
  lemma SplittingContent(c: Chunk, x: string, y: string)
    requires c.choices != [] && c.choices[0].delta.content == x + y
    ensures Summarize([c])
         == Summarize([WithDelta(c, c.choices[0].delta.(content := x)), Bare(Delta("", "", y, []))])
  {
    hide CallsOf, Merge;
    var d := c.choices[0].delta;
    var c1, c2 := WithDelta(c, d.(content := x)), Bare(Delta("", "", y, []));
    SummaryOfPair(c, c);
    SummaryOfPair(c1, c2);
    WithDeltaContributes(c, d.(content := x));
    WithDeltaContributes(c, Delta("", "", y, []));
    NoCalls();
    MergeNothing(CallsOf(d.toolCalls));
    assert d.content == x + y && ReasoningOf(d) + "" == ReasoningOf(d);
  }

  lemma NoCalls()
    ensures CallsOf([]) == map[]
  {
  }

  /** The native field is read first; an empty first part would let a fallback field through that it used to mask. */
  predicate Unmasks(fallback: string, x: string, y: string) {
    x == "" && y != "" && fallback != ""
  }

  /** So may its reasoning, exactly if that does not unmask the fallback field. */
  lemma SplittingReasoning(c: Chunk, x: string, y: string)
    requires c.choices != [] && c.choices[0].delta.reasoning == x + y
    ensures var d := c.choices[0].delta;
            var c1, c2 := WithDelta(c, d.(reasoning := x)), Bare(Delta(y, "", "", []));
            Summarize([c]) == Summarize([c1, c2]) <==> !Unmasks(d.reasoningContent, x, y)
  {
    hide CallsOf, Merge;
    var d := c.choices[0].delta;
    var c1, c2 := WithDelta(c, d.(reasoning := x)), Bare(Delta(y, "", "", []));
    SummaryOfPair(c, c);
    SummaryOfPair(c1, c2);
    WithDeltaContributes(c, d.(reasoning := x));
    WithDeltaContributes(c, d);
    WithDeltaContributes(c, Delta(y, "", "", []));
    NoCalls();
    MergeNothing(CallsOf(d.toolCalls));
    assert d.content + "" == d.content;
    assert x == "" ==> x + y == y;
    assert y == "" ==> x + y == x;
    if Unmasks(d.reasoningContent, x, y) {
      assert |Summarize([c1, c2]).thinking| == |d.reasoningContent| + |y| > |y| == |Summarize([c]).thinking|;
    }
  }

  /** The same for reasoning that arrives in the fallback field. */
  lemma SplittingFallbackReasoning(c: Chunk, x: string, y: string)
    requires c.choices != [] && c.choices[0].delta.reasoning == ""
    requires c.choices[0].delta.reasoningContent == x + y
    ensures Summarize([c])
         == Summarize([WithDelta(c, c.choices[0].delta.(reasoningContent := x)), Bare(Delta("", y, "", []))])
  {
    hide CallsOf, Merge;
    var d := c.choices[0].delta;
    var c1, c2 := WithDelta(c, d.(reasoningContent := x)), Bare(Delta("", y, "", []));
    SummaryOfPair(c, c);
    SummaryOfPair(c1, c2);
    WithDeltaContributes(c, d.(reasoningContent := x));
    WithDeltaContributes(c, Delta("", y, "", []));
    NoCalls();
    MergeNothing(CallsOf(d.toolCalls));
    assert d.content + "" == d.content;
    assert x == "" ==> x + y == y;
  }

  lemma {:induction false} CallsOfConcatenation(a: seq<ToolDelta>, b: seq<ToolDelta>)
    ensures CallsOf(a + b) == Merge(CallsOf(a), CallsOf(b))
  {
    hide Merge;
    if b == [] {
      assert a + b == a;
      MergeNothing(CallsOf(a));
    } else {
      var n := |b| - 1;
      assert (a + b)[..|a| + n] == a + b[..n];
      CallsOfConcatenation(a, b[..n]);
      MergeIsAssociative(CallsOf(a), CallsOf(b[..n]), map[b[n].index := CallOf(b[n])]);
    }
  }

  lemma CallsOfOne(d: ToolDelta)
    ensures CallsOf([d]) == map[d.index := CallOf(d)]
  {
    assert [d][..0] == [];
    MergeNothing(map[d.index := CallOf(d)]);
  }

  /** The fragment at position `j` may be cut in two: its second half needs the index only. */
  lemma SplittingArguments(c: Chunk, j: nat, x: string, y: string)
    requires c.choices != [] && j < |c.choices[0].delta.toolCalls|
    requires c.choices[0].delta.toolCalls[j].arguments == x + y
    ensures var d := c.choices[0].delta;
            var first := d.toolCalls[..j] + [d.toolCalls[j].(arguments := x)];
            var second := [ToolDelta(d.toolCalls[j].index, "", "", y)] + d.toolCalls[j + 1..];
            Summarize([c]) == Summarize([WithDelta(c, d.(toolCalls := first)), Bare(Delta("", "", "", second))])
  {
    hide CallsOf, Merge;
    var d := c.choices[0].delta;
    var first := d.toolCalls[..j] + [d.toolCalls[j].(arguments := x)];
    var second := [ToolDelta(d.toolCalls[j].index, "", "", y)] + d.toolCalls[j + 1..];
    SummaryOfPair(c, c);
    SummaryOfPair(WithDelta(c, d.(toolCalls := first)), Bare(Delta("", "", "", second)));
    WithDeltaContributes(c, d.(toolCalls := first));
    WithDeltaContributes(c, Delta("", "", "", second));
    FragmentInTwo(d.toolCalls, j, x, y);
    assert d.content + "" == d.content && ReasoningOf(d) + "" == ReasoningOf(d);
  }

  lemma FragmentInTwo(deltas: seq<ToolDelta>, j: nat, x: string, y: string)
    requires j < |deltas| && deltas[j].arguments == x + y
    ensures CallsOf(deltas) == Merge(
      CallsOf(deltas[..j] + [deltas[j].(arguments := x)]),
      CallsOf([ToolDelta(deltas[j].index, "", "", y)] + deltas[j + 1..]))
  {
    hide CallsOf, Merge;
    var d := deltas[j];
    var p, q := d.(arguments := x), ToolDelta(d.index, "", "", y);
    var before, after := CallsOf(deltas[..j]), CallsOf(deltas[j + 1..]);
    assert deltas == deltas[..j] + ([d] + deltas[j + 1..]);
    CallsOfConcatenation(deltas[..j], [d] + deltas[j + 1..]);
    CallsOfConcatenation([d], deltas[j + 1..]);
    CallsOfConcatenation(deltas[..j], [p]);
    CallsOfConcatenation([q], deltas[j + 1..]);
    HalvesMerge(d, x, y);
    MergeIsAssociative(before, CallsOf([p]), Merge(CallsOf([q]), after));
    MergeIsAssociative(CallsOf([p]), CallsOf([q]), after);
  }

  lemma HalvesMerge(d: ToolDelta, x: string, y: string)
    requires d.arguments == x + y
    ensures CallsOf([d]) == Merge(CallsOf([d.(arguments := x)]), CallsOf([ToolDelta(d.index, "", "", y)]))
  {
    CallsOfOne(d);
    CallsOfOne(d.(arguments := x));
    CallsOfOne(ToolDelta(d.index, "", "", y));
  }

  function Indices(deltas: seq<ToolDelta>): set<int> {
    set d | d in deltas :: d.index
  }

  /** Neighbouring chunks that carry only fragments of different calls may change places. */
  lemma SwappingToolChunks(a: seq<ToolDelta>, b: seq<ToolDelta>)
    requires Indices(a) !! Indices(b)
    ensures var c, d := Bare(Delta("", "", "", a)), Bare(Delta("", "", "", b));
            Summarize([c, d]) == Summarize([d, c])
  {
    var c, d := Bare(Delta("", "", "", a)), Bare(Delta("", "", "", b));
    SummaryOfPair(c, d);
    SummaryOfPair(d, c);
    CallsHaveIndices(a);
    CallsHaveIndices(b);
    assert Merge(CallsOf(a), CallsOf(b)) == Merge(CallsOf(b), CallsOf(a));
  }

  lemma {:induction false} CallsHaveIndices(deltas: seq<ToolDelta>)
    ensures CallsOf(deltas).Keys == Indices(deltas)
  {
    if deltas != [] {
      var n := |deltas| - 1;
      CallsHaveIndices(deltas[..n]);
      assert deltas == deltas[..n] + [deltas[n]];
    }
  }

  // ----- What ends up in a call -----

  /** The first choices of the stream, in order; the parser reads no others. */
  function FirstChoices(chunks: seq<Chunk>): seq<Choice> {
    if chunks == [] then []
    else
      var n := |chunks| - 1;
      FirstChoices(chunks[..n]) + (if chunks[n].choices == [] then [] else [chunks[n].choices[0]])
  }

  lemma {:induction false} FirstChoicesArePicked(chunks: seq<Chunk>) returns (at: seq<nat>)
    ensures Picks(chunks, (c: Chunk) => c.choices != [], at)
    ensures |at| == |FirstChoices(chunks)|
    ensures forall k :: 0 <= k < |at| ==>
              at[k] < |chunks| && chunks[at[k]].choices != [] && FirstChoices(chunks)[k] == chunks[at[k]].choices[0]
  {
    hide Picks;
    var chosen := (c: Chunk) => c.choices != [];
    if chunks == [] {
      at := [];
      PicksNone(chosen);
    } else {
      var n := |chunks| - 1;
      var before, last := chunks[..n], chunks[n];
      var there := FirstChoicesArePicked(before);
      assert chunks == before + [last];
      PicksMore(before, last, chosen, there);
      at := if chosen(last) then there + [n] else there;
      forall k | 0 <= k < |at|
        ensures at[k] < |chunks| && chunks[at[k]].choices != []
             && FirstChoices(chunks)[k] == chunks[at[k]].choices[0]
      {
        assert k < |there| ==> before[there[k]] == chunks[there[k]];
      }
    }
  }

  /** All tool-call fragments of these choices, in order of arrival. */
  function Fragments(choices: seq<Choice>): seq<ToolDelta> {
    if choices == [] then [] else Fragments(choices[..|choices| - 1]) + choices[|choices| - 1].delta.toolCalls
  }

  function Deltas(chunks: seq<Chunk>): seq<ToolDelta> {
    Fragments(FirstChoices(chunks))
  }

  /** The fragments of one call, in order. */
  function FragmentsOf(deltas: seq<ToolDelta>, index: int): seq<ToolDelta> {
    if deltas == [] then []
    else
      var n := |deltas| - 1;
      FragmentsOf(deltas[..n], index) + (if deltas[n].index == index then [deltas[n]] else [])
  }

  lemma {:induction false} FragmentsArePicked(deltas: seq<ToolDelta>, index: int) returns (at: seq<nat>)
    ensures Picks(deltas, (d: ToolDelta) => d.index == index, at)
    ensures |at| == |FragmentsOf(deltas, index)|
    ensures forall k :: 0 <= k < |at| ==> at[k] < |deltas| && FragmentsOf(deltas, index)[k] == deltas[at[k]]
  {
    hide Picks;
    var chosen := (d: ToolDelta) => d.index == index;
    if deltas == [] {
      at := [];
      PicksNone(chosen);
    } else {
      var n := |deltas| - 1;
      var before, last := deltas[..n], deltas[n];
      var there := FragmentsArePicked(before, index);
      assert deltas == before + [last];
      PicksMore(before, last, chosen, there);
      at := if chosen(last) then there + [n] else there;
      forall k | 0 <= k < |at| ensures at[k] < |deltas| && FragmentsOf(deltas, index)[k] == deltas[at[k]] {
        assert k < |there| ==> before[there[k]] == deltas[there[k]];
      }
    }
  }

  function Joined(fragments: seq<ToolDelta>): string {
    if fragments == [] then "" else Joined(fragments[..|fragments| - 1]) + fragments[|fragments| - 1].arguments
  }

  /** The last of the strings that is not empty, and the empty string without one. */
  function LastNonEmpty(strings: seq<string>): string {
    if strings == [] then ""
    else Later(LastNonEmpty(strings[..|strings| - 1]), strings[|strings| - 1])
  }

  ghost predicate IsLastNonEmpty(last: string, strings: seq<string>) {
    if last == "" then forall i :: 0 <= i < |strings| ==> strings[i] == ""
    else exists i :: 0 <= i < |strings| && strings[i] == last && forall j :: i < j < |strings| ==> strings[j] == ""
  }

  lemma LastNonEmptyGrows(last: string, strings: seq<string>, s: string)
    requires IsLastNonEmpty(last, strings)
    ensures IsLastNonEmpty(Later(last, s), strings + [s])
  {
    var longer := strings + [s];
    assert longer[|strings|] == s && forall i :: 0 <= i < |strings| ==> longer[i] == strings[i];
    if s == "" && last != "" {
      var i :| 0 <= i < |strings| && strings[i] == last && forall j :: i < j < |strings| ==> strings[j] == "";
      assert longer[i] == last;
    }
  }

  lemma {:induction false} LastNonEmptyIs(strings: seq<string>)
    ensures IsLastNonEmpty(LastNonEmpty(strings), strings)
  {
    hide Later;
    if strings != [] {
      var n := |strings| - 1;
      LastNonEmptyIs(strings[..n]);
      hide IsLastNonEmpty;
      LastNonEmptyGrows(LastNonEmpty(strings[..n]), strings[..n], strings[n]);
      assert strings == strings[..n] + [strings[n]];
    }
  }

  function Ids(fragments: seq<ToolDelta>): seq<string> {
    seq(|fragments|, i requires 0 <= i < |fragments| => fragments[i].id)
  }

  function Names(fragments: seq<ToolDelta>): seq<string> {
    seq(|fragments|, i requires 0 <= i < |fragments| => fragments[i].name)
  }

  function CallFrom(fragments: seq<ToolDelta>): ToolCall {
    ToolCall(LastNonEmpty(Ids(fragments)), LastNonEmpty(Names(fragments)), Joined(fragments))
  }

  lemma {:induction false} CallsAreThoseOfAllDeltas(chunks: seq<Chunk>)
    ensures Summarize(chunks).calls == CallsOf(Deltas(chunks))
  {
    hide Merge, CallsOf;
    if chunks == [] {
      NoCalls();
    } else {
      var n := |chunks| - 1;
      var before := FirstChoices(chunks[..n]);
      CallsAreThoseOfAllDeltas(chunks[..n]);
      if chunks[n].choices == [] {
        assert FirstChoices(chunks) == before;
        MergeNothing(CallsOf(Fragments(before)));
      } else {
        var choice := chunks[n].choices[0];
        assert FirstChoices(chunks) == before + [choice] && (before + [choice])[..|before|] == before;
        CallsOfConcatenation(Fragments(before), choice.delta.toolCalls);
      }
    }
  }

  lemma {:induction false} CallIsItsFragments(deltas: seq<ToolDelta>, index: int)
    ensures index in CallsOf(deltas) <==> FragmentsOf(deltas, index) != []
    ensures index in CallsOf(deltas) ==> CallsOf(deltas)[index] == CallFrom(FragmentsOf(deltas, index))
  {
    if deltas != [] {
      var n := |deltas| - 1;
      CallIsItsFragments(deltas[..n], index);
      var fs := FragmentsOf(deltas[..n], index);
      if deltas[n].index == index {
        OneMoreFragment(fs, deltas[n]);
        assert FragmentsOf(deltas, index) == fs + [deltas[n]];
      } else {
        assert FragmentsOf(deltas, index) == fs;
      }
    }
  }

  lemma LastOfLonger(strings: seq<string>, last: string)
    ensures LastNonEmpty(strings + [last]) == Later(LastNonEmpty(strings), last)
  {
    assert (strings + [last])[..|strings|] == strings;
  }

  lemma JoinedGrows(fs: seq<ToolDelta>, d: ToolDelta)
    ensures Joined(fs + [d]) == Joined(fs) + d.arguments
  {
    assert (fs + [d])[..|fs|] == fs;
  }

  lemma LabelsGrow(fs: seq<ToolDelta>, d: ToolDelta)
    ensures Ids(fs + [d]) == Ids(fs) + [d.id] && Names(fs + [d]) == Names(fs) + [d.name]
  {
  }

  lemma NoFragments()
    ensures CallFrom([]) == ToolCall("", "", "")
  {
  }

  lemma OneMoreFragment(fs: seq<ToolDelta>, d: ToolDelta)
    ensures CallFrom(fs + [d]) == Extend(CallFrom(fs), CallOf(d))
    ensures fs == [] ==> CallFrom(fs + [d]) == CallOf(d)
  {
    hide Joined, LastNonEmpty, Ids, Names;
    JoinedGrows(fs, d);
    LabelsGrow(fs, d);
    LastOfLonger(Ids(fs), d.id);
    LastOfLonger(Names(fs), d.name);
    NoFragments();
    assert "" + d.arguments == d.arguments;
  }

  /**
   * A call appears exactly if the stream has a fragment of its index; its arguments are the fragments' arguments in
   * order of arrival, its id and name the last ones sent.
   */
  lemma CallsAreConcatenations(chunks: seq<Chunk>, index: int)
    ensures var calls, fs := Summarize(chunks).calls, FragmentsOf(Deltas(chunks), index);
            && (index in calls <==> fs != [])
            && (index in calls ==> calls[index] == CallFrom(fs))
  {
    CallsAreThoseOfAllDeltas(chunks);
    CallIsItsFragments(Deltas(chunks), index);
  }

  // ----- What ends up in the texts -----

  function Texts(choices: seq<Choice>, part: Choice -> string): string {
    if choices == [] then "" else Texts(choices[..|choices| - 1], part) + part(choices[|choices| - 1])
  }

  /** Text and reasoning are the concatenations of their fragments; a finish reason holds until the next one. */
  lemma {:induction false} TextsAreConcatenations(chunks: seq<Chunk>)
    ensures var s, choices := Summarize(chunks), FirstChoices(chunks);
            && s.content == Texts(choices, (c: Choice) => c.delta.content)
            && s.thinking == Texts(choices, (c: Choice) =>
                 if c.delta.reasoning == "" then c.delta.reasoningContent else c.delta.reasoning)
            && s.finishReason == LastNonEmpty(FinishesOf(choices))
  {
    hide Merge, CallsOf;
    if chunks != [] {
      var n := |chunks| - 1;
      var before := FirstChoices(chunks[..n]);
      TextsAreConcatenations(chunks[..n]);
      if chunks[n].choices == [] {
        assert FirstChoices(chunks) == before;
      } else {
        var choice := chunks[n].choices[0];
        var choices := before + [choice];
        assert FirstChoices(chunks) == choices;
        assert choices[..|before|] == before;
        assert FinishesOf(choices)[..|before|] == FinishesOf(before);
      }
    }
  }

  function FinishesOf(choices: seq<Choice>): (fs: seq<string>)
    ensures |fs| == |choices| && forall i :: 0 <= i < |fs| ==>
              fs[i] == if choices[i].finishReason.Some? then choices[i].finishReason.value else ""
  {
    seq(|choices|, i requires 0 <= i < |choices| => FinishOf(choices[i]))
  }

  predicate Reasons(choice: Choice) {
    choice.delta.reasoning != "" || choice.delta.reasoningContent != ""
  }

  /** `field` names the field of the first reasoning among these choices, if there is any. */
  ghost predicate IsFirstField(field: string, choices: seq<Choice>) {
    if field == "" then forall i :: 0 <= i < |choices| ==> !Reasons(choices[i])
    else exists i :: 0 <= i < |choices| && Reasons(choices[i]) && (forall j :: 0 <= j < i ==> !Reasons(choices[j]))
           && field == if choices[i].delta.reasoning != "" then "reasoning" else "reasoning_content"
  }

  lemma FirstFieldGrows(field: string, choices: seq<Choice>, choice: Choice)
    requires IsFirstField(field, choices)
    ensures IsFirstField(First(field, FieldOf(choice.delta)), choices + [choice])
  {
    var longer := choices + [choice];
    assert longer[|choices|] == choice && forall i :: 0 <= i < |choices| ==> longer[i] == choices[i];
    if field != "" {
      var i :| 0 <= i < |choices| && Reasons(choices[i]) && (forall j :: 0 <= j < i ==> !Reasons(choices[j]))
            && field == if choices[i].delta.reasoning != "" then "reasoning" else "reasoning_content";
      assert Reasons(longer[i]);
    } else if Reasons(choice) {
      assert Reasons(longer[|choices|]);
    }
  }

  /** The field name is that of the first reasoning that arrives. */
  lemma {:induction false} FieldIsTheFirst(chunks: seq<Chunk>)
    ensures IsFirstField(Summarize(chunks).fieldName, FirstChoices(chunks))
  {
    hide Merge, CallsOf, IsFirstField, FieldOf;
    if chunks == [] {
      NoField();
    } else {
      var n := |chunks| - 1;
      var before, choices := FirstChoices(chunks[..n]), FirstChoices(chunks);
      FieldIsTheFirst(chunks[..n]);
      if chunks[n].choices == [] {
        assert choices == before;
      } else {
        assert choices == before + [chunks[n].choices[0]];
        FirstFieldGrows(Summarize(chunks[..n]).fieldName, before, chunks[n].choices[0]);
      }
    }
  }

  lemma NoField()
    ensures IsFirstField("", [])
  {
  }

  /** `usage` is the last one among these chunks, if there is any. */
  ghost predicate IsLastUsage(usage: Option<Usage>, chunks: seq<Chunk>) {
    if usage.None? then forall i :: 0 <= i < |chunks| ==> chunks[i].usage.None?
    else exists i ::
      0 <= i < |chunks| && chunks[i].usage == usage && forall j :: i < j < |chunks| ==> chunks[j].usage.None?
  }

  lemma LastUsageGrows(usage: Option<Usage>, chunks: seq<Chunk>, c: Chunk)
    requires IsLastUsage(usage, chunks)
    ensures IsLastUsage(if c.usage.Some? then c.usage else usage, chunks + [c])
  {
    var longer := chunks + [c];
    assert longer[|chunks|] == c && forall i :: 0 <= i < |chunks| ==> longer[i] == chunks[i];
    if c.usage.None? && usage.Some? {
      var i :| 0 <= i < |chunks| && chunks[i].usage == usage && forall j :: i < j < |chunks| ==> chunks[j].usage.None?;
      assert longer[i].usage == usage;
    }
  }

  /** The usage is the last one sent, in whatever chunk it came. */
  lemma {:induction false} UsageIsTheLast(chunks: seq<Chunk>)
    ensures IsLastUsage(Summarize(chunks).usage, chunks)
  {
    hide Merge, CallsOf, IsLastUsage;
    if chunks == [] {
      NoUsage();
    } else {
      var n := |chunks| - 1;
      UsageIsTheLast(chunks[..n]);
      assert chunks == chunks[..n] + [chunks[n]];
      LastUsageGrows(Summarize(chunks[..n]).usage, chunks[..n], chunks[n]);
    }
  }

  lemma NoUsage()
    ensures IsLastUsage(None, [])
  {
  }

  /** A thinking block, a text block, each only if there is any, and then the calls in the order of the indices. */
  ghost predicate ArePlaced(blocks: seq<Block>, thinking: string, fieldName: string, text: string,
                            calls: map<int, ToolCall>, indices: seq<int>) {
    && IsAscending(indices) && (forall i :: i in indices <==> i in calls)
    && var k := if thinking == "" then 0 else 1;
    && var m := k + if Trim(text) == "" then 0 else 1;
    && |blocks| == m + |indices|
    && (thinking != "" ==> blocks[0] == ThinkingBlock(Trim(thinking), fieldName))
    && (Trim(text) != "" ==> blocks[k] == TextBlock(Trim(text)))
    && (forall i :: 0 <= i < |indices| ==> blocks[m..][i] == ToolCallBlock(calls[indices[i]]))
  }

  lemma BlocksArePlaced(s: Summary, indices: seq<int>, blocks: seq<Block>)
    requires AreBlocks(s, indices, blocks)
    ensures ArePlaced(blocks, s.thinking, s.fieldName, s.content, s.calls, indices)
  {
    hide Trim, IsAscending;
    forall i ensures i in indices <==> i in s.calls {
      assert i in Elements(indices) <==> i in s.calls.Keys;
    }
    var calls := CallBlocks(s.calls, indices);
    assert blocks[|blocks| - |calls|..] == calls;
  }

  /**
   * The response for a summary: the tags in the text stand in for the thinking only in thinking mode, without native
   * reasoning, and if they enclose anything.
   */
  lemma ResponseIs(s: Summary, thinkingMode: bool, r: Response) returns (indices: seq<int>)
    requires IsResponse(s, thinkingMode, r)
    ensures var (cleaned, stripped) := Thinking.Strip(s.content);
            if thinkingMode && s.thinking == "" && stripped != ""
            then && ArePlaced(r.blocks, stripped, "", cleaned, s.calls, indices)
                 && r.thinkingTokens == |Trim(stripped)| / 4
            else && ArePlaced(r.blocks, s.thinking, s.fieldName, s.content, s.calls, indices)
                 && r.thinkingTokens == |Trim(s.thinking)| / 4
    ensures r.finishReason == s.finishReason && r.usage == if s.usage.Some? then s.usage.value else Usage(0, 0)
  {
    hide Trim, Thinking.Strip, AreBlocks, ArePlaced;
    var t := WithTagsStripped(s, thinkingMode);
    indices :| AreBlocks(t, indices, r.blocks);
    BlocksArePlaced(t, indices, r.blocks);
  }
}
