/** Thinking tags embedded in a model's text: finding them and cutting them out. */
module Thinking {
  import opened Wrappers
  import opened Text

  /** `pat` stands at position `i` of `s`. */
  predicate Occurs(s: string, pat: string, i: int) {
    0 <= i <= |s| - |pat| && s[i..i + |pat|] == pat
  }

  /** The position of the first occurrence. */
  function Find(s: string, pat: string): (found: Option<nat>)
    requires pat != ""
    ensures found.Some? ==> Occurs(s, pat, found.value) && forall j :: 0 <= j < found.value ==> !Occurs(s, pat, j)
    ensures found.None? ==> forall j :: !Occurs(s, pat, j)
  {
    if |s| < |pat| then None
    else if s[..|pat|] == pat then assert s[0..|pat|] == s[..|pat|]; Some(0)
    else
      assert s[0..|pat|] == s[..|pat|];
      OccursInTail(s, pat);
      var rest := Find(s[1..], pat);
      if rest.Some? then Some(rest.value + 1) else None
  }

  lemma SliceOfTail(s: string, j: nat, n: nat)
    requires 0 < j <= j + n <= |s|
    ensures s[j..j + n] == s[1..][j - 1..j - 1 + n]
  {
    assert s[1..][j - 1..] == s[j..];
    assert s[j..][..n] == s[j..j + n] && s[1..][j - 1..][..n] == s[1..][j - 1..j - 1 + n];
  }

  lemma OccursInTail(s: string, pat: string)
    requires s != ""
    ensures forall j :: j > 0 ==> (Occurs(s, pat, j) <==> Occurs(s[1..], pat, j - 1))
  {
    forall j | j > 0 ensures Occurs(s, pat, j) <==> Occurs(s[1..], pat, j - 1) {
      if 0 < j <= |s| - |pat| {
        SliceOfTail(s, j, |pat|);
      }
    }
  }

  /** A complete block: an opening tag with a closing tag somewhere after it. */
  ghost predicate HasBlock(s: string, open: string, close: string) {
    exists i, j :: i + |open| <= j && Occurs(s, open, i) && Occurs(s, close, j)
  }

  datatype Span = Span(start: nat, inner: nat)

  /** The first opening tag and the length of what its block encloses. */
  function NextBlock(s: string, open: string, close: string): (found: Option<Span>)
    requires open != "" && close != ""
    ensures found.Some? ==> found.value.start + |open| + found.value.inner + |close| <= |s|
  {
    var start := Find(s, open);
    if start.None? then None
    else
      var inner := Find(s[start.value + |open|..], close);
      if inner.None? then None else Some(Span(start.value, inner.value))
  }

  lemma OccursBehind(s: string, k: nat, tag: string, j: int)
    requires k <= |s|
    ensures Occurs(s[k..], tag, j) <==> 0 <= j && Occurs(s, tag, k + j)
  {
    assert s[k..] == s[k..|s|];
    OccursInSlice(s, k, |s|, tag, j);
  }

  lemma NextBlockFindsBlocks(s: string, open: string, close: string)
    requires open != "" && close != ""
    ensures NextBlock(s, open, close).Some? <==> HasBlock(s, open, close)
  {
    hide Find, Occurs;
    var start := Find(s, open);
    if start.Some? {
      OccursRange(s, open, start.value);
      var k := start.value + |open|;
      var inner := Find(s[k..], close);
      if inner.Some? {
        OccursBehind(s, k, close, inner.value);
        assert Occurs(s, close, k + inner.value);
      }
      if HasBlock(s, open, close) {
        var i, j :| i + |open| <= j && Occurs(s, open, i) && Occurs(s, close, j);
        OccursRange(s, open, i);
        assert start.value <= i;
        OccursBehind(s, k, close, j - k);
      }
    }
  }

  function Inside(s: string, open: string, b: Span): string
    requires b.start + |open| + b.inner <= |s|
  {
    s[b.start + |open|..b.start + |open| + b.inner]
  }

  function Without(s: string, open: string, close: string, b: Span): string
    requires b.start + |open| + b.inner + |close| <= |s|
  {
    s[..b.start] + s[b.start + |open| + b.inner + |close|..]
  }

  /** Cut out the first complete block until there is none: what remains, and what was enclosed. */
  function StripAll(s: string, open: string, close: string): (r: (string, string))
    requires open != "" && close != ""
    decreases |s|
  {
    var found := NextBlock(s, open, close);
    if found.None? then (s, "")
    else
      var r := StripAll(Without(s, open, close, found.value), open, close);
      (r.0, Inside(s, open, found.value) + r.1)
  }

  const OPEN_THINK := "<think>"
  const CLOSE_THINK := "</think>"
  const OPEN_THOUGHT := "<thought>"
  const CLOSE_THOUGHT := "</thought>"

  /** stripThinkingTokens: first one pair of tags, then the other. */
  function Strip(s: string): (r: (string, string)) {
    var first := StripAll(s, OPEN_THINK, CLOSE_THINK);
    var second := StripAll(first.0, OPEN_THOUGHT, CLOSE_THOUGHT);
    (Trim(second.0), Trim(first.1 + second.1))
  }

  lemma NoBlockLeft(s: string, open: string, close: string)
    requires open != "" && close != "" && NextBlock(s, open, close).None?
    ensures StripAll(s, open, close) == (s, "")
  {
  }

  lemma StripStep(s: string, open: string, close: string, b: Span)
    requires open != "" && close != "" && NextBlock(s, open, close) == Some(b)
    ensures var r := StripAll(Without(s, open, close, b), open, close);
            StripAll(s, open, close) == (r.0, Inside(s, open, b) + r.1)
  {
  }

  method StripPair(s: string, thinking: string, open: string, close: string) returns (s': string, thinking': string)
    requires open != "" && close != ""
    ensures var r := StripAll(s, open, close); s' == r.0 && thinking' == thinking + r.1
  {
    hide StripAll, Find;
    s', thinking' := s, thinking;
    while true
      invariant StripAll(s, open, close).0 == StripAll(s', open, close).0
      invariant thinking + StripAll(s, open, close).1 == thinking' + StripAll(s', open, close).1
      decreases |s'|
    {
      var start := Find(s', open);
      if start.None? {
        NoBlockLeft(s', open, close);
        break;
      }
      var end := Find(s'[start.value + |open|..], close);
      if end.None? {
        NoBlockLeft(s', open, close);
        break;
      }
      var b := Span(start.value, end.value);
      StripStep(s', open, close, b);
      var inside := Inside(s', open, b);
      ghost var later := StripAll(Without(s', open, close, b), open, close).1;
      assert thinking' + (inside + later) == thinking' + inside + later;
      thinking' := thinking' + inside;
      s' := Without(s', open, close, b);
    }
  }

  method StripThinkingTokens(s: string) returns (content: string, thinking: string)
    ensures (content, thinking) == Strip(s)
  {
    hide StripAll, Trim;
    content, thinking := StripPair(s, "", OPEN_THINK, CLOSE_THINK);
    assert "" + StripAll(s, OPEN_THINK, CLOSE_THINK).1 == StripAll(s, OPEN_THINK, CLOSE_THINK).1;
    content, thinking := StripPair(content, thinking, OPEN_THOUGHT, CLOSE_THOUGHT);
    content, thinking := Trim(content), Trim(thinking);
  }

  /** Once stripped of a pair of tags, a text has no complete block of that pair. */
  lemma {:induction false} StripAllLeavesNoBlock(s: string, open: string, close: string)
    requires open != "" && close != ""
    ensures !HasBlock(StripAll(s, open, close).0, open, close)
    decreases |s|
  {
    NextBlockFindsBlocks(s, open, close);
    var found := NextBlock(s, open, close);
    if found.Some? {
      StripAllLeavesNoBlock(Without(s, open, close, found.value), open, close);
    }
  }

  /** Characters are conserved: what remains, what was enclosed, and one pair of tags for every block. */
  lemma {:induction false} StripAllConserves(s: string, open: string, close: string) returns (blocks: nat)
    requires open != "" && close != ""
    ensures var r := StripAll(s, open, close); |s| == |r.0| + |r.1| + blocks * (|open| + |close|)
    ensures blocks == 0 <==> !HasBlock(s, open, close)
    decreases |s|
  {
    NextBlockFindsBlocks(s, open, close);
    var found := NextBlock(s, open, close);
    if found.None? {
      blocks := 0;
    } else {
      var n := StripAllConserves(Without(s, open, close, found.value), open, close);
      blocks := n + 1;
      assert blocks * (|open| + |close|) == n * (|open| + |close|) + (|open| + |close|);
    }
  }

  // ----- Trimming -----

  lemma {:induction false} TrimLeftIsSlice(s: string) returns (a: nat)
    ensures a <= |s| && TrimLeft(s) == s[a..] && forall k :: 0 <= k < a ==> IsSpace(s[k])
  {
    if s != "" && IsSpace(s[0]) {
      var b := TrimLeftIsSlice(s[1..]);
      a := b + 1;
      forall k | 0 <= k < a ensures IsSpace(s[k]) {
        assert k > 0 ==> s[k] == s[1..][k - 1];
      }
    } else {
      a := 0;
    }
  }

  lemma {:induction false} TrimRightIsSlice(s: string) returns (b: nat)
    ensures b <= |s| && TrimRight(s) == s[..b] && forall k :: b <= k < |s| ==> IsSpace(s[k])
  {
    if s != "" && IsSpace(s[|s| - 1]) {
      b := TrimRightIsSlice(s[..|s| - 1]);
      forall k | b <= k < |s| ensures IsSpace(s[k]) {
        assert k < |s| - 1 ==> s[k] == s[..|s| - 1][k];
      }
    } else {
      b := |s|;
    }
  }

  /** A tag is not padded, so trimming the text around it neither makes nor breaks it. */
  predicate Solid(tag: string) {
    tag != "" && !IsSpace(tag[0]) && !IsSpace(tag[|tag| - 1])
  }

  lemma OccursInSlice(s: string, a: nat, b: nat, tag: string, i: int)
    requires a <= b <= |s|
    ensures Occurs(s[a..b], tag, i) <==> 0 <= i <= b - a - |tag| && Occurs(s, tag, a + i)
  {
    if 0 <= i <= b - a - |tag| {
      var x, y := s[a..b][i..i + |tag|], s[a + i..a + i + |tag|];
      assert forall d :: 0 <= d < |tag| ==> x[d] == y[d];
      assert x == y;
    }
  }

  lemma TrimmedSlice(s: string) returns (a: nat, b: nat)
    ensures a <= b <= |s| && Trim(s) == s[a..b]
    ensures forall k :: 0 <= k < a || b <= k < |s| ==> IsSpace(s[k])
  {
    a := TrimLeftIsSlice(s);
    var c := TrimRightIsSlice(s[a..]);
    b := a + c;
    assert s[a..][..c] == s[a..b];
    forall k | b <= k < |s| ensures IsSpace(s[k]) {
      assert s[k] == s[a..][k - a];
    }
  }

  lemma SolidTagStaysInside(s: string, a: nat, b: nat, tag: string, i: int)
    requires a <= b <= |s| && (forall k :: 0 <= k < a || b <= k < |s| ==> IsSpace(s[k]))
    requires Solid(tag) && Occurs(s, tag, i)
    ensures a <= i <= b - |tag|
  {
    hide IsSpace;
    assert s[i] == s[i..i + |tag|][0] == tag[0];
    assert s[i + |tag| - 1] == s[i..i + |tag|][|tag| - 1] == tag[|tag| - 1];
  }

  lemma BlockInSlice(s: string, a: nat, b: nat, open: string, close: string)
    requires a <= b <= |s| && HasBlock(s[a..b], open, close)
    ensures HasBlock(s, open, close)
  {
    hide Occurs;
    var i, j :| i + |open| <= j && Occurs(s[a..b], open, i) && Occurs(s[a..b], close, j);
    OccursInSlice(s, a, b, open, i);
    OccursInSlice(s, a, b, close, j);
  }

  lemma BlockStaysInside(s: string, a: nat, b: nat, open: string, close: string)
    requires a <= b <= |s| && (forall k :: 0 <= k < a || b <= k < |s| ==> IsSpace(s[k]))
    requires Solid(open) && Solid(close) && HasBlock(s, open, close)
    ensures HasBlock(s[a..b], open, close)
  {
    hide Occurs, Solid, IsSpace;
    var i, j :| i + |open| <= j && Occurs(s, open, i) && Occurs(s, close, j);
    SolidTagStaysInside(s, a, b, open, i);
    SolidTagStaysInside(s, a, b, close, j);
    OccursInSlice(s, a, b, open, i - a);
    OccursInSlice(s, a, b, close, j - a);
  }

  /** Trimming neither completes a block nor breaks one. */
  lemma TrimKeepsBlocks(s: string, open: string, close: string)
    requires Solid(open) && Solid(close)
    ensures HasBlock(Trim(s), open, close) <==> HasBlock(s, open, close)
  {
    hide Trim, HasBlock, Solid, IsSpace;
    var a, b := TrimmedSlice(s);
    if HasBlock(Trim(s), open, close) {
      BlockInSlice(s, a, b, open, close);
    }
    if HasBlock(s, open, close) {
      BlockStaysInside(s, a, b, open, close);
    }
  }

  lemma TagsAreSolid()
    ensures Solid(OPEN_THINK) && Solid(CLOSE_THINK) && Solid(OPEN_THOUGHT) && Solid(CLOSE_THOUGHT)
  {
  }

  // ----- Tags that a cut joins -----

  /** `before` ends in the first k characters of the tag and `after` begins with the others. */
  predicate Straddles(before: string, after: string, tag: string, k: int) {
    && 0 < k < |tag| && k <= |before| && |tag| - k <= |after|
    && before[|before| - k..] == tag[..k] && after[..|tag| - k] == tag[k..]
  }

  ghost predicate Joins(before: string, after: string, tag: string) {
    exists k :: Straddles(before, after, tag, k)
  }

  lemma OccursInConcatIff(x: string, y: string, tag: string, i: int)
    requires 0 <= i <= |x| + |y| - |tag|
    ensures i + |tag| <= |x| ==> (Occurs(x + y, tag, i) <==> Occurs(x, tag, i))
    ensures i >= |x| ==> (Occurs(x + y, tag, i) <==> Occurs(y, tag, i - |x|))
    ensures i < |x| < i + |tag| ==> (Occurs(x + y, tag, i) <==> Straddles(x, y, tag, |x| - i))
  {
    var n := |tag|;
    if i + n <= |x| {
      assert (x + y)[i..i + n] == x[i..i + n];
    } else if i >= |x| {
      assert (x + y)[i..i + n] == y[i - |x|..i - |x| + n];
    } else {
      var k := |x| - i;
      assert (x + y)[i..i + n] == x[|x| - k..] + y[..n - k];
      assert tag == tag[..k] + tag[k..];
      if x[|x| - k..] + y[..n - k] == tag {
        assert tag[..k] == (x[|x| - k..] + y[..n - k])[..k] == x[|x| - k..];
        assert tag[k..] == (x[|x| - k..] + y[..n - k])[k..] == y[..n - k];
      }
    }
  }

  function BeforeCut(s: string, b: Span): string
    requires b.start <= |s|
  {
    s[..b.start]
  }

  function AfterCut(s: string, open: string, close: string, b: Span): string
    requires b.start + |open| + b.inner + |close| <= |s|
  {
    s[b.start + |open| + b.inner + |close|..]
  }

  ghost predicate Contains(s: string, tag: string) {
    exists i :: Occurs(s, tag, i)
  }

  /** Cutting a block out of a text without the tag makes the tag appear exactly if the two sides join to it. */
  lemma CutMakesTagIff(s: string, open: string, close: string, b: Span, tag: string)
    requires b.start + |open| + b.inner + |close| <= |s| && tag != "" && !Contains(s, tag)
    ensures Contains(Without(s, open, close, b), tag) <==> Joins(BeforeCut(s, b), AfterCut(s, open, close, b), tag)
  {
    hide Occurs;
    var x, y := BeforeCut(s, b), AfterCut(s, open, close, b);
    var c := |s| - |y|;
    assert s[..|x|] == s[0..|x|] == x && s[c..] == s[c..|s|] == y;
    if Contains(Without(s, open, close, b), tag) {
      var i :| Occurs(x + y, tag, i);
      OccursRange(x + y, tag, i);
      OccursInConcatIff(x, y, tag, i);
      OccursInSlice(s, 0, |x|, tag, i);
      OccursInSlice(s, c, |s|, tag, i - |x|);
    }
    if Joins(x, y, tag) {
      var k :| Straddles(x, y, tag, k);
      OccursInConcatIff(x, y, tag, |x| - k);
    }
  }

  lemma OccursRange(s: string, tag: string, i: int)
    requires Occurs(s, tag, i)
    ensures 0 <= i <= |s| - |tag|
  {
  }

  /** Some cut of the whole pass joins the tag. */
  ghost predicate CutsJoin(s: string, open: string, close: string, tag: string)
    requires open != "" && close != ""
    decreases |s|
  {
    var found := NextBlock(s, open, close);
    && found.Some?
    && (|| Joins(BeforeCut(s, found.value), AfterCut(s, open, close, found.value), tag)
        || CutsJoin(Without(s, open, close, found.value), open, close, tag))
  }

  // ----- Where the characters that remain come from -----

  function Shift(p: nat, b: Span, removed: nat): nat {
    if p < b.start then p else p + removed
  }

  /** For each character that the pass keeps, its position in the text it started from. */
  function Kept(s: string, open: string, close: string): (kept: seq<nat>)
    requires open != "" && close != ""
    decreases |s|
  {
    var found := NextBlock(s, open, close);
    if found.None? then seq(|s|, k requires 0 <= k < |s| => k)
    else
      var b := found.value;
      var rest := Kept(Without(s, open, close, b), open, close);
      seq(|rest|, k requires 0 <= k < |rest| => Shift(rest[k], b, |open| + b.inner + |close|))
  }

  lemma {:induction false} KeptIsTheText(s: string, open: string, close: string)
    requires open != "" && close != ""
    ensures var kept, text := Kept(s, open, close), StripAll(s, open, close).0;
            && |kept| == |text|
            && (forall k :: 0 <= k < |kept| ==> kept[k] < |s| && text[k] == s[kept[k]])
            && (forall j, k :: 0 <= j < k < |kept| ==> kept[j] < kept[k])
    decreases |s|
  {
    hide Find, Without, Shift;
    var found := NextBlock(s, open, close);
    if found.Some? {
      var b := found.value;
      hide NextBlock;
      WithoutIsShorter(s, open, close, b);
      KeptIsTheText(Without(s, open, close, b), open, close);
      CutKeepsCharacters(s, open, close, b);
    }
  }

  lemma WithoutIsShorter(s: string, open: string, close: string, b: Span)
    requires b.start + |open| + b.inner + |close| <= |s|
    ensures |Without(s, open, close, b)| == |s| - |open| - b.inner - |close|
  {
  }

  lemma CutKeepsCharacters(s: string, open: string, close: string, b: Span)
    requires b.start + |open| + b.inner + |close| <= |s|
    ensures var w, removed := Without(s, open, close, b), |open| + b.inner + |close|;
            && (forall p :: 0 <= p < |w| ==> Shift(p, b, removed) < |s| && w[p] == s[Shift(p, b, removed)])
            && forall p: nat, q: nat :: p < q ==> Shift(p, b, removed) < Shift(q, b, removed)
  {
  }

  /** The tag at position i of what remains was already whole in the text the pass started from. */
  predicate Intact(kept: seq<nat>, i: int, n: int)
    requires 0 <= i && 0 < n && i + n <= |kept|
  {
    kept[i + n - 1] == kept[i] + n - 1
  }

  lemma {:induction false} IncreasesByOne(kept: seq<nat>, i: nat, k: nat)
    requires (forall j, k :: 0 <= j < k < |kept| ==> kept[j] < kept[k]) && i <= k < |kept|
    ensures kept[k] >= kept[i] + (k - i)
  {
    if i < k {
      IncreasesByOne(kept, i, k - 1);
    }
  }

  lemma IntactIsConsecutive(kept: seq<nat>, i: nat, n: nat, d: nat)
    requires (forall j, k :: 0 <= j < k < |kept| ==> kept[j] < kept[k])
    requires 0 < n && i + n <= |kept| && Intact(kept, i, n) && d < n
    ensures kept[i + d] == kept[i] + d
  {
    IncreasesByOne(kept, i, i + d);
    IncreasesByOne(kept, i + d, i + n - 1);
  }

  lemma IntactTagWasThere(s: string, open: string, close: string, tag: string, i: int)
    requires open != "" && close != "" && tag != "" && Occurs(StripAll(s, open, close).0, tag, i)
    requires |Kept(s, open, close)| == |StripAll(s, open, close).0| && Intact(Kept(s, open, close), i, |tag|)
    ensures Occurs(s, tag, Kept(s, open, close)[i])
  {
    hide Kept, StripAll, Intact;
    var kept, text := Kept(s, open, close), StripAll(s, open, close).0;
    KeptIsTheText(s, open, close);
    IntactStretch(kept, text, s, tag, i);
  }

  lemma IntactStretch(kept: seq<nat>, text: string, s: string, tag: string, i: nat)
    requires |kept| == |text| && forall k :: 0 <= k < |kept| ==> kept[k] < |s| && text[k] == s[kept[k]]
    requires forall j, k :: 0 <= j < k < |kept| ==> kept[j] < kept[k]
    requires tag != "" && Occurs(text, tag, i) && Intact(kept, i, |tag|)
    ensures Occurs(s, tag, kept[i])
  {
    var p, n := kept[i], |tag|;
    IntactIsConsecutive(kept, i, n, n - 1);
    var there, here := s[p..p + n], text[i..i + n];
    forall d | 0 <= d < n ensures there[d] == tag[d] {
      IntactIsConsecutive(kept, i, n, d);
      assert there[d] == s[p + d] && here[d] == text[i + d];
    }
    assert there == tag;
  }

  /** A tag in what remains that no single stretch of the original text contained. */
  predicate JoinedTag(s: string, open: string, close: string, tag: string, i: int)
    requires open != "" && close != ""
  {
    && tag != "" && Occurs(StripAll(s, open, close).0, tag, i)
    && i + |tag| <= |Kept(s, open, close)| && !Intact(Kept(s, open, close), i, |tag|)
  }

  /** Such a tag was joined by one of the cuts. */
  lemma {:induction false} JoinedTagComesFromACut(s: string, open: string, close: string, tag: string, i: int)
    requires open != "" && close != "" && JoinedTag(s, open, close, tag, i)
    ensures CutsJoin(s, open, close, tag)
    decreases |s|
  {
    hide Find, Without, NextBlock, Occurs, Straddles, Kept, StripAll, CutsJoin, Joins;
    OccursRange(StripAll(s, open, close).0, tag, i);
    KeptIsTheText(s, open, close);
    var found := NextBlock(s, open, close);
    if found.None? {
      NothingJoined(s, open, close, i, |tag|);
    } else {
      var b := found.value;
      var w := Without(s, open, close, b);
      WithoutIsShorter(s, open, close, b);
      StripStep(s, open, close, b);
      KeptStep(s, open, close, b);
      CutsJoinStep(s, open, close, b, tag);
      KeptIsTheText(w, open, close);
      if !Intact(Kept(w, open, close), i, |tag|) {
        JoinedTagComesFromACut(w, open, close, tag, i);
      } else {
        IntactTagWasThere(w, open, close, tag, i);
        ShiftedApart(s, open, close, b, tag, Kept(w, open, close)[i]);
      }
    }
  }

  lemma KeptStep(s: string, open: string, close: string, b: Span)
    requires open != "" && close != "" && NextBlock(s, open, close) == Some(b)
    ensures var kept, rest := Kept(s, open, close), Kept(Without(s, open, close, b), open, close);
            && |kept| == |rest|
            && forall k :: 0 <= k < |kept| ==> kept[k] == Shift(rest[k], b, |open| + b.inner + |close|)
  {
  }

  lemma CutsJoinStep(s: string, open: string, close: string, b: Span, tag: string)
    requires open != "" && close != "" && NextBlock(s, open, close) == Some(b)
    ensures CutsJoin(s, open, close, tag)
       <==> || Joins(BeforeCut(s, b), AfterCut(s, open, close, b), tag)
            || CutsJoin(Without(s, open, close, b), open, close, tag)
  {
  }

  lemma NothingJoined(s: string, open: string, close: string, i: nat, n: nat)
    requires open != "" && close != "" && NextBlock(s, open, close).None?
    requires 0 < n && i + n <= |Kept(s, open, close)|
    ensures Intact(Kept(s, open, close), i, n)
  {
  }

  /** A tag of the shorter text whose ends move apart when the cut is undone lies across the cut. */
  lemma ShiftedApart(s: string, open: string, close: string, b: Span, tag: string, p: nat)
    requires b.start + |open| + b.inner + |close| <= |s| && open != "" && tag != ""
    requires Occurs(Without(s, open, close, b), tag, p)
    requires var removed := |open| + b.inner + |close|;
             Shift(p + |tag| - 1, b, removed) != Shift(p, b, removed) + |tag| - 1
    ensures Joins(BeforeCut(s, b), AfterCut(s, open, close, b), tag)
  {
    OccursInConcatIff(BeforeCut(s, b), AfterCut(s, open, close, b), tag, p);
    assert Straddles(BeforeCut(s, b), AfterCut(s, open, close, b), tag, b.start - p);
  }

  /** A block of what remains, one of whose tags was joined by a cut. */
  ghost predicate HasJoinedBlock(s: string, open: string, close: string, open': string, close': string)
    requires open != "" && close != ""
  {
    var text := StripAll(s, open, close).0;
    exists i, j :: && i + |open'| <= j && Occurs(text, open', i) && Occurs(text, close', j)
                   && (JoinedTag(s, open, close, open', i) || JoinedTag(s, open, close, close', j))
  }

  /** In a text without such blocks, the pass leaves one exactly if a joined tag completes it. */
  lemma PassMakesBlockIff(s: string, open: string, close: string, open': string, close': string)
    requires open != "" && close != "" && open' != "" && close' != "" && !HasBlock(s, open', close')
    ensures HasBlock(StripAll(s, open, close).0, open', close') <==> HasJoinedBlock(s, open, close, open', close')
  {
    hide StripAll, Kept, Occurs, Intact, JoinedTag;
    var text := StripAll(s, open, close).0;
    if HasBlock(text, open', close') {
      var i, j :| i + |open'| <= j && Occurs(text, open', i) && Occurs(text, close', j);
      JoinedOrThere(s, open, close, open', i);
      JoinedOrThere(s, open, close, close', j);
      if !JoinedTag(s, open, close, open', i) && !JoinedTag(s, open, close, close', j) {
        KeptIsTheText(s, open, close);
        IncreasesByOne(Kept(s, open, close), i, j);
        assert false;
      }
    }
  }

  lemma JoinedOrThere(s: string, open: string, close: string, tag: string, i: int)
    requires open != "" && close != "" && tag != "" && Occurs(StripAll(s, open, close).0, tag, i)
    ensures 0 <= i < |Kept(s, open, close)|
    ensures JoinedTag(s, open, close, tag, i) || Occurs(s, tag, Kept(s, open, close)[i])
  {
    hide StripAll, Kept, Intact;
    KeptIsTheText(s, open, close);
    if !JoinedTag(s, open, close, tag, i) {
      IntactTagWasThere(s, open, close, tag, i);
    }
  }

  /**
   * The text that is returned never has a complete thought block. It has a complete think block exactly if the
   * second pass joined a think tag that completes one; and never if none of its cuts joins a think tag.
   */
  lemma StripLeavesNoBlock(s: string)
    ensures !HasBlock(Strip(s).0, OPEN_THOUGHT, CLOSE_THOUGHT)
    ensures var first := StripAll(s, OPEN_THINK, CLOSE_THINK).0;
            && (HasBlock(Strip(s).0, OPEN_THINK, CLOSE_THINK) <==>
                  HasJoinedBlock(first, OPEN_THOUGHT, CLOSE_THOUGHT, OPEN_THINK, CLOSE_THINK))
            && (HasBlock(Strip(s).0, OPEN_THINK, CLOSE_THINK) ==>
                  || CutsJoin(first, OPEN_THOUGHT, CLOSE_THOUGHT, OPEN_THINK)
                  || CutsJoin(first, OPEN_THOUGHT, CLOSE_THOUGHT, CLOSE_THINK))
  {
    hide HasBlock, Trim, StripAll, Kept, CutsJoin, Occurs, Intact, Solid;
    var first := StripAll(s, OPEN_THINK, CLOSE_THINK).0;
    var second := StripAll(first, OPEN_THOUGHT, CLOSE_THOUGHT).0;
    StripAllLeavesNoBlock(s, OPEN_THINK, CLOSE_THINK);
    StripAllLeavesNoBlock(first, OPEN_THOUGHT, CLOSE_THOUGHT);
    TagsAreSolid();
    TrimKeepsBlocks(second, OPEN_THOUGHT, CLOSE_THOUGHT);
    TrimKeepsBlocks(second, OPEN_THINK, CLOSE_THINK);
    PassMakesBlockIff(first, OPEN_THOUGHT, CLOSE_THOUGHT, OPEN_THINK, CLOSE_THINK);
    JoinedBlockComesFromACut(first, OPEN_THOUGHT, CLOSE_THOUGHT, OPEN_THINK, CLOSE_THINK);
  }

  lemma JoinedBlockComesFromACut(s: string, open: string, close: string, open': string, close': string)
    requires open != "" && close != ""
    ensures HasJoinedBlock(s, open, close, open', close')
        ==> CutsJoin(s, open, close, open') || CutsJoin(s, open, close, close')
  {
    hide StripAll, Kept, CutsJoin, Occurs, Intact, JoinedTag;
    if HasJoinedBlock(s, open, close, open', close') {
      var text := StripAll(s, open, close).0;
      var i, j :| && i + |open'| <= j && Occurs(text, open', i) && Occurs(text, close', j)
                  && (JoinedTag(s, open, close, open', i) || JoinedTag(s, open, close, close', j));
      if JoinedTag(s, open, close, open', i) {
        JoinedTagComesFromACut(s, open, close, open', i);
      } else {
        JoinedTagComesFromACut(s, open, close, close', j);
      }
    }
  }

  lemma NoOpeningTag(s: string, open: string, close: string)
    requires open != "" && close != "" && forall i :: !Occurs(s, open, i)
    ensures StripAll(s, open, close) == (s, "")
  {
  }

  lemma OneBlock(x: string, y: string, z: string, open: string, close: string)
    requires open != "" && close != ""
    requires forall i :: i < |x| ==> !Occurs(x + open + y + close + z, open, i)
    requires forall i :: i < |y| ==> !Occurs(y + close + z, close, i)
    requires !HasBlock(x + z, open, close)
    ensures StripAll(x + open + y + close + z, open, close) == (x + z, y)
  {
    hide Find, StripAll, Occurs, Inside, Without, HasBlock, NextBlock;
    var s := x + open + y + close + z;
    var b := Span(|x|, |y|);
    OneBlockParts(x, y, z, open, close);
    FoundAt(s, open, |x|);
    FoundAt(y + close + z, close, |y|);
    FoundIsNext(s, x, y, z, open, close);
    WithoutBlocks(x + z, open, close);
    StripStep(s, open, close, b);
    assert y + "" == y;
  }

  lemma FoundIsNext(s: string, x: string, y: string, z: string, open: string, close: string)
    requires open != "" && close != "" && s == x + open + y + close + z
    requires Find(s, open) == Some(|x|) && Find(y + close + z, close) == Some(|y|)
    ensures NextBlock(s, open, close) == Some(Span(|x|, |y|))
  {
    hide Find;
    assert s[|x| + |open|..] == y + close + z;
  }

  lemma WithoutBlocks(s: string, open: string, close: string)
    requires open != "" && close != "" && !HasBlock(s, open, close)
    ensures StripAll(s, open, close) == (s, "")
  {
    hide NextBlock, HasBlock;
    NextBlockFindsBlocks(s, open, close);
  }

  lemma OneBlockParts(x: string, y: string, z: string, open: string, close: string)
    ensures var s := x + open + y + close + z; var b := Span(|x|, |y|);
            && Occurs(s, open, |x|) && s[|x| + |open|..] == y + close + z && Occurs(y + close + z, close, |y|)
            && Inside(s, open, b) == y && Without(s, open, close, b) == x + z
  {
  }

  lemma FoundAt(s: string, pat: string, k: nat)
    requires pat != "" && Occurs(s, pat, k) && forall i :: i < k ==> !Occurs(s, pat, i)
    ensures Find(s, pat) == Some(k)
  {
  }

  lemma NoTagNoBlock(s: string, open: string, close: string)
    requires forall i :: !Occurs(s, open, i)
    ensures !HasBlock(s, open, close)
  {
  }

  const SPLICED := "<thi<thought>a</thought>nk>b</think>"
  const JOINED := "<think>b</think>"

  lemma SplicedHasNoThinkTag()
    ensures forall i :: !Occurs(SPLICED, OPEN_THINK, i)
  {
    forall i ensures !Occurs(SPLICED, OPEN_THINK, i) {
      if 0 <= i <= |SPLICED| - 7 {
        assert SPLICED[i] == '<' ==> i == 0 || i == 4 || i == 14 || i == 28;
        assert SPLICED[i] == '<' ==> SPLICED[i + 4] != 'n';
        assert SPLICED[i..i + 7][0] == SPLICED[i] && SPLICED[i..i + 7][4] == SPLICED[i + 4];
      }
    }
  }

  lemma SplicedThoughtTags()
    ensures forall i :: i < 4 ==> !Occurs(SPLICED, OPEN_THOUGHT, i)
    ensures forall i :: i < 1 ==> !Occurs("a</thought>nk>b</think>", CLOSE_THOUGHT, i)
    ensures forall i :: !Occurs(JOINED, OPEN_THOUGHT, i)
  {
    forall i | i < 4 ensures !Occurs(SPLICED, OPEN_THOUGHT, i) {
      if 0 <= i {
        assert SPLICED[i..i + 9][3] == SPLICED[i + 3] && SPLICED[i..i + 9][0] == SPLICED[i];
      }
    }
    var rest := "a</thought>nk>b</think>";
    forall i | i < 1 ensures !Occurs(rest, CLOSE_THOUGHT, i) {
      if 0 <= i {
        assert rest[i..i + 10][0] == rest[0] == 'a';
      }
    }
    forall i ensures !Occurs(JOINED, OPEN_THOUGHT, i) {
      if 0 <= i <= |JOINED| - 9 {
        assert JOINED[i + 3] != 'o';
        assert JOINED[i..i + 9][3] == JOINED[i + 3];
      }
    }
  }

  lemma SplicedParts()
    ensures "<thi" + OPEN_THOUGHT + "a" + CLOSE_THOUGHT + "nk>b</think>" == SPLICED
  {
  }

  lemma JoinedParts()
    ensures "a" + CLOSE_THOUGHT + "nk>b</think>" == "a</thought>nk>b</think>"
    ensures "<thi" + "nk>b</think>" == JOINED
  {
  }

  lemma JoinedIsBlock()
    ensures HasBlock(JOINED, OPEN_THINK, CLOSE_THINK)
  {
    assert Occurs(JOINED, OPEN_THINK, 0);
    assert Occurs(JOINED, CLOSE_THINK, 8);
  }

  lemma SplicedIsNotPadded()
    ensures Trim(JOINED) == JOINED && Trim("a") == "a"
  {
    hide Trim;
    assert JOINED[0] == '<' && JOINED[|JOINED| - 1] == '>';
    Unpadded(JOINED);
    Unpadded("a");
  }

  /** Removing a thought block can join the two halves of a think tag, which nothing removes any more. */
  lemma SecondPassCanFormThinkBlock()
    ensures Strip(SPLICED) == (JOINED, "a") && HasBlock(JOINED, OPEN_THINK, CLOSE_THINK)
  {
    hide StripAll, NextBlock, Trim, Find, IsSpace, Occurs, HasBlock;
    var x, y, z := "<thi", "a", "nk>b</think>";
    SplicedParts();
    JoinedParts();
    JoinedIsBlock();
    SplicedHasNoThinkTag();
    SplicedThoughtTags();
    SplicedIsNotPadded();
    NoOpeningTag(SPLICED, OPEN_THINK, CLOSE_THINK);
    NoTagNoBlock(JOINED, OPEN_THOUGHT, CLOSE_THOUGHT);
    OneBlock(x, y, z, OPEN_THOUGHT, CLOSE_THOUGHT);
    assert "" + y == y;
  }

  // ----- What the blocks give: the trace and the text around them -----

  /** Angle brackets stand at the two ends of a tag and nowhere else. */
  predicate Bracketed(tag: string) {
    && |tag| >= 2 && tag[0] == '<' && tag[|tag| - 1] == '>'
    && (forall k :: 0 < k < |tag| ==> tag[k] != '<')
    && (forall k :: 0 <= k < |tag| - 1 ==> tag[k] != '>')
  }

  predicate IsTag(tag: string) {
    tag == "<think>" || tag == "</think>" || tag == "<thought>" || tag == "</thought>"
  }

  ghost predicate TagFree(s: string) {
    forall tag :: IsTag(tag) ==> !Contains(s, tag)
  }

  lemma TagsAreBracketed(tag: string)
    requires IsTag(tag)
    ensures Bracketed(tag)
  {
    if {
      case tag == "<think>" => AreBracketed("<think>", "think");
      case tag == "</think>" => AreBracketed("</think>", "/think");
      case tag == "<thought>" => AreBracketed("<thought>", "thought");
      case tag == "</thought>" => AreBracketed("</thought>", "/thought");
    }
  }

  lemma AreBracketed(tag: string, name: string)
    requires tag == "<" + name + ">" && '<' !in name && '>' !in name
    ensures Bracketed(tag)
  {
    assert forall k :: 0 < k < |tag| - 1 ==> tag[k] == name[k - 1];
  }

  /** The seam between two texts cannot lie within a tag. */
  predicate IsSeam(x: string, y: string) {
    x == "" || y == "" || x[|x| - 1] == '>' || y[0] == '<'
  }

  lemma NothingAcrossSeam(x: string, y: string, tag: string, i: int)
    requires Bracketed(tag) && IsSeam(x, y) && Occurs(x + y, tag, i)
    ensures Occurs(x, tag, i) || (i >= |x| && Occurs(y, tag, i - |x|))
  {
    OccursInConcatIff(x, y, tag, i);
    OccursRange(x + y, tag, i);
    if i < |x| < i + |tag| {
      StraddlingEnds(x, y, tag, |x| - i);
      assert false;
    }
  }

  lemma StraddlingEnds(x: string, y: string, tag: string, k: int)
    requires Straddles(x, y, tag, k)
    ensures 0 < k < |tag| && x != "" && y != "" && x[|x| - 1] == tag[k - 1] && y[0] == tag[k]
  {
    assert x[|x| - 1] == x[|x| - k..][k - 1] == tag[..k][k - 1];
    assert y[0] == y[..|tag| - k][0] == tag[k..][0];
  }

  lemma NoTagInTag(tag: string, other: string, i: int)
    requires Bracketed(tag) && Bracketed(other) && Occurs(tag, other, i)
    ensures tag == other
  {
    assert tag[i] == tag[i..i + |other|][0] == '<';
    assert tag[i + |other| - 1] == tag[i..i + |other|][|other| - 1] == '>';
    assert tag[..] == tag;
  }

  /** A text with a tag in it contains no other tag unless one of its sides does. */
  lemma OtherTagsStayOutside(x: string, tag: string, y: string, other: string, i: int)
    requires Bracketed(tag) && Bracketed(other) && tag != other && Occurs(x + tag + y, other, i)
    ensures Contains(x, other) || Contains(y, other)
  {
    hide Occurs, Bracketed;
    EndsOfTag(x, tag);
    NothingAcrossSeam(x + tag, y, other, i);
    if Occurs(x + tag, other, i) {
      NothingAcrossSeam(x, tag, other, i);
      if i >= |x| && Occurs(tag, other, i - |x|) {
        NoTagInTag(tag, other, i - |x|);
      }
    }
  }

  lemma EndsOfTag(x: string, tag: string)
    requires Bracketed(tag)
    ensures tag[0] == '<' && (x + tag)[|x + tag| - 1] == '>' && tag != ""
  {
  }

  /** Before a tag at the end of a text without it, the tag does not occur. */
  lemma FirstAt(x: string, tag: string, y: string)
    requires Bracketed(tag) && !Contains(x, tag)
    ensures forall i :: i < |x| ==> !Occurs(x + tag + y, tag, i)
  {
    hide Occurs;
    assert x + tag + y == x + (tag + y);
    EndsOfTag(x, tag);
    forall i | i < |x| ensures !Occurs(x + tag + y, tag, i) {
      if Occurs(x + tag + y, tag, i) {
        NothingAcrossSeam(x, tag + y, tag, i);
      }
    }
  }

  /** Of two texts without them, at most one of two tags lies across the joint. */
  lemma NoBlockAcross(x: string, z: string, open: string, close: string)
    requires open != "" && close != "" && !Contains(x, open) && !Contains(z, open) && !Contains(x, close)
             && !Contains(z, close)
    ensures !HasBlock(x + z, open, close)
  {
    hide Occurs;
    if HasBlock(x + z, open, close) {
      var i, j :| i + |open| <= j && Occurs(x + z, open, i) && Occurs(x + z, close, j);
      OccursRange(x + z, open, i);
      OccursRange(x + z, close, j);
      OccursInConcatIff(x, z, open, i);
      OccursInConcatIff(x, z, close, j);
    }
  }

  lemma TagFreeHasNo(s: string, tag: string)
    requires TagFree(s) && IsTag(tag)
    ensures !Contains(s, tag) && Bracketed(tag) && tag != ""
  {
    TagsAreBracketed(tag);
  }

  /** The pass for a block's own tags: what remains is what was around it. */
  lemma SingleBlockPass(x: string, y: string, z: string, open: string, close: string)
    requires TagFree(x) && TagFree(y) && TagFree(z) && IsTag(open) && IsTag(close)
    ensures StripAll(x + open + y + close + z, open, close) == (x + z, y)
  {
    hide *;
    TagFreeHasNo(x, open);
    TagFreeHasNo(z, open);
    TagFreeHasNo(x, close);
    TagFreeHasNo(y, close);
    TagFreeHasNo(z, close);
    NoBlockAcross(x, z, open, close);
    FirstAt(x, open, y + close + z);
    FirstAt(y, close, z);
    assert x + open + (y + close + z) == x + open + y + close + z;
    OneBlock(x, y, z, open, close);
  }

  /** The pass for other tags changes nothing before there is a text to join. */
  lemma OtherTagNotAround(x: string, y: string, z: string, open: string, close: string, other: string)
    requires TagFree(x) && TagFree(y) && TagFree(z) && IsTag(open) && IsTag(close) && IsTag(other)
    requires open != other && close != other
    ensures forall i :: !Occurs(x + open + y + close + z, other, i)
  {
    hide *;
    TagFreeHasNo(x, other);
    TagFreeHasNo(y, other);
    TagFreeHasNo(z, other);
    TagsAreBracketed(open);
    TagsAreBracketed(close);
    forall i ensures !Occurs(x + open + y + close + z, other, i) {
      if Occurs(x + open + y + close + z, other, i) {
        OtherTagsStayOutside(x + open + y, close, z, other, i);
        var j := OccurrenceOf(x + open + y, other);
        OtherTagsStayOutside(x, open, y, other, j);
      }
    }
  }

  lemma OccurrenceOf(s: string, tag: string) returns (i: int)
    requires Contains(s, tag)
    ensures Occurs(s, tag, i)
  {
    i :| Occurs(s, tag, i);
  }

  lemma StripIs(s: string, first: (string, string), second: (string, string))
    requires first == StripAll(s, "<think>", "</think>") && second == StripAll(first.0, "<thought>", "</thought>")
    ensures Strip(s) == (Trim(second.0), Trim(first.1 + second.1))
  {
  }

  lemma TagsAre()
    ensures IsTag("<think>") && IsTag("</think>") && IsTag("<thought>") && IsTag("</thought>")
    ensures "<think>" != "<thought>" && "<think>" != "</thought>"
  {
    assert |"<think>"| == 7 && |"<thought>"| == 9 && |"</thought>"| == 10;
  }

  /** A single block among text without tags: what is around it is the content, what it encloses the trace. */
  lemma SingleThinkBlock(x: string, y: string, z: string)
    requires TagFree(x) && TagFree(y) && TagFree(z)
    ensures Strip(x + "<think>" + y + "</think>" + z) == (Trim(x + z), Trim(y))
  {
    hide *;
    TagsAre();
    SingleBlockPass(x, y, z, "<think>", "</think>");
    TagFreeHasNo(x, "<thought>");
    TagFreeHasNo(z, "<thought>");
    TagFreeHasNo(x, "</thought>");
    TagFreeHasNo(z, "</thought>");
    NoBlockAcross(x, z, "<thought>", "</thought>");
    WithoutBlocks(x + z, "<thought>", "</thought>");
    StripIs(x + "<think>" + y + "</think>" + z, (x + z, y), (x + z, ""));
    assert y + "" == y;
  }

  lemma SingleThoughtBlock(x: string, y: string, z: string)
    requires TagFree(x) && TagFree(y) && TagFree(z)
    ensures Strip(x + "<thought>" + y + "</thought>" + z) == (Trim(x + z), Trim(y))
  {
    hide *;
    TagsAre();
    var s := x + "<thought>" + y + "</thought>" + z;
    OtherTagNotAround(x, y, z, "<thought>", "</thought>", "<think>");
    NoOpeningTag(s, "<think>", "</think>");
    SingleBlockPass(x, y, z, "<thought>", "</thought>");
    StripIs(s, (s, ""), (x + z, y));
    assert "" + y == y;
  }

  // ----- Texts with any number of blocks of both kinds -----

  /** A block, and the text up to the next one. */
  datatype Block = Block(think: bool, inner: string, after: string)

  function Opening(think: bool): string {
    if think then "<think>" else "<thought>"
  }

  function Closing(think: bool): string {
    if think then "</think>" else "</thought>"
  }

  /** The text: up to the first block, and then block by block. */
  function Rendered(head: string, blocks: seq<Block>): string
    decreases |blocks|
  {
    if blocks == [] then head
    else
      var b := blocks[0];
      head + Opening(b.think) + b.inner + Closing(b.think) + Rendered(b.after, blocks[1..])
  }

  /** The text outside of the blocks. */
  function Around(head: string, blocks: seq<Block>): string
    decreases |blocks|
  {
    if blocks == [] then head else head + Around(blocks[0].after, blocks[1..])
  }

  /** What the blocks of one kind enclose, in order. */
  function Enclosed(blocks: seq<Block>, think: bool): string {
    if blocks == [] then ""
    else (if blocks[0].think == think then blocks[0].inner else "") + Enclosed(blocks[1..], think)
  }

  ghost predicate Untagged(head: string, blocks: seq<Block>) {
    TagFree(Around(head, blocks)) && forall b :: b in blocks ==> TagFree(b.inner)
  }

  /** The text with the blocks of one kind cut out. */
  function Cut(head: string, blocks: seq<Block>, think: bool): (r: (string, seq<Block>))
    ensures Around(r.0, r.1) == Around(head, blocks)
    ensures forall i :: 0 <= i < |r.1| ==> r.1[i].think != think
    ensures Enclosed(r.1, !think) == Enclosed(blocks, !think)
    decreases |blocks|
  {
    if blocks == [] then (head, [])
    else
      var b, later := blocks[0], blocks[1..];
      if b.think == think then
        AroundMerged(head, b.after, later);
        Cut(head + b.after, later, think)
      else
        var r := Cut(b.after, later, think);
        var first := b.(after := r.0);
        assert ([first] + r.1)[1..] == r.1;
        (head, [first] + r.1)
  }

  lemma AroundMerged(head: string, after: string, later: seq<Block>)
    ensures Around(head + after, later) == head + Around(after, later)
  {
    if later != [] {
      var rest := Around(later[0].after, later[1..]);
      assert head + after + rest == head + (after + rest);
    }
  }

  lemma RenderedMerged(head: string, after: string, later: seq<Block>)
    ensures Rendered(head + after, later) == head + Rendered(after, later)
  {
    if later != [] {
      hide Opening, Closing, Rendered;
      var b := later[0];
      RenderedIs(head + after, later);
      RenderedIs(after, later);
      var rest := Opening(b.think) + (b.inner + (Closing(b.think) + Rendered(b.after, later[1..])));
      assert head + after + rest == head + (after + rest);
    }
  }

  lemma RenderedIs(head: string, blocks: seq<Block>)
    requires blocks != []
    ensures var b := blocks[0];
            Rendered(head, blocks)
            == head + (Opening(b.think) + (b.inner + (Closing(b.think) + Rendered(b.after, blocks[1..]))))
  {
    hide Opening, Closing;
    var b := blocks[0];
    Regrouped(head, Opening(b.think), b.inner, Closing(b.think), Rendered(b.after, blocks[1..]));
  }

  lemma Regrouped(head: string, open: string, inner: string, close: string, rest: string)
    ensures head + open + inner + close + rest == head + (open + (inner + (close + rest)))
  {
    assert head + open + inner + close + rest == head + open + inner + (close + rest);
    assert head + open + inner + (close + rest) == head + open + (inner + (close + rest));
  }

  lemma TagFreeParts(x: string, y: string)
    requires TagFree(x + y)
    ensures TagFree(x) && TagFree(y)
  {
    hide Occurs, IsTag;
    forall tag | IsTag(tag) ensures !Contains(x, tag) && !Contains(y, tag) {
      if Contains(x, tag) {
        var i := OccurrenceOf(x, tag);
        OccursWithin(x, y, tag, i);
      }
      if Contains(y, tag) {
        var i := OccurrenceOf(y, tag);
        OccursWithin(x, y, tag, |x| + i);
      }
    }
  }

  lemma OccursWithin(x: string, y: string, tag: string, i: int)
    ensures Occurs(x, tag, i) ==> Occurs(x + y, tag, i)
    ensures Occurs(y, tag, i - |x|) ==> Occurs(x + y, tag, i)
  {
    if 0 <= i <= |x + y| - |tag| {
      OccursInConcatIff(x, y, tag, i);
    }
  }

  lemma TagIsNotEmpty(tag: string)
    requires Bracketed(tag)
    ensures tag != ""
  {
  }

  /** The tag stands in the longer text where it stands in the shorter one, n characters on. */
  ghost predicate IsShifted(whole: string, s: string, tag: string, n: nat) {
    forall i :: Occurs(whole, tag, i) <==> i >= n && Occurs(s, tag, i - n)
  }

  lemma AllBehindPrefix(p: string, s: string, tag: string)
    requires Bracketed(tag) && !Contains(p, tag) && p != "" && p[|p| - 1] == '>'
    ensures IsShifted(p + s, s, tag, |p|)
  {
    hide Occurs, Bracketed, Contains;
    forall i ensures Occurs(p + s, tag, i) <==> i >= |p| && Occurs(s, tag, i - |p|) {
      BehindPrefix(p, s, tag, i);
    }
  }

  lemma BehindPrefix(p: string, s: string, tag: string, i: int)
    requires Bracketed(tag) && !Contains(p, tag) && p != "" && p[|p| - 1] == '>'
    ensures Occurs(p + s, tag, i) <==> i >= |p| && Occurs(s, tag, i - |p|)
  {
    hide Occurs, Bracketed;
    OccursWithin(p, s, tag, i);
    if Occurs(p + s, tag, i) {
      NothingAcrossSeam(p, s, tag, i);
    }
  }

  lemma FindShifts(whole: string, s: string, tag: string, n: nat)
    requires tag != "" && IsShifted(whole, s, tag, n)
    ensures var found := Find(s, tag);
            Find(whole, tag) == if found.Some? then Some(n + found.value) else None
  {
    hide Occurs, Find;
    var found := Find(s, tag);
    if found.Some? {
      assert Occurs(whole, tag, n + found.value);
      FoundAt(whole, tag, n + found.value);
    }
  }

  /** What stands before the text, whole and without an opening tag, stays. */
  lemma {:induction false} PrefixStays(p: string, s: string, open: string, close: string)
    requires Bracketed(open) && close != "" && !Contains(p, open) && p != "" && p[|p| - 1] == '>'
    ensures var r := StripAll(s, open, close);
            StripAll(p + s, open, close) == (p + r.0, r.1)
    decreases |s|
  {
    hide Occurs, Bracketed, Find, StripAll, NextBlock, Contains, Without, Inside;
    TagIsNotEmpty(open);
    BlockBehind(p, s, open, close);
    var found := NextBlock(s, open, close);
    if found.None? {
      NoBlockLeft(s, open, close);
      NoBlockLeft(p + s, open, close);
    } else {
      var b := found.value;
      StripStep(s, open, close, b);
      StripStep(p + s, open, close, Span(|p| + b.start, b.inner));
      CutBehind(p, s, open, close, b);
      WithoutIsShorter(s, open, close, b);
      PrefixStays(p, Without(s, open, close, b), open, close);
    }
  }

  lemma BlockBehind(p: string, s: string, open: string, close: string)
    requires Bracketed(open) && close != "" && !Contains(p, open) && p != "" && p[|p| - 1] == '>'
    ensures open != ""
    ensures var found := NextBlock(s, open, close);
            NextBlock(p + s, open, close)
            == if found.Some? then Some(Span(|p| + found.value.start, found.value.inner)) else None
  {
    hide Occurs, Bracketed, Find, Contains;
    TagIsNotEmpty(open);
    AllBehindPrefix(p, s, open);
    FindShifts(p + s, s, open, |p|);
    var start := Find(s, open);
    if start.Some? {
      OccursRange(s, open, start.value);
      assert (p + s)[|p| + start.value + |open|..] == s[start.value + |open|..];
    }
  }

  lemma CutBehind(p: string, s: string, open: string, close: string, b: Span)
    requires b.start + |open| + b.inner + |close| <= |s|
    ensures var b' := Span(|p| + b.start, b.inner);
            && Inside(p + s, open, b') == Inside(s, open, b)
            && Without(p + s, open, close, b') == p + Without(s, open, close, b)
  {
    assert (p + s)[..|p| + b.start] == p + s[..b.start];
    var e := b.start + |open| + b.inner + |close|;
    assert (p + s)[|p| + e..] == s[e..];
  }

  lemma TagsOf(think: bool)
    ensures IsTag(Opening(think)) && IsTag(Closing(think)) && Opening(think) != "" && Closing(think) != ""
    ensures Opening(think) != Opening(!think) && Opening(think) != Closing(!think)
  {
    assert |"<think>"| == 7 && |"<thought>"| == 9 && |"</thought>"| == 10 && |"</think>"| == 8;
  }

  /** A block of the pass's own kind, first in the text, is cut out. */
  lemma OwnBlockGoes(head: string, y: string, rest: string, think: bool)
    requires TagFree(head) && TagFree(y)
    ensures Opening(think) != "" && Closing(think) != ""
    ensures var open, close := Opening(think), Closing(think);
            var r := StripAll(head + rest, open, close);
            StripAll(head + open + y + close + rest, open, close) == (r.0, y + r.1)
  {
    hide *;
    var open, close := Opening(think), Closing(think);
    TagsOf(think);
    TagFreeHasNo(head, open);
    TagFreeHasNo(y, close);
    FirstAt(head, open, y + close + rest);
    FirstAt(y, close, rest);
    var s := head + open + y + close + rest;
    assert head + open + (y + close + rest) == s;
    OneBlockParts(head, y, rest, open, close);
    FoundAt(s, open, |head|);
    FoundAt(y + close + rest, close, |y|);
    FoundIsNext(s, head, y, rest, open, close);
    StripStep(s, open, close, Span(|head|, |y|));
  }

  /** A block of the other kind, first in the text, stays. */
  lemma OtherBlockStays(head: string, y: string, rest: string, think: bool)
    requires TagFree(head) && TagFree(y)
    ensures Opening(think) != "" && Closing(think) != ""
    ensures var p := head + Opening(!think) + y + Closing(!think);
            var r := StripAll(rest, Opening(think), Closing(think));
            StripAll(p + rest, Opening(think), Closing(think)) == (p + r.0, r.1)
  {
    hide *;
    var p := head + Opening(!think) + y + Closing(!think);
    TagsOf(think);
    TagsOf(!think);
    NothingIsTagFree();
    OtherTagNotAround(head, y, "", Opening(!think), Closing(!think), Opening(think));
    assert p + "" == p;
    NoOccurrence(p, Opening(think));
    TagsAreBracketed(Closing(!think));
    TagsAreBracketed(Opening(think));
    EndsOfTag(head + Opening(!think) + y, Closing(!think));
    PrefixStays(p, rest, Opening(think), Closing(think));
  }

  lemma NoOccurrence(s: string, tag: string)
    requires forall i :: !Occurs(s, tag, i)
    ensures !Contains(s, tag)
  {
  }

  lemma NothingIsTagFree()
    ensures TagFree("")
  {
  }

  lemma UntaggedParts(head: string, blocks: seq<Block>)
    requires Untagged(head, blocks)
    ensures TagFree(head)
    ensures blocks != [] ==> TagFree(blocks[0].inner)
    ensures blocks != [] ==>
              Untagged(blocks[0].after, blocks[1..]) && Untagged(head + blocks[0].after, blocks[1..])
  {
    hide TagFree;
    if blocks != [] {
      var b, later := blocks[0], blocks[1..];
      TagFreeParts(head, Around(b.after, later));
      AroundMerged(head, b.after, later);
    }
  }

  /** A pass leaves the text with its own blocks cut out, and gives what they enclosed, in order. */
  lemma {:induction false} PassCuts(head: string, blocks: seq<Block>, think: bool)
    requires Untagged(head, blocks)
    ensures Opening(think) != "" && Closing(think) != ""
    ensures var r := Cut(head, blocks, think);
            StripAll(Rendered(head, blocks), Opening(think), Closing(think))
            == (Rendered(r.0, r.1), Enclosed(blocks, think))
    decreases |blocks|
  {
    hide StripAll, TagFree, Untagged, Opening, Closing;
    TagsOf(think);
    UntaggedParts(head, blocks);
    if blocks == [] {
      TagFreeHasNo(head, Opening(think));
      WithoutTag(head, Opening(think), Closing(think));
    } else {
      var b, later := blocks[0], blocks[1..];
      var rest := Rendered(b.after, later);
      if b.think == think {
        OwnBlockGoes(head, b.inner, rest, think);
        RenderedMerged(head, b.after, later);
        PassCuts(head + b.after, later, think);
      } else {
        OtherBlockStays(head, b.inner, rest, think);
        PassCuts(b.after, later, think);
        OtherBlockKept(head, blocks, think);
      }
    }
  }

  lemma OtherBlockKept(head: string, blocks: seq<Block>, think: bool)
    requires blocks != [] && blocks[0].think != think
    ensures var b, later := blocks[0], blocks[1..];
            var r, kept := Cut(b.after, later, think), Cut(head, blocks, think);
            && Rendered(kept.0, kept.1) == head + Opening(!think) + b.inner + Closing(!think) + Rendered(r.0, r.1)
            && Enclosed(blocks, think) == Enclosed(later, think)
  {
    hide Opening, Closing;
    var b, later := blocks[0], blocks[1..];
    var r := Cut(b.after, later, think);
    var first := b.(after := r.0);
    assert ([first] + r.1)[1..] == r.1;
    assert "" + Enclosed(later, think) == Enclosed(later, think);
  }

  lemma WithoutTag(s: string, open: string, close: string)
    requires open != "" && close != "" && !Contains(s, open)
    ensures StripAll(s, open, close) == (s, "")
  {
    hide StripAll, Occurs;
    NoOpeningTag(s, open, close);
  }

  lemma {:induction false} CutKeepsUntagged(head: string, blocks: seq<Block>, think: bool)
    requires forall b :: b in blocks ==> TagFree(b.inner)
    ensures forall b :: b in Cut(head, blocks, think).1 ==> TagFree(b.inner)
    decreases |blocks|
  {
    hide TagFree;
    if blocks != [] {
      var b, later := blocks[0], blocks[1..];
      assert forall x :: x in later ==> x in blocks;
      if b.think == think {
        CutKeepsUntagged(head + b.after, later, think);
      } else {
        CutKeepsUntagged(b.after, later, think);
        var r := Cut(b.after, later, think);
        var first := b.(after := r.0);
        assert b in blocks && first.inner == b.inner;
        forall x | x in [first] + r.1 ensures TagFree(x.inner) {
          assert x == first || x in r.1;
        }
      }
    }
  }

  lemma {:induction false} CutOfOneKind(head: string, blocks: seq<Block>, think: bool)
    requires forall i :: 0 <= i < |blocks| ==> blocks[i].think == think
    ensures Cut(head, blocks, think) == (Around(head, blocks), [])
    decreases |blocks|
  {
    if blocks != [] {
      AroundMerged(head, blocks[0].after, blocks[1..]);
      CutOfOneKind(head + blocks[0].after, blocks[1..], think);
    }
  }

  /**
   * Of any text made of blocks of both kinds, the content is the text around them, and the trace is what the think
   * blocks enclose, in order, followed by what the thought blocks enclose, in order; both trimmed.
   */
  lemma StripSeparates(head: string, blocks: seq<Block>)
    requires Untagged(head, blocks)
    ensures Strip(Rendered(head, blocks))
         == (Trim(Around(head, blocks)), Trim(Enclosed(blocks, true) + Enclosed(blocks, false)))
  {
    var first := Cut(head, blocks, true);
    PassCuts(head, blocks, true);
    CutStaysUntagged(head, blocks);
    PassCuts(first.0, first.1, false);
    CutOfOneKind(first.0, first.1, false);
    hide *;
    StripIs(Rendered(head, blocks), (Rendered(first.0, first.1), Enclosed(blocks, true)),
            (Rendered(Around(head, blocks), []), Enclosed(blocks, false)));
    NoBlocks(Around(head, blocks));
  }

  lemma CutStaysUntagged(head: string, blocks: seq<Block>)
    requires Untagged(head, blocks)
    ensures var first := Cut(head, blocks, true);
            Untagged(first.0, first.1) && forall i :: 0 <= i < |first.1| ==> first.1[i].think == false
  {
    hide TagFree, Cut;
    CutKeepsUntagged(head, blocks, true);
    var first := Cut(head, blocks, true);
    forall i | 0 <= i < |first.1| ensures first.1[i].think == false {
      assert first.1[i].think != true;
    }
  }

  lemma NoBlocks(s: string)
    ensures Rendered(s, []) == s
  {
  }
}
