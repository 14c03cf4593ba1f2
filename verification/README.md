# Verified model of the agent's metabolism, provenance, engine and retrieval logic

This project models the parts of the ATHENA-class agent whose correctness is not visible from any one function, and
proves their properties for every input, every run and every interleaving. `dafny verify dfyconfig.toml` checks it.

| files | what they model |
|---|---|
| `JobStore`, `Consolidation` | the job table and the log and narrative tables as classes; every guarded UPDATE and every transaction is one atomic method |
| `LeaseProtocol`, `LeaseTheorems`, `ExactlyOnce`, `LinkConditions` | the lease protocol as a step system over any number of workers: commit, append, clock tick, spawn, claim, read, link, decide, finish, crash. `Next` is total (an event that is not enabled changes nothing), so every sequence of events is a run |
| `Runner` | `JobRunner.Run` and `ProcessSession` as imperative programs, with arbitrary events of other workers woven in around each database operation; the program is proved to be a run of the step system |
| `Supervisor` | the semaphore, wait group and stop flag, one step per access, under every interleaving of goroutines |
| `Provenance`, `InferenceDistance`, `Distrust` | paths over `derived_from` edges of an arbitrary, possibly cyclic graph, and the two searches over them |
| `Engine`, `EngineLoop` | one tool call, a batch of them, and the multi-turn loop, driven by an arbitrary model, tools, hooks and channels |
| `Vectors`, `Awareness` | cosine distance, the decaying centroid and the nudge limits, over the reals |
| `Ranking` | reciprocal rank fusion with top-K |
| `Stream`, `Thinking` | the accumulation of stream deltas and the stripping of thinking tags |
| `Migrate`, `Text` | the SQL statement splitter against a token-level lexer |
| `Assembler` | the phase assembler and its character budget |
| `Sorting`, `Wrappers` | the contract of the library sorts; options, results and facts about collections |

Each imperative method is proved against a definition that says what its result is; the lemmas then say what that
definition means. Identifiers, claim tokens and narrative ids are numbers, and freshness is a condition on the step
that introduces one. The wall clock is a natural number that never goes back.

## Where the code and its documentation or intent differ

* The comment on `ComputeInferenceDistance` gives T2 entries distance 0. The code never returns 0
  (`Provenance.DistanceIsPositive`).
* `CommitNarrative` has no fence: a worker that lost its lease can still commit and take logs away from its
  successor's narrative (`LinkConditions.SupersededCommitOverwrites`). Not every such commit does harm: over a whole
  run no link changes exactly if every commit finds its sources still uncovered
  (`LinkConditions.ConsolidatedLinksLastIff`). One job per session and no superseded commit are enough for that
  (`ExactlyOnce.ConsolidationIsExactlyOnce`), and neither can be dropped (`LinkConditions.TwoJobsOverwrite`).
* Without a consolidation store, a crash between the fenced link and `Complete` leads to a second narrative for the
  same logs, although every link was timely and fenced (`LinkConditions.FallbackRelinksAfterCrash`). There a link
  overwrites nothing exactly if its session has no narrative yet, and a run is exactly-once exactly if every session
  was linked at most once (`LinkConditions.FallbackIsExactlyOnceIff`).
* The finishers test the claim token but not the status; that a terminal job stays terminal follows only because a
  worker calls one finisher (`LeaseTheorems.SecondFinisherReopens`, `Runner.Database.Run`).
* `Drain` can return although a job starts later: a `Submit` or `Recover` past its stop-flag check is not counted yet
  (`Supervisor.DrainIsFinalIff`, `Supervisor.DrainCanReturnEarly`).
* A sequential batch ends the loop exactly if its first call says Terminate. If a call between the first and the last
  says so instead, the calls behind it stay unanswered while the loop goes on (`EngineLoop.GoesOnUnansweredIff`,
  `EngineLoop.UnansweredCallRun`).
* The Terminate flag is meant to be out of the after-hook's reach. It is restored in a result that the hook returns,
  but a hook that changes the result it was given in place, and returns nothing or an error, gets the change through,
  and so for the call id (`Engine.InPlaceHookFlipsTerminate`). Threading is proved for hooks that keep call ids.
* `stripThinkingTokens` can return a complete `<think>` block (`Thinking.SecondPassCanFormThinkBlock`):
  exactly if the second pass joins the two halves of a tag that completes one (`Thinking.StripLeavesNoBlock`).
* An empty first part of a native reasoning fragment lets the fallback field through that the whole fragment masked
  (`Stream.SplittingReasoning` gives the exact condition).
* Two phases of one name share an entry of `PhaseCosts` (`Assembler.SharedNameHidesACost`). The table is complete
  exactly if no cost other than 0 was overwritten (`Assembler.CostTableIsCompleteIff`).

## Model

| member | source | states |
|---|---|---|
| JobStore.SQLiteJobStore.Commit | internal/platform/storage/jobs_sqlite.go:29-40 | a new job is pending, unclaimed, with both counters at zero; no other row changes |
| JobStore.SQLiteJobStore.Claim | internal/platform/storage/jobs_sqlite.go:42-67 | succeeds exactly for a pending, failed or stale row under the claim cap, and then changes that row only: running, new token, new start time, one more claim |
| JobStore.SQLiteJobStore.Finish | internal/platform/storage/jobs_sqlite.go:69-129 | for the holder of the token Complete makes the row completed, MarkReviewRequired review_required, and Fail failed with one more retry; without the token the row stays, and a missing row and a lost fence are told apart |
| JobStore.SQLiteJobStore.Recoverable | internal/platform/storage/jobs_sqlite.go:131-153 | exactly the pending, running and failed jobs with fewer retries than the limit and fewer than five claims, oldest first, none twice |
| Consolidation.SQLiteConsolidationStore.CommitNarrative | internal/platform/storage/consolidation_sqlite.go:23-79 | the narrative and all its back-links, or nothing; no fence and no test that the sources are still uncovered |
| Consolidation.SQLiteConsolidationStore.UncoveredLogs | internal/platform/storage/consolidation_sqlite.go:81-110 | exactly the session's logs without a narrative, oldest first, none twice |
| Consolidation.SQLiteConsolidationStore.AtomicT2T3Link | internal/metabolism/backlink.go:28-85 | succeeds exactly if there are sources, the fence (if given) still holds the job and the database raises no fault; all or nothing |
| LeaseProtocol.NextKeepsLease | internal/metabolism/runner.go:69-112 | every step of every worker keeps the lease invariant: the holder of a row's current token has not finished, so its row is running; whoever lost its token did so after its lease went stale; tokens and claim numbers are never shared |
| LeaseProtocol.RunKeepsLease | internal/metabolism/runner.go:69-112 | the lease invariant holds after every run |
| LeaseTheorems.TerminalIsAbsorbing | internal/platform/storage/jobs_sqlite.go:69-118 | a completed or review_required job never changes again, whatever workers, crashes, recoveries and the clock do |
| LeaseTheorems.FinisherRecordsOutcome | internal/platform/storage/jobs_sqlite.go:69-118 | over every run: the finisher of the token's holder leaves its row completed, review_required, or failed with one more retry, as its outcome says, and every other row as it was |
| LeaseTheorems.SecondFinisherReopens | internal/platform/storage/jobs_sqlite.go:69-101 | the guards alone do not give that: if the worker that completed a job could call Fail as well, the job would be failed again, and claimable exactly while it has claims left |
| LeaseTheorems.BoundedAttempts | internal/platform/storage/jobs_sqlite.go:17-17 | ProcessSession starts at most five times per job over any run, and retries plus the running attempt never exceed the starts |
| LeaseTheorems.LeaseIsExclusive | internal/platform/storage/jobs_sqlite.go:42-67 | after every run at most one worker per job is inside Run with an unexpired lease, and it holds the fence |
| LeaseTheorems.SuccessiveClaimsAreStaleApart | internal/platform/storage/jobs_sqlite.go:49-57 | two successive claims of a job with no recorded failure in between are more than five minutes apart |
| LeaseTheorems.SupersededForGood | internal/platform/storage/jobs_sqlite.go:69-129 | a worker whose token was replaced never gets its row back, and its finisher leaves every row unchanged |
| ExactlyOnce.ConsolidationIsExactlyOnce | internal/metabolism/pipeline.go:106-181 | with one job per session and no superseded commit, over every run with crashes, reclaims and new logs: a link once set never changes, every log belongs to exactly the narrative it is linked to, and source sets are disjoint |
| ExactlyOnce.TimelyRunIsFenced | internal/metabolism/runner.go:69-106 | a run in which every commit comes before its lease goes stale has no superseded commit |
| ExactlyOnce.LinkIntegrity | internal/platform/storage/consolidation_sqlite.go:36-79 | after every run each link names an existing narrative of the same session that counts the log among its sources, and each narrative has sources, all of its session and all linked |
| ExactlyOnce.FallbackWritesAreFenced | internal/metabolism/backlink.go:48-61 | every narrative of a run with the fenced link was written by a worker that held its job's current token at that moment |
| LinkConditions.CommitOverwritesNothingIff | internal/platform/storage/consolidation_sqlite.go:36-79 | a commit overwrites no link exactly if the logs read earlier are still all uncovered |
| LinkConditions.ConsolidatedLinksLastIff | internal/metabolism/pipeline.go:106-181 | over a whole run no link ever changes exactly if every commit finds its sources still uncovered, and then every log is in exactly one narrative |
| LinkConditions.FallbackOverwritesNothingIff | internal/metabolism/backlink.go:28-85 | a fenced link overwrites no link exactly if its session has no narrative yet |
| LinkConditions.FallbackIsExactlyOnceIff | internal/metabolism/pipeline.go:106-181 | without a consolidation store, over every run: no link ever changes, and every log is in exactly one narrative, exactly if each session got at most one narrative |
| LinkConditions.RunKeepsNested | internal/metabolism/pipeline.go:106-121 | without a consolidation store all reads of a session, at whatever times, are comparable under inclusion |
| LinkConditions.SupersededCommitOverwrites | internal/platform/storage/consolidation_sqlite.go:23-79 | a concrete run in which the late commit of a superseded worker moves a log to a second narrative |
| LinkConditions.TwoJobsOverwrite | internal/platform/storage/consolidation_sqlite.go:23-79 | a concrete run with two jobs of one session in which every commit is timely and fenced and the later one moves a log |
| LinkConditions.FallbackRelinksAfterCrash | internal/metabolism/pipeline.go:106-121 | a concrete timely and fenced run without a consolidation store in which a crash after the link leads to a second narrative for the same log |
| Runner.Database.ProcessSession | internal/metabolism/pipeline.go:98-206 | under any events of other workers, case by case: a failed read, partial wiring with logs, a broken compression or a failed link gives an error; no logs or no wiring gives success without a link; review-required is passed on; a narrative gives success exactly if its link succeeds, which is then the last own event, and its sources are the logs read |
| Runner.Database.Compress | internal/metabolism/pipeline.go:143-200 | the compression phase alone: which result each wiring and each compression gives, and whether the narrative over exactly the logs read is in the database afterwards |
| Runner.Database.Run | internal/metabolism/runner.go:69-112 | the imperative run, with others' events woven in, is a run of the step system: one claim, and, exactly if the job is claimable at that moment, the processing and then one finisher, last; which finisher and which error the caller gets follow, case by case, from the wiring, the compression, the logs read and the fence |
| Runner.Database.RecoverStalled | internal/metabolism/runner.go:122-145 | one new worker for every recoverable job, oldest first, and for no other; rows and earlier workers stay as they are |
| Supervisor.NextKeepsInv | internal/metabolism/supervisor.go:47-138 | every step keeps the semaphore and the wait group equal to the number of threads that hold them |
| Supervisor.ConcurrencyIsBounded | internal/metabolism/supervisor.go:24-74 | jobs inside Run never outnumber the occupied slots, nor those the limit (two, if the given one is not positive); a wait group at zero means no job is inside Run |
| Supervisor.LateSubmitIsTurnedAway | internal/metabolism/supervisor.go:47-55 | a Submit that has not read the flag when it is set never commits or dispatches |
| Supervisor.SubmitCommitsAndStartsOne | internal/metabolism/supervisor.go:47-74 | under every interleaving a Submit that returned has committed one job and started one, in that order, and a refused one neither |
| Supervisor.RecoverDispatches | internal/metabolism/supervisor.go:80-115 | under every interleaving Recover starts its n jobs one by one: started and still to go add up to n, and it returns with all n started unless the stop flag is set |
| Supervisor.BlockedCanAlwaysProceed | internal/metabolism/supervisor.go:56-115 | from every reachable state where a thread waits for a slot, at most four steps of others free one and the thread can take it |
| Supervisor.DrainIsFinalIff | internal/metabolism/supervisor.go:120-138 | once the flag is set and the wait group is at zero no job is inside Run, and one can enter Run later exactly if some thread is between its flag check and the start of its goroutine |
| Supervisor.DrainReturnsWhenEmpty | internal/metabolism/supervisor.go:120-138 | the step with which Drain returns without timing out finds the flag set, the wait group at zero and no job inside Run |
| Supervisor.DrainCanReturnEarly | internal/metabolism/supervisor.go:120-138 | a concrete run in which Drain has returned and a job still enters Run afterwards |
| Provenance.Upstream | internal/platform/edges.go:283-306 | exactly the records that a record's derived_from edges lead to, with the tier each edge gives them |
| Provenance.Downstream | internal/platform/edges.go:174-197 | exactly the records whose derived_from edges lead to a record |
| Provenance.T2WithinIff | internal/memory/belief.go:39-59 | searching level by level finds tier 2 within k levels exactly if some path into tier 2 has at most k edges |
| Provenance.DistanceIsPositive | internal/memory/belief.go:28-33 | the distance is unique and at least 1, also for T2 entries |
| InferenceDistance.ComputeInferenceDistance | internal/memory/belief.go:33-64 | on every finite graph, cyclic ones included, the search ends with the length of the shortest derived_from path whose last edge enters tier 2, or 1 without one; it fails only on a record it cannot query, reached before any such path, and succeeds only if every record whose own edges come before any such path can be queried |
| Distrust.BeliefTable.MarkNeedsReview | internal/platform/edges.go:308-327 | unknown tiers fail, tier-2 logs succeed unmarked, beliefs are marked unless the update fails |
| Distrust.BeliefTable.MarksAre | internal/platform/edges.go:308-327 | of any records attempted, counted are those of tier 2 and those of tiers 3 to 5 whose update does not fail, marked only the latter |
| Distrust.PropagateDistrust | internal/memory/edges.go:59-112 | each record is attempted at most once and never the source; attempted are exactly the records with a path to the source through successfully marked ones; the count is the number of successes; marks are exactly the successes outside tier 2; it ends without an error only if the source and every success could be queried, and with one only at such a record |
| Distrust.NoFailuresMeansClosure | internal/memory/edges.go:72-107 | if every mark succeeds, the records attempted are the whole downstream closure |
| Distrust.DownstreamIsNearT2 | internal/memory/edges.go:72-107 | duality: if every edge into the source gives it tier 2, each record attempted has a genuine T2 path and an inference distance at most the length of any of its paths to the source |
| Engine.ExecuteSingleTool | internal/engine/engine.go:494-642 | the result answers its own call exactly unless the after-hook renames it, in what it returns or in place; it carries the handler's Terminate flag exactly unless the hook changes it in place and returns no replacement; otherwise a reached hook's replacement or changed result is the result; short of an execution the only success is a dry run |
| Engine.InPlaceHookFlipsTerminate | internal/engine/engine.go:616-626 | a hook that flips the flag and renames the call in place, returning nothing or an error, gets both through for every handler result |
| Engine.Gather | internal/engine/engine.go:452-465 | under every completion order of the goroutines, slot i ends up with the result of call i |
| Engine.ExecuteToolCalls | internal/engine/engine.go:440-489 | in parallel (more than one call, none of a sequential-only tool, parallel tools on): the results of all calls in call order, whatever the completion order; otherwise that list cut just after the first Terminate; terminated means non-empty and all terminate |
| Engine.SequentialTerminatesIffFirst | internal/engine/engine.go:466-489 | a sequential batch terminates exactly if its first result does |
| Engine.ParallelImpliesSequential | internal/engine/engine.go:440-489 | a batch that terminates in parallel also terminates sequentially |
| EngineLoop.DrainSteering | internal/engine/engine.go:373-398 | takes the user messages of a prefix of the channel: all of it, or up to the sixteenth accepted one |
| EngineLoop.AllCallsAnsweredIff | internal/engine/engine.go:294-366 | a turn answers all its calls exactly if it is truncated, runs in parallel, or no call before the last signals Terminate |
| EngineLoop.GoesOnUnansweredIff | internal/engine/engine.go:294-435 | the loop goes on after a turn with unanswered calls exactly if a sequential batch is cut at a call that is neither the first nor the last, short of the bound and of ShouldStop |
| EngineLoop.TruncatedTurnIsErrors | internal/engine/engine.go:294-308 | a truncated answer with calls: every call, in order, is answered by the same error, and nothing is injected |
| EngineLoop.TurnResultsAre | internal/engine/engine.go:326-337 | otherwise the k-th result is what the k-th call returned; all of them in parallel, else those up to the first Terminate |
| EngineLoop.InjectedMessages | internal/engine/engine.go:367-415 | after tools that ran and did not all terminate, the user messages of a prefix of the steering channel, all and in order, the prefix being everything unless sixteen were taken; a follow-up exactly if nothing was steered and its first message is from the user; otherwise nothing |
| EngineLoop.UnansweredCallRun | internal/engine/engine.go:225-435 | a concrete finished loop whose first of two turns leaves its third call without an answer |
| EngineLoop.HistoryIsWellThreaded | internal/engine/engine.go:225-435 | with hooks that keep call ids, each iteration adds an assistant message, answers to a prefix of its calls in order, and only user messages, at most sixteen steering or one follow-up; a turn before the last has calls, and answers all of them exactly unless a sequential batch was cut in the middle; without TransformContext the final history is the request and these turns |
| EngineLoop.HistoryMessages | internal/engine/engine.go:285-411 | the final history message by message: after the request, each turn occupies a stretch whose first message is the assistant's, with the response's text and calls, whose i-th message after it is a tool message with the id of the i-th call and the content and error flag of the i-th result, and whose rest is from the user |
| EngineLoop.HistoryStepByStep | internal/engine/engine.go:225-280 | with any TransformContext: what the model is sent is the history, transformed from the second completion on if there is a transformation and it does not fail; its answer is the turn's response, and the turn's messages follow what was sent |
| EngineLoop.WhyTheLoopStops | internal/engine/engine.go:304-434 | the last turn is the first without calls, or with only terminating results, or told to stop, or at the bound; the result says terminated exactly in the second case |
| EngineLoop.RunLoop | internal/engine/engine.go:131-436 | model calls never exceed the bound (25 by default) and equal Iterations; each turn is the one the model, tools, hooks and channels make of what was sent; the loop stops at the first turn that ends it; it fails exactly with the error the model returns, or when a critical hook fails after an answer that is not truncated |
| Vectors.CauchySchwarz | internal/awareness/peripheral.go:219-235 | in every dimension dot squared is at most the product of the squared norms, with equality only for parallel vectors |
| Vectors.DistanceIsBounded | internal/awareness/peripheral.go:217-235 | cosine distance lies in [0, 2]; for comparable vectors it is 0 exactly for equal directions, 1 exactly for orthogonal and 2 exactly for opposite ones |
| Vectors.IncomparableIsNotDistant | internal/awareness/peripheral.go:219-235 | vectors of different lengths, and vectors of zeros, are at distance 0 of everything; exactly all other pairs are compared |
| Vectors.CosineDistance | internal/awareness/peripheral.go:219-235 | the loop computes one minus the cosine, and 0 for vectors that cannot be compared |
| Awareness.CentroidIsWeightedMean | internal/awareness/peripheral.go:65-84 | after any sequence of updates each component of the centroid is the weighted mean of the accepted inputs, the weights fading by 0.85 per later input |
| Awareness.WeightsAreADistribution | internal/awareness/peripheral.go:79-82 | those weights are positive and add up to one |
| Awareness.CentroidStaysInRange | internal/awareness/peripheral.go:65-84 | after any sequence of updates each component stays between the bounds of the accepted inputs in that component |
| Awareness.PeripheralAwareness.UpdateCentroid | internal/awareness/peripheral.go:65-84 | in place: an empty input or one of another dimension changes nothing, the first is copied, any other is blended in, component by component, as 0.85 of the old and 0.15 of the new, and counted |
| Awareness.PeripheralAwareness.SemanticVelocity | internal/awareness/peripheral.go:88-93 | the distance of the turn from the centroid, in [0, 2], and 0 without a comparable centroid |
| Awareness.PeripheralAwareness.CheckNudge | internal/awareness/peripheral.go:98-133 | fires exactly if fewer than four nudges were given, the cooldown since the last is over and the velocity exceeds the jittered threshold; the session keeps at most four nudges |
| Awareness.SpacedOverall | internal/awareness/peripheral.go:98-133 | whatever turns are offered in whatever order, any two nudges of a session are at least eight turns apart per nudge between them |
| Ranking.HybridSearch | internal/memory/retrieve.go:96-161 | distinct ids of the union with their fused score and metadata, best first, topK of them or all; no omitted id scores above a returned one |
| Ranking.FusedHitIs | internal/memory/retrieve.go:96-146 | a fused hit from the lists alone: its score adds one over 60 plus its last rank for each list it is in; its metadata is that of the last full-text occurrence, or else of the first vector one |
| Ranking.FusionSize | internal/memory/retrieve.go:107-155 | topK hits, or every id of either list if topK is not positive or not smaller than their number |
| Ranking.ScoresAreDetermined | internal/memory/retrieve.go:148-155 | the unstable sort and different values of topK never show in the scores: two fusions of the same lists agree position by position |
| Ranking.BothListsBeatOneIff | internal/memory/retrieve.go:75-87 | ranks p and q in both lists beat every single-list rank exactly if 61(120 + p + q) >= (60 + p)(60 + q) |
| Ranking.Rank62InBothBeatsOne | internal/memory/retrieve.go:75-160 | an id ranked at most 62 in both lists scores at least as high as any id found in only one |
| Ranking.Rank63InBothCanLose | internal/memory/retrieve.go:75-87 | 62 is tight: rank 63 in both lists loses to rank 1 in one |
| Ranking.BetterRankScoresHigher | internal/memory/retrieve.go:75-87 | ranks at least as good in both lists, being in a list counting as better than not being in it, never lower the score |
| Stream.ParseStream | internal/engine/client.go:206-335 | the accumulating loop yields the response of the stream's summary: thinking, then text, then the tool calls by ascending index |
| Stream.ResponseIs | internal/engine/client.go:291-335 | the response for a summary: a thinking block and a text block, each trimmed and only if there is any, then the calls by ascending index; tags in the text replace missing native reasoning only in thinking mode and only if they enclose anything, and then the field name is empty |
| Stream.FirstChoicesArePicked | internal/engine/client.go:231-234 | the choices read are the first ones of exactly the chunks that have any, in order |
| Stream.FieldIsTheFirst | internal/engine/client.go:240-263 | the field name is that of the first choice with reasoning, the native field first |
| Stream.UsageIsTheLast | internal/engine/client.go:226-229 | the usage is the last one sent, in whatever chunk |
| Stream.SummaryOfConcatenation | internal/engine/client.go:226-283 | reading one stretch of the stream and then another adds up to the combination of the two summaries |
| Stream.ReplacingAStretch | internal/engine/client.go:206-335 | a stretch replaced by one of the same summary, anywhere in the stream, leaves the response unchanged |
| Stream.ResponseIsUnique | internal/engine/client.go:309-335 | the response does not depend on the iteration order of the call table |
| Stream.SplittingContent | internal/engine/client.go:244-266 | a content fragment may be split over two consecutive chunks without changing the summary |
| Stream.SplittingReasoning | internal/engine/client.go:236-262 | so may a native reasoning fragment, exactly if an empty first part does not unmask the fallback field |
| Stream.SplittingFallbackReasoning | internal/engine/client.go:236-262 | so may a fragment of the fallback reasoning field |
| Stream.SplittingArguments | internal/engine/client.go:268-282 | so may the arguments of any tool-call fragment, the second half needing the index only |
| Stream.SwappingToolChunks | internal/engine/client.go:268-282 | neighbouring chunks that carry only fragments of different calls may change places |
| Stream.CallsAreConcatenations | internal/engine/client.go:268-282 | a call exists exactly if some fragment has its index; its arguments are its fragments' in order of arrival, its id and name the last ones sent |
| Stream.TextsAreConcatenations | internal/engine/client.go:226-266 | text and reasoning are the concatenations of their fragments in first choices, the finish reason the last one that is not empty |
| Thinking.StripThinkingTokens | internal/engine/client.go:358-379 | the two passes of the loop compute the stripping function |
| Thinking.StripSeparates | internal/engine/client.go:356-379 | of any text made of blocks of both kinds, with no tags around them or within, the content is the text around the blocks, and the trace is what the think blocks enclose, in order, followed by what the thought blocks enclose, in order; both trimmed |
| Thinking.SingleThinkBlock | internal/engine/client.go:356-379 | a think block among any tag-free texts, even such as join to a tag: the content is the trimmed text around it, the trace the trimmed text within |
| Thinking.SingleThoughtBlock | internal/engine/client.go:356-379 | the same for a thought block |
| Thinking.PassCuts | internal/engine/client.go:364-377 | one pass over such a text cuts out the blocks of its own kind, gives what they enclose, in order, and leaves the others whole |
| Thinking.CutMakesTagIff | internal/engine/client.go:364-377 | cutting a block out of a text without a tag makes the tag appear exactly if the text before the cut ends in a proper prefix of it and the text after begins with the rest |
| Thinking.PassMakesBlockIff | internal/engine/client.go:364-377 | a pass over a text without blocks of another pair of tags leaves one exactly if a tag joined by a cut completes it |
| Thinking.StripLeavesNoBlock | internal/engine/client.go:356-379 | no complete thought block is ever returned; a complete think block is returned exactly if a tag joined by a cut of the second pass completes it, and so never if no cut joins a think tag |
| Thinking.SecondPassCanFormThinkBlock | internal/engine/client.go:356-379 | a concrete text for which the second pass leaves a complete think block |
| Thinking.StripAllConserves | internal/engine/client.go:364-377 | each pass conserves characters: what remains, what was enclosed and one pair of tags per block |
| Migrate.SplitStatements | cmd/migrate/main.go:206-245 | the byte loop cuts exactly at the semicolons that the reference lexer places outside strings and line comments; the tail is trimmed and dropped if blank |
| Migrate.QuotedStringIsWhole | cmd/migrate/main.go:229-239 | a quoted string at the front belongs to the first piece whole, semicolons included |
| Migrate.LineCommentIsWhole | cmd/migrate/main.go:216-228 | so does a line comment up to and with its newline |
| Migrate.SemicolonCuts | cmd/migrate/main.go:233-237 | a semicolon at the front ends the piece before it |
| Migrate.OtherCharacterDoesNotCut | cmd/migrate/main.go:239-239 | any other character belongs to the piece |
| Migrate.OpenTokenIsWhole | cmd/migrate/main.go:212-240 | a string or comment left open is one piece to the end of the file |
| Migrate.RejoiningRestores | cmd/migrate/main.go:206-245 | the pieces with their semicolons and the untrimmed tail give the file back |
| Migrate.SplittingAgain | cmd/migrate/main.go:206-245 | splitting any emitted statement again yields just that statement, trimmed, or nothing if it is blank |
| Migrate.TailSplitsToItself | cmd/migrate/main.go:241-243 | the emitted tail, split again, is just itself |
| Migrate.SplittingInvertsJoining | cmd/migrate/main.go:206-245 | statements that their semicolon really closes, joined, split into exactly those statements |
| Migrate.OpenCommentSwallowsSemicolon | cmd/migrate/main.go:216-227 | a statement ending in an open line comment is not closed by its semicolon: it and what follows stay one piece |
| Assembler.Assemble | internal/assembly/assembler.go:155-256 | the loop reports, field by field, the turns of the phases in priority order; an error of a fatal phase ends it |
| Assembler.TakeTurn | internal/assembly/assembler.go:176-235 | one phase: skipped under budget pressure or on a tolerated error, aborting on a fatal one, otherwise charged and recorded |
| Assembler.AssemblyFailsIff | internal/assembly/assembler.go:176-201 | the assembly fails, and with which message, exactly if a phase that has its turn is consulted, fails with it and is fatal; without fatal phases it succeeds |
| Assembler.EveryPhaseIsAccounted | internal/assembly/assembler.go:176-216 | in a successful assembly a phase is among the skipped exactly for a positive minimum above what is left, with that as the reason, or for a failure, with its message; otherwise it is among the run |
| Assembler.SkippedForBudgetIsNotConsulted | internal/assembly/assembler.go:177-189 | a phase skipped for budget is not consulted: with any other phase body in its place the outcome is the same |
| Assembler.AssemblyReports | internal/assembly/assembler.go:176-252 | the report of a successful assembly: names, skips and sections in turn order, the reason and the token estimate of the last step of a name, the last documents and report, the final manifest, and the budget spent |
| Assembler.EveryPhaseHasItsTurn | internal/assembly/assembler.go:176-235 | without an abort every phase has its turn on the total minus all earlier charges and on the manifest its predecessor left |
| Assembler.RunAndSkippedPartitionTheOrder | internal/assembly/assembler.go:172-256 | phases run and phases skipped split the registry between them, both in priority order |
| Assembler.BudgetIsKept | internal/assembly/assembler.go:155-256 | if no phase uses more than it is offered, BudgetUsed never exceeds BudgetTotal |
| Assembler.CostTableIsCompleteIff | internal/assembly/assembler.go:203-224 | with derived estimates the entries of PhaseCosts add up to the costs of the phases run exactly if every entry that was overwritten was 0; four times their sum never exceeds BudgetUsed plus three per phase run, and covers BudgetUsed if no cost was overwritten |
| Assembler.CostsCoverTheBudgetUsed | internal/assembly/assembler.go:203-224 | with distinct names and derived estimates, four times the summed PhaseCosts lies between BudgetUsed and BudgetUsed plus three per phase run |
| Assembler.CostedIffRun | internal/assembly/assembler.go:203-215 | a cost is on record for exactly the names of the phases that ran |
| Assembler.SharedNameHidesACost | internal/assembly/assembler.go:208-208 | a registry of two phases of one name whose assembly charged eight characters and shows one token |
| Assembler.RegistrationOrderIsIrrelevant | internal/assembly/assembler.go:161-166 | with distinct priorities the outcome is the same for every order of registration |

## Left out

- SQL text, drivers, JSON columns and the Postgres twins of the stores: rows are records, each guarded UPDATE is one step and a transaction is atomic.
- The count that `Supervisor.Recover` returns: the number of jobs found, even if the stop flag kept some from being dispatched.
- The columns job_type, completed_at and error_message, the job row's LastStatus query, and the text of a narrative.
- A database error in a finisher, a claim or a commit of a job: for the protocol it is a worker that stops there, the Crash event.
- The unfenced path in internal/metabolism/jobs.go and internal/metabolism/recovery.go, which the daemon does not use.
- LLM, embeddings, content gateway, hooks and tool handlers: arbitrary functions that may fail; CompressSession yields a narrative, review-required or an error. Salience scoring in ProcessSession is skipped.
- The time limit on each tool call and the rate limits of the tool registry: part of what a handler may do.
- HTTP, event-stream lines, JSON decoding, logging, event emission, timing and latency figures.
- RunOneTurn, CreateEdge, belief decay, staleness flags and the convergence nudge: single-branch or plain formulas.
- The topic and command text of a nudge.
- Vectors.DistanceIsBounded: over the reals, with a given square root; rounding of float32 and float64 is not modelled.
- Ranking.HybridSearch: scores are reals, so ties that only rounding creates are not modelled; the library sort is used by its contract, on values rather than in place.
- Assembler.Assemble: the library sort is used by its contract; the text of the manifest block, the identifiers and the plan id are not modelled, and phases cannot change the configuration.
- Stream.ParseStream: token counts of thinking are in characters, not bytes; the reader's errors are not modelled.
- Migrate.SplitStatements: characters are code points; every character the splitter tests is ASCII, so cutting by bytes is the same.
- Distrust.PropagateDistrust: which of several tiers is used for a record that duplicate edges give different tiers is not fixed by the contract.
- The tie order of sorts, beyond showing that it changes no score and no assembly with distinct priorities.
