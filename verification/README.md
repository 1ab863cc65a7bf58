# Verified model of the AI content platform's core logic

This project models the parts of the content platform whose guarantees hold over unbounded inputs or
runs, and proves those guarantees:

- **Text splitter** (`Text`, `TextSplitter`, `ChunkMerge`, `Splitting`, `Vanishing`, `Cutting`). Strings are
  sequences of UTF-16 code units. `split`, `join` and `trim` are modelled as ECMAScript defines them. The recursive split, the
  backward overlap loop and the greedy merge loop are methods, each proved equal to a specification
  function. Chunk size and overlap are arbitrary integers.
- **LLM router and circuit breakers** (`CircuitBreaker`, `LlmRouter`, `RouterSpec`, `StreamSpec`, `RouterRuns`,
  `RateBound`, `Drafts`). Breakers are objects that the loops of `complete` and `stream` update. What providers answer, how long
  that takes and how late timers fire come from an arbitrary environment; the clock does not run backwards.
- **Agent pipeline** (`Degradation`, `Orchestrator`, `PipelineSpec`, `RunRecord`). Each attempt of an agent has an
  arbitrary duration and result, its timer may fire late, and anything may be appended to the degradation record, or the run
  cancelled, while it is awaited; that includes what an abandoned, timed-out task does later.
- **SSE stream registry** (`Streaming`). Entries, timers, subjects and responses form a state machine;
  timers fire when they are due or up to a maximum lateness after, connections break at any time.
- **RAG ingestion, search and research ranking** (`Rag`, `Research`, `Sorting`), over an exact vector store
  with the semantics of the repository's in-memory one.
- **Relevance score** (`Relevance`), over exact reals.

The code and its documentation differ in some places. The model follows the code:

- The comments of the circuit breaker and the repository's README promise one test request after the
  cooldown. The code admits every request until a failure is recorded (`TurnedAwayIff`,
  `TwoTestRequests`, `SecondTestRequest`).
- The README speaks of exponential backoff. The code waits `retryDelayMs * attempt` (`WaitOfProvider`).
- A text need not be blank to yield no chunks: `". "` with chunk size 1 vanishes (`VanishingText`;
  `VanishesIff` gives the exact condition).
- The close event of one response can remove the entry of another (`StaleDisconnectIff` gives the exact
  condition, `StaleDisconnectHappens` a run).
- Deleting a document leaves the points beyond the first 10000 behind (`IngestThenDelete`).
- A document that is not READY can have points in the store: when only the update to READY failed (`ProcessSpec`).
- A document need not end READY or FAILED: it stays as it is when the failure cannot be recorded (`ProcessSpec`).
- What a failed stream sent stays in the draft (`DraftIsAnswerIff`).
- With `maxRetries` below 1, a request that finds the cooldown over leaves the circuit half-open
  (`NeverHalfOpenIff`).

`dafny verify dfyconfig.toml` checks the whole project.

## Model

| member | source | states |
|---|---|---|
| Text.JoinSplit | src/rag/services/text-splitter.service.ts:42 | joining the parts of a split with its separator gives back the text, for every separator including the empty one |
| Text.SplitPartsLackSeparator | src/rag/services/text-splitter.service.ts:42 | no part of a split contains the separator |
| Text.TrimShape | src/rag/services/text-splitter.service.ts:76 | trimming takes off exactly a blank prefix and suffix, and leaves nothing just for blank strings |
| TextSplitter.RecursiveSplit | src/rag/services/text-splitter.service.ts:31-54 | the recursive loop computes the specified pieces |
| TextSplitter.PiecesBounded | src/rag/services/text-splitter.service.ts:16-54 | thanks to the empty last separator every piece is at most the chunk size (or one unit), short text is one piece, and pieces of cut text are never blank |
| TextSplitter.PiecesCarved | src/rag/services/text-splitter.service.ts:31-54 | pieces are consecutive, ordered substrings of the text, and only discardable text lies between them |
| TextSplitter.NoContentLost | src/rag/services/text-splitter.service.ts:16-54 | for every text and chunk size, the pieces reproduce the text up to white space and sentence marks |
| Cutting.PieceIff | src/rag/services/text-splitter.service.ts:15-54 | a text that fits is one piece; of a longer one the pieces are exactly its short paragraphs, the short lines of its long paragraphs, the short sentences of these lines, and so on for clauses, questions and words, down to single units |
| Cutting.TouchingPieces | src/rag/services/text-splitter.service.ts:15-54 | between any two pieces there is discarded text, except inside a run without spaces and line breaks that is longer than the chunk size |
| Text.UnitsAsCharacters | src/rag/services/text-splitter.service.ts:16 | the code units of the separators are the characters meant |
| ChunkMerge.GetOverlapText | src/rag/services/text-splitter.service.ts:81-96 | the backward loop with its early exit finds the overlap that a left-to-right scan defines |
| ChunkMerge.OverlapMaximal | src/rag/services/text-splitter.service.ts:81-96 | the overlap is the longest word-aligned suffix within the limit, and empty when none fits |
| ChunkMerge.OverlapSkips | src/rag/services/text-splitter.service.ts:86-93 | stopping at the first candidate that is too long is sound |
| ChunkMerge.MergeChunksWithOverlap | src/rag/services/text-splitter.service.ts:56-79 | the merge loop emits the trimmed text of every group of the packing, for any list of pieces |
| ChunkMerge.PackShape | src/rag/services/text-splitter.service.ts:64-74 | the packing keeps all pieces in order, closes a group only when the next piece does not fit, starts the next with its overlap, and every group of several pieces fits |
| ChunkMerge.PackingUnique | src/rag/services/text-splitter.service.ts:64-74 | those rules determine the packing: no other grouping satisfies them |
| ChunkMerge.RenderIsJoin | src/rag/services/text-splitter.service.ts:66-72 | a chunk is the overlap and a space, if any, and the pieces joined by spaces |
| Splitting.Split | src/rag/services/text-splitter.service.ts:23-29 | the service splits and then merges |
| Splitting.ChunksMeetSpec | src/rag/services/text-splitter.service.ts:23-79 | one trimmed, non-blank chunk for each group of the greedy packing, at most chunk size, overlap and one space long, over the chunk size only as an overlap before a single piece; no chunks exactly when no piece has content |
| Splitting.SplitLosesNoContent | src/rag/services/text-splitter.service.ts:23-79 | the pieces in the chunks are carved from the text in order; a text without chunks is nothing but discardable text |
| Splitting.ChunksReproduceText | src/rag/services/text-splitter.service.ts:23-79 | every chunk begins with its overlap, and the chunks without their overlaps reproduce the text up to white space and sentence marks |
| Splitting.GreedyIsOptimal | src/rag/services/text-splitter.service.ts:56-79 | without overlap no partition of the pieces into consecutive groups that fit needs fewer chunks |
| Splitting.GreedyIsFeasible | src/rag/services/text-splitter.service.ts:56-79 | the splitter's own groups are such a partition, so the number of chunks is the minimum |
| Vanishing.VanishesIff | src/rag/services/text-splitter.service.ts:31-79 | a text yields no chunks exactly when it is nothing but white space and sentence marks followed by a space, and each of its lines, each sentence of such a line and each clause of such a sentence is blank or longer than the chunk size |
| Vanishing.TinyVanishesIff | src/rag/services/text-splitter.service.ts:31-79 | with a chunk size of at most one, exactly the discardable texts vanish |
| Vanishing.VanishingText | src/rag/services/text-splitter.service.ts:53 | a text that is not blank can yield no chunks |
| CircuitBreaker.ProviderCircuitBreaker.IsOpen | src/llm/circuit-breaker.ts:32-41 | the answer and the new state for every state and time |
| CircuitBreaker.ProviderCircuitBreaker.RecordSuccess | src/llm/circuit-breaker.ts:44-47 | the circuit is closed and the count reset |
| CircuitBreaker.ProviderCircuitBreaker.RecordFailure | src/llm/circuit-breaker.ts:50-56 | the failure is counted and timed, and the circuit opens at the threshold |
| CircuitBreaker.StateFromHistory | src/llm/circuit-breaker.ts:32-56 | for every interleaving of calls, closed means fewer failures than the threshold since the last success, the count is that number, and half-open means a request came after the cooldown |
| CircuitBreaker.FailureReopens | src/llm/circuit-breaker.ts:44-56 | any failure of a half-open circuit reopens it, and a success closes it |
| CircuitBreaker.TurnedAwayIff | src/llm/circuit-breaker.ts:32-41 | a request is skipped exactly when the threshold is reached and the cooldown of the last failure is not over |
| CircuitBreaker.TwoTestRequests | src/llm/circuit-breaker.ts:7-8 | two requests in a row pass a half-open circuit |
| CircuitBreaker.SecondTestRequest | src/llm/circuit-breaker.ts:32-41 | a second request after the cooldown is turned away exactly when a failure was recorded in between, less than a cooldown ago, with the threshold reached |
| LlmRouter.ChainShape | src/llm/llm-router.service.ts:209-212 | the preferred provider leads the chain, and no fallback is lost or repeated |
| LlmRouter.ChainOrder | src/llm/llm-router.service.ts:209-212 | the preferred provider moves to the front and the fallbacks keep their order; without a preference the chain is as configured |
| LlmRouter.LLMRouterService.TryOnce | src/llm/llm-router.service.ts:87-104 | one pass of the retry loop: the call, its effect on the breaker, and the linear wait |
| LlmRouter.LLMRouterService.Attempt | src/llm/llm-router.service.ts:86-105 | the retry loop on a live breaker object follows the specified attempts |
| LlmRouter.LLMRouterService.Complete | src/llm/llm-router.service.ts:62-111 | the loop over the chain: answer, tried list, fallback calls, clock and all breaker states |
| LlmRouter.LLMRouterService.Stream | src/llm/llm-router.service.ts:114-164 | the streaming loop: delivered events, fallback calls, clock and all breaker states |
| RouterSpec.TriesIsFirst | src/llm/llm-router.service.ts:86-105 | attempts stop at the first that is not a retryable error, or at the retry limit |
| RouterSpec.TrialSpec | src/llm/llm-router.service.ts:86-105 | a provider that answers is reset; one that fails is charged exactly its failed attempts; its calls follow one another in time |
| RouterSpec.WaitOfProvider | src/llm/llm-router.service.ts:102-103 | k attempts wait retryDelayMs k (k - 1) / 2 in all |
| RouterSpec.TimeOfTrial | src/llm/llm-router.service.ts:86-105 | the attempts at a provider take the time of all calls, the delays asked for and the lateness of their timers |
| RouterSpec.CompleteMeetsSpec | src/llm/llm-router.service.ts:62-111 | the earliest registered, admitted provider that succeeds answers; the time, fallbacks announced, breakers charged, reset or untouched, and the tried list are exactly those this implies |
| RouterSpec.RetryAccounting | src/llm/llm-router.service.ts:66-110 | at most P maxRetries calls and P retryDelayMs maxRetries (maxRetries - 1) / 2 of waiting for P registered entries |
| RouterSpec.NoneLeftHalfOpen | src/llm/llm-router.service.ts:74-107 | with at least one attempt allowed, no circuit is half-open between requests |
| StreamSpec.StreamIsRun | src/llm/llm-router.service.ts:119-161 | what a stream does to breakers, clock and lists is what a request with one attempt at each provider does |
| StreamSpec.StreamTerms | src/llm/llm-router.service.ts:125-157 | in such a request an answer is a stream that completes, an admitted provider takes as long as it streams, and a failed one is charged once |
| StreamSpec.StreamMeetsSpec | src/llm/llm-router.service.ts:119-161 | the first admitted provider that completes ends the stream; exactly the admitted ones before it have streamed and failed; their chunks come in chain order, followed by one terminal event; fallbacks, charged, reset and untouched breakers are those this implies |
| StreamSpec.StreamLeavesNoneHalfOpen | src/llm/llm-router.service.ts:125-157 | no circuit is half-open after a stream |
| RouterRuns.HandleIsRun | src/llm/llm-router.service.ts:61-164 | completions and streams are requests of one kind |
| RouterRuns.RunsLeaveNoneHalfOpen | src/llm/llm-router.service.ts:61-164 | no circuit is half-open between the requests of any run of completions and streams |
| RouterRuns.HalfOpenLeftBehind | src/llm/llm-router.service.ts:74-107 | without attempts, failed streams from fresh breakers and one completion after the cooldown leave a circuit half-open |
| RouterRuns.NeverHalfOpenIff | src/llm/llm-router.service.ts:74-107 | from fresh breakers, no run leaves a circuit half-open exactly when at least one attempt is configured |
| RateBound.RunKeepsInv | src/llm/llm-router.service.ts:61-164 | over every run of completions and streams, calls to a provider that never answers keep the spacing that the cooldown demands |
| RateBound.TrippedIff | src/llm/circuit-breaker.ts:50-56 | between requests, such a circuit is open exactly when the provider was called failureThreshold times |
| RateBound.CallsBeforeTrip | src/llm/llm-router.service.ts:74-105 | a request that finds the circuit closed leaves the provider with at most failureThreshold - 1 + maxRetries calls |
| RateBound.FailingProviderSpacing | src/llm/llm-router.service.ts:74-105 | calls do not overlap; at most failureThreshold - 1 + maxRetries belong to requests admitted before failureThreshold calls had failed; every later admission comes at least cooldownMs after all calls before it |
| RateBound.FailingProviderRate | src/llm/llm-router.service.ts:74-105 | from the call that trips the circuit on, any window of length T holds at most maxRetries (T / cooldownMs + 1) calls |
| Drafts.StreamTerminates | src/llm/llm-router.service.ts:114-164 | on every chain, repetitions or not, a stream is chunks and then exactly one terminal event |
| Drafts.Generate | src/agents/agents/generator.agent.ts:53-79 | draft, token events and usage are those of the chunks before cancellation; a failed stream sets no draft |
| Drafts.DraftIsTokens | src/agents/agents/generator.agent.ts:61-68 | the draft is the joined deltas of the token events |
| Drafts.TokensSnoc | src/agents/agents/generator.agent.ts:61-68 | a chunk is one token event if it has text, and none otherwise |
| Drafts.DeltasSnoc | src/agents/agents/generator.agent.ts:61-68 | every chunk adds its text at the end |
| Drafts.UsageIsLast | src/agents/agents/generator.agent.ts:53-79 | the usage is that of the last final chunk that has one |
| Drafts.DraftOfStream | src/llm/llm-router.service.ts:136-158 | the draft of a stream is the text of all admitted providers up to the one that completes, cut at the cancellation, and absent when none completes |
| Drafts.DraftIsAnswerIff | src/llm/llm-router.service.ts:136-158 | the draft of an uncancelled stream is the completing provider's text exactly when no admitted provider before it sent any |
| Drafts.PartialAnswerStays | src/llm/llm-router.service.ts:136-158 | a provider that sends "a" and fails and its fallback that answers "b" give the draft "ab" |
| Degradation.DegradedExecutionContext.Append | src/resilience/degraded-execution-context.ts:38-42 | a reason is added at the end exactly when it is not there yet |
| Degradation.AppendOnly | src/resilience/degraded-execution-context.ts:20-43 | the record never loses, reorders or repeats a reason and takes up all that is appended |
| Orchestrator.AgentOrchestratorService.Await | src/agents/orchestrator/agent-orchestrator.service.ts:182-190 | the race of an agent against its timer |
| Orchestrator.AgentOrchestratorService.RunOptional | src/agents/orchestrator/agent-orchestrator.service.ts:161-180 | one retry, with the reasons recorded on the first and second failure |
| Orchestrator.AgentOrchestratorService.Run | src/agents/orchestrator/agent-orchestrator.service.ts:51-140 | the pipeline loop on live context objects: result, events, time, reasons and cancellation |
| PipelineSpec.EventOrder | src/agents/orchestrator/agent-orchestrator.service.ts:63-100 | the agents that ran are a prefix of the pipeline, each started and ended once in order; only a failed required agent is left without an end |
| PipelineSpec.ReasonsGrow | src/agents/orchestrator/agent-orchestrator.service.ts:63-120 | the record of reasons only grows over a run, without repetitions |
| PipelineSpec.OptionalStartsIff | src/agents/orchestrator/agent-orchestrator.service.ts:69-91 | an optional agent starts exactly when everything before it went smoothly and the budget is not used up |
| RunRecord.RequiredStartsIff | src/agents/orchestrator/agent-orchestrator.service.ts:63-100 | a required agent starts exactly when the run was not cancelled and all before it succeeded without a cancellation, degraded or not, and its failure ends the run |
| RunRecord.SucceedsIff | src/agents/orchestrator/agent-orchestrator.service.ts:15-21 | the time limit of every agent |
| RunRecord.RecordOfRun | src/agents/orchestrator/agent-orchestrator.service.ts:63-180 | the record is the initial one with the reasons of every stage appended in pipeline order, and the time is that of all attempts waited for |
| RunRecord.ReasonsExactly | src/agents/orchestrator/agent-orchestrator.service.ts:63-180 | a reason is in the record exactly when it was there at first, an awaited attempt appended it, an optional agent failed its first attempt (CONTRACT_RETRY), or one failed both or was reached and not started (OPTIONAL_AGENT_SKIPPED) |
| PipelineSpec.CleanResultIff | src/agents/orchestrator/agent-orchestrator.service.ts:63-139 | there is a result neither degraded nor cancelled exactly when the run was undisturbed and its readability score is within 0 to 100, and then the five agents started and ended once, in order |
| PipelineSpec.OutcomeReports | src/agents/orchestrator/agent-orchestrator.service.ts:105-139 | a result shows the content as it is, the draft in place of a missing optimized text, the words of the most finished text, and the final record of reasons, and is degraded exactly when there are any; only a readability score outside 0 to 100 is rejected |
| Orchestrator.WordCountSplits | src/agents/orchestrator/agent-orchestrator.service.ts:108-118 | the words on both sides of a white space add up |
| Orchestrator.WordCountOfWord | src/agents/orchestrator/agent-orchestrator.service.ts:108-118 | text without white space is one word |
| PipelineSpec.LatencyBound | src/agents/orchestrator/agent-orchestrator.service.ts:15-100 | with timers at most L late, every run ends within 350 s + 6 L, and with a budget B within the larger of 170 s + 3 L and just under B + 120 s + 2 L |
| PipelineSpec.LatencyBoundTight | src/agents/orchestrator/agent-orchestrator.service.ts:15-100 | for every budget and every L some run takes exactly that long |
| Streaming.StreamingService.RegisterStream | src/streaming/streaming.service.ts:51-97 | a new subject, subscription and pair of timers, and the entry |
| Streaming.StreamingService.OpenStream | src/streaming/streaming.controller.ts:25-38 | an active stream is not registered again |
| Streaming.StreamingService.EmitTo | src/streaming/streaming.service.ts:106-118 | unknown streams are ignored, invalid events rejected, others written |
| Streaming.StreamingService.CancelStream | src/streaming/streaming.service.ts:121-126 | cancelling an unknown stream is reported, others end with an error |
| Streaming.StreamingService.CloseStream | src/streaming/streaming.service.ts:134-146 | done and end are written unless the connection is broken, and the entry is removed |
| Streaming.StreamingService.CleanupStream | src/streaming/streaming.service.ts:148-156 | both timers, the subscription and the entry go |
| Streaming.StreamingService.FailSubject | src/streaming/streaming.service.ts:61-72 | the re-entrant error path: report, close, clean up |
| Streaming.StreamingService.OnHeartbeat | src/streaming/streaming.service.ts:74-76 | a heartbeat is written when it is due and scheduled again |
| Streaming.StreamingService.OnTimeout | src/streaming/streaming.service.ts:78-81 | a stream that is too old ends with an error |
| Streaming.StreamingService.OnClientClose | src/streaming/streaming.service.ts:83-86 | the close event removes the entry of its stream id |
| Streaming.StepKeepsInv | src/streaming/streaming.service.ts:51-156 | every step of the service or its surroundings keeps the invariant of entries, timers, subscriptions and outputs |
| Streaming.StreamSafety | src/streaming/streaming.service.ts:51-156 | after any run the live timers are exactly those of the entries, no entry is older than the maximum plus the lateness of timers, and a response gets done and end at most once, last |
| Streaming.DetachedIsFrozen | src/streaming/streaming.service.ts:134-156 | nothing is ever written to a response that has lost its entry, whatever happens next |
| Streaming.Endings | src/streaming/streaming.service.ts:61-81 | what closing, cancelling and timing out write to a working connection |
| Streaming.EmitWrites | src/streaming/streaming.service.ts:106-118 | a valid event is written to its response and nowhere else; an invalid one is rejected, one for an unknown stream ignored, and a broken connection gets nothing |
| Streaming.HeartbeatWrites | src/streaming/streaming.service.ts:74-76 | a due heartbeat is written and the next one scheduled |
| Streaming.OpenAdds | src/streaming/streaming.service.ts:51-97 | a new entry, its empty response and its two timers; an active stream is left alone |
| Streaming.CancelReplies | src/streaming/streaming.service.ts:121-126 | an unknown stream is reported, any other loses its entry |
| Streaming.DisconnectRemoves | src/streaming/streaming.service.ts:83-86 | the close event of a response with an entry removes that entry and its timers |
| Streaming.TimePasses | src/streaming/streaming.service.ts:74-81 | time passes as long as no timer becomes too late |
| Streaming.StaleDisconnectIff | src/streaming/streaming.service.ts:83-86 | the close event of one response removes the entry of another exactly when its stream id was opened again; the other then never gets an end |
| Streaming.StaleDisconnectHappens | src/streaming/streaming.service.ts:83-86 | opening, closing and opening again leads to such a state from every state |
| Rag.EmbedAlibaba | src/llm/providers/alibaba.provider.ts:132-144 | batches of 10 give the vectors of all texts in order in as few requests as possible, unless one of them fails |
| Rag.EmbedAll | src/rag/services/rag.service.ts:66-73 | batches of 100 over batches of 10 give the same vectors, and cost no extra request |
| Rag.RequestsIsCeiling | src/llm/providers/alibaba.provider.ts:133-143 | the number of requests for n texts is n / 10, rounded up |
| Rag.RAGService.CreateDocument | src/rag/services/rag.service.ts:39-46 | a new document starts PENDING, with no chunks counted |
| Rag.RAGService.ProcessDocument | src/rag/services/rag.service.ts:53-109 | the new rows, the new store and the states passed through, whichever step fails |
| Rag.ProcessSpec | src/rag/services/rag.service.ts:53-109 | an ingestion stores one point for each chunk or none; exactly when a document ends READY, FAILED, or stuck as PENDING, CHUNKING or EMBEDDING; and one that is not READY has points exactly when it has chunks and only the update to READY failed |
| Rag.StagesSpec | src/rag/services/rag.service.ts:53-109 | the states a document passes through, each once and in order |
| Rag.CollectionsDiffer | src/rag/services/rag.service.ts:202-205 | different brands have different collections |
| Rag.RAGService.DeleteDocument | src/rag/services/rag.service.ts:173-200 | a document of another brand is not found; otherwise the found points and the row go, and nothing else changes |
| Rag.PurgeSpec | src/rag/services/rag.service.ts:187-195 | deletion spares every other document and leaves only the document's points beyond 10000 |
| Rag.FoundBest | src/rag/services/rag.service.ts:187-195 | deletion finds the points of the document that score best |
| Rag.ProcessThenDelete | src/rag/services/rag.service.ts:53-200 | processing a new document and deleting it removes its row and restores all collections exactly when it was not stored or has at most 10000 chunks |
| Rag.IngestThenDelete | src/rag/services/rag.service.ts:33-200 | creating, processing and deleting a document restores all rows, and all collections exactly when it was not stored or has at most 10000 chunks; the points beyond those stay |
| Rag.OperationsKeepCounts | src/rag/services/rag.service.ts:33-200 | READY documents count exactly their stored points, PENDING ones have none, and no operation touches another document |
| Rag.RunKeepsCounts | src/rag/services/rag.service.ts:33-200 | the same over every run of creations, ingestions and deletions |
| Rag.SameContentsAfter | test/mocks/vector-store.mock.ts:21-84 | no operation tells an empty collection from a missing one |
| Rag.UpsertFresh | test/mocks/vector-store.mock.ts:21-32 | upserting points with fresh ids appends them |
| Rag.UpsertOneReplaces | test/mocks/vector-store.mock.ts:21-32 | a point with the id of a stored one takes its place |
| Sorting.SortSpec | src/agents/agents/researcher.agent.ts:106 | the sort is descending, a permutation and stable |
| Sorting.SortUnique | src/agents/agents/researcher.agent.ts:106 | there is only one such order |
| Research.FilterResults | src/rag/services/rag.service.ts:140-157 | the contract gate of a search and the number of violations it reports |
| Research.GateInOrder | src/rag/services/rag.service.ts:140-157 | the gate keeps well-formed results of the brand in their order |
| Research.AddNew | src/agents/agents/researcher.agent.ts:96-103 | the loop over the results of one query extends the survivors and the set of seen ids |
| Research.Select | src/agents/agents/researcher.agent.ts:93-108 | the loops with the set of seen ids, the sort, the cut and the citations compute the specified selection |
| Research.AllResultsInOrder | src/agents/agents/researcher.agent.ts:96-98 | the results of the queries come one after another |
| Research.SelectionThreshold | src/agents/agents/researcher.agent.ts:98 | exactly the chunks that some query found with a score above 0.7 survive |
| Research.CitedInOrder | src/agents/agents/researcher.agent.ts:108 | files are cited in the order in which they first occur |
| Research.SurvivorsSpec | src/agents/agents/researcher.agent.ts:94-103 | the survivors have distinct ids, one for each id that qualifies |
| Research.SurvivorsInOrder | src/agents/agents/researcher.agent.ts:94-103 | the survivors keep the order in which they were found |
| Research.SelectionSpec | src/agents/agents/researcher.agent.ts:93-108 | the context is distinct, sorted, stable, as large as it can be up to 15, made of first qualifying occurrences, and beats all it cut; citations name each survivor's file once |
| Research.BrandIsolation | src/rag/services/rag.service.ts:140-157 | every item of the context belongs to the querying brand, has an id and a content, and scores above 0.7 and at most 1, whatever the store returned |
| Relevance.CosineSimilarity | src/evaluation/evaluators/relevance.evaluator.ts:24-35 | the score times the two lengths is the dot product; 0 when that is negative, a vector is zero or the second vector is shorter |
| Relevance.CauchySchwarz | src/evaluation/evaluators/relevance.evaluator.ts:28-32 | the square of the dot product is at most the product of the squared lengths |
| Relevance.ScoreRange | src/evaluation/evaluators/relevance.evaluator.ts:33-34 | the upper clamp never changes the value; the score lies in [0, 1] and is symmetric |
| Relevance.ScoreScaleInvariant | src/evaluation/evaluators/relevance.evaluator.ts:24-35 | scaling a vector by a positive factor does not change the score |
| Relevance.ScoreOneIff | src/evaluation/evaluators/relevance.evaluator.ts:24-35 | the score is 1 exactly for positive multiples of a non-zero vector |

## Left out

- LlmRouter.LLMRouterService.Complete: requests to the router do not overlap; how overlapping requests affect one breaker is covered by the histories of `CircuitBreaker` alone, not by the loops.
- RouterSpec.CompleteMeetsSpec: stated, like `StreamMeetsSpec`, for chains without repetitions.
- LlmRouter.LLMRouterService.Stream: providers send their chunks after the subscriber has subscribed; a chunk sent synchronously would be lost by the source's subject.
- Orchestrator.AgentOrchestratorService.Run: steps and the tone analysis, which is constant but for the typed tone, are not modelled; the contract gate is what it asks beyond the fields' types; and emitting an event never throws.
- Orchestrator.AgentOrchestratorService.Await: code between two awaits takes no time.
- Streaming.StreamingService.OpenStream: a response that re-attaches to an active stream only gets headers and is not represented.
- Rag.RAGService.ProcessDocument: operations on documents do not overlap, generated ids are fresh, and a failing upsert stores nothing.
- Rag.RAGService.DeleteDocument: search is exact, as in the repository's in-memory store; Qdrant's is approximate.
- Rag.EmbedAlibaba: the backend embeds each text on its own and answers in order; the clamping of the dimension is not modelled.
- Relevance.CosineSimilarity: exact reals instead of floating point, with the two square roots as parameters.
- Classification of provider errors by their message, and merging of request options: an attempt simply ends in one of three ways.
- Default chunk size and overlap from the configuration.
- Provider SDK calls, prompt building and parsing of model output: foreign calls.
- Job queue, persistence of job status, HTTP layer, metrics, tracing, health checks and brand management: input and output.
- Contract schemas other than those of search results and content results; readability, tone and composite scores: one-branch facts.
- Memory recall, the RAG timeout and the retrieval steps recorded by the researcher: covered by arbitrary appended reasons.
