# Verification of the financial RAG assistant's core algorithms

A Dafny model of the parts of the assistant whose behaviour spans many calls, and proofs of what they
promise. `dafny verify dfyconfig.toml` checks everything.

Code that works by changing things step by step is a class or a method with loops, proved against a
specification function or a stated property; the main results are lemmas about those specifications,
over every input or every run.

| files | what they model |
|---|---|
| `TaskTable`, `TaskBroker`, `TaskWorker`, `TaskOutcomes` | the task table, the message stream, the worker's methods, and what an execution leaves of its task |
| `LeaseProtocol`, `LeaseExclusion`, `LeaseRecovery`, `LeaseConservation`, `LeaseProgress`, `LeaseEndings` | the lease and retry protocol as a step relation: several threads, each with a program counter and locals, racing for rows; a clock; deliveries, losses, duplicates, timeouts, crashes and recoveries in any order |
| `PlanSemantics`, `PlanExecution`, `QueryPlanner` | the wave scheduler beside the sequential executor, and the plans they are fed |
| `Text`, `LongText`, `BlockChunker`, `ChunkMerger`, `MergedRuns`, `DocumentChunker`, `ChunkSize` | cutting a parsed document into chunks |
| `SearchResults`, `LexicalSearch`, `RankFusion`, `HybridRetriever`, `RetrievalCompleteness`, `Sorting` | scoped, filtered and fused retrieval over an arbitrary store |
| `Json`, `SchemaValidator`, `SchemaStandard`, `SchemaRefusals`, `ToolAdapter`, `McpServer`, `McpRuns` | the schema validator, the governed tool adapter and the MCP connection (lifecycle of the Model Context Protocol, revision 2025-06-18; JSON-RPC 2.0 sections 4.1 and 5; a subset of JSON Schema 2020-12) |
| `Sanitizer` | JSON conversion of object graphs with redaction |
| `RateLimiter`, `RetrievalMetrics`, `Luhn` | the fixed-window limiter, the ranking metrics, the card-number checksum (Annex B of ISO/IEC 7812-1) |

## What turned out not to hold

Where the code does not keep a promise, the model keeps the code, a lemma gives a concrete input, and
another says exactly when the promise is kept.

- **Lease.** A recovery reads the stale rows in one statement and writes them back later without testing
  them again. Two overlapping recoveries can therefore put a freshly claimed task back and start it a
  second time (`OverlappingRecoveriesBreakTheLease`). The commit itself still leaves one holder per task;
  what it can spoil is what follows. All later states have one holder per task exactly when no row the
  commit wrote was held (`SecondHolderExactlyWhen`), and never two live handlers of one task exactly when
  every holder of such a row is past its handler with no retry left, or its task's handler is never
  started (`SecondHandlerExactlyWhen`). `SingleHoldersExactlyWhen` is about the stronger invariant of
  whole runs, in which a held row is also not PENDING.
- **Progress.** A handler that returns without writing a status leaves its task RUNNING, held by nobody,
  until a recovery finds it (`SilentRunStrands`, `StrandedStays`); in runs without crashes and recoveries
  that is the only way to strand a task (`StrandedExactlyWhenSilent`). SUCCESS is not final either: a
  handler that fails after writing it is recorded FAILED, and retried (`FailingAfterSuccessIsRetried`);
  `OverwritesAreBadEnds` and `OverwrittenExactlyWhen` count and characterise such overwrites.
- **Chunk size.** It bounds the chunks of every section exactly when there is no overlap
  (`SizeIsKeptExactlyWithoutOverlap`); with overlap they may exceed it by the overlap plus one, and do
  (`TwoFullSentencesExceed`). Merging tiny chunks within a page takes no account of the size, so a page's
  chunks may exceed it even without overlap (`MergingExceedsTheSize`);
  they do not exactly when every run merged has room for its distinct paragraphs
  (`PageKeepsTheSizeExactlyWhen`, `MergedChunksFitExactlyWhen`).
- **Metadata filters.** Fusion writes over seven metadata entries after filtering, so a fused result can
  contradict the caller's filter, and one filter can hold of some results and fail for others
  (`NullRankFilterSplitsResults`). `FusedResultMatchesExactlyWhen` says for each result which filters
  survive; tenant, document and company restrictions always do.
- **nDCG** exceeds 1 when the one expected name is retrieved twice (`DuplicatesExceedOne`). It is at most
  1 for every discount exactly when there are no more hits than the ideal counts
  (`NdcgAtMostOneExactlyWhen`).
- **Schemas.** `const` and `enum` compare flags with numbers by amount (`TruePassesForOne`), which JSON
  Schema does not; and an integer must be written without a decimal point (`WholeFloatIsRefused`).
  `KeywordsAgreeExactlyWhen` and `VerdictsAgreeExactlyWhen` say exactly when this makes no difference.
- **Rate limit.** The bound of twice the limit per interval is not tight: it is one less
  (`AtMostTwiceLessOne`), and that is reached for every limit and window (`TwiceLessOneIsReached`).

## Assumptions

- A crash takes the handler process with it, and a killed process is gone. A crash also stands for an
  uncaught database error in a worker thread.
- All workers read one clock, in milliseconds; the wall clock and the monotonic clock agree.
- A plan handler is a function of the step, the request and the results of the step's declared
  dependencies. Steps of a concurrent batch run in any order, each atomically against the snapshot.
- Content normalisation maps blank text to blank and ignores outer white space. Sentence boundaries,
  tokenisation, lexical scores, lower-casing, regular-expression search and JSON parsing are arbitrary
  functions given as parameters. Scores are real numbers.
- Authorization hooks and tool handlers may answer differently at every message.

## Model

| member | source | states |
|---|---|---|
| TaskTable.TaskRepository.CreateTask | tasks/repository.py:19-41 | a task needs a tenant and a fresh id; it starts PENDING with no retries, and a refusal changes nothing |
| TaskTable.TaskRepository.FindPending | tasks/repository.py:75-84 | the row a claim looks at: the asked-for one if PENDING, else one that no PENDING row is older than, and none only if nothing is PENDING |
| TaskTable.TaskRepository.ClaimTask | tasks/repository.py:75-95 | the claim succeeds exactly if the row is still PENDING when the update runs; then it is RUNNING from now on, otherwise nothing changes |
| TaskTable.TaskRepository.UpdateStatus | tasks/repository.py:97-123 | a status write sets the status and, for an end, the completion time of that row alone |
| TaskTable.TaskRepository.RecoverStaleTasks | tasks/repository.py:125-159 | with nothing in between: exactly the RUNNING rows older than the age are put back to PENDING with no start time, their number is returned, an age that is not positive is refused |
| TaskTable.TaskRepository.FindStale | tasks/repository.py:137-147 | the read: exactly the RUNNING rows older than the age; an age that is not positive is refused |
| TaskTable.TaskRepository.PutBack | tasks/repository.py:149-157 | the later commit: the rows read are put back whatever they hold by then, and counted |
| LeaseProtocol.RecoveryIsSafeExactlyWhenUnheld | tasks/repository.py:137-157 | the recovery commit, which tests nothing, keeps the lease invariant (one holder per task, whose row is not PENDING) exactly when no row it writes is held |
| LeaseProtocol.StepKeepsInv | tasks/worker.py:275-355 | every other step of any thread, at any moment, keeps one holder per task, its row RUNNING or ended, its start the holder's claim and its retry count the one read |
| LeaseProtocol.InvGivesExclusion | tasks/worker.py:213-273 | one holder per task means no two live handler processes for a task |
| LeaseExclusion.SingleHoldersExactlyWhen | tasks/worker.py:138-153 | over every run, with no assumption about time: every state has the lease invariant exactly when every recovery commit spares held rows |
| LeaseRecovery.SecondHolderExactlyWhen | tasks/repository.py:137-157 | from the invariant, after a recovery commit: every continuation without a further commit keeps one holder per task at every state exactly when no row the commit wrote was held |
| LeaseRecovery.SecondHandlerExactlyWhen | tasks/repository.py:137-157 | from the invariant, after a recovery commit: no continuation without a further commit ever gives a task two live handlers exactly when every holder of a written row is past its handler with no retry left, or holds a task whose handler is never started |
| LeaseRecovery.SecondHandlerIsReached | tasks/worker.py:213-355 | a thread that holds a task whose handler another thread runs, or can claim it, does reach a second live handler, through a retry where its own attempt is over |
| LeaseExclusion.LeaseExclusionHolds | tasks/worker.py:37-41 | over every run from any table: if no hold outlasts the task runtime plus the recovery grace and no recovery commits late, no task ever has two live handlers |
| LeaseExclusion.DisciplinedIsPunctual | tasks/worker.py:229-273 | keeping each stage within its own latency (launch, deadline, two stop graces, last write) keeps the whole hold within the recovery age |
| LeaseExclusion.FiftySecondsSuffice | tasks/worker.py:37-41 | with the shipped constants, whatever the heartbeat, fifty seconds outside handler and stop graces never give two handlers |
| LeaseExclusion.OverlappingRecoveriesBreakTheLease | tasks/repository.py:137-157 | a concrete run, for every configuration that runs handlers, in which two overlapping recoveries start one task twice |
| LeaseConservation.ClaimsAreConserved | tasks/repository.py:75-159 | over every run: claims plus one if PENDING never exceed what was PENDING plus creations, requeues and recoveries |
| LeaseConservation.ClaimsPerTask | tasks/worker.py:291-355 | the same per task: at most one plus requeues plus recoveries |
| LeaseConservation.CreatedOnce | tasks/repository.py:19-41 | a task is created at most once in any run |
| LeaseConservation.RetryCountNeverPassesMaximum | tasks/retry.py:4-14 | the retry count stays within the maximum although it is read in one transaction and written in another |
| LeaseConservation.StepPaysForRequeue | tasks/worker.py:338-352 | while tasks have single holders every requeue is paid for by one increment of the retry count |
| LeaseConservation.ExecutionsAreBounded | tasks/worker.py:338-352 | over every run with single holders a task is executed at most once, plus once for each retry left, plus once for each recovery |
| LeaseConservation.PunctualExecutionsAreBounded | tasks/worker.py:37-41 | that bound in every punctual run from any table |
| LeaseProgress.StepLosesNothing | tasks/worker.py:155-188 | without crashes, recoveries and silent handlers every task is held, PENDING, or ended for good |
| LeaseProgress.StepMeasure | tasks/worker.py:275-355 | each step of work on a task lowers the measure of retries left, then stage; no other step changes it |
| LeaseProgress.ZeroMeansDone | tasks/worker.py:338-355 | the measure is zero exactly when the task is SUCCESS, or FAILED with no retry left, and let go |
| LeaseProgress.WorkIsBounded | tasks/worker.py:275-355 | the work on a task is bounded by its measure, and once spent the task is done |
| LeaseProgress.WorkIsAlwaysPossible | tasks/worker.py:155-188 | until then its holder, or any idle thread by polling, has a step to take, whatever the broker lost |
| LeaseProgress.UndisturbedExecutions | tasks/worker.py:338-352 | a task is executed at most once more than it has retries left |
| LeaseProgress.InspectStrandsExactlyWhenSilent | tasks/worker.py:330-355 | one step: inspecting a finished task leaves it RUNNING and held by nobody exactly when its row is still RUNNING then |
| LeaseEndings.StrandedExactlyWhenSilent | tasks/worker.py:213-355 | over every run without crashes and recoveries: a task created in it ends RUNNING and held by nobody exactly when one of its handlers returned leaving the row RUNNING and the worker has let go |
| LeaseEndings.SilentRunStrands | tasks/worker.py:252-355 | a concrete run, for every configuration that runs handlers, from an empty table to such a task |
| LeaseEndings.OverwritesAreBadEnds | tasks/worker.py:330-336 | over every run without crashes and recoveries: SUCCESS is overwritten by FAILED once for each handler that failed or was stopped after writing it, wrote FAILED itself, or wrote it while being stopped, less the one whose FAILED write is still to come |
| LeaseEndings.OverwrittenExactlyWhen | tasks/worker.py:330-336 | so once the task is let go its SUCCESS was overwritten exactly when a handler ended that way |
| LeaseEndings.FailingAfterSuccessIsRetried | tasks/worker.py:330-355 | a concrete run in which a task that was SUCCESS becomes FAILED and is PENDING again |
| LeaseProgress.StrandedStays | tasks/worker.py:138-153 | only a stale recovery picks such a task up again |
| TaskBroker.Broker.PublishTask | tasks/broker.py:71-87 | a published task is the last undelivered message, under a new id; of the others only the oldest beyond the stream's maximum length may be trimmed away |
| TaskBroker.Broker.ConsumeTask | tasks/broker.py:89-115 | the first undelivered message is delivered and joins the pending list |
| TaskBroker.Broker.AckTask | tasks/broker.py:117-125 | acknowledging removes exactly the deliveries of that message |
| TaskBroker.Broker.ClaimPendingTasks | tasks/broker.py:130-165 | exactly the deliveries idle long enough among the first few are taken over, in list order; the list keeps its messages |
| TaskWorker.Worker.Acquire | tasks/worker.py:287-309 | taking a task is a recheck for a poll, a look and a conditional claim for a delivery, and a stamp if claimed; a polled task is kept exactly if still RUNNING when rechecked, a delivered one exactly if PENDING both when looked up and when claimed |
| TaskWorker.Worker.RunHandler | tasks/worker.py:213-265 | the handler process's writes in order, then its exit and that being noticed, or its being stopped and reaped, with any steps of others before each |
| TaskWorker.Worker.RunAttempt | tasks/worker.py:311-336 | the launch; the handler's writes and end exactly if there is a handler, it may run and its process starts; and a FAILED write exactly if there is a handler and it did not run and return cleanly |
| TaskWorker.Worker.Settle | tasks/worker.py:337-355 | an inspection; and the count, the requeue and a new publication exactly if the inspected row is FAILED with a retry left |
| TaskWorker.Worker.Attend | tasks/worker.py:311-355 | a stamped claim: just the attempt's and then the settlement's transactions |
| TaskWorker.Worker.ExecuteTask | tasks/worker.py:275-357 | one task from start to finish: just the transactions of taking it and, if claimed, of the attempt and the settlement, any steps of others between them; published again exactly on a retry, its message acknowledged at the end |
| TaskWorker.InterleavedIsRun | tasks/worker.py:275-357 | that is where a run of the protocol leads, the one that weaves the transactions into the others' steps |
| TaskWorker.OwnOfWoven | tasks/worker.py:275-357 | in which this thread does those transactions and nothing else |
| TaskWorker.ExecutionsDoNotCrash | tasks/worker.py:275-357 | none of them is a crash |
| TaskOutcomes.ExecutionLeaves | tasks/worker.py:311-355 | whatever others do short of a recovery, a claimed task ends with the status of the handler's last write if it returned cleanly; any other attempt, and one whose last write is FAILED, is put back PENDING with one more retry counted while retries are left, and ends FAILED when none are |
| TaskWorker.Worker.ClaimPendingMessage | tasks/worker.py:190-211 | the next reclaimed message: of an earlier batch in order, else of a new one, looked up at most once in fifteen seconds |
| TaskWorker.Worker.ProcessNextTask | tasks/worker.py:155-188 | one turn of the loop: the task of the next reclaimed message, else of the first undelivered one, is executed and the message acknowledged; without either the oldest PENDING task is polled and executed, and nothing is done only if none is PENDING |
| TaskWorker.Worker.RecoverStaleIfNeeded | tasks/worker.py:138-153 | recovery runs at most once a minute, as a read and a later commit of the protocol with any steps of others in between |
| TaskWorker.TerminateProcess | tasks/worker.py:267-273 | a handler process is gone within two stop graces |
| TaskWorker.RunHandlerWithTimeout | tasks/worker.py:213-265 | the handler's process ends by the deadline plus the polling delay and two stop graces, and the outcome says how |
| PlanSemantics.WavesComputeLeastFixedPoint | agent/execution/plan_execution.py:52-111 | for every plan with unique ids, cyclic or with missing dependencies too, the waves complete exactly the least set closed under: all dependencies completed and handler succeeded |
| PlanSemantics.LeastFixedPointIsUnique | agent/execution_engine.py:57-146 | there is only one such set of results |
| PlanSemantics.AttemptIsStable | agent/execution_engine.py:82-146 | more results change nothing for a step whose dependencies are met |
| PlanSemantics.SequentialIsContained | agent/execution/plan_execution.py:36-50 | for every plan the sequential executor's results are part of the waves' results |
| PlanSemantics.OrderedStepsEndFinally | agent/execution/plan_execution.py:36-50 | in a dependency-ordered plan every step ends as it would against the final results |
| PlanSemantics.ParallelRefinesSequential | agent/execution/plan_execution.py:36-111 | for dependency-ordered plans both executors give every step the same end and result, and evidence that is a permutation |
| PlanSemantics.WavesGatherAllEvidence | agent/execution/plan_execution.py:79-111 | the waves' evidence is a permutation of that of the completed steps in plan order |
| PlanExecution.Coordinator.ExecuteStep | agent/execution_engine.py:57-132 | a step is SKIPPED exactly when a dependency has no result; else its handler, if it has one, is called once, with exactly the results of the declared dependencies, and the step ends as it returns |
| PlanSemantics.StatusesMean | agent/execution_engine.py:57-146 | what the statuses and results mean: SKIPPED for a missing dependency, COMPLETED with the handler's output when it returned, FAILED with an error otherwise |
| PlanExecution.Coordinator.ExecuteSequential | agent/execution/plan_execution.py:36-50 | results, evidence and each step's end are those of running the steps in order; exactly the steps that could run were called, in order, each with the results of its declared dependencies |
| PlanExecution.Coordinator.RunIsolated | agent/execution/plan_execution.py:135-151 | one step of a batch runs against the snapshot alone |
| PlanExecution.Coordinator.RunPool | agent/execution/plan_execution.py:113-133 | a batch run in any order gives each step its outcome against the snapshot |
| PlanExecution.Coordinator.ExecuteRetrievalBatch | agent/execution/plan_execution.py:113-133 | whatever order the pool finishes in, outcomes, step ends and calls are the same |
| PlanExecution.Coordinator.MergeOutcomes | agent/execution/plan_execution.py:87-104 | outcomes are merged in plan order |
| PlanExecution.Coordinator.RunWave | agent/execution/plan_execution.py:68-111 | a wave is its retrievals, then its other steps, each called once if at all |
| PlanExecution.Coordinator.ExecuteParallelRetrievals | agent/execution/plan_execution.py:52-111 | terminates on every plan with the least fixed point and each step's end against the final results; exactly the handlers of steps whose dependencies completed were called, each once, with the final results of its declared dependencies |
| QueryPlanner.NumberedPlansAreOrdered | agent/query_planner.py:42-45 | a plan numbered consecutively with earlier dependencies only is unique and dependency-ordered |
| QueryPlanner.PlannedModesAgree | agent/execution/plan_execution.py:36-111 | so both executors agree on every plan the planner builds |
| QueryPlanner.Planner.NextId | agent/query_planner.py:42-45 | ids are handed out in sequence |
| QueryPlanner.Planner.BuildComparePlan | agent/query_planner.py:164-200 | for any number of companies: one retrieval each, then the comparison on all of them, then the synthesis |
| QueryPlanner.Planner.BuildSinglePlan | agent/query_planner.py:206-232 | one retrieval and the reasoning that depends on it |
| QueryPlanner.Planner.BuildGlobalPlan | agent/query_planner.py:238-262 | one retrieval and the synthesis that depends on it |
| QueryPlanner.Planner.PlanSerialized | agent/query_planner.py:64-129 | every plan is numbered from 1, with unique ids and dependencies on earlier steps only |
| Text.StripCuts | document_loader.py:789-796 | stripping cuts white space and nothing else off both ends |
| Text.SplitJoin | document_loader.py:690-712 | paragraphs that are trimmed and hold no blank line survive joining and splitting |
| LongText.AppendSentence | document_loader.py:777-781 | a sentence joins the open piece after a single blank |
| LongText.RepeatedIsTheEnd | document_loader.py:783-784 | with an overlap a piece repeats the last characters of its predecessor, as many as the overlap, white space in front left out; without one nothing |
| LongText.PackSentences | document_loader.py:773-788 | every sentence appears whole and in order; a piece opens with its predecessor's overlap, exceeds the size only as one sentence behind it, and no piece had room for the next sentence |
| LongText.PiecesAreSettled | document_loader.py:773-788 | there is only one such list of pieces |
| LongText.NoOverlapNoExcess | document_loader.py:773-788 | without overlap no piece packed from sentences exceeds the chunk size |
| LongText.BoundIsReached | document_loader.py:783-784 | with any overlap two full sentences are packed into two pieces, the second of chunk size plus overlap plus one characters |
| LongText.SlideWindow | document_loader.py:790-799 | the window loop visits exactly the window starts and yields the cleaned windows at them |
| LongText.WindowCount | document_loader.py:790-799 | there are the ceiling of (n - size) / (size - overlap), plus one, window starts |
| LongText.StartsAreSpaced | document_loader.py:790-799 | the k-th window starts at k times (size - overlap) |
| LongText.WindowsCover | document_loader.py:790-799 | every character that is not white space lies in a kept piece, cut from a visited window |
| LongText.WindowsAreShort | document_loader.py:790-799 | no window piece exceeds the chunk size |
| LongText.SplitLongText | document_loader.py:767-799 | a short text stays whole, one with several short sentences is packed, any other is windowed, and no piece exceeds size plus overlap plus one |
| BlockChunker.JoinedLengthIsLength | document_loader.py:761-764 | the computed length is that of the joined text |
| BlockChunker.ChunkHoldsItsBlocks | document_loader.py:645-656 | a chunk's text is its blocks' texts in order, joined by blank lines; its page and section are the first one's, and it is read by OCR if any of them is |
| BlockChunker.OverlapBlocks | document_loader.py:742-758 | the longest run of last blocks that the overlap may retain: within it, or a single one, and not reaching it without its first block; none without overlap |
| BlockChunker.TrimOverlap | document_loader.py:621-630 | blocks are dropped from the overlap only while the next one does not fit behind it |
| BlockChunker.CarryOver | document_loader.py:621-630 | the next window keeps as much of the full one as the overlap may retain and leaves room for the next block |
| BlockChunker.PackPieces | document_loader.py:598-642 | windows are non-empty and contiguous, starts and ends strictly increase, no piece is skipped, the last is included; each fits or is a single piece, had no room for the next piece, and begins as early in its predecessor as what may be carried over allows |
| BlockChunker.WindowsAreSettled | document_loader.py:598-642 | there is only one way to cut the pieces into such windows |
| BlockChunker.WindowsShareExactlyWhen | document_loader.py:621-630 | consecutive windows share a piece exactly when an overlap is asked for and the last piece of the earlier one leaves room for the next piece |
| BlockChunker.ChunkLength | document_loader.py:645-656 | a window's text exceeds the chunk size only as a single piece |
| BlockChunker.ChunkBlockGroup | document_loader.py:598-656 | the chunks of one section are such windows over the split blocks, numbered through, none longer than size plus overlap plus one |
| BlockChunker.SectionIsSettled | document_loader.py:598-656 | a section's blocks and the settings settle its chunks |
| ChunkSize.SizeIsKeptExactlyWithoutOverlap | document_loader.py:598-656 | the chunks of every section, for every text and every way it divides into sentences, stay within the chunk size exactly when the overlap is 0 |
| ChunkSize.NoOverlapKeepsTheSize | document_loader.py:598-656 | without overlap no chunk of a section exceeds the chunk size |
| ChunkSize.TwoFullSentencesExceed | document_loader.py:598-656 | with any overlap a block of two full sentences always gives a chunk of chunk size plus overlap plus one characters |
| ChunkMerger.MergeChunks | document_loader.py:690-712 | the merged text has exactly the paragraph keys of both, each once, and the section of the one that is not a bare heading |
| ChunkMerger.MergeAt | document_loader.py:670-686 | merging two neighbours keeps the page's paragraph keys |
| ChunkMerger.MergeTinyPageChunks | document_loader.py:659-687 | the loop ends although its index moves back, with what gathering once forwards and then absorbing backwards gives; at most one chunk is left or all are long enough; the paragraph keys of the page are unchanged |
| MergedRuns.CollectDistinct | document_loader.py:696-702 | collecting the distinct paragraphs of a text gives what collecting all of them gives, so the nesting of merges does not matter to the text |
| MergedRuns.MergedRunsDivideThePage | document_loader.py:659-712 | the merged chunks are consecutive runs that divide the page's chunks; a run of one is its chunk, a longer one has exactly the distinct paragraphs of its chunks, first occurrences in order, joined |
| MergedRuns.MergedChunksFitExactlyWhen | document_loader.py:659-712 | if a page's section chunks are within a limit, so are the merged ones exactly when in every run of several the distinct paragraphs with blank lines between them are |
| ChunkSize.MergingExceedsTheSize | document_loader.py:659-712 | whatever the overlap, also without any: a block that is a mere heading or tiny, before a full block of another section, makes the page one chunk, longer than the chunk size by the first block and two |
| ChunkSize.PageKeepsTheSizeExactlyWhen | document_loader.py:270-303 | without overlap the chunks of a page stay within the chunk size exactly when every run merged has room for its distinct paragraphs |
| ChunkMerger.DeduplicateChunks | document_loader.py:719-734 | exactly the first indexable chunk of each content key is kept, in order |
| DocumentChunker.ChunkSections | document_loader.py:270-297 | a page is cut into its longest runs of one section, chunked in order and numbered through |
| DocumentChunker.ChunkPage | document_loader.py:270-303 | and then merged into runs without losing a paragraph, none left tiny |
| DocumentChunker.ChunkDocument | document_loader.py:259-307 | bad settings are refused in order; else the result is numbered from zero, worth indexing, free of duplicates, drawn in order from the pages' chunks, and covers every indexable one |
| SearchResults.Deduplicate | retrieval/hybrid_retriever.py:356-366 | the first result of each key, in order of first appearance |
| SearchResults.DeduplicationKeepsEachKeyOnce | retrieval/hybrid_retriever.py:356-366 | so keys are distinct, every key is kept and nothing is added |
| SearchResults.ApplyTenantScope | retrieval/hybrid_retriever.py:417-429 | exactly the results without a tenant or with this one, in order |
| SearchResults.ApplyFilters | retrieval/hybrid_retriever.py:512-539 | exactly the results of the documents, company and metadata asked for, whatever JSON values the filters hold, null matching an absent entry, in order |
| LexicalSearch.Search | retrieval/bm25_retriever.py:28-91 | the best hits among the documents that share a token with the query, in the source's order, annotated with score and semantics |
| LexicalSearch.SearchIsSound | retrieval/bm25_retriever.py:28-91 | they are documents of the corpus that share a token with the query, marked and with the score the library gives them, highest first and ties by document and then chunk id, with distinct keys if the corpus has |
| RankFusion.Configure | retrieval/hybrid_retriever.py:56-73 | a configuration with a negative weight, with no weight, or with a constant or a multiplier below 1 is refused, the first check that fails first; any other is valid |
| RankFusion.AddChannel | retrieval/hybrid_retriever.py:279-301 | one channel's loop: first records, first ranks and accumulated scores of every key |
| SearchResults.SameKeyExactlyWhen | retrieval/hybrid_retriever.py:345-354 | two results count as one exactly if they are of one document and their normalised contents agree, the chunk id standing in for blank content |
| RankFusion.ReciprocalRankFusion | retrieval/hybrid_retriever.py:261-342 | the fused list is the first top_k of a ranking of all keys by score, then vector rank, then lexical rank, each with its record, relative score and ranks |
| RankFusion.ContributionAtRank | retrieval/hybrid_retriever.py:283-301 | with distinct keys a key's score in a channel is the one share of its rank |
| RankFusion.ScoreIs | retrieval/hybrid_retriever.py:279-301 | so a key's score is each channel's weight over the constant plus its rank there, added up, and nothing for a channel it is not in |
| RankFusion.FusedScoreIs | retrieval/hybrid_retriever.py:317-338 | and the result's score is that relative to two first places |
| RankFusion.FusedRecordIs | retrieval/hybrid_retriever.py:321-340 | a fused result is the vector channel's record if that has one, else the lexical one's |
| RankFusion.FusedMetadataIs | retrieval/hybrid_retriever.py:322-336 | with its own metadata, and over it the strategy, the score, both ranks, the lexical score and weight |
| RankFusion.RankingMeans | retrieval/hybrid_retriever.py:303-316 | of two fused results the earlier has the higher score, or an equal one and the better vector rank, or that too and the better lexical rank; an absent rank is the worst |
| RankFusion.FusedScoresAreRelative | retrieval/hybrid_retriever.py:317-319 | every fused score lies in [0, 1] |
| RankFusion.FusionIsSound | retrieval/hybrid_retriever.py:261-342 | at most top_k results, distinct keys, scores that never rise |
| RankFusion.DominatingResultComesFirst | retrieval/hybrid_retriever.py:303-316 | a result ranked no worse in both channels and better in one comes first, absent ranks and zero weights included |
| RankFusion.ScoresAndRanksSettleTheOrder | retrieval/hybrid_retriever.py:303-316 | the comparison of keys is never reached |
| RankFusion.FusionIsDeterministic | retrieval/hybrid_retriever.py:261-342 | so the fusion of two deduplicated lists is one fixed list |
| HybridRetriever.GloballyRankVectorResults | retrieval/hybrid_retriever.py:368-400 | each result once, known relevance first and highest first, the rest in order of arrival |
| RetrievalCompleteness.CloserComesFirst | retrieval/hybrid_retriever.py:368-415 | so of two results with distances only the nearer comes first, of two with stated relevance the more relevant, a distance d counts as 1/(1+d) between them, and one without a direction comes last |
| HybridRetriever.GlobalRankingsAgree | retrieval/hybrid_retriever.py:368-400 | that determines the list |
| HybridRetriever.LoadLexicalCorpus | retrieval/hybrid_retriever.py:220-259 | there is a corpus exactly when the store has one and every scope loads; it is held to scope and filters, one result per key |
| HybridRetriever.CandidatesAreInScope | retrieval/hybrid_retriever.py:159-171 | whatever a store returns, candidates carry no tenant or one in scope, and satisfy the filters |
| HybridRetriever.Retrieve | retrieval/hybrid_retriever.py:136-209 | the result follows one of the paths: nothing; vector only, and then for one of the source's reasons; or the fusion of both channels; whatever the store returns it is at most top_k results with distinct keys that the caller may see |
| RetrievalCompleteness.VectorRetrievalIsFull | retrieval/hybrid_retriever.py:152-182 | on the vector path there are as many results as were asked for, or one for every key among the visible, matching results the store found when asked for top_k times the multiplier |
| RetrievalCompleteness.MergedRetrievalIsFull | retrieval/hybrid_retriever.py:136-209 | on the fused path the same over those keys and the keys of the corpus's documents that share a token with the query; the corpus has one document for each visible, matching key |
| RetrievalCompleteness.MergedParametersAre | retrieval/hybrid_retriever.py:179-209 | fusion happens only if lexical search is on and has a weight, with the configured weights and constant; enrichment doubles the lexical weight |
| RetrievalCompleteness.ClosestComeFirst | retrieval/hybrid_retriever.py:368-415 | on the vector path nothing comes after a result it is closer than, and nothing left out is closer than what is there: nearer by distance; of higher stated relevance (a similarity score, else a confidence, else a score marked so), a distance d counting as 1/(1+d); or with a direction against one without |
| HybridRetriever.RetrievalIsSound | retrieval/hybrid_retriever.py:136-259 | over all paths and any store: at most top_k results, distinct keys, visible to the caller, of the documents and company asked for; fused scores in [0, 1]; metadata filters hold where fusion leaves entries alone |
| HybridRetriever.FusedResultMatchesExactlyWhen | retrieval/hybrid_retriever.py:321-336 | a fused result satisfies the metadata filters exactly when each filter on an overwritten entry asks for what fusion writes there: text, amount, rank, or null for an absent rank |
| HybridRetriever.RetrievalMatchesFiltersExactlyWhen | retrieval/hybrid_retriever.py:136-209 | over all paths, result by result: the metadata filters hold exactly on the vector path, or when the result's overwritten entries are what they ask for |
| HybridRetriever.NullRankFilterSplitsResults | agent/tools/retrieval_contract.py:20-46 | a filter for a null vector rank, which every ordinary candidate passes, holds of exactly the fused results that only the lexical channel found |
| SchemaValidator.ValidatorDecides | mcp/schema.py:42-195 | on a well-formed schema the validator never raises a definition error and accepts a value exactly if every keyword holds, for all nested values and schemas; types hold by the kind of the value |
| SchemaValidator.ArgumentsAreDecided | mcp/schema.py:21-39 | tool arguments are accepted exactly if they are an object that satisfies the tool's schema, with or without an explicit type |
| SchemaValidator.MatchesCounts | mcp/schema.py:90-101 | the count of matching alternatives is positive for at least one and 1 for exactly one |
| SchemaValidator.CombinatorDecides | mcp/schema.py:75-101 | allOf means all, anyOf at least one, oneOf exactly one |
| SchemaValidator.ObjectDecides | mcp/schema.py:104-132 | required, declared and additional properties |
| SchemaValidator.ArrayDecides | mcp/schema.py:135-143 | length bounds and items |
| SchemaValidator.CountMatches | mcp/schema.py:90-97 | the counting loop tallies the alternatives, and a malformed one ends it |
| SchemaValidator.ValidateCombinators | mcp/schema.py:75-101 | the loops give the first failing combinator's verdict |
| SchemaStandard.TypeNamesAccept | mcp/schema.py:180-199 | for each of the seven type names, a schema of just that type accepts exactly the values written that way, integers also as numbers |
| SchemaStandard.TypeNamesAcceptStrictly | mcp/schema.py:180-199 | and JSON Schema accepts the same, but any number without fraction as an integer |
| Json.ObjectsAreEqualExactlyWhen | mcp/schema.py:55-63 | objects compare equal exactly if they have the same names and equal values under each, in whatever order |
| SchemaStandard.EqualitiesDifferExactlyWhen | mcp/schema.py:55-63 | the code's equality and JSON's differ exactly on values that are equal by amounts and somewhere pair a flag with a number |
| SchemaStandard.KeywordsAgreeExactlyWhen | mcp/schema.py:48-63 | at every depth, each of type, const and enum is decided as JSON Schema decides it, exactly when nowhere a constant or enumeration is met only by pairing a flag with a number of equal amount and nowhere an integer is asked for and given as an integral float |
| SchemaStandard.VerdictsAgreeExactlyWhen | mcp/schema.py:42-177 | at every depth, the validator accepts exactly what JSON Schema accepts, exactly when no value and schema anywhere are such that everything else passes and one of these two differences alone decides |
| SchemaStandard.CleanIsStandard | mcp/schema.py:42-177 | where neither difference occurs at any depth the whole verdict is JSON Schema's |
| SchemaStandard.TruePassesForOne | mcp/schema.py:55-56 | the flag true passes for the constant 1, which JSON Schema refuses |
| SchemaStandard.WholeFloatIsRefused | mcp/schema.py:189-190 | 1.0 is refused where an integer is asked for, which JSON Schema accepts |
| SchemaRefusals.AcceptedIsUnderstood | mcp/schema.py:42-177 | for any schema, malformed or not: a value is accepted only if every keyword the validator comes to, at every depth, is one it knows and of the right kind |
| SchemaRefusals.ReferencesAreRefused | mcp/schema.py:42-44 | a reference is a bad schema for every value, never passed over |
| ToolAdapter.LocalAdapter.Register | mcp/local_adapter.py:104-109 | a name is registered once, in order |
| ToolAdapter.LocalAdapter.ToolsList | mcp/local_adapter.py:111-120 | the listing shows the allowed tools among the registered names, sorted by name |
| ToolAdapter.ListingShowsAllowedTools | mcp/local_adapter.py:111-120 | exactly the tools that are registered and allowlisted |
| ToolAdapter.LocalAdapter.CallTool | mcp/local_adapter.py:122-153 | a handler runs exactly when the name is allowlisted and registered, the arguments pass its schema and the hook approves, on just those arguments; otherwise the first failed check is reported |
| ToolAdapter.RunsOnSatisfyingArguments | mcp/local_adapter.py:144-148 | so a handler sees only arguments that satisfy its schema |
| McpServer.Server.Initialize | mcp/server.py:104-141 | accepted once, with valid parameters; settles a supported version |
| McpServer.Server.MarkReady | mcp/server.py:143-147 | the connection is ready only after an accepted initialize |
| McpServer.Server.Dispatch | mcp/local_adapter.py:155-205 | the adapter's answer with its error codes; the run, if any, is recorded |
| McpServer.Server.Handle | mcp/server.py:63-102 | one message: the lifecycle step and the reply, none for a notification |
| McpRuns.ServeStdio | mcp/server.py:150-184 | the line loop leaves the connection where the messages lead and writes what each line calls for, a parse error under the null id |
| McpRuns.PhaseTellsTheLifecycle | mcp/server.py:84-102 | over every run: the phase is new exactly before an accepted initialize and ready exactly after a later initialized, ids or not |
| McpRuns.VersionIsNegotiatedOnce | mcp/server.py:112-128 | the first accepted initialize settles the version, whatever follows; it is a supported one, and there is none before |
| McpRuns.HandlersRunExactlyWhenCalled | mcp/server.py:90-102 | a handler has run exactly when some message, sent once the lifecycle was complete, called it and passed every check |
| McpRuns.EveryRunIsSafe | mcp/local_adapter.py:122-153 | no handler runs without an accepted initialize, a later initialized, and a later call that is allowlisted, registered, schema-valid and approved |
| McpRuns.OneRunForEachMessage | mcp/server.py:96-102 | no message makes more than one handler run |
| McpRuns.ResponsesEchoTheIds | mcp/server.py:161-184 | over every input: one response for each message with an id, in order, echoing it, one under the null id for each line that does not parse, none for notifications |
| Sanitizer.Converter.ToJsonSafe | observability/serialization.py:35-109 | conversion ends on every finite graph, leaves the shared set as it was, and computes the specification |
| Sanitizer.OutputIsClean | observability/serialization.py:61-97 | whatever the graph, in the output every sensitive member at every depth holds the marker, and no object names a member twice |
| Sanitizer.PutAssigns | observability/serialization.py:64-71 | an entry converted later under the same name takes the earlier one's place, and changes no other |
| Sanitizer.TreesAreRedacted | observability/serialization.py:61-83 | a value that denotes a tree, however shared its objects, becomes that tree with only sensitive members replaced |
| Sanitizer.TreeIsDenoted | observability/serialization.py:57-83 | every JSON tree is denoted by some object graph |
| Sanitizer.DenotesOne | observability/serialization.py:57-59 | a value denotes at most one tree, so none of its objects is on the path to it |
| Sanitizer.ConvertingTwiceIsConvertingOnce | observability/serialization.py:35-97 | converting any object graph of an output gives that output again |
| RateLimiter.RateLimitMiddleware.Dispatch | middleware/security.py:62-92 | the table is the one the history leads to, and the request passes exactly if that table admits it |
| RateLimiter.WindowAccounts | middleware/security.py:72-80 | what a client's window says about the requests let through in an interval |
| RateLimiter.RefusalIsEarned | middleware/security.py:72-92 | nobody is refused for less: whoever is has made more requests than the limit within the window's length, that one included |
| RateLimiter.AtMostTwiceLessOne | middleware/security.py:55-93 | in no interval as long as the window does a client get more than 2N - 1 requests through |
| RateLimiter.TwiceLessOneIsReached | middleware/security.py:55-93 | for every limit of at least 1 and every window that bound is reached |
| RateLimiter.OthersDoNotMatter | middleware/security.py:72-80 | a client's window and what passes for it do not depend on other clients |
| RetrievalMetrics.RankedRetrievalMetrics | evaluation/metrics.py:40-82 | the loops compute the four figures as defined |
| RetrievalMetrics.ExpectedAre | evaluation/metrics.py:50 | what is expected: the normalised names of those not blank |
| RetrievalMetrics.PrecisionMeans | evaluation/metrics.py:60-62 | precision times the ranked is the number of ranks that hold something expected; with nothing ranked it is zero |
| RetrievalMetrics.RecallMeans | evaluation/metrics.py:61-63 | recall times the expected is the number of them that are ranked |
| RetrievalMetrics.ReciprocalMeans | evaluation/metrics.py:65-70 | the reciprocal rank is one over the place of the first hit |
| RetrievalMetrics.FractionsHold | evaluation/metrics.py:58-69 | precision, recall and reciprocal rank lie in [0, 1] even with duplicates; the last is positive exactly if something expected is retrieved |
| RetrievalMetrics.GainIsAtMostIdeal | evaluation/metrics.py:62-74 | a ranking's gain is at most that of as many hits at the top, and equal exactly if they are there |
| RetrievalMetrics.NdcgIsFraction | evaluation/metrics.py:72-74 | with no more hits than the ideal counts nDCG lies in [0, 1] and is 1 exactly if the hits fill the top ranks, for any positive decreasing discount |
| RetrievalMetrics.NdcgAtMostOneExactlyWhen | evaluation/metrics.py:72-74 | for every ranking, with duplicates or without: nDCG is at most 1 for all discounts exactly when there are no more hits than the ideal counts |
| RetrievalMetrics.DistinctHitsAreWithin | evaluation/metrics.py:58-74 | which is so whenever no retrieved name repeats |
| RetrievalMetrics.DuplicatesExceedOne | evaluation/metrics.py:72-74 | retrieving the one expected name twice scores more than 1 |
| Luhn.PassesLuhn | training/dataset.py:317-328 | the loop accepts exactly the 13 to 19 digits whose checksum is divisible by 10 |
| Luhn.ChangedDigitIsDetected | training/dataset.py:317-328 | any single changed digit is detected, at any length |
| Luhn.SwapIsDetectedExceptZeroNine | training/dataset.py:317-328 | a swap of adjacent digits goes unnoticed exactly if they are equal, or 0 and 9 |
| Luhn.OneCheckDigit | training/dataset.py:317-328 | every prefix has exactly one final digit that makes it pass modulo 10 |

## Left out

- Redis, SQL, vector-store, process, thread and pipe interfaces: only their effect is modelled (an atomic conditional update, a pending list, a kill after a grace).
- A handler process that outlives a crashed worker: excluded by assumption.
- Deliveries whose message was trimmed from the stream; in the protocol the broker is an adversary that may deliver any task at any time, or never.
- Deleting and listing tasks, task results, progress and error texts, heartbeat and start and stop of the worker, messages that name no task.
- Malformed rows of the broker, and reconnecting to it.
- Reading PDFs, OCR, heading and table recognition, the pattern for sentence ends, Unicode normalisation.
- Rounding of scores and percentages, the logarithm in nDCG (any positive decreasing discount is covered), NaN and infinities in scores.
- Evidence for the agent (local context, citations, confidence), the legacy retrieval and execution paths, strategies, memories, tracers, report formatting.
- Errors raised by a store's vector search: they propagate to the caller unchanged.
- HybridRetriever.Retrieve: the query embedding and enrichment are inputs; only whether enrichment changed the question matters, for the lexical weight.
- TaskWorker.Worker.ExecuteTask: results, progress and error columns are not part of the row.
- PlanExecution.Coordinator.ExecuteRetrievalBatch: two steps of a batch do not interleave inside a handler; the snapshot they share is read-only in the source.
- SchemaValidator.ValidatorDecides: of malformed schemas only what `SchemaRefusals` says: that nothing is accepted without being understood. Which of two errors is reported is the code's order of checks.
- Error message texts and schema paths, deep copies of definitions, conversion of handler results to MCP content.
- Sanitizer.OutputIsClean: dataclasses, enumerations, `model_dump` and mapping keys that are not text are covered only as mappings with text keys.
- The identity of a client (hashing the token, proxy headers) and the switch and paths that exempt a request: a request comes with its client and whether it is exempt.
- Luhn.PassesLuhn: digits are 0 to 9; other characters that count as digits in Unicode are not modelled.
- The remaining checks of the training-data scan, and the other evaluation scores: one-branch tests.
- Routers, user interface, authentication, backups, billing, configuration.
