# RepoMind in Dafny

RepoMind indexes a repository, answers questions about it and lets an agent edit it. This project
models the deterministic cores of that system and proves what they promise, for every input, every
run and every interleaving. Language models, tools, clocks, other transactions and providers are
adversaries: they appear as arbitrary values or arbitrary steps.

| modules | what they model |
|---|---|
| `Jobs`, `JobProtocol`, `StoreSteps`, `Worker` | the durable job table, its cancellation token, every interleaving of workers, clients, heartbeats and recovery over it, the table's transactions as the steps of that protocol, and the worker's own program as a run of it |
| `CodingHistory`, `CompletionGate`, `CodingWorkflow` | the history of a coding task and what it earns, the gate before COMPLETED, and the workflow around the editing agent |
| `IncrementalIndex` | incremental indexing against a full rebuild, its validator and its fingerprint |
| `Lines`, `LineChunker` | line splitting and overlapping windows |
| `StructuralUnits`, `StructuralChunker`, `PythonChunks` | chunks that follow definitions |
| `Json`, `JsonReader`, `History`, `HistoryReader` | the bounded history of an agent prompt and a parser for it |
| `Search`, `Utf8`, `Cp1252`, `Editing` | byte-exact replacement in a text file |
| `ContextText`, `ContextBuilder` | the repository context of a prompt and a parser for it |
| `NeighborPool`, `ContextAssembly` | neighbour expansion and packing into a token budget |
| `SseFrames`, `Sse` | the event stream, its parser and its encoder |
| `Grounding` | the policy that makes indexed answers check current files, and its evaluator |
| `Fusion`, `FusionLaws`, `Symbols`, `IndexedSymbols`, `HybridSearch` | rank fusion and symbol retrieval |
| `EmbeddingBatches` | batches for the embedding provider |
| `Wrappers`, `Arith`, `Text`, `Orders`, `Sorting`, `Decimals`, `Chunks` | shared vocabulary |

`dafny verify dfyconfig.toml` checks everything.

## What the code does not quite promise

Where a natural promise fails, the model keeps the code and states exactly when it holds:

- An incremental index equals a full rebuild in every column exactly when reused files still have
  their recorded byte size (`IncrementalIndex.EqualsRebuildExactly`; input: `StaleSizeExample`).
- An edited file reads back as the edited text exactly when the new text has no NUL character and,
  for UTF-8, the file keeps its own byte order mark or the text does not start with one, or, for
  cp1252, the bytes are not taken for UTF-8 (`Editing.EditReadsBack`). Old text that begins with a
  byte order mark can replace the mark of the file instead of the counted occurrence
  (`Editing.MarkIsSwallowed`). Inputs: `Editing.NulExample`, `NewMarkExample`, `TakenForUtf8Example`
  and `SwallowedMarkExample`.
- A stream parser delivers the same frames for every way of cutting the stream exactly when no
  invalid frame follows one to deliver (`Sse.ChunksMatterExactly`): a throwing call loses the frames
  it had already parsed (input: `Sse.LostFrameExample`).
- The evaluator's follow-up check agrees with the grounding policy exactly while no pending path is
  found missing (`Grounding.TrackersAgreeExactly`; input: `DeletedFileExample`).
- A context keeps its character or token budget exactly when the whole block of its first source, or
  the block of that source's first character, is within it (`ContextBuilder.CutFits` and
  `ContextFits`, `ContextAssembly.AssemblyWithinBudget`; inputs: `OverBudgetExample` and
  `OverBudgetPackingExample`).

Two promises hold for what the system itself produces and fail for what callers may supply:

- Symbol search in memory and in the database agree at every limit on indexed repositories
  (`IndexedSymbols.IndexedSearchIsQuery`). On chunks from elsewhere they agree exactly when each match
  that the limit shows is the first of its symbol in the file (`Symbols.SearchIsQueryExactly`; input:
  `NamedDifferentlyExample`).
- A trace shows every blocked completion when failed diffs carry a message, as those of the Git tools
  in `src/repomind/tools/git.py` do (`CompletionGate.TraceShowsEveryBlockedGate`). With a registry
  whose diff fails with an empty message it can miss one, and only then
  (`CompletionGate.TraceMatchesGateExactly`; input: `SilentDiffFailureExample`).

## Model

| member | source | states |
|---|---|---|
| `Jobs.JobStore.Create` | src/repomind/jobs/store.py:66-81 | a new job is queued, unattempted, unleased and unfinished, and every other record is as before |
| `Jobs.JobStore.ClaimNext` | src/repomind/jobs/store.py:109-127 | claims the oldest queued row no other transaction holds, by creation time and then id, giving its owner a lease and counting an attempt; nothing claimed means every queued row is locked, and nothing changed |
| `Jobs.JobStore.RenewLease` | src/repomind/jobs/store.py:129-136 | moves the lease expiry exactly when the caller still owns the running job, and says whether it did |
| `Jobs.JobStore.LinkTrace` | src/repomind/jobs/store.py:138-143 | records the trace only for the current lease owner; otherwise the table is untouched |
| `Jobs.JobStore.RequestCancel` | src/repomind/jobs/store.py:145-164 | a running job keeps every field but the time of the first request; a queued one is cancelled and finished at once; a terminal one is left alone; an unknown one is reported |
| `Jobs.JobStore.MarkSideEffectStarted` | src/repomind/jobs/store.py:166-178 | marks once, only for the lease owner, and touches no other field; a second mark keeps the first time |
| `Jobs.JobStore.MarkCancelled` | src/repomind/jobs/store.py:180-201 | accepted exactly for the lease owner of a running job with a request and no coding side effect; then result, error and lease are cleared |
| `Jobs.JobStore.MarkSucceeded` | src/repomind/jobs/store.py:203-227 | exactly when the caller holds the lease: succeeded, with result and finish time, no error and no lease, and all other fields kept |
| `Jobs.JobStore.MarkFailed` | src/repomind/jobs/store.py:206-227 | exactly when the caller holds the lease: failed, with code and finish time, no result and no lease, and all other fields kept |
| `Jobs.JobStore.RecoverExpired` | src/repomind/jobs/store.py:229-263 | recovers each running row whose lease ran out and that no other transaction holds, once, and no other row: a coding job fails as interrupted, a requested one is cancelled, one out of attempts fails as exhausted, any other is queued again; each loses its lease and keeps its other fields |
| `Jobs.CancellationToken.Checkpoint` | src/repomind/jobs/control.py:52-72 | raises exactly when a cancel is requested and not deferred, in which case a lease holder may record it; each condition is announced at most once |
| `Jobs.CancellationToken.SideEffectStarted` | src/repomind/jobs/control.py:74-76 | only coding jobs are marked, and a refused mark is an error that changes nothing |
| `JobProtocol.InvariantHolds` | src/repomind/jobs/store.py:109-263 | one invariant over records, worker phases, exclusive coding execution and mutated jobs is kept by every step of every interleaving |
| `JobProtocol.EveryReachableRecordIsWellFormed` | src/repomind/jobs/store.py:109-263 | running iff leased, terminal iff finished, cancelled iff stamped and requested, attempts within bounds, for every job in every reachable table |
| `JobProtocol.CancelledMeansUnmutated` | src/repomind/jobs/store.py:180-201 | no run of any workers ends with a cancelled job for which a repository file was changed |
| `JobProtocol.MarkedIsNeverCancelled` | src/repomind/jobs/store.py:145-263 | once a coding side effect is marked, no continuation by request, checkpoint or recovery cancels the job or drops the mark |
| `JobProtocol.MarkedCheckpointNeverRaises` | src/repomind/jobs/control.py:52-72 | after the mark, a checkpoint of that coding job changes nothing: it only defers |
| `JobProtocol.RaisedCheckpointIsHonoured` | src/repomind/jobs/worker.py:83-85 | whatever happens between a raised checkpoint and its recording, a worker that still holds the lease has its cancellation accepted |
| `JobProtocol.RequestIsKept` | src/repomind/jobs/store.py:145-263 | no continuation of any run takes a stamped request off a record |
| `JobProtocol.CancelReachesTheWorker` | src/repomind/jobs/control.py:52-72 | after a running job was asked to cancel, whatever happens in between, the next checkpoint of its worker raises unless the coding job was marked meanwhile, and while the lease is held the cancellation is then recorded |
| `JobProtocol.TerminalIsFinal` | src/repomind/jobs/models.py:58-60 | a terminal record is the same after any continuation of the run |
| `JobProtocol.OutcomeIsAuthorised` | src/repomind/jobs/store.py:180-263 | a job becomes terminal only through its lease owner's own finish, recovery of its expired lease, or cancelling it while queued |
| `JobProtocol.AtMostOneOutcome` | src/repomind/jobs/store.py:209-227 | over any run a job gets one outcome if it ends terminal and none otherwise |
| `JobProtocol.StatusChangeDecreasesMeasure` | src/repomind/jobs/store.py:109-263 | every status change strictly decreases a per-job measure, and no other step changes it |
| `JobProtocol.RetriesAreBounded` | src/repomind/jobs/store.py:229-263 | however often leases expire, a job changes status at most twice the attempt limit |
| `JobProtocol.AttemptsCountClaims` | src/repomind/jobs/store.py:109-127 | the attempt counter counts claims exactly, stays within the limit, and is at most one for coding jobs |
| `Worker.World.RunOnce` | src/repomind/jobs/worker.py:48-54 | the worker's round, with arbitrary steps of everyone else between its transactions, is a run of the protocol that leaves the worker idle |
| `StoreSteps.Perform` | src/repomind/jobs/store.py:66-263 | the store's transactions and their answers carry out exactly the protocol's next state, for every enabled event |
| `StoreSteps.RecordOutcome` | src/repomind/jobs/worker.py:83-110 | the transaction for each outcome of a worker changes its job's record as stated if the lease is held, and nothing otherwise |
| `Worker.World.Execute` | src/repomind/jobs/worker.py:56-97 | from trace link to outcome, a worker never keeps the lease of the job it executed unless recording the outcome failed in the database |
| `Worker.World.Dispatch` | src/repomind/jobs/worker.py:78-94 | an operation that polls, mutates and marks in any order ends in exactly one of cancelled, succeeded or failed for its own job |
| `Worker.World.MutateAndMark` | src/repomind/agent/loop.py:253-261 | a successful mutation is followed by its mark before the operation goes on; a refused mark makes the job fail |
| `Worker.FinishReleases` | src/repomind/jobs/worker.py:99-110 | recording any outcome gives up the lease the worker held |
| `Worker.World.Others` | src/repomind/jobs/worker.py:112-125 | other workers, clients, recovery and the worker's own heartbeat never move the worker's phase |
| `CompletionGate.GateOpensExactlyOnFreshEvidence` | src/repomind/coding/completion.py:20-161 | the blocker list is empty iff every required check passed at the current revision over exactly its scope, the Git review is of that revision, complete and expected, and a required review approves it |
| `CompletionGate.CheckOpens` | src/repomind/coding/completion.py:20-66 | one check contributes no blocker iff it is not required or freshly passed |
| `CompletionGate.GitReviewOpens` | src/repomind/coding/completion.py:69-123 | the Git review contributes no blocker iff it is acceptable, including non-empty diffs for changed files |
| `CompletionGate.TraceShowsEveryBlockedGate` | src/repomind/coding/workflow.py:388-424 | with failures that carry a message, as those of the Git tools do, the trace codes are empty iff the deterministic gate is open |
| `CompletionGate.TraceMatchesGateExactly` | src/repomind/coding/workflow.py:388-424 | for failures of any kind, the trace codes are empty iff the gate is open or a diff failed with an empty message and nothing else blocks |
| `CompletionGate.SilentDiffFailureExample` | src/repomind/coding/workflow.py:388-424 | a staged diff that fails with an empty message blocks the gate and shows no code |
| `CompletionGate.ReviewCodesMatch` | src/repomind/coding/workflow.py:388-424 | the review part of the trace codes is empty for a blocked review exactly in that case |
| `CodingHistory.FreshRunHasNoLaterEdit` | src/repomind/coding/completion.py:20-66 | evidence stamped with the current revision comes from a run of that check and scope after which no file was mutated and the check was not run again |
| `CodingWorkflow.GateOpensOnEvidence` | src/repomind/coding/completion.py:144-161 | over state that agrees with the history, the deterministic gate has no blocker iff the history itself holds complete evidence of the current revision |
| `CodingHistory.AcceptedApproves` | src/repomind/coding/models.py:158-199 | an answer passes both validators and approves iff it judges every criterion once and satisfied, names the revision and asks for no correction |
| `CodingHistory.WorkflowMutatesNothing` | src/repomind/coding/workflow.py:250-385 | whatever the workflow itself runs adds to the history without a mutation or an agent call |
| `CodingWorkflow.Workflow.RecordExecuted` | src/repomind/coding/workflow.py:193-237 | a mutation raises the revision and drops both reviews; a verifier call fills its slot only when its scope is the policy's; nothing else changes evidence |
| `CodingWorkflow.Workflow.Observe` | src/repomind/coding/workflow.py:193-237 | after each executed call the recorded revision, paths and evidence slots agree with the executed history |
| `CodingWorkflow.Workflow.RunRequiredVerification` | src/repomind/coding/workflow.py:250-302 | a required check without a fresh pass is run again and ends with an outcome of the current revision, a fresh one is kept, a check not required is left alone, and nothing is mutated |
| `CodingWorkflow.Workflow.RunRequiredCheck` | src/repomind/coding/workflow.py:240-302 | a required re-run leaves a slot that reports the last run of that check and scope at the current revision, and disturbs no other check |
| `CodingWorkflow.Workflow.CaptureFinalReview` | src/repomind/coding/workflow.py:309-385 | a captured review reports the last status and diffs, or the messages of failed diffs, at the current revision with the right changed and unexpected files; it is missing iff the status could not be read |
| `CodingWorkflow.Workflow.GenerateReview` | src/repomind/coding/reasoning.py:124-164 | the model is shown exactly the given text, and its answer is accepted iff it is consistent, judges every acceptance criterion and names the current revision |
| `CodingWorkflow.Workflow.CollectEvidence` | src/repomind/coding/workflow.py:571-591 | every required check has an outcome of the current revision, the Git review is of that revision, and no blocker is left iff the history then holds complete evidence |
| `CodingWorkflow.Workflow.ReviewCandidate` | src/repomind/coding/workflow.py:593-667 | the review is asked for iff the diffs can be shown in full, with exactly their text, and no blocker is left iff completion is earned |
| `CodingWorkflow.Workflow.JudgeCandidate` | src/repomind/coding/workflow.py:608-667 | after the review's answer no blocker is left iff the answer approves every criterion at this revision |
| `CodingWorkflow.BoundedReviewDiff` | src/repomind/coding/reasoning.py:106-121 | the review text is every diff with content under its own mark, and none iff a diff was truncated or the text is over the limit |
| `CodingWorkflow.HasStagedChanges` | src/repomind/coding/workflow.py:305-306 | says whether some file has a change in the index |
| `CodingWorkflow.Workflow.HandleFinal` | src/repomind/coding/workflow.py:560-700 | a final runs stale required checks, reads Git, and asks for a review exactly when the evidence allows one; it is accepted if and only if completion is then earned in the history; otherwise it is refused with blockers, and the run stops exactly when completion attempts are used up |
| `CodingWorkflow.Workflow.RunAgent` | src/repomind/agent/loop.py:138-285 | for any model and tools: the history is made of the steps, each as stated; the run completes iff its last final earned completion, stops iff its last final was refused for the last time, and otherwise uses all its iterations; each call is executed at most twice per revision, and budgets hold |
| `CodingWorkflow.Workflow.TakeStep` | src/repomind/agent/loop.py:192-275 | one decision adds to the history exactly what its step says: an intercepted final, a refused call, or an executed call and its mark |
| `CodingWorkflow.Workflow.ToolIteration` | src/repomind/agent/loop.py:228-268 | one tool decision is executed exactly unless the mutation budget or the repeat guard stops it: executed, it adds its own event to the history; stopped, it fails and adds none |
| `CodingWorkflow.Workflow.ToolTurn` | src/repomind/agent/loop.py:253-261 | one execution adds its event to the history; cancellation can be raised around it only while nothing has been mutated, because a mutation is marked before the next checkpoint |
| `CodingWorkflow.RunCodingTask` | src/repomind/coding/workflow.py:474-776 | COMPLETED if and only if the executed history earns completion against the Git status that opened it; PRECONDITION_FAILED iff a tool is missing or that status is unreadable or not clean when it must be; ERROR iff the plan or a decision of the model failed; blockers are empty iff completed; budgets hold in the history; when cancellation or a failed precondition ends it, nothing was mutated |
| `CodingWorkflow.Preflight` | src/repomind/coding/workflow.py:488-536 | the coding task may start iff every tool is there, the Git status was read, and it is clean if required |
| `CodingWorkflow.RunPlannedTask` | src/repomind/coding/workflow.py:702-776 | from a successful plan on, the result is what the run of the agent and its history say |
| `IncrementalIndex.ClassifyFiles` | src/repomind/indexing.py:111-144 | kept, changed, added and deleted are exactly the paths with equal, different, new and vanished digests, each sorted; an incompatible manifest rebuilds everything |
| `IncrementalIndex.OnlyChangesAreReindexed` | src/repomind/indexing.py:94-144 | under a compatible fingerprint a file is reindexed iff it is new or its stored digest differs from the current one; a file whose digest is the same is kept and is neither reindexed nor deleted |
| `IncrementalIndex.ValidateIndexUpdate` | src/repomind/indexing.py:177-259 | accepted iff the update is disjoint, within the snapshot, complete for a rebuild or sound for reuse, and its chunks belong to upserted paths |
| `IncrementalIndex.ValidateReuse` | src/repomind/indexing.py:229-252 | reuse is accepted iff exactly the vanished paths are deleted and every path not rewritten is stored with its current digest |
| `IncrementalIndex.AcceptedUpdateIsRebuild` | src/repomind/db/repositories.py:265-319 | every accepted update with complete chunks leaves the full rebuild of its snapshot, up to recorded sizes |
| `IncrementalIndex.EqualsRebuildExactly` | src/repomind/db/repositories.py:265-319 | it equals the rebuild in every column iff each reused file still has its recorded size |
| `IncrementalIndex.StaleSizeExample` | src/repomind/db/repositories.py:265-319 | re-encoding a file without changing its text leaves a stale size behind an accepted update |
| `IncrementalIndex.AppliedPaths` | src/repomind/db/repositories.py:265-319 | an accepted update leaves exactly the snapshot's paths, and what it reuses has the snapshot's digests |
| `IncrementalIndex.SourcesAre` | src/repomind/db/repositories.py:280-283 | of several entries of one path in a snapshot the last one counts |
| `IncrementalIndex.PlanIsAcceptable` | src/repomind/indexing.py:111-259 | whatever is stored, the classifier's plan passes the validator |
| `IncrementalIndex.FingerprintAlwaysVouches` | src/repomind/db/repositories.py:75-124 | over any sequence of updates, legacy replacements and rollbacks, a stored fingerprint vouches for every stored chunk |
| `IncrementalIndex.IncrementalRunIsRebuild` | src/repomind/api/services/repositories.py:212-269 | an indexing run after any such history is accepted and equals indexing the snapshot from nothing, up to sizes |
| `IncrementalIndex.RepositoryRows.ApplyIndexUpdate` | src/repomind/db/repositories.py:265-319 | commits exactly the acceptable updates with usable vectors, and otherwise leaves rows and fingerprint as they were |
| `IncrementalIndex.RepositoryRows.RewrittenRows` | src/repomind/db/repositories.py:265-341 | removing, inserting and attaching rows gives the specified contents for every path |
| `IncrementalIndex.RepositoryRows.PersistRepositorySnapshot` | src/repomind/db/repositories.py:89-124 | the legacy snapshot replaces all rows and revokes the fingerprint, or changes nothing |
| `IncrementalIndex.RepositoryRows.ReplaceAllChunks` | src/repomind/db/repositories.py:140-183 | the legacy chunk replacement gives every row exactly the new chunks and revokes the fingerprint, or changes nothing |
| `Lines.SplitIsExact` | src/repomind/ingestion/lines.py:15-24 | splitting loses no character and cuts exactly at LF, CR and CRLF |
| `Lines.SplitIsUnique` | src/repomind/ingestion/lines.py:15-24 | there is only one such way: lines are recovered from their concatenation |
| `Lines.SplitOversizedLine` | src/repomind/ingestion/lines.py:33-52 | pieces concatenate to the line, respect the cap, differ by at most one character with the longer first, and are as many as the rounded-up quotient |
| `Lines.FewestPieces` | src/repomind/ingestion/lines.py:33-52 | no other way of cutting the line within the cap uses fewer pieces |
| `Lines.FittingLineIsOnePiece` | src/repomind/ingestion/lines.py:33-52 | a line within the cap is one piece |
| `LineChunker.GrowWindow` | src/repomind/ingestion/chunker.py:70-78 | the window is the longest from its start within both caps |
| `LineChunker.FitOverlap` | src/repomind/ingestion/chunker.py:112-119 | the overlap is the largest up to its share that leaves room for the next new line |
| `LineChunker.Share` | src/repomind/ingestion/chunker.py:107-111 | the share is the floor of the ratio: a full window repeats exactly the configured overlap, a shorter one proportionally less and always fewer lines than it has |
| `LineChunker.WindowProgresses` | src/repomind/ingestion/chunker.py:69-94 | each window reaches a line no earlier chunk did, or its first line alone exceeds the cap |
| `LineChunker.EmitPieces` | src/repomind/ingestion/chunker.py:80-94 | an oversized line becomes consecutive chunks that cite it, as few as the cap allows, nearly equal and together the line, and the scan goes on after it |
| `LineChunker.ReassembledWindow` | src/repomind/ingestion/chunker.py:96-119 | dropping the repeated lines of a window extends the reassembled text by exactly its new lines |
| `LineChunker.LineChunks` | src/repomind/ingestion/chunker.py:44-121 | for every text and configuration: terminates, each window is the longest within both caps, each oversized line is cut into as few pieces as the cap allows, the next chunk starts as far back as its share and the room for a new line allow, dropping overlaps gives back the text, and if every classic window fits the cap the chunks are the classic ones |
| `LineChunker.ClassicAgrees` | src/repomind/ingestion/chunker.py:53-57 | where the classic windows fit, the capped scan takes the same window and the same step |
| `StructuralUnits.ModuleUnits` | src/repomind/ingestion/structural.py:166-182 | the loop yields the specified row of definitions and gaps |
| `StructuralUnits.TileUnits` | src/repomind/ingestion/structural.py:117-152 | a cursor over definitions in a row makes exactly the units of the definitions and of the stretches between them |
| `StructuralUnits.ModuleUnitsCoverEveryLine` | src/repomind/ingestion/structural.py:97-182 | every line of the module is in as many units as scopes show it, at least one, and lines outside in none |
| `StructuralUnits.UnitsCountDepth` | src/repomind/ingestion/structural.py:74-163 | the units of one definition cover a line once per enclosing function and once for the class text around it |
| `StructuralUnits.UnitIsNamed` | src/repomind/ingestion/structural.py:42-163 | each unit lies inside a definition of the tree and carries its name, its scope, its dotted path and the kind that scope gives it: method inside a class, function elsewhere |
| `StructuralUnits.WholeDefinitionIsUnit` | src/repomind/ingestion/structural.py:74-115 | every function, and every class without definitions of its own, is one whole unit with its statement ends |
| `StructuralChunker.PiecesForRange` | src/repomind/ingestion/structural.py:185-195 | the pieces of a range concatenate to it in order within the cap; each line is as few pieces as the cap allows, and one piece if it fits |
| `StructuralChunker.GrowPart` | src/repomind/ingestion/structural.py:215-237 | a part that is not the last stops at the last statement end in the greedy window when there is one, and at the window's end otherwise |
| `StructuralChunker.BoundedParts` | src/repomind/ingestion/structural.py:198-244 | the loop terminates; parts concatenate to the unit's text within both caps, and their line ranges run through the unit without a gap |
| `StructuralChunker.PartIsBounded` | src/repomind/ingestion/structural.py:215-242 | stopping at a statement end keeps both caps |
| `PythonChunks.ParsedChunks` | src/repomind/ingestion/structural.py:276-307 | the chunks are the parts of every unit with text, in order; each chunk, or the run of fragments it belongs to, is exactly the lines of one unit, cites its first and last line and carries its names |
| `PythonChunks.ChunkShowsUnit` | src/repomind/ingestion/structural.py:280-307 | the contents of a chunk alone, or of its run of fragments put together, are exactly the lines of one unit, which are not all blank, under the unit's kind and names |
| `PythonChunks.FallbackChunks` | src/repomind/ingestion/structural.py:247-263 | source that does not parse is cut into exactly the line windows, with their text, lines and numbers, and no names |
| `PythonChunks.NonBlankLineIsShown` | src/repomind/ingestion/structural.py:266-307 | every line with anything on it is cited by some chunk |
| `PythonChunks.ChunksAreBounded` | src/repomind/ingestion/structural.py:280-307 | chunk indices count from zero, caps hold, and the fragments of a unit follow each other from one to their count under one name |
| `PythonChunks.UnitsAreInBounds` | src/repomind/ingestion/structural.py:166-182 | units cite only lines of the file |
| `Json.CutStep` | src/repomind/agent/prompts.py:70-77 | allowing one more character never shortens a printed string, although the marker's count may lose a digit and characters print with different widths |
| `Json.RenderMonotone` | src/repomind/agent/prompts.py:44-82 | the printed length of any value is monotone in the truncation limit |
| `Json.TruncateBeyondLongest` | src/repomind/agent/prompts.py:70-92 | from the longest string on, truncation changes nothing |
| `Json.RenderedIsTagFree` | src/repomind/agent/prompts.py:44-55 | no printed value holds a character that could open or close a prompt tag |
| `JsonReader.ValueReadsBack` | src/repomind/agent/prompts.py:44-55 | every printed value reads back as itself, whatever its strings hold and whatever follows it (section 2 of RFC 8259) |
| `History.BlockMonotone` | src/repomind/agent/prompts.py:95-123 | the length of a rendered step is monotone in the limit |
| `History.TruncatedStepBlock` | src/repomind/agent/prompts.py:126-139 | the binary search returns the block of the largest limit that fits among all limits, and none iff limit zero does not fit |
| `History.BoundedHistory` | src/repomind/agent/prompts.py:157-196 | the text joins, in order, each step's greedy choice from newest to oldest and never exceeds the budget; it is empty iff not even the newest step's marker fits |
| `HistoryReader.FeedbackReadsBack` | src/repomind/agent/prompts.py:103-117 | workflow feedback reads back as two parts: under the trusted tag the workflow's own payload, under the untrusted one the evidence |
| `HistoryReader.InteractionReadsBack` | src/repomind/agent/prompts.py:118-123 | a tool interaction reads back as one part under an untrusted tag, holding the step's payload |
| `HistoryReader.OmittedReadsBack` | src/repomind/agent/prompts.py:142-154 | an omission marker reads back as one untrusted part that names the step and how much is missing |
| `HistoryReader.HistoryReadsBack` | src/repomind/agent/prompts.py:157-196 | a parser recovers from the printed history exactly the blocks chosen to be shown, each tag with the value under it |
| `HistoryReader.OnlyInstructionsAreTrusted` | src/repomind/agent/prompts.py:95-123 | whatever tools, files and models returned, every value a reader finds under the trusted label is the workflow's own payload of a feedback step |
| `History.OlderEntry` | src/repomind/agent/prompts.py:177-194 | an older step is shown whole, else as a marker, else skipped, by what fits in the remaining budget |
| `History.NewestEntry` | src/repomind/agent/prompts.py:180-191 | the newest step is cut as little as the budget less the older steps' share allows |
| `History.FittingHistoryIsWhole` | src/repomind/agent/prompts.py:157-196 | a history that fits the budget is shown without abbreviation |
| `History.OversizedStepHidesNothing` | src/repomind/agent/prompts.py:160-166 | when an oversized newest step is cut, older steps within half the budget all stay whole |
| `Decimals.NumberReadsBack` | src/repomind/rag/context.py:53-56 | printed numbers read back exactly, whatever non-digit follows |
| `Decimals.DigitsGrowSlowly` | src/repomind/agent/prompts.py:74 | counting up by one adds at most one digit and never removes one |
| `Utf8.DecodeEncoded` | src/repomind/tools/editing.py:198-200 | strict UTF-8 decoding inverts encoding (section 3 of RFC 3629) |
| `Utf8.EncodeDecoded` | src/repomind/tools/editing.py:149-155 | whatever decodes is the encoding of its text: overlong forms and surrogates are refused |
| `Utf8.LeadsStartPoints` | src/repomind/tools/editing.py:205 | a byte that is no continuation byte starts a code point of the text |
| `Utf8.FindEncoded` | src/repomind/tools/editing.py:205 | the leftmost byte occurrence is the encoding of the leftmost text occurrence |
| `Utf8.ReplaceEncoded` | src/repomind/tools/editing.py:205 | replacing the bytes of one occurrence is replacing the text, by self-synchronisation |
| `Cp1252.Inverse` | src/repomind/tools/editing.py:149-155 | the cp1252 tables are inverse to each other; five bytes are undefined |
| `Cp1252.ReplaceBoth` | src/repomind/tools/editing.py:205 | replacing bytes of a cp1252 file is replacing its text |
| `Search.CountIs` | src/repomind/tools/editing.py:190-191 | the count is the largest number of occurrences of which no two overlap |
| `Search.CountedOnce` | src/repomind/tools/editing.py:190-195 | the count is one iff there is an occurrence and every other one overlaps it from the right |
| `Search.ReplaceFirstIs` | src/repomind/tools/editing.py:205 | replacing once puts the new text in place of the leftmost occurrence and keeps what stands before and after |
| `Editing.TextFile.ReplaceText` | src/repomind/tools/editing.py:158-219 | an accepted edit replaces one occurrence of an old text of which the file holds no two that are disjoint, and keeps every other byte; otherwise every byte stays and the first reason that applies is given, each stated in both directions |
| `Editing.FoundInBytes` | src/repomind/tools/editing.py:198-205 | the bytes of a text counted once are found in the file, and there the edit takes place |
| `Editing.Utf8EditIsTextEdit` | src/repomind/tools/editing.py:190-205 | the edited bytes are the file's mark, kept, and the text with the counted occurrence replaced, unless the old text takes the mark in |
| `Editing.MarkIsSwallowed` | src/repomind/tools/editing.py:190-205 | in that one case the mark is what is replaced, not the counted occurrence |
| `Editing.SwallowedMarkExample` | src/repomind/tools/editing.py:190-205 | a concrete marked file for which that happens |
| `Editing.EditReadsBack` | src/repomind/tools/editing.py:158-219 | a later read gives exactly the edited text iff the new text has no NUL and the result does not start with a mark of its own, or, for cp1252, is not a text whose bytes happen to be UTF-8 |
| `Editing.NulExample` | src/repomind/tools/filesystem.py:60-70 | an edit that writes a NUL, after which the file is refused as binary |
| `Editing.NewMarkExample` | src/repomind/tools/filesystem.py:73-80 | an edit that writes a mark to the front of an unmarked file, which the next read drops |
| `Editing.TakenForUtf8Example` | src/repomind/tools/filesystem.py:73-80 | a cp1252 file whose edited bytes are read as UTF-8 |
| `Editing.WrittenReadsBack` | src/repomind/tools/filesystem.py:73-80 | written UTF-8 reads back as itself iff the file is marked or its text does not start with a mark |
| `Editing.Cp1252ReadsBack` | src/repomind/tools/filesystem.py:73-80 | cp1252 bytes read back as their text iff they are not valid UTF-8 or are all ASCII |
| `ContextText.UnescapeEscaped` | src/repomind/rag/context.py:26-35 | escaping is injective: there is a way back for every text |
| `ContextText.EscapedHasNoTag` | src/repomind/rag/context.py:26-35 | escaped text holds no delimiter character |
| `ContextText.BlockReadsBack` | src/repomind/rag/context.py:38-62 | a source block reads back its id, path, lines, language, truncated flag and content, whatever those hold and whatever follows |
| `ContextText.ContextReadsBack` | src/repomind/rag/context.py:112-116 | a parser recovers from a whole context exactly the sequence of sources shown |
| `ContextBuilder.EscapedPrefixLength` | src/repomind/rag/context.py:65-71 | the longest prefix whose escaped form is within the bound |
| `ContextBuilder.TrimToLines` | src/repomind/rag/context.py:97-102 | keeps the longest whole-line part of the prefix, or its only line |
| `ContextBuilder.TruncateSourceToFit` | src/repomind/rag/context.py:74-109 | shows the longest whole-line prefix that fits, at least one character, and cites exactly the lines shown |
| `ContextBuilder.CutFits` | src/repomind/rag/context.py:74-109 | the cut block fits iff the whole block or the block of its first character does |
| `ContextBuilder.BuildRepositoryContext` | src/repomind/rag/context.py:119-165 | source i has number i + 1 and shows result i unchanged, except that the first may be cut; as many in a row as fit; the text reads back to exactly them, and is within the budget iff some block of the first result can be |
| `ContextBuilder.ContextFits` | src/repomind/rag/context.py:119-165 | a context keeps its budget iff there is room for its frame and for some block of the first result |
| `ContextBuilder.OverBudgetExample` | src/repomind/rag/context.py:74-109 | a one-character chunk whose context exceeds a budget of 180 characters |
| `NeighborPool.OffsetsAreAll` | src/repomind/rag/assembly.py:59-61 | the offsets are all non-zero ones within the radius, once each |
| `NeighborPool.RoutesAre` | src/repomind/rag/assembly.py:170-188 | a route to a neighbour is any seed with any offset that leads to a chunk of the seed's own index |
| `NeighborPool.RoutesReach` | src/repomind/rag/assembly.py:170-190 | a route reaches exactly the stored chunks of a seed's file and chunking within the radius, with the seed's rank and the distance, as a fragment of the same symbol iff both are fragments of one qualified name |
| `NeighborPool.Take` | src/repomind/rag/assembly.py:181-202 | each route adds its chunk, or lowers the priority it already has, or is a duplicate; the pool keeps the best priority over all routes so far |
| `NeighborPool.ExpandSeeds` | src/repomind/rag/assembly.py:170-202 | the pool holds each reached chunk that is no seed once, with a priority some route gives and none improves, and duplicates are counted exactly |
| `NeighborPool.RequestedKeys` | src/repomind/rag/assembly.py:158-168 | the batch asks for exactly the neighbour keys of all seeds, each once |
| `NeighborPool.RequestIsEnough` | src/repomind/rag/assembly.py:40-57 | loading only those keys loses no route |
| `ContextAssembly.UniqueSeeds` | src/repomind/rag/assembly.py:136-147 | the seed candidates are the results at the places where each chunk is first named, in order and with their ranks, and every result is named by one no later |
| `ContextAssembly.EstimateFits` | src/repomind/rag/tokens.py:12-25 | a text fits the character bound of a token budget iff its estimate fits the budget |
| `ContextAssembly.CandidateOrderIsTotal` | src/repomind/rag/assembly.py:112-115 | candidates are totally ordered by origin, seed rank, distance and identity |
| `ContextAssembly.PoolIsNeighborhood` | src/repomind/rag/assembly.py:170-205 | the neighbours considered are the neighbourhood of the seeds: no seed, nothing twice, nothing missing, each with the best origin, rank and distance any seed gives it, fragments of a seed's symbol before all others, then better seeds, then nearer chunks |
| `ContextAssembly.PackOne` | src/repomind/rag/assembly.py:210-237 | each candidate is already shown, packed whole, packed cut if it is the first, or dropped |
| `ContextAssembly.AssembleContext` | src/repomind/rag/assembly.py:118-248 | seeds in order, then their whole neighbourhood by priority, are packed step by step; seeds plus expanded routes equal packed plus deduplicated plus dropped; the budget holds iff some block of the best seed is within it |
| `ContextAssembly.Conservation` | src/repomind/rag/assembly.py:239-248 | the counts account for every seed and every route |
| `ContextAssembly.TokensWithinBudget` | src/repomind/rag/assembly.py:207-237 | the estimate is the sum over packed chunks, and over the budget only when a single first block is |
| `ContextAssembly.BudgetHolds` | src/repomind/rag/assembly.py:216-237 | after any step the budget holds iff some block of the first candidate is within it |
| `ContextAssembly.AssemblyWithinBudget` | src/repomind/rag/assembly.py:207-248 | a whole assembly is within its budget iff there is nothing to pack or some block of the best seed is |
| `ContextAssembly.OverBudgetPackingExample` | src/repomind/rag/assembly.py:216-237 | one character of source exceeds a budget of 25 tokens |
| `ContextAssembly.CandidatesAreDistinct` | src/repomind/rag/assembly.py:136-205 | no chunk is a candidate twice, so none is packed twice |
| `ContextAssembly.PackedNeighborIsNew` | src/repomind/rag/assembly.py:211-215 | a packed neighbour is contained in nothing packed before it |
| `SseFrames.CutIsStable` | frontend/lib/sse.ts:10-27 | a frame found in part of the stream is the same frame in all of it |
| `SseFrames.FramesInTwoParts` | frontend/lib/sse.ts:10-27 | feeding a stream in two parts finds the same raw frames and the same rest as feeding it whole |
| `Sse.ParseFrame` | frontend/lib/sse.ts:31-55 | a frame has the last usable id, the last event name and the joined data lines; frames without data are ignored, and data that is no JSON is an error |
| `Sse.LastFieldsWin` | frontend/lib/sse.ts:31-45 | reading lines in order leaves the last usable id, the last event name and all data lines |
| `Sse.SSEParser.Feed` | frontend/lib/sse.ts:10-28 | delivers every frame the chunk completes and keeps the incomplete rest; on an invalid frame it fails and the buffer holds what follows that frame |
| `Sse.DeliveredFromStream` | frontend/lib/sse.ts:7-29 | however a stream is cut, a reader gets the same frames if all are valid, and otherwise an error after some of the frames before the invalid one |
| `Sse.ChunksMatterExactly` | frontend/lib/sse.ts:7-29 | the cut changes what is delivered iff an invalid frame comes after one that should have been delivered |
| `Sse.LostFrameExample` | frontend/lib/sse.ts:10-28 | a valid frame before an invalid one is delivered when they arrive apart and lost when they arrive together |
| `Sse.RawIsOneFrame` | src/repomind/api/streaming.py:312-327 | an encoded event is exactly one frame, whatever follows it |
| `Sse.EncodedReadsBack` | src/repomind/api/streaming.py:312-327 | a frame of the encoder reads back as its id, event name and payload (section 9.2.5 of the HTML Living Standard) |
| `Sse.EventsArrive` | src/repomind/api/streaming.py:312-327 | the events the server encodes are delivered exactly, in order, for every way of cutting the stream |
| `Grounding.GroundingPolicy.Observe` | src/repomind/agent/indexed.py:53-97 | a non-empty search replaces what is pending, reading a pending path settles all of it, a pending path found missing is dropped, and nothing else changes it |
| `Grounding.GroundingPolicy.HandleFinal` | src/repomind/agent/indexed.py:99-112 | a final is rejected iff something is pending |
| `Grounding.FinalAllowedExactly` | src/repomind/agent/indexed.py:53-112 | nothing is pending iff, after the last search that returned anything, one of its paths was read before it was found missing or all of them were found missing |
| `Grounding.GroundedExactly` | src/repomind/agent/indexed.py:53-112 | nothing is pending iff the run of observations grounds an answer, whatever was searched |
| `Grounding.NothingPendingWithoutSearch` | src/repomind/agent/indexed.py:53-80 | runs without search results are never blocked |
| `Grounding.RunIndexedAgent` | src/repomind/agent/loop.py:164-285 | for any model and tools, the indexed run completes only on a grounded final and within its iterations, and rejects a final exactly when what was observed does not ground it |
| `Grounding.VerifiedRetrievalFollowup` | src/repomind/evaluation/agent_navigation.py:70-97 | the evaluator's loop computes its own pending set and reports whether it is empty |
| `Grounding.TrackersAgreeExactly` | src/repomind/evaluation/agent_navigation.py:70-97 | policy and evaluator agree at every step iff no step finds a pending path missing |
| `Grounding.DeletedFileExample` | src/repomind/evaluation/agent_navigation.py:70-97 | after a deleted file was found missing, the policy has let go of it and the evaluator has not |
| `Fusion.FuseRankedSources` | src/repomind/retrieval/hybrid.py:66-128 | the result is the first top-k of the ranking of everything retrieved, with exact scores and ranks by source; repeated and conflicting identities are errors and only those |
| `Fusion.AddSource` | src/repomind/retrieval/hybrid.py:97-105 | after a source's loop the score table holds every identity's exact sum, or the source repeats an identity or conflicts with another |
| `Fusion.FusionOrderIsTotal` | src/repomind/retrieval/hybrid.py:107-115 | the sort key is one strict total order on identities |
| `Fusion.RankingIsOrdered` | src/repomind/retrieval/hybrid.py:107-115 | earlier results have more score, or the same and a better single rank, or both the same and a smaller identity |
| `Fusion.ScoreIs` | src/repomind/retrieval/hybrid.py:97-105 | a source adds the reciprocal of the constant plus its rank to the score of each identity it ranks, and nothing to any other |
| `Fusion.BestRankIs` | src/repomind/retrieval/hybrid.py:107-113 | the single rank compared is the least that any source gives |
| `Fusion.SourceRanksAre` | src/repomind/retrieval/hybrid.py:117-127 | the ranks reported with a result name exactly the sources that rank it, each with its rank |
| `FusionLaws.RankingIsUnique` | src/repomind/retrieval/hybrid.py:107-115 | there is only one ranking |
| `FusionLaws.SourceOrderIsIrrelevant` | src/repomind/retrieval/hybrid.py:66-128 | the ranking does not depend on the order of the sources |
| `FusionLaws.EmptySourceIsNeutral` | src/repomind/retrieval/hybrid.py:81-84 | a source without results changes no score, no rank by source and no place |
| `FusionLaws.MoreResultsExtend` | src/repomind/retrieval/hybrid.py:115 | asking for more results only adds to the end |
| `FusionLaws.BetterEverywhereComesFirst` | src/repomind/retrieval/hybrid.py:97-115 | a result ranked at least as well in every source and better in one comes first |
| `Symbols.SymbolSearch` | src/repomind/retrieval/symbols.py:77-150 | whole-name matches first, then strong identifiers, then weak ones, each chunk by the best that applies; within a tier by path and position; one of each symbol, the earliest, numbered; none missing unless the limit is reached |
| `Symbols.MatchesAre` | src/repomind/retrieval/symbols.py:77-128 | a chunk matches as a whole name, else as a strong identifier, else as a weak one, under the name that matched |
| `Symbols.Deduplicate` | src/repomind/retrieval/symbols.py:138-145 | keeps exactly the first match of each symbol |
| `Symbols.FirstPerSymbolKeeps` | src/repomind/retrieval/symbols.py:138-145 | what is kept is sorted, one per symbol, and no later than any match of its symbol |
| `Symbols.SearchIsQueryExactly` | src/repomind/db/repositories.py:635-717 | at any limit the in-memory answer equals the database query's iff each match it shows is the first of its symbol in the file; that is so at every limit if the first match of each symbol has its best tier, and at a limit that cuts nothing only then |
| `Symbols.UncutSearchIsQueryExactly` | src/repomind/db/repositories.py:635-717 | before the limit both keep the same matches iff in every symbol the first match of the file has the best tier |
| `Symbols.NamedDifferentlyExample` | src/repomind/db/repositories.py:635-717 | two chunks that name one symbol differently, for which the answers differ |
| `Symbols.NamedAlikeIsEnough` | src/repomind/db/repositories.py:635-717 | which holds whenever all chunks of one symbol carry the same names |
| `IndexedSymbols.LastNameIsUnique` | src/repomind/ingestion/structural.py:42-43 | a qualified name determines the symbol that ends it |
| `IndexedSymbols.DefinitionsLabel` | src/repomind/ingestion/structural.py:42-307 | every chunk of a parsed file is numbered in order and named by the last part of its qualified name, or not at all |
| `IndexedSymbols.IndexedSearchIsQuery` | src/repomind/db/repositories.py:635-717 | over chunks of the shipped chunkers both searches give the same answer for every query and limit |
| `Symbols.SelectEvidenceBackedFragments` | src/repomind/retrieval/symbols.py:39-62 | each result is moved to the first evidence chunk of its symbol, if there is one, and nothing else changes |
| `Symbols.ProjectedIs` | src/repomind/retrieval/symbols.py:39-62 | the chunk shown is the first evidence with the same file and name, and the match itself if there is none or it has no name |
| `Symbols.ProjectionKeepsIdentitiesDistinct` | src/repomind/retrieval/symbols.py:39-62 | projected results have distinct identities, so fusion meets none twice |
| `HybridSearch.FuseWithSymbols` | src/repomind/retrieval/hybrid.py:237-255 | with rankings of one corpus fusion never fails, and the answer is the fusion of the semantic, lexical and symbol rankings; unless the query is just an identifier, each symbol votes for where the semantic and lexical rankings, fused in full, find it first |
| `HybridSearch.EvidenceIsComplete` | src/repomind/retrieval/hybrid.py:243-247 | the evidence limit cuts nothing: two rankings hold no more identities than results |
| `HybridSearch.OneCorpusNeverConflicts` | src/repomind/retrieval/hybrid.py:91-95 | chunks of one corpus never conflict over an identity |
| `EmbeddingBatches.Batches` | src/repomind/retrieval/embeddings.py:105-129 | batches concatenate to the input, each is within both bounds or a single text, and none but the last could take one text more |
| `EmbeddingBatches.FewestBatches` | src/repomind/retrieval/embeddings.py:105-129 | no contiguous way to cut the input under the same rule uses fewer batches |
| `EmbeddingBatches.NormalizeResponse` | src/repomind/retrieval/embeddings.py:132-181 | succeeds iff the response answers each index once with valid vectors of one dimension, and returns them by index |
| `EmbeddingBatches.AnswerIsUnique` | src/repomind/retrieval/embeddings.py:132-181 | the order in which the provider answers does not matter |
| `EmbeddingBatches.EmbeddedIsUnique` | src/repomind/retrieval/embeddings.py:245-268 | the answers to all batches leave one list of vectors at most |
| `EmbeddingBatches.EmbedTexts` | src/repomind/retrieval/embeddings.py:245-268 | one vector per text in order, each the provider's answer to its place in its batch, all of one dimension; it fails exactly when a text is empty or the answers leave no such list |
| `Sorting.SortedUnique` | src/repomind/retrieval/hybrid.py:115 | sorting by an order that tells elements apart has one result |

## Left out

- Job store in memory (`src/repomind/jobs/store.py:266-332`): mirrors the modelled one without leases.
- SQL: each locked transaction is one atomic step, rows that `SKIP LOCKED` passes over are a parameter, and a rollback changes nothing.
- Clocks are parameters and monotone; worker identifiers are unique; a lease length is a natural number.
- The broker, trace persistence and log messages of the worker carry no state that the protocol reads.
- Cancellation of a running non-coding job whose operation already changed something is as in the code: only coding jobs are marked.
- Prompts, plans and their validators: a plan either succeeds or not, and nothing later depends on its contents.
- Tool call identity is the call itself; its canonical JSON is taken to distinguish calls. Changed-file tuples are sets.
- The verification execution counter counts refused repeats too, so nothing is claimed about it beyond what each call adds.
- The registry, subprocesses and Git behind the tools: their answers are arbitrary values.
- Chunking, embedding and SHA-256 inside the incremental index: one function of fingerprint, path and content, and an injective digest.
- AcceptedUpdateIsRebuild: assumes that upserted paths come with all their chunks, which the validator does not check; so do EqualsRebuildExactly, FingerprintAlwaysVouches and IncrementalRunIsRebuild.
- Utf8EditIsTextEdit: excludes old text that takes in the mark of the file; MarkIsSwallowed says what happens then. EditReadsBack has the same exclusion.
- TokensWithinBudget: a first block may exceed the budget; BudgetHolds says exactly when.
- EncodedReadsBack: assumes the platform's Number reads the digits of the id and its JSON parser the payload.
- Python's parser: definitions come as a tree whose siblings lie on distinct lines in order, with decorators included in a range.
- The language of a file is a function of its path, and chunk metadata that no property reads is not in a chunk.
- The field layout of a step's JSON: shown values are given, with no string longer than the step's own dump has.
- File-system path resolution, protected file names, atomic rename and file creation.
- In place updates of pooled candidates are updates of one position of a sequence; the pool and its index are values.
- The neighbour loader is a map from keys to chunks; loaders that answer with other chunks than asked are not modelled.
- JavaScript numbers beyond 2^53 and the other spellings that `Number` accepts: the platform's reading of a text as a positive integer is a parameter.
- JSON in the event stream: a payload is the text of an object without raw line breaks, and the platform's parser is a parameter.
- HistoryReadsBack: shown values have no atoms but those of JSON, which are numbers, booleans and null, and strings are sequences of Unicode scalar values; so for ValueReadsBack and OnlyInstructionsAreTrusted.
- FuseRankedSources: scores are exact reals, so ties or order changes that floating-point rounding creates do not occur.
- SearchIsQueryExactly: paths are ordered by code point in both searches, whatever the database's collation.
- Identifier extraction, BM25, cosine similarity and vector indexes.
- Usage counters, retries and asynchronous variants of the embedding client.
- Routes, middleware, React components and migrations.
