# Verification model of the agent runtime

A Dafny 4.11 model of the stateful kernels of a self-modifying agent runtime, with proofs about
every run of them. `dafny verify dfyconfig.toml` checks the whole project.

* **The durable review ledger** (`ReviewLedger`, `ReviewState`, `ReviewRuns`, `ReviewFreshness`,
  `ReviewObligations`, `ReviewAttempts`, `ReviewLock`). Advisory runs, commit attempts and
  obligations, updated in place by the class `AdvisoryReviewState`; the rule that a repository sees
  its own records, or else those without a named key; the gate that decides whether a commit may go
  ahead; and the lock file that several processes share. `ReviewLedger` holds the functions each
  method is proved to compute, the other modules prove what these functions do over whole runs.
* **The transcript pipeline** (`Transcript`, `ToolCalls`, `Rounds`, `Compaction`, `SummaryTexts`,
  `Sealing`, `SealedCompaction`, `LlmLoop`, `AnthropicFormat`). Tool rounds, their summaries, the
  cache seal, the loop around the model, and the translation to Anthropic's message form. Replies,
  tool outcomes, completion orders and summaries are arbitrary. Pairing is stated per round, because
  the ids of local models repeat.
* **The supervisor queue** (`TaskQueue`, `Supervisor`, `SupervisorState`, `Tallies`, `Accounts`,
  `TimeoutRetries`, `TaskIdentities`, `EvolutionBreaker`, `Restarts`). Priorities with front
  insertion, snapshots, hard timeouts with retries, crashes, restarts and start-ups, and the
  evolution task behind its circuit breaker. `Accounts` says for any weight of tasks that no
  operation creates any of it; the bounds on timeouts, ids and evolution tasks are instances.
* **Conservation** (`Consolidation`, `Chunking`) and one text format (`ParentContext`).
* `Text`, `Options` and `Sequences` are shared helpers.

Code that changes state is modelled by classes, loops and arrays, each method proved equal to a
function of the state before; the laws are lemmas about these functions. Timestamps, fresh ids,
hashes, model replies and tool results are parameters.

## Where the code differs from what is said about it

* `docs/ARCHITECTURE.md:623` says the reason text of a repeated finding is deduplicated. It is,
  except for reasons that contain the separator themselves: `ReviewObligations.RepeatedReasonIff`;
  `ReviewObligations.RepetitionsPileUp` follows such a text over any number of records.
* The docstring of `seal_task_transcript` and `docs/ARCHITECTURE.md:510` say that compaction always
  sees plain strings. The loop compacts first and seals after, so the next compaction meets the
  sealed message as a list, and a warning at its start no longer protects its round:
  `SealedCompaction.SealSafeIff`.
* `server.py:510-513` calls `kill_workers` before `restore_pending_from_snapshot`; the first saves an
  empty snapshot, so the second never restores anything: `Supervisor.BootRestoresNothing`.
  `Restarts.RestartTransparent` is about the restore itself.
* With keys of both kinds, an obligation of a repository can be merged into a legacy one and then be
  hidden by the repository's own later ones: `ReviewObligations.FindingsVisibleIff` says exactly when,
  and `ReviewObligations.StraddlingIsHidden` is a run in which the repository may then commit.
  `ReviewObligations.StaysVisibleIff` says which later attempts hide what was visible.
* A `task_done` event for an evolution task that no longer runs still counts as a failure, so the
  counter can pass the breaker's limit. While such late failures do not come, it cannot:
  `EvolutionBreaker.LimitHolds`. Each of them costs the limit at most one, and no less will do:
  `EvolutionBreaker.WithinIff`. The event that passes the limit need not itself be late, because a
  late one before it can take the room of the task that runs: `EvolutionBreaker.OwnFailurePasses`.
* A later batch of summaries can overwrite an earlier one's texts, also by empty ones:
  `SummaryTexts.TextKeptIff` and `SummaryTexts.EveryNoteIff` say exactly when, and
  `SummaryTexts.SummaryLost` is an instance. The cost of finished batches is dropped when a later
  batch fails, and the cost of a failed era summary is not reported: `SummaryTexts.CostReportedIff`
  and `Consolidation.CostReportedIff` say exactly when, and `SummaryTexts.BatchCostLost` and
  `Consolidation.EraCostLost` are instances.

## Model

| member | source | states |
|---|---|---|
| ReviewState.AdvisoryReviewState.constructor | ouroboros/review_state.py:132-144 | a new state is the empty ledger |
| ReviewState.AdvisoryReviewState.FindByHash | ouroboros/review_state.py:252-267 | searching backwards with an early exit returns the newest record of the snapshot that is in scope: exact keys if the history holds the key, else records without a named key |
| ReviewState.AdvisoryReviewState.IsFresh | ouroboros/review_state.py:269-271 | whether that newest record is fresh, bypassed or skipped |
| ReviewState.AdvisoryReviewState.MarkAllStaleExcept | ouroboros/review_state.py:293-298 | in place, every other fresh record of the repository becomes stale and no other record changes |
| ReviewState.AdvisoryReviewState.MarkHashStale | ouroboros/review_state.py:287-291 | in place, every record of the snapshot becomes stale and no other record changes |
| ReviewState.AdvisoryReviewState.StampRun | ouroboros/review_state.py:273-285 | the record enters with its missing timestamps filled in |
| ReviewState.AdvisoryReviewState.AddRun | ouroboros/review_state.py:273-285 | stale-marks the repository's other snapshots, appends the record, keeps the last ten |
| ReviewState.AdvisoryReviewState.Survey | ouroboros/review_state.py:303-334 | one scan finds out which kind of fresh record (any, of the key, without a named key) is there |
| ReviewState.AdvisoryReviewState.StaleTargets | ouroboros/review_state.py:303-334 | exactly the targeted records become stale; the count is how many |
| ReviewState.AdvisoryReviewState.MarkRepoStale | ouroboros/review_state.py:303-334 | the whole new state of a repository invalidation, with its three-way choice of targets |
| ReviewState.AdvisoryReviewState.UpsertAttempt | ouroboros/review_state.py:369-379 | replaces the first record of the same identity by the merge, or appends and drops the oldest beyond the cap |
| ReviewState.AdvisoryReviewState.UpsertBlockingHistory | ouroboros/review_state.py:381-390 | replaces or appends in the blocking history and caps it |
| ReviewState.AdvisoryReviewState.FindExisting | ouroboros/review_state.py:396-444 | the record the `existing` dictionary holds for an id: the last one that qualified on entry or was added since |
| ReviewState.AdvisoryReviewState.MergeFinding | ouroboros/review_state.py:396-444 | one critical finding is merged into that record or opens a new obligation |
| ReviewState.AdvisoryReviewState.UpdateObligationsFromAttempt | ouroboros/review_state.py:396-444 | all critical FAIL findings in order, and the ids touched |
| ReviewState.AdvisoryReviewState.ResolveObligations | ouroboros/review_state.py:446-467 | in place, exactly the open obligations with a listed id in scope are resolved; the count is how many |
| ReviewState.AdvisoryReviewState.ClearResolvedObligations | ouroboros/review_state.py:469-470 | exactly the open obligations stay, each where it stood relative to the others; a list and a condition have one such selection |
| ReviewState.AdvisoryReviewState.GetOpenObligations | ouroboros/review_state.py:472-482 | the result holds exactly the open obligations in scope, in the order of the list; the scope is exact iff the list holds the key |
| ReviewState.AdvisoryReviewState.OnSuccessfulCommit | ouroboros/review_state.py:495-525 | of obligations and blocking history exactly what is outside the scope stays, in order, each list with its own exact-or-legacy choice; the stale marker goes iff it is the scope's or nobody's; without a scope all goes; runs and attempts stay |
| ReviewState.AdvisoryReviewState.NormalizeAttempt | ouroboros/review_state.py:342-367 | the defaults record_attempt fills in |
| ReviewState.AdvisoryReviewState.FileBlocked | ouroboros/review_state.py:342-367 | a blocked record files its obligations and is written to all three views |
| ReviewState.AdvisoryReviewState.RecordAttempt | ouroboros/review_state.py:342-367 | the whole new state for every status, and the merged record returned |
| ReviewState.AdvisoryReviewState.ExpireRecords | ouroboros/review_state.py:527-580 | in place, exactly the hung records are expired; the result lists them |
| ReviewState.AdvisoryReviewState.ReplaceExpiredLast | ouroboros/review_state.py:527-580 | if the last attempt expired, the newest record like it takes its place |
| ReviewState.AdvisoryReviewState.ExpireStaleAttempts | ouroboros/review_state.py:527-580 | the whole new state of an expiry; an unreadable time changes nothing |
| ReviewState.AdvisoryReviewState.SyncCompatViews | ouroboros/review_state.py:1193-1198 | what is done to the views before every save |
| ReviewFreshness.StaleClosesGate | ouroboros/review_state.py:303-334 | after mark_repo_stale(R) no snapshot is fresh for R and none is commit-ready, for any mixture of named, empty and legacy keys |
| ReviewFreshness.NewestRunDecides | ouroboros/review_state.py:252-267 | a record in scope is what find_by_hash returns when no later one of its snapshot is in scope |
| ReviewFreshness.AddRunShape | ouroboros/review_state.py:273-285 | add_run leaves the last records of the quieted history and then the new one, at most ten |
| ReviewFreshness.BorrowedFreshnessIff | ouroboros/review_state.py:252-271 | a named repository without a fresh record of its own passes the freshness test iff none of its records is left and an unscoped fresh one is the newest of its snapshot |
| ReviewFreshness.GateAfterStale | ouroboros/review_state.py:252-334 | for any keys and any later operations without a fresh run of R: R is fresh for some snapshot iff that condition holds |
| ReviewFreshness.NamedGateStaysClosed | ouroboros/review_state.py:252-334 | with named keys the gate of R stays closed after mark_repo_stale(R) through any operations until a fresh, bypassed or skipped run of R is added |
| ReviewFreshness.LegacyFreshnessReturns | ouroboros/review_state.py:252-334 | the hypothesis on keys is needed: a run in which eviction lets a legacy record answer for R |
| ReviewFreshness.SingleSnapshotAlways | ouroboros/review_state.py:273-334 | in every reachable state all fresh, bypassed and skipped records of one key share one snapshot, and at most ten records are kept |
| ReviewFreshness.FreshSnapshotUnique | ouroboros/review_state.py:252-271 | hence at most one snapshot is fresh for a repository that has a record |
| ReviewObligations.FindingsExtend | ouroboros/review_state.py:396-444 | recording findings keeps every obligation's place, id, key and status and only adds open ones of the attempt's repository |
| ReviewObligations.FindingsHeld | ouroboros/review_state.py:396-444 | every critical FAIL finding ends up in an open obligation with its id |
| ReviewObligations.AddedHaveReason | ouroboros/review_state.py:396-444 | every added obligation is some critical FAIL finding's, and that finding had none before |
| ReviewObligations.FindingsVisibleIff | ouroboros/review_state.py:396-482 | for any keys: all critical findings of a blocked attempt are visible to its repository's gate iff either all or none of them are merged into obligations without a named key |
| ReviewObligations.StaysVisibleIff | ouroboros/review_state.py:396-482 | for any keys: what a repository's gate sees stays visible through a further blocked attempt of any repository iff it is not the attempt that opens this repository's first own obligation |
| ReviewObligations.BlockedAttemptOpens | ouroboros/review_state.py:342-444 | with named keys a blocked attempt leaves an open obligation for each critical FAIL finding |
| ReviewObligations.BlockedUntilLifted | ouroboros/review_evidence.py:49-78 | and repo_commit_ready is false for every snapshot of that repository, over any operations, until the obligation is resolved, the repository (or an unscoped call) commits, or it commits by a succeeded record |
| ReviewObligations.UniqueAlways | ouroboros/review_state.py:396-525 | in every reachable state with named keys (repository, id) is unique among open obligations |
| ReviewObligations.OtherRepositoryUntouched | ouroboros/review_state.py:396-525 | no operation scoped to one named repository changes another one's obligations |
| ReviewObligations.RepeatedReasonIff | ouroboros/review_state.py:418-426 | recording the same finding twice leaves its reason text as it was iff the reason does not hold the separator (a bar between blanks), or holds nothing but separators and white space; otherwise the text gains bars |
| ReviewObligations.RepetitionsPileUp | ouroboros/review_state.py:342-444 | recording one finding over and over from the empty ledger, with a reason of two or more parts: after n records its text is n copies of the reason, so it grows without end |
| ReviewObligations.ReasonWithBar | ouroboros/review_state.py:418-426 | for instance a reason of the parts a and b becomes one of a, b, a, b |
| ReviewObligations.StraddlingIsHidden | ouroboros/review_state.py:396-482 | a run from the empty ledger in which a legacy obligation and a straddling attempt leave a finding the gate does not see: the repository may commit while it is still open |
| ReviewAttempts.UpsertStored | ouroboros/review_state.py:369-379 | writing a stored record back changes nothing |
| ReviewAttempts.RecordKeeps | ouroboros/review_state.py:342-390 | recording keeps identities unique, the caps, and the last attempt equal to its ledger entry |
| ReviewAttempts.ExpireKeeps | ouroboros/review_state.py:527-580 | so does expiring |
| ReviewAttempts.WellKeptAlways | ouroboros/review_state.py:342-390 | all that holds in every reachable state, for any mixture of keys, and saving and loading are neutral there |
| ReviewAttempts.ExpiredStaysExpired | ouroboros/review_state.py:527-580 | an expired attempt is never active again through saves, loads, expiries or other attempts' records until it is itself recorded anew |
| ReviewLock.SerialAndExclusive | ouroboros/review_state.py:720-840 | in every interleaving in which no lock file outlives stale_sec at most one process is inside, the file is the serial composition, in acquisition order, of exactly the jobs that wrote, and every unlocked load_state returned such a composition of a prefix of the finished jobs, none an older one than a read before |
| ReviewLock.InvAlways | ouroboros/review_state.py:787-840 | the lock invariant over all runs: who is inside owns the lock file, and what it holds in memory agrees with the file it will replace |
| ReviewLock.SaveForgets | ouroboros/review_state.py:753-784 | in every such interleaving, once a save is the last to have written, the file is the state that save was given, whatever ran before |
| ReviewLock.ExclusiveIff | ouroboros/review_state.py:787-840 | exclusion holds in every interleaving whose lock files get no older than a given age iff that age is at most stale_sec |
| ReviewLock.StaleLockAdmitsTwo | ouroboros/review_state.py:787-817 | for every longer time: a run in which a second process breaks the lock of a holder of that time and both are inside |
| ParentContext.RoundTripIff | supervisor/events.py:35-52 | from the text built for a stripped non-empty description and context both are read back iff the description lacks the begin marker and, with a line break added, the separator; the context is arbitrary |
| ParentContext.RoundTripNoContextIff | supervisor/events.py:35-52 | a text without context reads back as its description iff it does not hold both markers |
| ParentContext.FirstMarker | supervisor/events.py:464-466 | where the begin marker is first found in the built text |
| TaskQueue.StableSortFacts | supervisor/queue.py:80-90 | sort_pending sorts by (priority, sequence number), keeps all tasks and the order of equal keys |
| TaskQueue.StableSortIsUnique | supervisor/queue.py:80-90 | only one list does all that |
| TaskQueue.EnqueueAtSlot | supervisor/queue.py:108-120 | in a reachable queue a new task goes behind its equals, or before them when put in front; nothing else moves and the order stays strict |
| TaskQueue.RestoreFromSnapshot | supervisor/queue.py:135-228 | a snapshot restores to the same line of tasks, less those without id or chat |
| TaskQueue.DoAllKeepsLine | supervisor/queue.py:108-120 | two queues in the same line stay so under the same enqueues, removals and drops, whatever their sequence numbers |
| Restarts.OrderlyAlways | supervisor/queue.py:80-228 | in every reachable state of the supervisor the queue is strictly ordered |
| Restarts.RestartTransparent | supervisor/queue.py:80-228 | in any reachable state with a current snapshot within the age limit, a new process restores the same line of tasks, and after any later enqueues, removals and drops it is in the same line as the one that never went down |
| SupervisorState.TaskSupervisor.constructor | supervisor/queue.py:58-65 | the supervisor starts empty |
| SupervisorState.TaskSupervisor.SortPending | supervisor/queue.py:88-90 | afterwards the queue is sorted by key, holds the same tasks, and tasks with equal keys are in the order they had |
| SupervisorState.Prepare | supervisor/queue.py:108-118 | the copy of a task with its defaults, number and time |
| SupervisorState.TaskSupervisor.EnqueueTask | supervisor/queue.py:108-120 | counter, defaults, append and sort |
| SupervisorState.TaskSupervisor.PersistSnapshot | supervisor/queue.py:135-175 | the stored rows are what a restore reads of each pending task, in order |
| SupervisorState.TaskSupervisor.RestorePending | supervisor/queue.py:190-228 | re-enqueues the restorable rows one by one, or does nothing; the number restored |
| SupervisorState.TaskSupervisor.CancelTaskById | supervisor/queue.py:231-275 | the first pending task with the id goes, else the running one if a worker has it, else nothing |
| SupervisorState.TaskSupervisor.EnforceTaskTimeouts | supervisor/queue.py:278-389 | looping over a copy of RUNNING and changing the live one, the pass kills exactly the overdue tasks and puts their retries at the front |
| SupervisorState.TaskSupervisor.EnforceOne | supervisor/queue.py:286-389 | what the loop body does about one entry |
| SupervisorState.TaskSupervisor.AssignTasks | supervisor/workers.py:565-608 | each idle worker takes the first affordable task |
| SupervisorState.TaskSupervisor.AssignOne | supervisor/workers.py:577-608 | one assignment, or the clean-out when only unaffordable evolution tasks are left |
| SupervisorState.TaskSupervisor.HandleTaskDone | supervisor/events.py:220-254 | failure counter, RUNNING and snapshot after task_done |
| SupervisorState.TaskSupervisor.HandleToggleEvolution | supervisor/events.py:507-517 | the agent's toggle |
| SupervisorState.TaskSupervisor.EnqueueEvolutionTaskIfNeeded | supervisor/queue.py:494-537 | the scheduler's guards, in order, and its one new task |
| SupervisorState.TaskSupervisor.KillWorkers | supervisor/workers.py:485-532 | drains the queue and clears RUNNING, saving an empty snapshot |
| Supervisor.BootRestoresNothing | server.py:510-513 | in the start-up order of the server nothing is ever restored: kill_workers has replaced the snapshot before it is read |
| TimeoutRetries.NobodyPastLimit | supervisor/queue.py:278-389 | after a pass no started running task is past its hard limit, whatever the configuration |
| TaskIdentities.OneTaskPerId | supervisor/queue.py:108-389 | in every run that gives out new ids, through crashes, restarts and start-ups, no id is pending or running twice, nor would a restart bring one back twice |
| TaskIdentities.KilledOnceOrStopped | supervisor/queue.py:360-370 | in every such run a task a pass kills was never killed before, is pending exactly once as a retry afterwards, or not at all if its attempts are used up, and neither runs nor is pending under its own id |
| TaskIdentities.KilledAtMostOnce | supervisor/queue.py:278-389 | in every such run each id is killed at most once |
| TimeoutRetries.PassSpendsOnePerKill | supervisor/queue.py:278-389 | a pass lowers the sum of the timeouts the tasks may still suffer by exactly one per kill |
| TaskIdentities.AssignSpendsNothing | supervisor/workers.py:565-608 | in every such run assigning a task changes no weight summed over pending and running tasks: it overwrites no running entry |
| Accounts.RestartAccount | supervisor/queue.py:190-228 | for any weight of tasks, a restart can bring back no more of it than was stored, and neither can a start-up |
| Accounts.PassExchanges | supervisor/queue.py:278-389 | for any weight, a pass trades that of the killed tasks for that of their retries, exactly |
| Accounts.StepBalances | supervisor/queue.py:108-389 | for any weight, no operation creates any: what is left and what was killed never exceed what was there, what entered and what was put back for the killed |
| TimeoutRetries.StepSpends | supervisor/queue.py:108-389 | no operation creates timeouts still to be suffered, except a task that enters |
| TimeoutRetries.TimeoutsBounded | supervisor/queue.py:278-389 | in every run, through crashes, restarts and start-ups, the hard timeouts are at most the allowance of the tasks that entered; each task that one operation brought in suffers, together with everything it is retried as, at most QUEUE_MAX_RETRIES + 1 |
| EvolutionBreaker.AtMostOneAlways | supervisor/queue.py:494-537 | in every run, whatever events arrive, at most one evolution task is pending or running, and at most one stored |
| EvolutionBreaker.BreakerHolds | supervisor/queue.py:494-537 | in every run the failure counter passes 3 by at most one for each failure event that does not come from a running evolution task, although the agent's toggle does not reset it |
| EvolutionBreaker.StepKeeps | supervisor/events.py:220-254 | every operation keeps the guard: one task, and room in the counter for it, but for late events; the same for what a restart would bring back |
| EvolutionBreaker.LimitHolds | supervisor/events.py:220-254 | if every task_done arrives for a running task of its own type, the counter never passes 3 |
| EvolutionBreaker.WithinIff | supervisor/events.py:220-254 | all runs from a counter of at most 3 with at most k late failures stay within 3 + b iff k <= b |
| EvolutionBreaker.PassesLimitIff | supervisor/events.py:220-254 | in any state a step takes the counter past 3 iff it is a failed evolution that finds it at 3; while there is room in the counter for the evolution task, such a failure is late |
| EvolutionBreaker.OwnFailurePasses | supervisor/events.py:220-254 | a run in which a late failure takes the counter to 3 and then the running task's own failure, which is not late, takes it to 4 |
| EvolutionBreaker.LateFailuresAddUp | supervisor/events.py:220-254 | that bound is attained: from an open breaker any number of late failures is counted |
| ToolCalls.Execute | ouroboros/loop_tool_execution.py:529-581 | in parallel or in sequence, result i is that of call i, for every order of completion; a raising call stops only the sequential path |
| ToolCalls.ProcessToolResults | ouroboros/loop_tool_execution.py:586-626 | appends one tool message per result in order, truncated by tool and arguments, and counts the errors |
| ToolCalls.HandleToolCalls | ouroboros/loop_tool_execution.py:516-583 | exactly the results of the calls are appended, in call order |
| ToolCalls.RoundKeepsPairing | ouroboros/loop.py:497-506 | an assistant message with calls and its results keep a transcript well paired |
| Rounds.Partition | ouroboros/context_compaction.py:53-66 | what precedes the first round, and the rounds, partition the transcript |
| Rounds.PairedPieces | ouroboros/context_compaction.py:53-66 | each of these pieces of a well paired transcript is well paired |
| Compaction.ToolRoundStarts | ouroboros/context_compaction.py:53-57 | the indices of messages with tool calls |
| Compaction.ToolRoundSpans | ouroboros/context_compaction.py:60-66 | each span delimits exactly one round |
| Compaction.FindToolName | ouroboros/context_compaction.py:30-50 | the tool that the nearest assistant message before names for the call id |
| Compaction.RoundHasProtectedContent | ouroboros/context_compaction.py:69-78 | whether the span's round, taken by itself, holds a protected result |
| Compaction.ProtectedWithin | ouroboros/context_compaction.py:30-78 | the look-up of tool names in the whole transcript never leaves the round |
| Compaction.ProtectedStays | ouroboros/context_compaction.py:69-78 | a protected round stays protected whatever follows it |
| Compaction.CompactToolHistory | ouroboros/context_compaction.py:161-184 | the fallback: only arguments of old rounds' calls change |
| Compaction.ShrunkPaired | ouroboros/context_compaction.py:161-184 | it keeps every content, every other message and the pairing |
| Compaction.Summarize | ouroboros/context_compaction.py:262-282 | succeeds iff every batch's reply names all its rounds with a text; later replies override earlier ones |
| SummaryTexts.TextKeptIff | ouroboros/context_compaction.py:262-285 | with complete replies a round's text ends up empty iff a later batch's reply blanked it and none after that named it again, and is the text its own batch was given iff the last later mention, if any, agrees |
| SummaryTexts.EveryNoteIff | ouroboros/context_compaction.py:262-301 | every compacted round gets a note with a text iff no round was blanked so |
| SummaryTexts.CostReportedIff | ouroboros/context_compaction.py:262-301 | the cost reported is that of all replies received iff they were all complete or came for nothing |
| Compaction.CompactableSpans | ouroboros/context_compaction.py:247-254 | exactly the spans of the old rounds without protected content |
| Compaction.Replacements | ouroboros/context_compaction.py:285-285 | the dictionary of replacements gives each compactable round its summary and no other round any |
| Compaction.ReplaceRounds | ouroboros/context_compaction.py:287-301 | the while loop over messages yields the span-wise result: replaced rounds become their note, everything else stays in order |
| Compaction.CompactToolHistoryLlm | ouroboros/context_compaction.py:239-301 | refines the span-wise description: unchanged, each old unprotected round replaced by one message, or the fallback; with the reported cost |
| Compaction.CompactionKeepsPairing | ouroboros/context_compaction.py:161-301 | for every integer keep_recent, every reply and either branch the result is well paired |
| Compaction.RoundsAfter | ouroboros/context_compaction.py:239-301 | afterwards the rounds are protected ones and then the recent ones verbatim |
| Compaction.CompactionIdempotent | ouroboros/context_compaction.py:239-301 | for keep_recent >= 1 a second compaction after a successful one changes nothing |
| Sealing.SealTaskTranscript | ouroboros/loop.py:176-235 | in place, the function whose laws the next rows state |
| Sealing.RevertSeals | ouroboros/loop.py:196-203 | in place, sealed tool messages become plain text again |
| Sealing.CollectPlaces | ouroboros/loop.py:205-209 | the places of the tool messages |
| Sealing.MeasurePrefix | ouroboros/loop.py:217-221 | the length of the plain text up to a place |
| Sealing.SealKeepsText | ouroboros/loop.py:176-235 | every message keeps role, ids and plain text, and a tool message is sealed iff it is the boundary |
| Sealing.SealForgets | ouroboros/loop.py:190-203 | sealing, appending and sealing again is appending and sealing: earlier seals leave no trace |
| Sealing.SealIdempotent | ouroboros/loop.py:176-235 | idempotence |
| Sealing.BoundaryAdvances | ouroboros/loop.py:205-225 | as messages are appended the boundary never moves back or disappears |
| Sealing.KeepBehind | ouroboros/loop.py:205-214 | exactly keep_active tool results follow it |
| SealedCompaction.SealSafeIff | ouroboros/loop.py:431-454 | sealing in one round leaves the next round's compaction the same choice of rounds iff it keeps at least seven; the default of compact_context is six |
| LlmLoop.AgentTask.constructor | ouroboros/loop.py:345-385 | a task starts with its messages, no calls made and no cost |
| LlmLoop.AgentTask.ChatOnce | ouroboros/loop_llm_call.py:76-111 | one attempt: what was sent, in which round and to which model, what came back and its charge |
| LlmLoop.AgentTask.CallWithRetry | ouroboros/loop_llm_call.py:47-227 | the log of the attempts and the last reply if it is usable, else nothing |
| LlmLoop.TriesFacts | ouroboros/loop_llm_call.py:47-227 | all attempts send one transcript to one model; none follows a usable reply or an overflow, and all max_retries are made if there is neither |
| LlmLoop.AgentTask.CheckBudget | ouroboros/loop.py:57-116 | the notices appended in each case, the one last call, and the text that ends the task |
| LlmLoop.BudgetFacts | ouroboros/loop.py:57-116 | it ends the task iff the budget is gone or more than half spent, calls the model only then, and only adds to the transcript |
| LlmLoop.AgentTask.Inject | ouroboros/loop.py:119-160 | reminder and owner messages are appended, nothing else changes |
| LlmLoop.AgentTask.CompactIfDue | ouroboros/loop.py:431-452 | the transcript becomes exactly what compaction makes of it when one is due, and exactly its reported cost is booked |
| LlmLoop.AgentTask.Seal | ouroboros/loop.py:454-454 | the transcript becomes the sealed one |
| LlmLoop.AgentTask.Ask | ouroboros/loop.py:456-490 | the main model first, and the fallback model iff that gave nothing |
| LlmLoop.AskedFacts | ouroboros/loop.py:456-490 | every attempt sends exactly the sealed transcript, to the main model's or the fallback's side |
| LlmLoop.AgentTask.RunTools | ouroboros/loop.py:497-506 | assistant message and results in order; an exception escapes iff a call of the sequential path raised |
| LlmLoop.AgentTask.Round | ouroboros/loop.py:392-514 | the whole new history of a round, and how it ends the run, if it does |
| LlmLoop.RoundFacts | ouroboros/loop.py:392-514 | a round first sends the transcript with reminder and owner messages, compacted and then sealed; its later calls and what it leaves extend that; its attempts are of this round, with its models; it books its compaction's cost and nothing else; what it leaves may be sent on |
| LlmLoop.AgentTask.FinishAtLimit | ouroboros/loop.py:393-409 | the notice and the last call past the limit |
| LlmLoop.AgentTask.RunLoop | ouroboros/loop.py:345-514 | a run is a number of rounds that go on, each from what the one before left, and then one that ends it or the call past the limit; the cost is the charges of all replies plus the costs booked for compactions |
| LlmLoop.RunLaws | ouroboros/loop.py:345-514 | for every behaviour of model, tools and summaries: each transcript sent is well paired with at most one seal and extends what its round had to send; each attempt has its turn's model; at most 6*MAX_ROUNDS + 3 attempts; and the costs booked are exactly those the compactions of the rounds report, in order |
| LlmLoop.RunIsDetermined | ouroboros/loop.py:345-514 | task, limit and environment have one run |
| AnthropicFormat.BuildAnthropicMessages | ouroboros/llm.py:891-961 | fails iff a tool message has no id; otherwise non-empty messages of alternating roles that hold all parts under their roles in order, and the joined system prompt |
| AnthropicFormat.AddMessage | ouroboros/llm.py:898-959 | the branches by role |
| AnthropicFormat.TranslationFaithful | ouroboros/llm.py:818-828 | no empty message, roles alternate, order and roles of all parts kept, for any transcript |
| AnthropicFormat.FaithfulIsUnique | ouroboros/llm.py:818-828 | these demands determine the translation |
| AnthropicFormat.EveryCallAnswered | ouroboros/llm.py:891-961 | of a well paired transcript every tool_use in message i is answered by the tool_result parts leading message i + 1, one each and in order, also across coalescing |
| Consolidation.Consolidator.constructor | ouroboros/consolidator.py:420-465 | empty files |
| Consolidation.SummarizeChunks | ouroboros/consolidator.py:167-212 | blocks for the chunks before the first failure, and the cost of all chunks tried |
| Consolidation.Consolidator.Process | ouroboros/consolidator.py:161-232 | the new blocks, the offset and the report for enough new entries |
| Consolidation.BlocksOfCompress | ouroboros/consolidator.py:218-222 | merging blocks and merging what they stand for agree |
| Consolidation.CompressStored | ouroboros/consolidator.py:218-227 | the oldest blocks become one era with their summed count, or nothing changes |
| Consolidation.Consolidator.Consolidate | ouroboros/consolidator.py:134-232 | the whole new state of a run and what it reports |
| Consolidation.CompressKeeps | ouroboros/consolidator.py:289-345 | an era stands for exactly the entries of the blocks it replaces |
| Consolidation.RunCovers | ouroboros/consolidator.py:134-232 | a run on a grown log keeps the blocks covering exactly the entries before the offset |
| Consolidation.Conserved | ouroboros/consolidator.py:134-232 | over all runs, any failures: consecutive gap-free coverage, and message counts that add up to the offset |
| Consolidation.RotationBreaksSum | ouroboros/consolidator.py:148-150 | after a log rotation the counts add up to the offset iff nothing was stored before |
| Consolidation.CostReportedIff | ouroboros/consolidator.py:161-232 | the cost a run reports is that of all its calls iff no era call failed that cost something and no run without a block had a negative cost |
| Chunking.ChunkSections | ouroboros/review.py:295-316 | all parts with content, none lost or moved, in a greedy packing; the chunks are its groups' texts |
| Chunking.PackingIsUnique | ouroboros/review.py:302-312 | there is only one such packing |
| Chunking.NeighboursExceed | ouroboros/review.py:302-312 | two adjacent chunks together exceed the cap |
| Chunking.FewChunks | ouroboros/review.py:295-316 | the number of chunks is below 2 * total / cap + 1 |
| Chunking.ChunkTokens | ouroboros/review.py:305-314 | a joined chunk's own estimate exceeds the parts' sum by at most a quarter of their number |

## Left out

- ReviewLock.SerialAndExclusive: claims nothing once a lock file outlives its age limit, as after a crash while holding it; `ReviewLock.ExclusiveIff` shows why.
- ReviewObligations.BlockedUntilLifted: is for named keys; with mixed keys the first new record of a repository changes which obligations it sees.
- SupervisorState.TaskSupervisor.PersistSnapshot: leaves out the snapshot's rows of running tasks, which no restore reads, and its time stamp, which a restore meets as the parameter `age`.
- TaskIdentities.KilledOnceOrStopped: assumes that every id given out is new; the code draws eight random hex digits.
- EvolutionBreaker.AtMostOneAlways: assumes that only the scheduler enqueues evolution tasks, as is the case.
- ToolCalls.ProcessToolResults: leaves out the entries it also appends to the log of tool calls.
- ToolCalls.HandleToolCalls: takes a call's outcome as given; timeouts of single calls, and the log entries, are not modelled.
- Consolidation.Consolidator.Consolidate: covers completed runs; a crash between writing the blocks and writing the offset is not modelled.
- Compaction.CompactToolHistoryLlm: takes the parsed summaries of each batch as given; rendering of prompts and parsing of `[round:id]` lines are not modelled.
- Records, messages and tasks are values in lists, so aliasing of one dictionary from two lists is not captured; two equal messages at different places are distinguished by place.
- Times and costs are real numbers; strings use ASCII case mapping where the code uses Unicode's.
- JSON encoding, file and directory operations, message sending, worker processes and their termination: only their effect on the modelled state appears.
- Fields of advisory runs and attempts that no modelled decision reads are dropped.
- Tool arguments are strings: their JSON parsing for Anthropic's `tool_use`, and data URLs of images, are not modelled.
- Prompt assembly, pricing tables, tool discovery, settings, HTTP, the launcher and the user interface: not part of this model.
- Scratchpad, mailbox, truncation helpers and provider-name normalisation would only add easy members.
