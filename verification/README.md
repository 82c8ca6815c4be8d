# Connections benchmark: a verified model

The backend of this repository plays Connections puzzles with deterministic, random and LLM solvers, and keeps a
budget, a rate-limit store and several queues around them. This project models its algorithms and protocols in Dafny
and proves what they are relied on for. Every file is checked together: `dafny verify dfyconfig.toml`.

| module | what it models |
|---|---|
| `Combinatorics` | `combinatorics.ts` and `combinationCount`: lexicographic successor, full enumeration, counting |
| `Collections`, `Options` | sequences without repetition as sets; an option type |
| `Puzzles` | a puzzle, `evaluateGuessOnPuzzle`, the shrinking pool of words |
| `WordLists` | sorting word lists, `groupKey`, `findCaseInsensitiveGroupMatch` |
| `DeterministicSolver`, `SolverLiveness` | the four ordered strategies, their batched flushes, crashes and restarts; finishing from anywhere |
| `ShuffleSolver` | shuffle-smart with randomness as an oracle |
| `TokenBound` | the byte-based bound on a request's tokens |
| `LlmLoop` | one LLM run's loop: proposals, verdicts, failed calls |
| `LlmTermination` | what every iteration uses up |
| `LlmHistory`, `LlmWorker` | an LLM run over its life: prompts, rows, crashes, parks and resumes; the worker object |
| `LlmStatus`, `LlmDuplicates` | over that life: the stored status, when a run is over, what starts it again; repeated guesses |
| `RunLog`, `RunRepair` | the detector of resume-corrupted runs, and its repair |
| `Backfill` | rebuilding stored transcripts from rows |
| `BudgetLedger`, `BudgetProtocols`, `BudgetService` | free-tier reservations under a row lock, as a state machine over every interleaving; what each choice is needed for; the service on shared rows |
| `BudgetedRuns` | any number of LLM runs on one tier's budget, with a provider that charges what it likes within the output cap |
| `TrialAllocation`, `TrialReadOrders` | trial numbers across rows, queued jobs and workers; which orders of reads are safe |
| `FreeDispatch`, `FreeTierTick` | the dispatch ticks and their greedy choice |
| `HoldStore`, `HoldService` | rate-limit holds as a state machine over every interleaving; the service on shared rows |
| `ResumeSweep` | the sweep that resumes parked runs |
| `AnswerGrammar`, `AnswerPatterns` | the answer parser and printer; what its scans match, against the regular expressions |
| `GrammarScans`, `AnswerRoundTrip` | why printing and parsing undo each other |
| `AnswerAsides`, `AnswerSections` | asides and emphasis on a words line; what a whole answer as models write it parses to, and which issues it raises |
| `GameReducer`, `GameGuesses` | the player's game with AI assist; how guesses are judged and remembered |

A puzzle is a list of disjoint groups of four words whose normalised forms are pairwise distinct; `trim` and
lower-casing are two arbitrary functions with `norm` blind to `trim`. Time is an explicit input. Randomness, network
replies, queue contents and lookups are arbitrary inputs. A transaction is one atomic step; a lock is mutual
exclusion.

Where a promise turned out not to hold, the model keeps the code as it is and says when the promise does hold:

- `TrialReadOrders.SafeExactly`: the model-mismatch throw in `loadOrCreateRun` is called unreachable by its comment.
  It is when a dispatch sees rows and queue as of one moment. The code makes three reads, rows first. Then the
  allocation is sane over every history in which no job finishes, fails back or starts so that its trial slips past all
  reads of an open dispatch, and each of the three alone is enough for a run that goes wrong; deleting rows is harmless.
  `TrialReadOrders.UnsafeWithRowsFirst` reaches the throw. `TrialAllocation.HidesExactly` and
  `TrialAllocation.CompleteExactly` are the exact conditions of one step and of one decision.
- `BudgetProtocols.SafeExactly`: the row lock, reading reservations before usage, and settling in one commit are each
  necessary, and together sufficient, whatever the thresholds.
- `HoldStore.DailyStandsExactly`: a live daily hold is meant to stand against cooldowns. `hold` checks and writes in two
  steps and `clearExpired` finds and removes in two steps, so it stands over a run exactly when no stale step completes:
  the write of a cooldown whose check saw no live daily hold, or the remove of a clean-up that found the row expired.
  `HoldStore.CheckThenWriteDisplacesDaily` is such a run.
- `HoldStore.StoreExactly`: clean-ups are unobservable, all the way through a run, exactly when none removes a row that
  is live when it goes; `HoldStore.DropsOnlyRefreshed` says that takes a hold written between the find and the remove,
  and `HoldStore.ClearDropsRefreshed` is such a run.
- `ResumeSweep.NewJobExactly`: a run flipped to RUNNING has a new job exactly when its job id was not used before; so
  (`ResumeSweep.RepeatedStampAddsNothing`) a sweep that repeats its stamp flips due runs with no job to execute them.
- `GameReducer.FalseWin` and `GameReducer.LostIsForgotten`: submitting a selection the AI has already solved, and an
  AI answer during a pending solve, break the game's invariant; `GameReducer.SubmitExactly` and
  `GameReducer.ConfirmExactly` say exactly when a step keeps it.
- `LlmDuplicates.DuplicatesExactly`: the duplicate test asks whether every word of an earlier guess of the same length is
  in the new one, which is naming the same words when both name different words (`LlmDuplicates.SameGroupExactly`). Not
  otherwise: after a guess that names a word twice, a group that was never guessed is judged a duplicate
  (`LlmDuplicates.TwiceNamedWordBlocks`).
- `LlmTermination.WaitsWithoutParkAreUnbounded`: without a park for persistent rate limits, waits are unbounded.
- `Backfill.ReplayAgreement`: the backfill reproduces every stored transcript exactly when every reply before the last
  row was echoed as it came.
- `LlmHistory.CrashIsInvisible`: a crash after a call leaves the run's next request unchanged exactly when that call
  failed, and its request was captured or there was no conversation before it.

Two comments disagree with the code, and the model follows the code: `pickRandomGroup` says groups tried in earlier,
larger pools cannot be sampled any more (some can; the tried set is what rejects them), and the design note of the
budget reservation counts a known prefix from `completionTokens` while `knownPrefixAfterReply` counts the reply's bytes.

## Model

| member | source | states |
|---|---|---|
| Combinatorics.NextCombination | backend/src/modules/strategy/combinatorics.ts:8-26 | for increasing indices below n, the in-place search returns the successor function's value |
| Combinatorics.NextIsSuccessor | backend/src/modules/strategy/combinatorics.ts:1-26 | the result is a combination, lexicographically greater, with nothing in between; null exactly when no greater one exists |
| Combinatorics.NothingBeforeFirst | backend/src/modules/strategy/combinatorics.ts:32-34 | no combination comes before the first |
| Combinatorics.NextCountsDown | backend/src/modules/strategy/combinatorics.ts:8-26 | each step leaves exactly one combination fewer to visit |
| Combinatorics.FullEnumeration | backend/src/modules/strategy/combinatorics.ts:8-34 | iterating from the first one visits every k-subset exactly once, in C(n,k) visits |
| Combinatorics.CombinationCount | backend/src/modules/strategy/deterministic-solver.service.ts:202-208 | every division is exact and the result is C(n,k) |
| Puzzles.EvaluateGuess | backend/src/modules/game/game.service.ts:109-136 | the loop over groups computes the recursive verdict |
| Puzzles.EvaluateFromMeans | backend/src/modules/game/game.service.ts:109-136 | SUCCESS iff some whole group is guessed, OFF_BY_ONE iff not and some group has exactly three matches |
| Puzzles.VerdictExactly | backend/src/modules/game/game.service.ts:109-136 | on a well-formed board, any guess: SUCCESS iff it names all of some group, OFF_BY_ONE iff not and it names exactly three words of some group, up to case |
| Puzzles.SuccessIsWholeGroup | backend/src/modules/game/game.service.ts:109-136 | four different pool words that succeed are exactly one group |
| Puzzles.SuccessRemovesGroup | backend/src/modules/strategy/deterministic-solver.service.ts:129-131 | filtering a solved group keeps the pool a union of whole groups, four words smaller |
| Puzzles.SomeGroupInPool | backend/src/modules/strategy/deterministic-solver.service.ts:74-75 | a non-empty pool of whole groups has a combination of positions that succeeds |
| Puzzles.AnyOrderIsWholeGroups | backend/src/modules/strategy/strategy-run-store.service.ts:22-51 | any order of the board's words, in particular each strategy's, is such a pool |
| WordLists.SortEqual | backend/src/modules/strategy/case-insensitive-match.ts:17-28 | comparing sorted lists is comparing multisets |
| WordLists.GroupKeyIdentifies | backend/src/modules/strategy/deterministic-solver.service.ts:198-200 | equal keys iff equal word multisets, for words without a bar |
| WordLists.FindCaseInsensitiveGroupMatch | backend/src/modules/strategy/case-insensitive-match.ts:13-35 | the loop returns the first group that matches up to case but not exactly |
| WordLists.MatchMeans | backend/src/modules/strategy/case-insensitive-match.ts:5-35 | a result is a group with the guess's normalised words and different trimmed words, and none is missed |
| DeterministicSolver.StepSearches | backend/src/modules/strategy/deterministic-solver.service.ts:99-148 | a pass keeps the pool whole and everything before the current combination ruled out |
| DeterministicSolver.OrderedSolvingIsTotal | backend/src/modules/strategy/deterministic-solver.service.ts:64-164 | from any word order the run never fails, and is COMPLETED after at most the sum of C(4g,4) guesses |
| DeterministicSolver.SixteenWords | backend/src/modules/strategy/deterministic-solver.service.ts:30-34 | on a sixteen-word board that is 2386 guesses |
| DeterministicSolver.CrashRefinement | backend/src/modules/strategy/deterministic-solver.service.ts:34-60 | after any crashes and restarts the stored guesses are a prefix of the uninterrupted run's, numbered 1..n, and all of them once it is finished |
| DeterministicSolver.FinishedIsWhole | backend/src/modules/strategy/deterministic-solver.service.ts:36-41 | a finished run is the whole uninterrupted run |
| SolverLiveness.FinishesFromAnywhere | backend/src/modules/strategy/deterministic-solver.service.ts:34-164 | after any history of starts, passes, flushes and crashes there is a way on that stores the finished uninterrupted run |
| SolverLiveness.FinishedIsStored | backend/src/modules/strategy/deterministic-solver.service.ts:150-156 | and a worker that is done stores it with its next flush, however little was staged |
| SolverLiveness.CrashRestarts | backend/src/modules/strategy/deterministic-solver.service.ts:36-60 | a crash costs only what was not flushed: the next worker starts from the stored run |
| DeterministicSolver.RunStore.FlushBatch | backend/src/modules/strategy/strategy-run-store.service.ts:159-251 | of that transaction, the staged guesses and the run row: they commit together |
| DeterministicSolver.FlushIfDue | backend/src/modules/strategy/deterministic-solver.service.ts:150-156 | a flush stores exactly what was staged, when the batch is full or the run over; otherwise nothing changes |
| DeterministicSolver.StageGuess | backend/src/modules/strategy/deterministic-solver.service.ts:72-148 | one pass picks, numbers, judges and stages one guess |
| DeterministicSolver.RunOrderedStrategy | backend/src/modules/strategy/deterministic-solver.service.ts:30-164 | started on whatever an earlier worker stored, it terminates COMPLETED with the uninterrupted run stored |
| ShuffleSolver.SampleRandom | backend/src/modules/strategy/deterministic-solver.service.ts:188-196 | k pool members at k different positions, for every random oracle |
| ShuffleSolver.PickRandomGroup | backend/src/modules/strategy/deterministic-solver.service.ts:171-186 | an untried group drawn from the pool; null exactly when the pool is too small or ten times C(n,4) draws in a row were tried before |
| ShuffleSolver.SubsetsBound | backend/src/modules/strategy/deterministic-solver.service.ts:202-208 | a family of k-subsets of n things has at most C(n,k) members |
| ShuffleSolver.NoRepeatsBound | backend/src/modules/strategy/deterministic-solver.service.ts:47-57 | guesses without a repeated group number at most C(n,4) |
| ShuffleSolver.StageRandomGuess | backend/src/modules/strategy/deterministic-solver.service.ts:76-148 | a new group is picked, numbered, judged and staged, and only a success changes the run row; or the run fails for want of a new group |
| ShuffleSolver.RunShuffleSmart | backend/src/modules/strategy/deterministic-solver.service.ts:43-164 | stopped by a crash anywhere, over any restarts: no group stored twice, guesses numbered 1..n and judged, the board the original minus the successes; within C(n,4) guesses. A run that did not die is completed with no words left, or failed with ten times C(n,4) draws in a row from what was left, each of a group guessed before; on a non-empty board at least one guess is made |
| TokenBound.InputTokenUpperBound | backend/src/modules/strategy/token-bound.ts:27-37 | the loop sums the bytes and framing after the usable prefix |
| TokenBound.ByteLevelIsReal | backend/src/modules/strategy/token-bound.ts:3-19 | a provider that counts texts by a byte-level tokenizer and adds framing is within the byte and framing bounds |
| TokenBound.UpperBoundSound | backend/src/modules/strategy/token-bound.ts:3-37 | never below the real cost, for any cost within the byte and framing bounds |
| TokenBound.AfterReplySound | backend/src/modules/strategy/token-bound.ts:39-54 | the prefix after a reply is sound whatever text is echoed |
| TokenBound.SoundAppend | backend/src/modules/strategy/token-bound.ts:21-37 | a sound prefix stays sound as messages are appended |
| TokenBound.UpperBoundIsTight | backend/src/modules/strategy/token-bound.ts:3-37 | no smaller bound would do: some provider within the bounds charges exactly it |
| TokenBound.BytesAreCharged | backend/src/modules/strategy/token-bound.ts:3-37 | so does one that counts bytes and uses all its framing, from the first call on |
| TokenBound.AfterReplyIsTight | backend/src/modules/strategy/token-bound.ts:39-54 | nor after a reply, whatever is echoed |
| TokenBound.ByteLengthIsUtf8 | backend/src/modules/strategy/token-bound.ts:27-37 | the byte length is that of the UTF-8 encoding |
| TokenBound.Utf8Injective | backend/src/modules/strategy/token-bound.ts:27-37 | whose bytes determine the text |
| LlmLoop.LlmRun.RecordGuess | backend/src/modules/strategy/llm-strategy-runner.service.ts:879-911 | the in-place update of run and state after one verdict |
| LlmLoop.LlmRun.SubmitGuess | backend/src/modules/strategy/llm-strategy-runner.service.ts:855-911 | a repeat of a prior guess is a duplicate (`LlmDuplicates.DuplicatesExactly` says which), anything else is evaluated; numbered by the new count |
| LlmLoop.LlmRun.TryProposal | backend/src/modules/strategy/llm-strategy-runner.service.ts:817-911 | a proposal is submitted as is, in canonical case, or skipped |
| LlmLoop.LlmRun.EvaluateProposals | backend/src/modules/strategy/llm-strategy-runner.service.ts:788-913 | the batch stops at the first miss or at an empty board; the rows say which proposals were used |
| LlmLoop.LeadsOn | backend/src/modules/strategy/llm-strategy-runner.service.ts:817-912 | one pass of that loop leads to the same batch |
| LlmLoop.BuildProposalEntries | backend/src/modules/strategy/llm-strategy-runner.service.ts:751-777 | the loop keeps the groups of exactly four words, in order |
| LlmLoop.EveryProposalIsStored | backend/src/modules/strategy/llm-strategy-runner.service.ts:788-913 | every proposal has its row: as it is, or submitted as itself or as the group it names up to case; nothing is submitted after a miss, and what was skipped before one names a word no longer on the board |
| LlmLoop.LlmRun.ClassifyFailedCall | backend/src/modules/strategy/llm-strategy-runner.service.ts:925-984 | each error code touches its own counter and limit; the effective code, and the wait before the same request is sent again |
| LlmLoop.LlmRun.HandleOutcome | backend/src/modules/strategy/llm-strategy-runner.service.ts:488-567 | the counters, board and status after a call, including the malformed count when nothing was submitted |
| LlmTermination.SubmitSpends | backend/src/modules/strategy/llm-strategy-runner.service.ts:788-913 | every submitted guess uses up a failure allowance or solves a group |
| LlmTermination.IterateSpends | backend/src/modules/strategy/llm-strategy-runner.service.ts:377-671 | every iteration that is not a wait lowers (allowance, remaining model errors) lexicographically, and a wait lowers neither |
| LlmTermination.WorkIsBounded | backend/src/modules/strategy/llm-strategy-runner.service.ts:377-671 | hence a bound on all iterations that are not waits |
| LlmTermination.IterateSpendsTotal | backend/src/modules/strategy/llm-strategy-runner.service.ts:943-962 | with a park configured, waits decrease the measure too |
| LlmTermination.RunUntilStopped | backend/src/modules/strategy/llm-strategy-runner.service.ts:377-671 | so the loop stops, within that many calls, whatever the calls return |
| LlmTermination.WaitsWithoutParkAreUnbounded | backend/src/modules/strategy/llm-strategy-runner.service.ts:943-963 | without a park any number of rate-limited calls changes nothing |
| LlmHistory.SubmitIsRecall | backend/src/modules/strategy/llm-strategy-runner.service.ts:788-913 | a batch changes the state exactly as replaying its stored guesses does |
| LlmHistory.IterateIsRecall | backend/src/modules/strategy/llm-strategy-runner.service.ts:377-671 | so does a whole iteration, but for duplicate_group errors |
| LlmHistory.BoardMeans | backend/src/modules/strategy/llm-strategy-runner.service.ts:881-883 | the replayed board is the original words minus every successful group |
| LlmHistory.CountsAgree | backend/src/modules/strategy/llm-strategy-runner.service.ts:298-317 | the counts by filtering are the counts along the replay |
| LlmHistory.RebuildLoop | backend/src/modules/strategy/llm-strategy-runner.service.ts:287-334 | the resume code rebuilds the replayed state |
| LlmHistory.HistoryConsistent | backend/src/modules/strategy/llm-strategy-runner.service.ts:656-671 | rows and live state agree at every flush, over starts, calls, crashes, parks and resumes; what the stored status is, is `LlmStatus.StatusAfterCall` |
| LlmHistory.ResumeRefinement | backend/src/modules/strategy/llm-strategy-runner.service.ts:287-334 | folding the stored guesses gives the live counters, locked groups and feedback; duplicates but for duplicate_group errors; the board is the original minus the locked groups |
| LlmHistory.RestartContinues | backend/src/modules/strategy/llm-strategy-runner.service.ts:1049-1073 | after a crash the next prompt is the one the dead worker would have sent, the counters are the same but for the failure streaks, and the conversation is the same but for at most one exchange, if captured |
| LlmHistory.CrashIsInvisible | backend/src/modules/strategy/llm-strategy-runner.service.ts:1029-1073 | the whole next request is the same iff the last call failed, and its request was captured or there was no conversation before it |
| LlmHistory.HistorySound | backend/src/modules/strategy/llm-strategy-runner.service.ts:569-584 | the known prefix stays inside the conversation and sound, despite pops and compacted replies |
| LlmHistory.NextCallIsCovered | backend/src/modules/strategy/llm-strategy-runner.service.ts:390-399 | what a call reserves is at least what it costs, in every reachable state |
| LlmStatus.CompletedExactly | backend/src/modules/strategy/llm-strategy-runner.service.ts:881-890 | over every history, the stored status is COMPLETED iff the stored board is empty, and a worker runs only while the run is not over |
| LlmStatus.StatusAfterCall | backend/src/modules/strategy/strategy-run-store.service.ts:249-249 | after any call in any history the stored status is the one its outcome, the stored guesses and the board call for; the worker goes on iff that is RUNNING |
| LlmStatus.OverIsOver | backend/src/modules/strategy/llm-strategy-runner.service.ts:656-671 | once a run is over no event changes it, but a manual retry of an errored one |
| LlmStatus.PausesResume | backend/src/modules/strategy/llm-strategy-runner.service.ts:386-410 | a budget pause or a pause at the gate changes nothing but the status, and a sweep and a start later a worker goes on from the same rows |
| LlmStatus.StartsExactly | backend/src/modules/strategy/llm-strategy-runner.service.ts:277-285 | a start takes up every run that is not over, parked ones included, from its rows alone |
| LlmStatus.CrashRestarts | backend/src/modules/strategy/llm-strategy-runner.service.ts:287-334 | a worker that dies costs nothing stored |
| LlmStatus.RetriesExactly | backend/src/modules/strategy/strategy-dispatch.service.ts:341-377 | only a run that ended in errors can be retried by hand |
| LlmDuplicates.DuplicatesExactly | backend/src/modules/strategy/llm-strategy-runner.service.ts:856-861 | over every history: a stored guess is DUPLICATE iff an earlier one of the same length names no other words; any other guess has the puzzle's verdict |
| LlmDuplicates.SameGroupExactly | backend/src/modules/strategy/llm-strategy-runner.service.ts:856-861 | for guesses of four different words, iff an earlier guess names the same group |
| LlmDuplicates.NoGroupJudgedTwice | backend/src/modules/strategy/llm-strategy-runner.service.ts:856-861 | so no two stored guesses of the same words are both judged |
| LlmDuplicates.RepeatsStopTheRun | backend/src/modules/strategy/llm-strategy-runner.service.ts:890-911 | a worker that keeps getting repeats is stopped for duplicates after exactly as many as are missing to the limit, while failures stay below theirs |
| LlmDuplicates.RepeatsGoOn | backend/src/modules/strategy/llm-strategy-runner.service.ts:890-911 | and not before |
| LlmDuplicates.TwiceNamedWordBlocks | backend/src/modules/strategy/llm-strategy-runner.service.ts:856-861 | after a guess that names a word twice, a group never guessed is judged a duplicate |
| LlmWorker.Worker.Iteration | backend/src/modules/strategy/llm-strategy-runner.service.ts:377-660 | one iteration in place: prompt, row, reply echoed or turn popped, known prefix, counters, effective error code |
| LlmWorker.Worker.WorstCase | backend/src/modules/strategy/llm-strategy-runner.service.ts:390-399 | what the next call reserves |
| RunLog.FindResumeCorruption | backend/src/scripts/trim-resume-corrupted-runs.ts:80-156 | the loop finds the first row typed against the replayed state, the board there, and the guesses from there on |
| RunLog.ReplaySteps | backend/src/scripts/trim-resume-corrupted-runs.ts:138-146 | the inner loop replays a row's steps |
| RunLog.ScanLogged | backend/src/scripts/trim-resume-corrupted-runs.ts:103-147 | scanning a well-logged prefix ends in its replayed state |
| RunLog.DetectorIsSound | backend/src/scripts/trim-resume-corrupted-runs.ts:71-156 | nothing is found on any log the runner can write, over any crashes, parks and resumes |
| RunLog.OrderOrders | backend/src/scripts/trim-resume-corrupted-runs.ts:93-95 | the rows sorted by prompt and attempt number, each as often as before |
| RunLog.GuessesInSequence | backend/src/scripts/trim-resume-corrupted-runs.ts:130-136 | a row's guesses in the order they were made, each as often as before |
| RunLog.TrimCommutes | backend/src/scripts/trim-resume-corrupted-runs.ts:229-231 | dropping the tainted rows commutes with ordering the rows |
| RunLog.FlaggedRow | backend/src/scripts/trim-resume-corrupted-runs.ts:103-124 | where the flagged row sits, and what the repair keeps |
| RunLog.RepairIsIdempotent | backend/src/scripts/trim-resume-corrupted-runs.ts:229-231 | on any rows at all the repair drops something, and then finds nothing |
| RunLog.RepairRestoresBoard | backend/src/scripts/trim-resume-corrupted-runs.ts:113-115 | with at most one answered row per prompt number, the board written back is the original replayed through the kept rows |
| RunRepair.DetectorIsExact | backend/src/scripts/trim-resume-corrupted-runs.ts:71-156 | of rows numbered as the runner numbers them, nothing is found iff each is typed by the state it was sent in |
| RunRepair.TaintedAreDropped | backend/src/scripts/trim-resume-corrupted-runs.ts:118-124 | the guesses deleted are exactly those of the rows deleted |
| RunRepair.RepairIsConsistent | backend/src/scripts/trim-resume-corrupted-runs.ts:253-267 | after the repair the stored guesses, rows and board agree as if the runner had left them so |
| RunRepair.RepairedIsRetried | backend/src/scripts/trim-resume-corrupted-runs.ts:253-267 | it is left errored, so it waits for a retry by hand, and is then taken up from what was kept |
| RunRepair.RepairedRunContinues | backend/src/scripts/trim-resume-corrupted-runs.ts:22-34 | and stay so through any later retries, resumes, parks and crashes; the detector never finds anything again |
| Backfill.ReconstructPromptTexts | backend/src/scripts/backfill-prompt-text.ts:77-159 | the loop rebuilds every row's transcript from the rows before it |
| Backfill.TextsAt | backend/src/scripts/backfill-prompt-text.ts:105-133 | the i-th transcript is that of the rows before it |
| Backfill.AdvanceState | backend/src/scripts/backfill-prompt-text.ts:146-155 | the inner loop replays a row's steps |
| Backfill.TextsAgree | backend/src/scripts/backfill-prompt-text.ts:105-133 | transcripts from two lists of replies agree iff the replies agree before the last row |
| Backfill.TurnsApart | backend/src/scripts/backfill-prompt-text.ts:105-133 | the text of a turn tells who spoke and what was said |
| Backfill.PromptMatches | backend/src/scripts/backfill-prompt-text.ts:117-120 | the replay builds the prompt the live runner sent |
| Backfill.InvocationRecorded | backend/src/modules/strategy/llm-strategy-runner.service.ts:412-424 | every row of an uninterrupted invocation stores the transcript of what was echoed before it |
| Backfill.ReplayAgreement | backend/src/scripts/backfill-prompt-text.ts:71-159 | the rebuilt transcripts are the stored ones iff every earlier reply was echoed as it came |
| Backfill.PlainRunsReplay | backend/src/scripts/backfill-prompt-text.ts:77-159 | when no reply but the last held several proposals, the backfill reproduces every stored transcript |
| BudgetLedger.TxnStepKeeps | backend/src/modules/strategy/free-tier-budget.service.ts:41-71 | the invariant survives every step of a reserve transaction: what it has read still covers what is committed |
| BudgetLedger.CallStepKeeps | backend/src/modules/strategy/free-tier-budget.service.ts:102-115 | and every billing and settlement meanwhile |
| BudgetLedger.BudgetSafety | backend/src/modules/strategy/free-tier-budget.service.ts:17-98 | over every interleaving and crash, usage plus reservations, and real spend, stay within the highest threshold in effect that day, for any thresholds at all; with the floor of a double product, within that share of the daily limit |
| BudgetLedger.CeilingWithin | backend/src/modules/strategy/free-tier-budget.service.ts:50-52 | the share of the daily limit is kept although some percentages come out one token below it |
| BudgetedRuns.FleetRefines | backend/src/modules/strategy/llm-strategy-runner.service.ts:386-410 | any number of runs reserving their calls refine the ledger: what a provider charges never exceeds what was reserved |
| BudgetedRuns.CallIsCharged | backend/src/modules/strategy/llm-strategy-runner.service.ts:390-410 | a call reserved and made undisturbed is billed exactly what its request costs and what came back |
| BudgetedRuns.SpendStaysWithinBudget | backend/src/modules/strategy/free-tier-budget.service.ts:17-26 | end to end: whatever the runs do, crash and resume, the provider's real charges stay within the threshold |
| BudgetProtocols.ReserveAlone | backend/src/modules/strategy/free-tier-budget.service.ts:41-71 | undisturbed, a reservation is granted iff the cycle is active and it fits |
| BudgetProtocols.AbortLeavesNothing | backend/src/modules/strategy/free-tier-budget.service.ts:41-71 | a reservation that dies before it decides leaves the row free and no call |
| BudgetProtocols.StoppedGrantsNothing | backend/src/modules/strategy/free-tier-budget.service.ts:48-52 | once a cycle is stopped no call is reserved until another starts |
| BudgetProtocols.UnsafeWithoutLock | backend/src/modules/strategy/free-tier-budget.service.ts:44-47 | without the row lock two reservations take the last of the room |
| BudgetProtocols.UnsafeWithUsageFirst | backend/src/modules/strategy/free-tier-budget.service.ts:84-97 | with usage read first a settle between the reads is counted in neither |
| BudgetProtocols.UnsafeWithSplitSettle | backend/src/modules/strategy/strategy-run-store.service.ts:245-247 | with a settle in two commits the call is counted nowhere for a moment |
| BudgetProtocols.SafeExactly | backend/src/modules/strategy/free-tier-budget.service.ts:41-115 | safe iff locked, reservations first and settled atomically |
| BudgetService.OthersWait | backend/src/modules/strategy/free-tier-budget.service.ts:44-47 | while the lock is held nobody else reserves |
| BudgetService.ReadsCover | backend/src/modules/strategy/free-tier-budget.service.ts:84-97 | the two reads are not one snapshot, and their sum covers what is committed whatever others commit between and after them |
| BudgetService.BudgetStore.Reserve | backend/src/modules/strategy/free-tier-budget.service.ts:41-71 | with anything committed by others in between, the call is the protocol's steps and keeps its invariant, and an id is exactly a new reservation |
| BudgetService.BudgetStore.Commit | backend/src/modules/strategy/free-tier-budget.service.ts:53-62 | insert or refuse by the two totals read |
| BudgetService.BudgetStore.SettleReservation | backend/src/modules/strategy/free-tier-budget.service.ts:102-115 | released with its usage recorded, or kept as unrecorded |
| TrialAllocation.TriggerNextLlmTrial | backend/src/modules/strategy/strategy-dispatch.service.ts:597-645 | no-op, cap error, or the next number, from the given rows and jobs; `TrialAllocation.VerdictExactly` says which |
| TrialAllocation.VerdictExactly | backend/src/modules/strategy/strategy-dispatch.service.ts:597-645 | no-op iff a job of the model is pending; cap error iff not and the model's numbers fill its cap; else the number one past the highest seen |
| TrialAllocation.ReadTrialModels | backend/src/modules/strategy/strategy-dispatch.service.ts:614-618 | rows, then pending and active jobs, keyed by number |
| TrialAllocation.MaxKey | backend/src/modules/strategy/strategy-dispatch.service.ts:630-630 | the greatest key, or 0 |
| TrialAllocation.Grow | backend/src/modules/strategy/strategy-dispatch.service.ts:614-630 | when everything owned was seen, the new number is fresh and the model stays within its cap |
| TrialAllocation.WorkerStep | backend/src/modules/strategy/strategy-run-store.service.ts:88-105 | start, write, finish, fail, delete and requeue keep one owner per number and never meet a foreign row |
| TrialAllocation.AllocationIsSane | backend/src/modules/strategy/strategy-dispatch.service.ts:551-646 | with one-snapshot reads, over every interleaving: one model per number, caps kept, the mismatch throw unreachable |
| TrialAllocation.QuietKeeps | backend/src/modules/strategy/strategy-dispatch.service.ts:597-628 | reads in either order keep the allocation sane over every history that hides trials in harmless ways at most |
| TrialAllocation.HidesExactly | backend/src/modules/strategy/strategy-dispatch.service.ts:521-549 | a worker's step loses track of a trial exactly when it moves it past all reads of an open dispatch |
| TrialAllocation.CompleteExactly | backend/src/modules/strategy/strategy-dispatch.service.ts:608-645 | one decision, on whatever was read, goes wrong exactly when its number is owned by another model or the cap is full |
| TrialReadOrders.UnsafeWithRowsFirst | backend/src/modules/strategy/strategy-dispatch.service.ts:597-607 | with the rows read first, as the code does, a job that finishes between the reads is enough for a run that reaches the throw |
| TrialReadOrders.UnsafeWhenFailing | backend/src/modules/strategy/strategy-dispatch.service.ts:544-548 | a job that goes back to delayed between the two queue reads is in neither |
| TrialReadOrders.UnsafeWhenStarting | backend/src/modules/strategy/strategy-dispatch.service.ts:544-548 | and so is one picked up after the active jobs were read |
| TrialReadOrders.UnsafeWithQueueFirst | backend/src/modules/strategy/strategy-dispatch.service.ts:341-377 | with the queue read first, a row requeued and deleted between the reads is in none of them |
| TrialReadOrders.SafeExactly | backend/src/modules/strategy/strategy-dispatch.service.ts:551-646 | every history of an order of reads is safe iff none of its harmful ways of hiding a trial is allowed (or the reads are one snapshot, or the cap is zero) |
| FreeDispatch.LeastAllocatedModel | backend/src/modules/provider-pool/free-dispatch.service.ts:379-396 | the first of the least allocated models left; nothing iff all are excluded |
| FreeDispatch.QueueOne | backend/src/modules/provider-pool/free-dispatch.service.ts:299-307 | giving a trial to a least allocated model keeps the balance |
| FreeDispatch.DispatchRoundRobin | backend/src/modules/provider-pool/free-dispatch.service.ts:267-317 | terminates; never throws on distinct models; at most maxNewTrials; stops short only when all failed; the books balance and the gap between unfailed models ends at most one or no wider than it began |
| FreeDispatch.DistinctRound | backend/src/modules/provider-pool/free-dispatch.service.ts:316-316 | the full number of trials, or every candidate failed; all exhausted iff every candidate failed; the gap between models that did not fail ends at most one, or no wider than before |
| FreeDispatch.UntilHeldTick | backend/src/modules/provider-pool/free-dispatch.service.ts:132-178 | in flight plus new within the cap; no held model tried; exactly as many trials as batch and cap allow unless every eligible model failed; stops iff every one did; fair shares |
| FreeDispatch.AffordableExactly | backend/src/modules/provider-pool/free-dispatch.service.ts:229-230 | the floor division is exactly the trials that still fit |
| FreeDispatch.AffordableTrials | backend/src/modules/provider-pool/free-dispatch.service.ts:229-235 | as many as batch, cap and budget allow, and no fewer |
| FreeDispatch.AccountBudgetTick | backend/src/modules/provider-pool/free-dispatch.service.ts:182-260 | calls today plus (in flight + dispatched) times the estimate within the budget; while the cycle goes on, as many trials as batch, cap or budget allow; exactly when it stops; fair shares |
| FreeTierTick.Resumable | backend/src/modules/strategy/strategy-dispatch.service.ts:388-429 | of the allowed models' paused runs, given oldest first, the first ones in that order, as many as there are up to the limit |
| FreeTierTick.PickModel | backend/src/modules/free-tier-dispatch/free-tier-dispatch.service.ts:234-240 | a least allocated model that neither failed nor was skipped; never throws on distinct models |
| FreeTierTick.FillSlots | backend/src/modules/free-tier-dispatch/free-tier-dispatch.service.ts:226-277 | every new trial was capped and fitted; balanced; stops short only when each model failed or does not fit |
| FreeTierTick.NewTrials | backend/src/modules/free-tier-dispatch/free-tier-dispatch.service.ts:233-277 | worst cases of the new trials within the budget given |
| FreeTierTick.FillTick | backend/src/modules/free-tier-dispatch/free-tier-dispatch.service.ts:217-277 | paused runs first, their worst cases taken off the room, then new trials in what is left |
| FreeTierTick.RoomForNew | backend/src/modules/free-tier-dispatch/free-tier-dispatch.service.ts:210-213 | the loop sets aside the next call of every trial in flight |
| FreeTierTick.RunTick | backend/src/modules/free-tier-dispatch/free-tier-dispatch.service.ts:157-292 | on an active tick with room under the cap: the oldest fitting paused runs, as many as there are or as there are slots, then new trials until the slots are full or every model failed or does not fit what is left, all worst cases within the room; otherwise nothing; exactly when the cycle stops |
| HoldStore.StoreExactly | backend/src/modules/strategy/rate-limit-hold.service.ts:59-151 | the store and a plain map of the holds agree after every step of a time-ordered run iff no clean-up removes a live row |
| HoldStore.QueriesAgree | backend/src/modules/strategy/rate-limit-hold.service.ts:92-130 | and then every query answers as the plain map; clearExpired cannot be observed |
| HoldStore.DropsOnlyRefreshed | backend/src/modules/strategy/rate-limit-hold.service.ts:138-146 | a clean-up removes a live row only after a hold was written to it between its find and its remove |
| HoldStore.ClearAlone | backend/src/modules/strategy/rate-limit-hold.service.ts:138-151 | undisturbed, a clean-up removes exactly the rows expired when it looked, of the strategy asked for, and changes nothing else |
| HoldStore.ClearDropsRefreshed | backend/src/modules/strategy/rate-limit-hold.service.ts:143-146 | a run in which a refreshed hold is removed with the expired one |
| HoldStore.DailyStandsExactly | backend/src/modules/strategy/rate-limit-hold.service.ts:52-66 | a live daily hold stands until its reset iff no cooldown whose check missed it, and no clean-up that found its row expired, completes meanwhile |
| HoldStore.CheckedAt | backend/src/modules/strategy/rate-limit-hold.service.ts:63-66 | a cooldown under way saw exactly what was live at its check |
| HoldStore.CheckThenWriteDisplacesDaily | backend/src/modules/strategy/rate-limit-hold.service.ts:63-79 | a daily hold between a cooldown's check and its write is displaced |
| HoldService.RateLimitHoldService.SetHold | backend/src/modules/strategy/rate-limit-hold.service.ts:59-86 | the check and the upsert with anything others do in between are the protocol's two steps |
| HoldService.RateLimitHoldService.NextResetAt | backend/src/modules/strategy/rate-limit-hold.service.ts:122-130 | the soonest reset of the live rows, or nothing when none is live |
| HoldService.RateLimitHoldService.ClearExpired | backend/src/modules/strategy/rate-limit-hold.service.ts:138-151 | the find and the remove with anything others do in between; reports exactly the rows found |
| ResumeSweep.FlippedRunsHaveJobs | backend/src/modules/provider-pool/rpd-resume.service.ts:111-146 | wherever the sweep dies, a flipped run was due and its job already queued, a new one when its id was fresh |
| ResumeSweep.SweepCompletes | backend/src/modules/provider-pool/rpd-resume.service.ts:111-146 | an uninterrupted sweep flips exactly the due runs |
| ResumeSweep.ResweepConverges | backend/src/modules/provider-pool/rpd-resume.service.ts:126-144 | sweeping again after dying anywhere ends where one whole sweep would have |
| ResumeSweep.NewJobExactly | backend/src/modules/provider-pool/rpd-resume.service.ts:126-144 | wherever the sweep dies, a flipped run has a new job iff its job id had not been used before |
| ResumeSweep.RepeatedStampAddsNothing | backend/src/modules/provider-pool/rpd-resume.service.ts:62-64 | so a due run whose id is used again is flipped without a new job, in any pool |
| ResumeSweep.RpdResumeService.ResumeModelPool | backend/src/modules/provider-pool/rpd-resume.service.ts:92-159 | clears expired holds, sweeps with the models held then, counts what it re-dispatched and skipped, and re-arms iff something stayed parked, for the soonest reset or the longest delay |
| AnswerGrammar.ParseAnswerBlock | packages/answer-grammar/src/parse-answer.ts:95-119 | the loop collects the four-word lines of the answer block |
| AnswerGrammar.ParseAnswer | packages/answer-grammar/src/parse-answer.ts:144-256 | the loops over chunks and group numbers compute the parse, whose meaning is `AnswerSections.ParseWritten`, `AnswerAsides.NoAsideIsRead`, `AnswerSections.MultipleExactly` and `AnswerPatterns.EveryGroupIsFour` |
| AnswerRoundTrip.LineParses | packages/answer-grammar/src/parse-answer.ts:207-210 | a printed line of clean words splits back into them |
| AnswerRoundTrip.ReadPrinted | packages/answer-grammar/src/parse-answer.ts:180-222 | reading one printed group sets exactly its slot, category and number |
| AnswerRoundTrip.SplitsBack | packages/answer-grammar/src/parse-answer.ts:178-178 | splitting before headings gives the printed chunks back |
| AnswerRoundTrip.SectionFound | packages/answer-grammar/src/parse-answer.ts:172-173 | the groups section is what stands between the two markers |
| AnswerRoundTrip.AnswerFound | packages/answer-grammar/src/parse-answer.ts:96-99 | the answer block is what follows the only answer marker |
| AnswerRoundTrip.RoundTrip | packages/answer-grammar/src/parse-answer.ts:144-291 | parse after print gives the same proposals and holes, the shown categories, the filled groups in order, and no issue but `unclassified` for a hole |
| AnswerRoundTrip.ReprintIsFixed | packages/answer-grammar/src/parse-answer.ts:258-291 | printing the parsed answer prints the same text |
| AnswerPatterns.AnswerAtExactly | packages/answer-grammar/src/parse-answer.ts:96-96 | the scan matches where the answer heading does, in any case, with two or three number signs, and takes a colon along |
| AnswerPatterns.GroupAtExactly | packages/answer-grammar/src/parse-answer.ts:178-184 | the scan matches where a group heading does, and reads all of its number |
| AnswerPatterns.FieldAtExactly | packages/answer-grammar/src/parse-answer.ts:186-187 | a field captures from the last place it can start after the spaces to the end of that line, and nothing where it cannot |
| AnswerPatterns.SectionExactly | packages/answer-grammar/src/parse-answer.ts:172-173 | the leftmost groups section, as short as it can be; the whole text where there is none |
| AnswerPatterns.SplitsExactly | packages/answer-grammar/src/parse-answer.ts:175-178 | whatever the text, the chunks are the text, cut before every group heading and nowhere else; so an aside that holds a heading ends there |
| AnswerPatterns.EveryGroupIsFour | packages/answer-grammar/src/parse-answer.ts:207-236 | whatever the text, every proposal and group has exactly four non-empty trimmed words, and categories are trimmed |
| AnswerAsides.NoAsideIsRead | packages/answer-grammar/src/parse-answer.ts:202-213 | whatever the text, no word read from a words line holds an opening parenthesis with a closing one after it |
| AnswerAsides.ReadItems | packages/answer-grammar/src/parse-answer.ts:196-222 | a line of clean words in emphasis marks, with asides, gives exactly the words; the asides are flagged |
| AnswerSections.ParseWritten | packages/answer-grammar/src/parse-answer.ts:144-256 | an answer of any group sections, repeated and incomplete ones included, with asides and emphasis, and any answer lines: exactly its proposals, groups and categories, and each issue iff its cause |
| AnswerSections.MultipleExactly | packages/answer-grammar/src/parse-answer.ts:155-161 | whatever the text, several proposals are flagged iff it holds two answer headings one after the other |
| AnswerSections.BlockExactly | packages/answer-grammar/src/parse-answer.ts:95-101 | whatever the text, the answer block runs from the end of the first heading to the next one, or to the end |
| GameReducer.SolveWithAi | frontend/src/lib/gameReducer.ts:252-317 | the loop over local copies is the reducer's case |
| GameReducer.FindMatchingMeans | frontend/src/lib/gameReducer.ts:118-127 | a matching category, or none matches |
| GameGuesses.JudgedExactly | frontend/src/lib/gameReducer.ts:118-155 | any guess: right iff it has four words and names all of some category; one away iff not and the most it names of a category is three |
| GameGuesses.RightGuess | frontend/src/lib/gameReducer.ts:189-351 | a right guess, once confirmed, solves its category and clears the board for the next |
| GameGuesses.WrongGuess | frontend/src/lib/gameReducer.ts:217-237 | a wrong guess is one more mistake, with its words shaken and deselected and the right feedback |
| GameGuesses.SelectsAfresh | frontend/src/lib/gameReducer.ts:174-241 | clearing the selection and picking four different words selects just those |
| GameGuesses.PlayTidy | frontend/src/lib/gameReducer.ts:157-359 | over all actions: every guess is remembered with the verdict and the difficulties of its words, and at most four different words are selected |
| GameGuesses.TwiceIsOnce | frontend/src/lib/gameReducer.ts:189-351 | submitting, confirming or clearing twice is doing it once |
| GameGuesses.ToggledBack | frontend/src/lib/gameReducer.ts:174-187 | toggling a word on and off again changes nothing; a fifth word is refused |
| GameReducer.PlayBase | frontend/src/lib/gameReducer.ts:172-359 | over all actions: words left are all minus solved, mistakes counts wrong guesses, histories have equal length |
| GameReducer.SubmitExactly | frontend/src/lib/gameReducer.ts:189-237 | a submit keeps the invariant iff a right guess is still on the board |
| GameReducer.ConfirmExactly | frontend/src/lib/gameReducer.ts:333-351 | a confirm keeps it iff its category is unsolved and the game not lost meanwhile |
| GameReducer.AiGroupsCore | frontend/src/lib/gameReducer.ts:265-296 | an AI batch keeps it |
| GameReducer.GameIsSound | frontend/src/lib/gameReducer.ts:172-359 | over every legal sequence: nothing solved twice, won iff no words remain, lost iff four mistakes |
| GameReducer.SolvedTwice | frontend/src/lib/gameReducer.ts:198-214 | submitting an already solved selection solves it twice |
| GameReducer.FalseWin | frontend/src/lib/gameReducer.ts:189-351 | and on any board of two categories or more a win is declared with words left |
| GameReducer.LostIsForgotten | frontend/src/lib/gameReducer.ts:252-351 | a confirm after the AI lost the game puts it back in play |

## Left out

- BudgetLedger.BudgetSafety: one UTC day of one tier; judge calls and manually dispatched runs are not reserved, so their spend is assumed to be none, and usage rows are assumed not to be deleted. That a call costs at most its reservation is proved in `BudgetedRuns`.
- BudgetedRuns.SpendStaysWithinBudget: a run that is reserving does nothing else until its transaction ends; a process that dies meanwhile aborts it first. A charge after a call's usage is recorded is not modelled.
- AnswerSections.ParseWritten: words, categories and asides as a line can carry them: no line break, no two number signs in a row, no group heading and no field label inside. Any of these ends the field or the chunk it stands in (`AnswerPatterns`), and the other statements about the parser are for every text.
- AnswerRoundTrip.RoundTrip: no board words, so `protectBoardWords` does nothing; very large group numbers are plain naturals.
- Backfill.ReplayAgreement: the one-off rewrite of a stored word ("20,000") is not modelled; the prompt's group count N is a function of the words given.
- DeterministicSolver.CrashRefinement: the four ordered strategies. Shuffle-smart is `ShuffleSolver.RunShuffleSmart`; shuffle-foolish, which repeats guesses and stops only with probability one, is left out.
- WordLists.SortEqual: compares by code point where JavaScript compares UTF-16 units; only that it is a total order matters.
- TrialAllocation.AllocationIsSane: a retry or resume reads its row and adds its job in one step.
- TrialReadOrders.SafeExactly: the pending jobs, and the active ones, are each read in one step, where a long queue is read in pages.
- HoldStore.StoreExactly: a hold's reset is counted from the moment it is written, where the code reads the clock just before.
- ResumeSweep.FlippedRunsHaveJobs: the runs and holds change only by this sweep while it runs; resumeAccountPool, which catches each failure, is left out.
- FreeTierTick.RunTick: an exception thrown while resuming parked runs, which ends the tick, is left out.
- DeterministicSolver.RunStore.FlushBatch: guesses and run row only, all that this solver flushes; an LLM run's prompts and proposals are in `LlmHistory`, and settlements in `BudgetService`.
- LlmLoop.LlmRun.HandleOutcome: the run row and the loop's counters; messages, known prefix and prompt row are `LlmWorker.Worker.Iteration`. Writing the hold for the effective code is left to the caller.
- The joins of flushBatch and of both scripts by row id: a prompt row holds its proposals, and a used proposal its guess.
- Providers' request shapes in reconstructMessages: a captured request is its list of messages.
- Issue tags, response metadata, waits and backoff delays, reset clocks and time zones.
- TokenBound.ByteLengthIsUtf8: text is a sequence of characters; half of a surrogate pair, which JavaScript strings can hold, is left out.
- Exact prompt wording: prompts are two arbitrary functions of what they are given.
- HTTP, sessions, scheduling, ingestion, UI components and queue retention.
