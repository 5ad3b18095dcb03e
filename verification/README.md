# AgentRail, verified

A Dafny model of the parts of AgentRail whose behaviour is hardest to see from any one function, and
proofs of what those parts promise.

* **The AFK fleet** (`FleetState`, `IssueHistory`, `Runner`, `RunnerTheorems`, `RunnerBounds`, `RunnerOutcomes`,
  `RunnerObject`, `FleetStore`, `Resume`, `Sessions`). Workers share a store; a step is one stretch of a worker
  between two awaits, and what an await comes back with (open blockers, agent, CI, merge) is arbitrary.
  Exclusion, no lost work, an end to every run that serves its workers, which answers lead to which outcome, and
  counters and PRs that survive crashes and resumes are proved of every run. The runner is also written as the
  object it is, dispatching one action at a time to a store that logs it, and proved to make exactly those steps.
* **Journal and replay** (`Snapshot`, `Journal`, `Timeline`, `Metrics`, `Accounts`, `LiveJournal`, `Decimal`). The
  snapshot and action encodings round-trip; replaying the log of a live store shows the store; the metrics
  conserve time, and slot time is issue time.
* **Ranking** (`LlmRerank`, `Rerank`, `Evaluation`). The sliding windows bring the best candidates to the
  head; no answer of the model loses a candidate; the deterministic rerank respects its scores; nDCG obeys
  a rearrangement inequality.
* **Selection and indexing** (`MemoryLane`, `Fence`, `Packs`, `Symbols`, `Chunks`, `IndexBuild`). Greedy selection and
  trimming conserve and are minimal; the chunkers tile a file; the incremental index agrees with a build
  from scratch over every history of edits.
* **The Issue Queue** (`QueueState`, `QueueStore`). Entries terminate, each in the outcome its last event calls for;
  rows are never resurrected.

`Collections`, `Sequences`, `StableSort` and `Lexicographic` hold the shared vocabulary. Time, tokens and
counts are integers, scores and costs are reals. Code that changes state in the source is a class or a
loop here, proved against a function, and the theorems are about that function.

`dafny verify dfyconfig.toml` checks everything.

## Where the code and its documentation differ

The model follows the code. Each difference is a lemma.

* The timeline says a digest can only mismatch if the log was edited or the reducer changed. `SetBlockedBy` is
  not recorded, so the digest of a step is right exactly when at that moment every issue is blocked by what it
  came into the journal with (`Timeline.DigestOkExactly`); a resume that refreshes them breaks it
  (`Timeline.ResumeBreaksTheDigest`).
* The queue's termination argument names GATE_RED as the only event that leaves an entry in the queue.
  START does as well, and it is the one event that neither ends an entry nor spends budget
  (`QueueState.OnlyStartIsFree`); the measure counts both (`QueueState.TransitionProgress`).
  "Budget can never increase" needs a budget that is not negative (`QueueState.BudgetRisesOnlyFromDebt`).
* `admit` promises to keep a park that came with its own reason. It does so only for entries that declare
  no blockers (`QueueState.GateParkSurvivesOnlyWithoutBlockers`). For the same reason `release_if_aligned`
  never releases an entry that is parked for alignment alone and declares no blockers
  (`QueueState.ReleasedExactlyWhen`).
* Re-enqueueing alters no row, but it returns a new entry, and a transition of that entry does resurrect a
  terminal row (`QueueStore.ReEnqueuedEntryIsStale`, `QueueStore.TerminalRowSafeExactly`). Even entries that are
  not stale do, exactly if two issues share a number (`QueueStore.RowsStayIfNumbersDiffer`), as issues of one
  number in two workspaces or sources do (`QueueStore.SameNumeralClashes`).
* `parse_window_order` promises a permutation always; it is one for every reply exactly when no id occurs
  twice in the window, which holds for the ids `llm_rerank` makes (`LlmRerank.PermutationNeedsDistinctIds`).
* The memory lane's order is called total. Rows that share type rank, time and id but differ otherwise make
  the lane depend on the input order (`MemoryLane.CanonicalUnlessTied`), and "newest first" fails when one
  timestamp is a prefix of the other (`MemoryLane.NewestFirstUnlessPrefix`). A comment says selection stops
  at the first item that does not fit; the code goes on, which differs exactly if a later item still fits
  (`MemoryLane.StoppingLosesLaterFits`).
* "One chunk per parsed symbol" holds exactly if no two symbols start on one line; of those that do only the last
  gets a chunk (`Symbols.OneChunkPerLine`), so `class A { m() {} }` has none for the class
  (`Symbols.ClassOnOneLineIsDropped`).
* The fence's docstring says no delimiter can occur in the rendered body. It can, exactly if an item's type or
  author brings one in, which unlike the content are rendered as they are (`Fence.BodyHoldsMarkerExactly`).
* The latest session of a log is the last one started only if its id is new (`Journal.LatestSession`), and ids are
  local times down to the second.
* A cached index is called fresh only if no file changed since. An edit that gives a file no later
  time than the index goes unseen: a build is right exactly if nothing it takes for granted by time is stale
  (`IndexBuild.RightUnlessTrustIsStale`; `IndexBuild.SameTickIsMissed` is an instance).
* After a content-hash reuse the stored redactions can be those of an earlier version of the file
  (`IndexBuild.RedactionsRightThisBuild` says in which builds, `IndexBuild.RedactionsRightUnlessAmbiguous` under
  which redactors never).
* The clamp that keeps `failed` from going below zero does bite: an escalation without a recorded failure is not
  counted, and requeueing it is (`Resume.EscalationThenRequeueClamps`, `FleetState.FailedCountsExactly`).
* nDCG's zero guard is documented as "none retrieved within the depth"; in code it fires only if none is
  retrieved at all, and the score is zero in both cases (`Evaluation.NdcgIsSound`).

## Model

| member | source | states |
|---|---|---|
| FleetState.NextClaimable | agentrail/afk/state.py:100-114 | the lowest-numbered queued issue none of whose blockers is open, and none only if there is none |
| FleetState.FreeSlotFrom | agentrail/afk/state.py:123-127 | the lowest free slot index below the concurrency, and none only if all are taken |
| FleetState.ClaimNext | agentrail/afk/state.py:399-407 | the claim that `claim_next` dispatches is never rejected by the reducer |
| FleetState.ClaimNextExactly | agentrail/afk/state.py:399-407 | it takes the least claimable issue to the lowest free slot, and there is one exactly if there are both |
| FleetState.DisciplinedKeepsConsistent | agentrail/afk/state.py:232-359 | under the runner's discipline no dispatch raises, slots and issues keep naming each other, and no orphan appears |
| FleetState.DisciplinedKeepsCounted | agentrail/afk/state.py:274-347 | under it `completed` stays the number of merged issues and `failed` at most the number of those waiting for a human |
| FleetState.FailedCountsExactly | agentrail/afk/state.py:274-347 | over any disciplined actions `failed` goes on counting all issues that wait for a human exactly if the clamp bit once for every escalation without a failure |
| FleetState.FailureMiscountsExactly | agentrail/afk/state.py:297-322 | a recorded failure leaves `completed` right exactly if the issue was not merged, and both counters right exactly if besides it did not wait for a human with all of those counted |
| IssueHistory.FieldsAreHistory | agentrail/afk/state.py:232-359 | after any dispatches an issue's PR is the last one set, its retries and review rounds count since the last requeue, error, cost and blockers are the last recorded, and number, title and URL stay |
| IssueHistory.FailureRequeuesExactly | agentrail/afk/state.py:297-322 | a failure queues the issue again if and only if fewer than max_retries have been recorded since the last requeue, this one included; else it waits for a human |
| IssueHistory.StatusMoves | agentrail/afk/state.py:253-347 | which dispatches move an issue between statuses, and where to |
| IssueHistory.EntersOnce | agentrail/afk/state.py:239-245 | an issue is known after any dispatches exactly if one of them enqueued it |
| FleetStore.Store.Dispatch | agentrail/afk/state.py:387-394 | the store steps by the reducer or not at all; snapshot and journal follow accepted actions only, and the log goes on holding the session |
| FleetStore.Store.ClaimNextIssue | agentrail/afk/state.py:396-407 | selection and transition in one step: the claimed issue is the least claimable one, now in its slot, in the snapshot and on one more line of the log; or nothing happens |
| FleetStore.Store.AttachJournal | agentrail/afk/journal.py:131-154 | the log gains the session's init record and nothing else |
| FleetStore.Store.Note | agentrail/afk/runner.py:401-421 | a line of another kind under the same session leaves what the log holds of the session alone |
| Runner.ProcessShape | agentrail/afk/runner.py:531-627 | a stretch keeps its issue in work until its last action and then settles it or goes on nearer the end, within three gates and two fixes |
| Runner.ProcessEffect | agentrail/afk/runner.py:531-627 | its effect on the store: the issue stays in its slot, or gives it back settled or queued with one more retry |
| Runner.ClaimEffect | agentrail/afk/runner.py:754-766 | a claim takes a free slot for a claimable issue and touches nothing else |
| Runner.StepCases | agentrail/afk/runner.py:754-778 | every stretch is disciplined, never crashes, and is a wait, a departure, a claim, work or a settlement |
| RunnerObject.FleetRunner.Implement | agentrail/afk/runner.py:393-423 | after an implementation: the cost, the savings line among the log's, and what follows, as the stretch says |
| RunnerObject.FleetRunner.Process | agentrail/afk/runner.py:531-627 | the imperative coroutine, one dispatch at a time, does and records exactly what the stretch says |
| RunnerObject.FleetRunner.Loop | agentrail/afk/runner.py:754-776 | the worker loop up to its next await does and records exactly what the stretch says |
| RunnerObject.FleetRunner.Recheck | agentrail/afk/runner.py:767-772 | likewise after the forced blocker read |
| RunnerObject.FleetRunner.Step | agentrail/afk/runner.py:754-798 | a worker running to its next await is one move of the fleet as the run theorems use it, and the log holds its dispatches |
| RunnerTheorems.StepKeepsInv | agentrail/afk/runner.py:754-778 | every kind of step keeps the invariant that ties workers, slots and issues together |
| RunnerTheorems.RunKeepsInv | agentrail/afk/runner.py:780-798 | so it holds in every state of every run |
| RunnerTheorems.NeverCrashes | agentrail/afk/runner.py:754-778 | no dispatch of any run raises, whatever an await comes back with |
| RunnerTheorems.ClaimExclusion | agentrail/afk/state.py:253-322 | in every reachable state slots and issues name each other, queued and settled issues hold no slot, and no two workers process one issue |
| RunnerTheorems.BusySlotsAreBusyWorkers | agentrail/afk/runner.py:754-778 | there are exactly as many busy slots as processing workers |
| RunnerTheorems.SlotFreeForIdleWorker | agentrail/afk/state.py:399-407 | an idle worker always finds a free slot |
| RunnerTheorems.ClaimRefusedOnlyForBlockers | agentrail/afk/runner.py:757-772 | a claim comes back empty in a run only if every queued issue is blocked, never for want of a slot |
| RunnerTheorems.NoWorkLost | agentrail/afk/runner.py:754-778 | when the last worker has returned no slot is busy and every unsettled issue is queued behind a blocker that worker last read with force, or was orphaned before the session |
| RunnerTheorems.WaitsOnlyForABusyWorker | agentrail/afk/runner.py:773-775 | a worker sleeps only while another is processing |
| RunnerOutcomes.MergedExactly | agentrail/afk/runner.py:599-616 | in a run an issue becomes Merged exactly when the worker merging it hears that the merge went through |
| RunnerOutcomes.CommentedExactly | agentrail/afk/runner.py:599-610 | it becomes Commented exactly on a passed gate without permission to merge |
| RunnerOutcomes.HumanReviewExactly | agentrail/afk/runner.py:617-627 | it comes to wait for a human exactly on a red third gate or a failed fix, or on a failure that leaves no retries |
| RunnerOutcomes.RequeuedExactly | agentrail/afk/runner.py:531-616 | it goes back to the queue exactly on a failure that leaves retries |
| RunnerOutcomes.FailureExactly | agentrail/afk/runner.py:553-616 | a failure is recorded exactly on an exception, a failed implementation, one without a PR or a failed merge, with its reason |
| RunnerOutcomes.LoopExactly | agentrail/afk/runner.py:754-776 | an idle worker claims the next issue up; with none it returns, reads again or sleeps, each exactly when nothing is queued and nobody works, something is queued and nobody works, somebody works |
| RunnerOutcomes.RecheckExactly | agentrail/afk/runner.py:767-772 | after the forced read it claims the next issue up or returns |
| RunnerOutcomes.ClaimStory | agentrail/afk/runner.py:531-627 | at any time of a run a worker in work claimed its issue once, and its phase, attempts and the PR on record are what its answers since then say |
| RunnerOutcomes.PrOnRecord | agentrail/afk/runner.py:545-583 | a worker at the gate, merging or fixing has on record the PR its claim knew, detected or opened, and not 0 |
| RunnerOutcomes.StoryDecides | agentrail/afk/runner.py:531-627 | over any run a claim ends merged, commented, escalated or failed exactly after the sequences of answers that should lead there |
| RunnerBounds.StepWork | agentrail/afk/runner.py:585-627 | a measure over all issues and workers falls at every move that is not sleep |
| RunnerBounds.RunsAreBounded | agentrail/afk/runner.py:780-798 | the number of such moves is bounded by retries and concurrency before the run starts |
| RunnerBounds.AttemptsAreBounded | agentrail/afk/runner.py:585-627 | an issue is claimed at most max(1, max_retries - retries) times, with at most three gates and two fixes a claim |
| RunnerBounds.NeverStuck | agentrail/afk/runner.py:754-778 | until all have returned some worker that has not makes a move that is not sleep, whatever it is answered |
| RunnerBounds.ServedRunsEnd | agentrail/afk/runner.py:780-798 | a run in which every worker that has not returned moves within any k moves is shorter than k times one more than that bound, and goes on until all have returned |
| Resume.SeedStore | agentrail/afk/runner.py:823-843 | the seeding loop leaves the store the seeding specification describes, with all of it recorded |
| Resume.BuildStore | agentrail/afk/runner.py:801-844 | the store a session starts with: the seeded base, its log holding the seeding after whatever was there |
| Resume.SeedingReadies | agentrail/afk/runner.py:801-844 | seeding is disciplined, queues every listed issue with its blockers and PR, and leaves all slots free |
| Resume.BaseIsConsistent | agentrail/afk/runner.py:805-815 | a loaded snapshot with its slots emptied is consistent and still counts right |
| Resume.CountersSurviveHistory | agentrail/afk/state.py:331-347 | over any sequence of sessions cut short anywhere the snapshot is consistent and its counters count |
| Resume.PrsSurviveHistory | agentrail/afk/runner.py:801-844 | over any sessions cut short anywhere and resumed, an issue's PR is the last one set for it in any of them |
| Resume.RequeueNeverClamps | agentrail/afk/state.py:335-339 | so requeueing a merged issue never meets the clamp on `completed` |
| Resume.EscalationThenRequeueClamps | agentrail/afk/state.py:338-339 | a run's escalation and the next session's requeue of that issue, at which the clamp on `failed` bites |
| Resume.ResumeAfterHistory | agentrail/afk/runner.py:801-844 | resuming after any history queues every listed issue afresh and leaves the others as they were |
| Sessions.RunIsDisciplined | agentrail/afk/runner.py:531-627 | what the workers of any run dispatch keeps the discipline |
| Sessions.RunsExtendHistories | agentrail/afk/runner.py:780-844 | a resumed store is a legal start of a run, and a run cut short anywhere extends the history |
| Decimal.ParseOfDec | agentrail/afk/store.py:55-74 | every integer key survives being written as a string |
| Decimal.KeyedRoundTrip | agentrail/afk/store.py:55-74 | a dictionary with integer keys survives being written with string keys |
| Snapshot.StatusRoundTrip | agentrail/afk/state.py:41-54 | every status survives its string form |
| Snapshot.IssueRoundTrip | agentrail/afk/store.py:22-52 | an issue comes back from its JSON form except for its cost |
| Snapshot.StateRoundTrip | agentrail/afk/store.py:55-75 | a state comes back from its snapshot except for costs |
| Snapshot.SameSnapshot | agentrail/afk/store.py:22-75 | two states share a snapshot exactly when they differ at most in costs |
| Journal.ActionRoundTrip | agentrail/afk/journal.py:87-110 | every action the journal can write is read back as itself |
| Journal.Recorder.constructor | agentrail/afk/journal.py:131-154 | attaching appends the init record after whatever the file held |
| Journal.Recorder.Record | agentrail/afk/journal.py:156-170 | one line per recordable action, numbered in order; nothing for the others |
| Journal.ListSessions | agentrail/afk/journal.py:193-200 | the session ids of a log, each once, blanks left out |
| Journal.LatestSession | agentrail/afk/journal.py:203-210 | with or without its name, one gets exactly the lines the last session appended if and only if its id is new |
| Journal.SessionLogJournals | agentrail/afk/journal.py:131-170 | what a session leaves in the log is a journal the simulation is about |
| Journal.LogTakesCall | agentrail/afk/journal.py:156-170 | with each dispatch, accepted or not, recordable or not, the log goes on holding the session, foreign lines included |
| Timeline.RunReplay | agentrail/afk/timeline.py:72-108 | the replay loop gives the specified steps, or fails where the source raises |
| Timeline.ReduceRespectsCore | agentrail/afk/state.py:232-359 | the reducer cannot tell apart states that differ only in blockers and costs |
| Timeline.ReplayIsASimulation | agentrail/afk/timeline.py:72-108 | replaying a session gives the live state event by event up to blockers and costs, and all digests match while no blockers change |
| Timeline.ReplayOfSession | agentrail/afk/timeline.py:88-106 | lines of other kinds in a session change nothing in its replay |
| Timeline.StepsInTurn | agentrail/afk/timeline.py:86-106 | the steps of a replayed session are numbered from zero without gaps |
| Timeline.DigestOkExactly | agentrail/afk/timeline.py:95-106 | a step's digest is right exactly when every live issue is blocked by what it came into the journal with, at init or when enqueued |
| Timeline.RefreshedBlockersBreakTheDigest | agentrail/afk/journal.py:59-72 | so one issue with other blockers, known at init or enqueued later, makes the digest mismatch |
| Timeline.ResumeBreaksTheDigest | agentrail/afk/runner.py:830-843 | for instance the digest of the requeue that follows a refresh of the blockers |
| Timeline.BlockersNeverMove | agentrail/afk/timeline.py:72-108 | in a replay the blockers of an issue known at the start never change |
| Metrics.CreditInterval | agentrail/afk/timeline.py:168-174 | one interval is credited to every issue under its status, and to nothing else |
| Metrics.LongestDwell | agentrail/afk/timeline.py:194-204 | a longest stay of any issue in any status that is not a resting one, and none only if there is none |
| Metrics.ComputeMetrics | agentrail/afk/timeline.py:141-205 | the loops compute the dwell times, busy and wall time, start and end, final fields, mismatches and a longest stay of the replayed steps |
| Metrics.TimesAddUp | agentrail/afk/timeline.py:168-174 | each issue's times in status sum to its total |
| Metrics.TotalIsAge | agentrail/afk/timeline.py:168-174 | with nondecreasing clocks the total is the time since the issue appeared |
| Metrics.BusyWithinCapacity | agentrail/afk/timeline.py:163-176 | busy slot time is at most concurrency times wall time |
| Metrics.UtilizationNeverClamped | agentrail/afk/timeline.py:191-192 | so for a disciplined session the cap on utilization never bites |
| Metrics.TotalsAreAges | agentrail/afk/timeline.py:141-205 | and all of its issues' totals are ages made of their times in status |
| Accounts.DwellExactly | agentrail/afk/timeline.py:168-174 | an issue's time in a status is the length of the intervals at whose start it had that status |
| Accounts.InFlightCount | agentrail/afk/state.py:129-130 | in a consistent state there are as many issues in flight as busy slots and orphans |
| Accounts.BusyIsFlight | agentrail/afk/timeline.py:163-176 | busy slot time plus the time of orphans is the sum of all issues' times in flight |
| Accounts.SlotTimeIsIssueTime | agentrail/afk/timeline.py:141-205 | so for a disciplined session without orphans the metrics' busy time is the sum of its issues' times between queue and end, to the tick |
| Accounts.WallExactly | agentrail/afk/timeline.py:152-156 | with nondecreasing clocks the wall time is the time from first to last step |
| Accounts.MismatchesExactly | agentrail/afk/timeline.py:157-157 | the mismatches are counted step by step |
| LiveJournal.TimelineShowsTheStore | agentrail/afk/timeline.py:72-108 | replaying the latest session in the log of a live store, whoever else writes to it, gives the store's state up to blockers and costs, with the exact condition for each digest |
| LiveJournal.LatestIsOwn | agentrail/afk/journal.py:203-210 | the latest session of that log is the store's own exactly if its id was new, and its lines journal the store's calls |
| LiveJournal.StoreRemembers | agentrail/afk/state.py:387-394 | what a live store knows of an issue is what was dispatched to it: the last PR, the failures and the error since its requeue, the last cost and blockers |
| LiveJournal.SessionIsDisciplined | agentrail/afk/runner.py:801-844 | what a session dispatches after any history, seeding and run together, keeps the discipline and leads to the run's last state |
| LiveJournal.StoreIsMeasuredTruthfully | agentrail/afk/timeline.py:141-205 | the metrics read off the log of a disciplined live store, foreign lines included, never meet the cap on utilization, and every total is an age |
| LiveJournal.StoreSlotTimeIsIssueTime | agentrail/afk/timeline.py:163-176 | and their busy time is the sum of the issues' times in flight if nothing was orphaned at the start |
| LiveJournal.RunIsMeasuredTruthfully | agentrail/afk/runner.py:780-844 | so do those of every session of the runner after any history, which leaves the store in the last state of its run |
| LlmRerank.WindowSpans | agentrail/context/llm_rerank.py:116-137 | the loop ends for all arguments with the specified spans |
| LlmRerank.SpansShape | agentrail/context/llm_rerank.py:116-137 | the first window ends at the last candidate, the last is a full window at the head, and the head of each lies inside the next |
| LlmRerank.ParseWindowOrder | agentrail/context/llm_rerank.py:171-203 | the two loops compute the specified order |
| LlmRerank.WindowOrderKeepsAll | agentrail/context/llm_rerank.py:171-203 | any reply yields a permutation: named ids first, the rest after them in their prior relative order |
| LlmRerank.FirstMentionDecides | agentrail/context/llm_rerank.py:195-201 | of two named ids the one named first comes first, repeats notwithstanding |
| LlmRerank.PermutationNeedsDistinctIds | agentrail/context/llm_rerank.py:171-203 | that holds for every reply exactly when the window repeats no id |
| LlmRerank.MergeKeepsAll | agentrail/context/llm_rerank.py:340-347 | all windows together permute the candidates |
| LlmRerank.WindowStep | agentrail/context/llm_rerank.py:340-347 | sorting a window that covers the previous window's head carries the best forward |
| LlmRerank.BestCandidatesLead | agentrail/context/llm_rerank.py:336-352 | if each call sorts its window by one order, the leading places that two windows in a row share (all for one window, more for a short list) are globally right, at least min(overlap, window - 1) |
| LlmRerank.HeadOfSorted | agentrail/context/llm_rerank.py:116-137 | right means equal to the head of any globally sorted arrangement |
| LlmRerank.NextPlaceIsNotCertain | agentrail/context/llm_rerank.py:116-137 | for every list of more than one window and every geometry, a ranking and a model that sorts by it get the next place wrong |
| LlmRerank.CertainIsExact | agentrail/context/llm_rerank.py:72-76 | k places are right for every ranking and every sorting model exactly if k is at most that number |
| LlmRerank.RunWindows | agentrail/context/llm_rerank.py:339-350 | the in-place loop rearranges as specified, or stops at the first exception |
| LlmRerank.LlmRerank | agentrail/context/llm_rerank.py:304-353 | the result permutes the candidates; without a model or after any exception it is the input order whole |
| Evaluation.DedupePaths | agentrail/context/evaluation.py:344-357 | the loop computes the distinct non-blank paths |
| Evaluation.Dedupe | agentrail/context/evaluation.py:344-357 | each non-blank path once, and no other |
| Evaluation.DedupeExtends | agentrail/context/evaluation.py:344-357 | in first-seen order: later results only append |
| Evaluation.DescendingIsBest | agentrail/context/evaluation.py:424-433 | no order of the same gains has a higher discounted gain than the descending one |
| Evaluation.IdealIsReached | agentrail/context/evaluation.py:468-476 | at a depth, dcg is at most idcg, with equality exactly when no later gain inside the depth should move forward |
| Evaluation.LeadingIsWellOrdered | agentrail/context/evaluation.py:454-461 | for relevance labels that is: the relevant files fill the leading min(depth, retrieved) places |
| Evaluation.NdcgIsSound | agentrail/context/evaluation.py:436-488 | the score lies between 0 and 1, with exact conditions for both ends |
| Evaluation.PromotionRaisesNdcg | agentrail/context/evaluation.py:448-458 | moving a relevant file up past an irrelevant one inside the depth strictly raises the score |
| Evaluation.ReorderKeepsMembership | agentrail/context/evaluation.py:360-413 | precision in pack and recall do not change under any reorder of the packed results |
| Evaluation.MembershipIsSound | agentrail/context/evaluation.py:360-413 | the three fractions lie between 0 and 1, with exact conditions for 1 |
| Evaluation.FractionsCount | agentrail/context/evaluation.py:391-413 | precision and recall are one count, of the relevant files packed, over two totals |
| MemoryLane.SelectMemoryItems | agentrail/context/memory_lane.py:205-239 | the loop computes the greedy lane |
| MemoryLane.LaneIsSound | agentrail/context/memory_lane.py:205-239 | the lane is a sublist of the sorted survivors, within the cap, without secrets, and nothing left out would still fit |
| MemoryLane.AuthorityThenAge | agentrail/context/memory_lane.py:131-147 | decisions stand before preferences, those before facts, those before anything else; of one authority the newer first, at equal times the smaller id |
| MemoryLane.SurvivorsExactly | agentrail/context/memory_lane.py:150-184 | selection is from every row without a secret, missing types read as facts and missing authors as unknown |
| MemoryLane.CostIsEncodedLength | agentrail/context/memory_lane.py:230-230 | an item costs the length of its UTF-8 bytes |
| MemoryLane.TakenByPriority | agentrail/context/memory_lane.py:228-239 | an item is taken exactly when it fits beside what its betters took |
| MemoryLane.StoppingLosesLaterFits | agentrail/context/memory_lane.py:230-238 | the lane differs from stopping at the first item that does not fit exactly if some later item still fits |
| MemoryLane.CanonicalUnlessTied | agentrail/context/memory_lane.py:131-147 | the lane is the same for every order of the rows and every cap exactly when no two different survivors share a key |
| MemoryLane.TiesAreEqualKeys | agentrail/context/memory_lane.py:131-147 | two items tie exactly when type rank, time and id agree |
| MemoryLane.NewestFirstUnlessPrefix | agentrail/context/memory_lane.py:143-146 | the negated key reverses time order exactly when neither timestamp is a proper prefix of the other |
| Fence.NeutralizeIsComplete | agentrail/context/memory_lane.py:257-284 | no content keeps either fence marker |
| Fence.PassRemoves | agentrail/context/memory_lane.py:282-283 | one replacement pass removes its marker and creates no other across a replaced one |
| Fence.NeutralizeOnlyMarkers | agentrail/context/memory_lane.py:257-284 | text changes exactly when it holds a marker, and a second pass changes nothing |
| Fence.NeutralizeKeepsText | agentrail/context/memory_lane.py:271-283 | the visible text is kept, and plain text comes back by dropping zero-width spaces |
| Fence.BodyHoldsMarkerExactly | agentrail/context/memory_lane.py:287-303 | the rendered body of the lane holds a marker exactly if the type or the author of some item does |
| Fence.RenderedShowsAll | agentrail/context/memory_lane.py:287-292 | what a reader sees of an item is its type, its author, all of its content and the citation |
| Fence.BodyShowsAll | agentrail/context/memory_lane.py:305-307 | every item is in the body, on lines of its own |
| Packs.Pack.GreedyTokenBudgetFill | agentrail/context/packs.py:806-848 | the loop drops exactly the shortest prefix of the candidates that fits, and returns it |
| Packs.FillIsSound | agentrail/context/packs.py:806-848 | budget met or retrieval sections empty; kept plus dropped is what was there; nothing kept scores below a dropped item; no drop is one too many |
| Packs.Pack.TrimToBudget | agentrail/context/packs.py:752-803 | the loop drops the shortest prefix that is affordable, nothing for an unknown model, and its running token total is the recomputed one |
| Packs.TrimIsSound | agentrail/context/packs.py:752-803 | likewise for the price, dropping excluded context, then open questions, then retrieval items by score |
| Packs.FillSpelledOut | agentrail/context/packs.py:806-848 | by section name: only the five retrieval sections change; the included tokens are within budget or those five are empty; nothing dropped scored above anything kept |
| Packs.TrimSpelledOut | agentrail/context/packs.py:752-803 | by section name: protected sections are untouched; the price is met or all that may go is gone; excluded context goes first, then open questions |
| Packs.TokensOfItem | agentrail/context/packs.py:732-736 | an item counts one token for every four characters of its content, begun ones included |
| Packs.DropsSucceed | agentrail/context/packs.py:791-801 | every item to be dropped is still there when its turn comes, and the total falls by what is dropped |
| Packs.DropsConserve | agentrail/context/packs.py:839-846 | section by section nothing is lost and the kept items keep their order |
| Rerank.RerankCandidates | agentrail/context/rerank.py:293-329 | the loop computes the specified cut |
| Rerank.NothingIsLost | agentrail/context/rerank.py:216-329 | ranked plus rejected is a permutation of the candidates |
| Rerank.DominanceHolds | agentrail/context/rerank.py:289-329 | as many are kept as fit, none of them noise, in score order, and no legitimate rejected one outranks a kept one |
| Rerank.CutKeepsTheFirst | agentrail/context/rerank.py:301-314 | the kept ones are the first legitimate ones in score order |
| Rerank.NoiseNeverEmptiesTheList | agentrail/context/rerank.py:241-271 | if anything is dropped as noise and one may be kept, something is |
| Rerank.PassesByLead | agentrail/context/rerank.py:257-291 | a candidate passes one ranked higher exactly when its signals lead by more than 0.1 a place |
| Rerank.EvidenceInPlaces | agentrail/context/rerank.py:153-190 | defining a symbol is worth 30 places of the retrieval order, being named after it 15, each step of freshness 10 |
| Rerank.NearnessInPlaces | agentrail/context/rerank.py:193-205 | a place d steps from an anchor is worth 20 / (d + 1) places |
| Rerank.NoiseExactly | agentrail/context/rerank.py:241-287 | which candidates are noise, that it sinks them 40 places, and that they are never kept |
| Chunks.MarkdownChunks | agentrail/context/index.py:293-336 | the loop with its stack computes the specified chunks |
| Chunks.MarkdownTiles | agentrail/context/index.py:293-336 | from the first heading on the sections are consecutive ranges to the end of the file, each from one heading to the next |
| Chunks.MarkdownCovers | agentrail/context/index.py:293-336 | no line lies in two chunks, and only blank lines lie in none |
| Chunks.StackIsOpenChain | agentrail/context/index.py:323-327 | the stack is the chain of open headings laid out by level |
| Chunks.SectionPath | agentrail/context/index.py:323-331 | a section's heading path names the headings no later heading up to its own has closed, outermost first |
| Chunks.CodeChunks | agentrail/context/index.py:339-350 | the loop computes the non-blank windows |
| Chunks.WindowsCover | agentrail/context/index.py:345-349 | windows hold at most 80 lines, no line lies in two, and every line that is not blank lies in one |
| Chunks.ChunksHoldTheirLines | agentrail/context/index.py:293-416 | however a file is cut, every chunk holds the text of the lines it names |
| Chunks.WindowsHold | agentrail/context/index.py:345-349 | a window starts a multiple of 80 lines down and holds 80 lines or all that are left |
| Chunks.SymbolAwareCodeChunks | agentrail/context/index.py:353-416 | the method computes the specified symbol chunks, falling back to windows |
| Chunks.SymbolsCover | agentrail/context/index.py:391-414 | a line that is not blank lies in one chunk more than the number of times the symbol lines fall back across it |
| Chunks.PartitionUnlessTextIsCrossed | agentrail/context/index.py:391-416 | wherever symbols may lie, every line that is not blank is in exactly one chunk exactly when symbol lines fall back over blank lines at most |
| Chunks.PartitionNeedsLineOrder | agentrail/context/index.py:391-416 | with symbols on lines that are not blank, exactly when the symbols come in line order |
| Symbols.ExtractedSymbols | agentrail/context/index.py:1018-1041 | the walk over the syntax tree and the patterns tried line by line find the specified symbols |
| Symbols.Walk | agentrail/context/index.py:818-1015 | the recursive walk with its loop, for any grammar, appends what the specification lists |
| Symbols.RegexSymbols | agentrail/context/index.py:674-712 | the loop over lines and patterns, each name once a line |
| Symbols.WalkFindsExactly | agentrail/context/index.py:818-1015 | the walk finds a symbol exactly if the grammar's way leads to a node that defines it |
| Symbols.MatchedExactly | agentrail/context/index.py:697-712 | the patterns find a name on a line exactly if one of them matches it there |
| Symbols.ExtractedExactly | agentrail/context/index.py:1018-1041 | a file's symbols are those of its tree, or of its lines if there is no tree or it has errors and no symbols |
| Symbols.SymbolsComeInLineOrder | agentrail/context/index.py:1018-1041 | whichever way they are found, symbols lie in the file in line order |
| Symbols.SymbolChunksPartition | agentrail/context/index.py:353-416 | so the chunks of a code file partition its lines that are not blank |
| Symbols.OneChunkPerLine | agentrail/context/index.py:391-414 | the symbols with a chunk are the last of each line; all have one exactly if no two share a line |
| Symbols.ClassOnOneLineIsDropped | agentrail/context/index.py:354-354 | a class and its method on one line: only the method has a chunk |
| IndexBuild.Store.BuildIndex | agentrail/context/index.py:2171-2336 | the loop with its three kinds of reuse computes the specified index, and its counts add up |
| IndexBuild.CacheHitIsFull | agentrail/context/index.py:2035-2060 | when the cache is judged fresh the stored index is right for the disk |
| IndexBuild.VisitIsRight | agentrail/context/index.py:2298-2330 | reused by time, reused by hash or rebuilt, a record is the one a full build would make, and a file is skipped exactly when a full build would skip it |
| IndexBuild.BuildIsFull | agentrail/context/index.py:2171-2389 | every build leaves a complete, correct, path-sorted index |
| IndexBuild.FullIsUnique | agentrail/context/index.py:2351-2352 | any two such indexes agree source by source, in the same order |
| IndexBuild.IncrementalIsFull | agentrail/context/index.py:2204-2332 | after any history of writes, touches, deletions and builds, a build agrees with one from scratch in paths, hashes, contents and chunks |
| IndexBuild.RecordsAreTheFiles | agentrail/context/index.py:2204-2332 | after any history the records are those of the files let in, not skipped and readable, each with the redacted text of its file, that text's hash and its chunks |
| IndexBuild.FirstBuildIsFresh | agentrail/context/index.py:2300-2332 | a build without an index also records the files' times, redactions and paths as they are |
| IndexBuild.VisitRightExactly | agentrail/context/index.py:2298-2326 | whatever the times, a visit goes wrong exactly for a file no younger than the index whose stored record is stale |
| IndexBuild.CachedIsFullExactly | agentrail/context/index.py:2035-2060 | a fresh cache is right exactly if its records, and the lack of them, fit every file the globs let in |
| IndexBuild.RightUnlessTrustIsStale | agentrail/context/index.py:2204-2332 | after any edits and builds, whatever times they left, a build agrees with one from scratch exactly if nothing it takes for granted by time is stale |
| IndexBuild.RedactionsRightThisBuild | agentrail/context/index.py:2316-2326 | after any history, a build reports the right redactions exactly when no file to be indexed has a stored record with its redacted text and other redactions |
| IndexBuild.RedactionsRightUnlessAmbiguous | agentrail/context/index.py:2316-2326 | the reported redactions are right over every history exactly when the redacted text determines them |
| QueueState.OnlyStartIsFree | agentrail/afk/queue_state.py:272-277 | an accepted event either ends the entry or spends budget exactly if it is not a start |
| QueueState.TransitionProgress | agentrail/afk/queue_state.py:255-326 | every event an entry accepts outside a terminal spends a step of its measure |
| QueueState.AlwaysTerminates | agentrail/afk/queue_state.py:272-277 | any sequence of accepted events as long as the measure ends in a terminal |
| QueueState.TerminalIsFrozen | agentrail/afk/queue_state.py:279-280 | a terminal entry is unchanged by any events |
| QueueState.BoundIsReached | agentrail/afk/queue_state.py:309-324 | the measure is no overestimate: starting and failing takes every step of it, and only the last ends the entry |
| QueueState.TransitionProgresses | agentrail/afk/queue_state.py:255-326 | tier never falls, budget and the sum of both never rise, and the tier stays within the maximum |
| QueueState.BudgetRisesOnlyFromDebt | agentrail/afk/queue_state.py:309-317 | budget never rises exactly for entries that are not overdrawn or take no event |
| QueueState.FailuresDecide | agentrail/afk/queue_state.py:295-324 | over any run of events budget and tier count the failures and nothing else, and starts and failures alone end an entry exactly when its attempts are used up |
| QueueState.OutcomeExactly | agentrail/afk/queue_state.py:255-326 | whatever the events, the outcome is green exactly if the event that ended the entry was a green gate, and a human's exactly if it was a security block, a refusal or the red gate that used up the attempts |
| QueueState.OtherwiseWaitsOrRuns | agentrail/afk/queue_state.py:288-326 | an entry runs exactly after a start, waits again exactly after a red gate with budget and tier left, and spends only on red gates |
| QueueState.NeverBecomesBlocked | agentrail/afk/queue_state.py:56-61 | no event, admission or release produces the Blocked outcome |
| QueueState.AdmitIsSafe | agentrail/afk/queue_state.py:111-136 | admission leaves outcomes alone, lets no blocked entry through, and is idempotent |
| QueueState.GateParkSurvivesOnlyWithoutBlockers | agentrail/afk/queue_state.py:118-136 | when a park with its own reason survives admission |
| QueueState.ReleasedExactlyWhen | agentrail/afk/queue_state.py:195-252 | when a parked entry is released, and what happens to one still blocked or denied |
| QueueStore.RowRoundTrip | agentrail/afk/queue_store.py:464-511 | reading a row back gives the entry that was written |
| QueueStore.Store.EnqueueIssue | agentrail/afk/queue_store.py:211-353 | a rejected issue leaves no trace; an admitted one adds a row only if there is none |
| QueueStore.Store.NextGrabbable | agentrail/afk/queue_store.py:357-368 | a queued row of the workspace that none precedes, or none if there is none, or the error for a tier the machine does not know; no row changes |
| QueueStore.Store.TransitionEntry | agentrail/afk/queue_store.py:372-383 | the pure decision is written to the entry's row and to no other; an error changes nothing |
| QueueStore.EnqueueKeepsRows | agentrail/afk/queue_store.py:551-575 | enqueueing, also again, alters no row there is |
| QueueStore.OpKeeps | agentrail/afk/queue_store.py:211-383 | what each operation keeps of every row |
| QueueStore.RowsNeverComeBack | agentrail/afk/queue_store.py:551-582 | over any interleaving rows stay, tier never falls, budget and sum never rise, and a terminal row is the same for ever but for its write time |
| QueueStore.OpOutcome | agentrail/afk/queue_store.py:372-383 | which operation makes a row green, a human's, running or queued again; none makes it blocked |
| QueueStore.GreenOnlyByGate | agentrail/afk/queue_store.py:372-383 | over any interleaving a row is green only by a green gate while it waited or ran |
| QueueStore.EnqueuedExactly | agentrail/afk/queue_store.py:261-320 | an issue is queued on the lowest tier with a budget of two, parked behind its blockers, the guardrail or missing alignment, with that reason |
| QueueStore.MovesAreBounded | agentrail/afk/queue_store.py:372-383 | over any interleaving a row changes state at most as often as its measure says |
| QueueStore.TerminalRowSafeExactly | agentrail/afk/queue_store.py:372-383 | a terminal row is safe from all transitions of an entry exactly if the entry is parked or current |
| QueueStore.ReEnqueuedEntryIsStale | agentrail/afk/queue_store.py:321-353 | the entry a re-enqueue returns can restart a finished row |
| QueueStore.SharedNumberHitsTheOther | agentrail/afk/queue_store.py:182-185 | with one number for two issues four operations, each on an entry as its row has it, take a finished row back to running |
| QueueStore.RowsStayIfNumbersDiffer | agentrail/afk/queue_store.py:487-497 | over all histories rows never come back exactly when no two issues share a number |
| QueueStore.SameNumeralClashes | agentrail/afk/queue_store.py:151-163 | issues with one numeral for id from two workspaces or sources do share it |

## Left out

- Subprocesses, git, `gh`, HTTP, the database driver, file writing: their answers are inputs, the files are values.
- Label, comment and telemetry side effects of the runner: taken not to raise (what happens if one does is `FleetState.FailureMiscountsExactly`).
- Awaits finer or coarser than the source's: claim and PR detection are two steps here and one stretch there, so the model has all the source's interleavings and some more.
- The 15-second blocker cache: a read without force may return any set, a forced read any fresh set.
- `next_claimable` compares issue numbers, the model compares dictionary keys; they agree wherever the invariant holds.
- Integer keys other than canonical decimals in a snapshot are taken as malformed; JSON is typed, with no duplicate keys.
- The torn last line of a log, audit events, run registration, review pushes and rendering (`_describe`, timelines, markdown).
- Floating point and rounding of scores and costs: reals; the discount of nDCG is any positive, strictly decreasing sequence.
- Cost of a model: any function of the token total.
- Token counters of the model calls, prompts, and how a reply's text is scanned for a JSON list.
- Tokenizing, secret and redaction detectors, heading extraction, what a grammar makes of a node and a pattern of a line, glob matching: given functions.
- The `changed` flag and the reason strings of the deterministic rerank.
- Slugs, ids, hints and priors of chunks, and the order of chunks within a source (the chunks are stored under their record).
- Summaries, the wiki (taken to be off: while it is on the cache is not consulted), external sources, graph, postings and embedding payloads of the index; `.gitignore` and configuration are fixed.
- Hash, UUID and CRC: injectivity of the content hash and of the row id is assumed, the path fingerprint is the set of paths, distinct entry numbers are a hypothesis; digits are ASCII.
- The order the database gives rows created at the same time.
- `register_run`, `list_queue`, and the admission ledger behind the input-contract gate, whose verdict is an input.
- `memory_lane_enabled`, snapshot loading, and the fixed frame text around the lane's body.
- Permissions: whether a file can be read depends on its content only; one made unreadable without a new time is reused by an incremental build and skipped by one from scratch.
- Metrics.ComputeMetrics: which of several equally long stays is the longest follows the order of a dictionary, and is left open.
- IndexBuild.IncrementalIsFull: holds modulo `modifiedAt`, `observedAt` and the list of redactions with the visibility that follows from it; the exact condition for the latter is `IndexBuild.RedactionsRightThisBuild`.
- MemoryLane.SelectMemoryItems: a string with lone surrogates, which cannot be encoded, is not modelled.
