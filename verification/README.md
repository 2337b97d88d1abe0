# A verified model of the harness

The harness runs coding agents for a long time without supervision. This project models its six most stateful parts in
Dafny and proves what they promise. A part whose source works by changing fields or arrays is a class or a method with
loops here, proved against a specification function or against the old state; the promises that span calls are lemmas
about those functions and about whole runs.

| part | modules |
|---|---|
| The write-review loop: two agents take turns through a shared blackboard | `LoopGraph`, `Blackboard`, `LoopAgents`, `LoopRuns`, `LoopResults` |
| The countdown of a pending question, whose callbacks may call back into it or throw | `Countdown` |
| Context compaction, its circuit breaker and the retry loop of a task | `ContextWindow`, `Compaction`, `TaskRetry` |
| The job lifecycle and the automatic resume after a quota pause | `JobLifecycle`, `AutoResume` |
| Repair against audit of the key tree, and publishing of secret revisions | `KeyTree`, `Revisions` |
| Rolling usage windows | `UsageWindows` |

`Common` and `Sorting` hold arithmetic and the stable sort the models share.

## How the outside world is modelled

- **Loop.** One poll turn of an agent, from loading the record to its last save, is one atomic step. A run is any sequence
  of such polls with any verdict at every review, so scheduling and verdicts are unconstrained. Task ids are constructors
  instead of strings; the code and review files an agent writes are outside.
- **Countdown.** A `Reaction` is a finite tree that says which public methods a callback calls, with the reactions of the
  callbacks those calls trigger in turn, and whether it throws. Every method is proved for every tree. Assumed: host timers
  and `onError` do not re-enter, `startTimer` returns a handle other than null, a cleared timer stays silent, and neither
  the clock nor `clearInterval` throws. The clock shows a finite time; waits and intervals may be NaN or infinite.
- **Compaction.** The token total, the clock, the summarizer and the agent's answers are arbitrary inputs of a call. The
  agent leaves the message array alone.
- **Jobs.** The calls on one machine are awaited one after another, a job is created once, and the data of a transition
  carries neither a status nor a job id. Job ids are not empty. Each write may fail and the process may die between any two calls.
- **Key tree.** Any set of chmods may fail, and a directory may refuse to be listed depending on its mode; nothing else
  about an entry changes between two walks.
- **Revisions.** A refresh may fail at any of its steps, a failing write may leave an unreadable file, and a process may
  end at any step and start again. Cleanups run between refreshes.
- **Usage.** Times are integer milliseconds and costs exact reals.

## What the proofs found

- **Writes can be left over.** The loop does not always use its writes when every review requests changes. The review agent
  hands over to the write after the number of its *review* (`harness/loop-review-agent.ts:94-130`), which is a write that
  is already done as soon as a review stands for two or more writes and there are two or more reviews. The loop then
  reports after `step + 1` writes and two reviews. `LoopResults.AllWritesDoneIff` gives the exact condition on the counts,
  and `LoopResults.FourWritesTwoReviews` a run that leaves the fourth write over.
- **A status without a way in.** The header comment of `harness/job-state-machine.ts:10-12` lists `e2e_testing` between
  `testing` and `reviewing`; the transition table never leads there (`JobLifecycle.E2eTestingIsUnreachable`).
- **A refresh answers "success" after a failure.** `doRefresh` catches its own failures, so `refresh` reports success
  whenever the integration is enabled, and the provider is degraded exactly when the refresh did not complete
  (`Revisions.SecretProvider.RefreshSecrets`; `Revisions.SuccessWithoutSecrets` is one such refresh).
- **Storing the config is not atomic.** The comment at `harness/infisical-config.ts:190` speaks of an atomic rename; the
  code overwrites the config in place, so a torn write loses it, and nothing else does (outcome `ConfigLost` of
  `Revisions.SecretProvider.DoRefresh`; `Revisions.TornConfigIsLost` is such a run). The promise about the active revision
  survives, because a lost config has no active revision.
- **A decision can start after its wait was stopped.** `onDeadline` runs after the row was drawn, whatever drawing did
  (`harness/pending-countdown.ts:274-297`), although `harness/pending-countdown.ts:44-49` wants no decision for a question
  that is gone. For every re-entrancy, the countdown still owns the wait when the decision starts if and only if the
  drawing callback neither calls back nor throws (`Countdown.PendingQuestionCountdown.Tick`, with
  `Countdown.DecisionAfterTheStop` as an input that fails).
- **A recheck can wait for ever.** `startRecheck` does not guard its interval the way `decisionDeadlineAt` guards its
  numbers: with NaN or infinity no tick is ever due (`Countdown.RecheckFiresIff`), while the row shows "00:00" all the time.
- **The breaker builds up on short conversations.** Before the third failure, a context that is too long counts only when
  the array is too short to be compacted (`Compaction.FailureSurvivesIff`). With five or more messages in every call the
  breaker never engages (`Compaction.LongConversationsNeverTrip`); three calls on fewer messages, not blocked and too long,
  engage it (`Compaction.ShortConversationsTrip`). The third failure itself trips it on an array of any length, exactly
  when the call is not blocked (`Compaction.TripsIff`).
- **The persisted event log can have holes.** An append that fails after its checkpoint was stored is never repaired when
  the next process resumes from that checkpoint. The log tells of exactly the statuses the job held if and only if at
  every resume it ends with the stored status (`JobLifecycle.LogRecordsHistoryIff`). `JobLifecycle.LostEventLeavesAHole`
  is a run with a visible hole, and `JobLifecycle.LostLoopLeavesNoGap` one whose log misses two transitions although
  every event starts where the one before ended.

## Model

| member | source | states |
|---|---|---|
| LoopGraph.BuildLoopTaskGraph | harness/loop-types.ts:36-102 | The two loops that fill nodes and wire dependents in place build exactly the graph given task by task: review i depends on write i * step if that exists, and a write knows the review it belongs to |
| LoopGraph.WriteTasks | harness/loop-types.ts:45-59 | The first loop: every write once, in order, without edges |
| LoopGraph.ReviewTasks | harness/loop-types.ts:61-81 | The second loop: every review once, in order, each wired into the one write it reviews and into no other |
| LoopGraph.WiringOneReview | harness/loop-types.ts:61-81 | Wiring review i changes the dependents of write i * step, from none to that review, and of no other write |
| LoopGraph.GraphIsOrdered | harness/loop-types.ts:83-101 | For all counts, the topological order lists every node exactly once and every dependency of a node before it |
| LoopGraph.GraphEdgesAreInverse | harness/loop-types.ts:61-81 | For all counts, a is a dependency of b exactly when b is a dependent of a, and no edge is listed twice |
| LoopGraph.ReviewsHaveTheirOwnWrite | harness/loop-types.ts:61-81 | With at most one review per write, every review depends on exactly one existing write and no two reviews share it |
| LoopGraph.StepIsWritesPerReview | harness/loop-types.ts:61-64 | The step is the whole number q with q * r <= w < (q + 1) * r for 1 <= r <= w, one for r > w, and all writes for no reviews |
| LoopGraph.ReviewedWrites | harness/loop-types.ts:45-101 | With that q, review i depends on write i * q alone, if there is that write, and writes and the report depend on nothing |
| LoopGraph.GraphTasks | harness/loop-types.ts:36-102 | The order is write-1 .. write-w, review-1 .. review-r, report, and every task starts pending without a result |
| Blackboard.SharedBlackboard.UpdateAgentStatus | harness/blackboard.ts:134-146 | Only a registered agent changes its status |
| Blackboard.SharedBlackboard.AcquireLock | harness/blackboard.ts:174-187 | Granted exactly when nobody, the caller included, holds the task; a refusal changes nothing |
| Blackboard.SharedBlackboard.ReleaseLock | harness/blackboard.ts:192-202 | Only the holder releases a lock; otherwise nothing changes |
| Blackboard.SharedBlackboard.UpdateTask | harness/loop-code-agent.ts:212-234 | Status and result of an existing node change, its edges and every other node do not |
| LoopAgents.PollCodeAgent | harness/loop-code-agent.ts:45-130 | A pass of the loop does exactly one turn of the specification: early exit, no claim, or the claimed task done, handed over, unlocked and reported |
| LoopAgents.WorkOnCode | harness/loop-code-agent.ts:62-130 | From a granted lock, the locks and the other agent end as they were before the claim, and the task is done |
| LoopAgents.RouteAfterWrite | harness/loop-code-agent.ts:80-117 | The next action is the pending review of this write, else the pending next write, else the report |
| LoopAgents.PollReviewAgent | harness/loop-review-agent.ts:45-131 | The same for the review agent, including the report turn, after which it keeps its lock and stops |
| LoopAgents.WorkOnReview | harness/loop-review-agent.ts:79-130 | From a granted lock, the review is judged (blocked when rejected), unlocked, reported and handed over |
| LoopAgents.RouteAfterReview | harness/loop-review-agent.ts:94-130 | An approved or blocked verdict leads to the report; otherwise the next write if it is pending |
| LoopAgents.ClaimedAndReleased | harness/blackboard.ts:174-202 | Releasing undoes acquiring: the locks are as before the claim |
| LoopAgents.StartLoop | harness/loop-controller.ts:118-182 | Accepts exactly 1-20 writes and 0-20 reviews and then starts with write 1 as the next action |
| LoopRuns.RecomputedStepIsBuilderStep | harness/loop-code-agent.ts:236-250 | The step the code agent recomputes from the ids on the blackboard is the step of the builder |
| LoopRuns.AfterWriteIsRouted | harness/loop-code-agent.ts:236-274 | After write k + 1 the hand-over names the next pending review exactly when rounding up says its turn has come, else the next write or the report |
| LoopRuns.AfterReviewIsRouted | harness/loop-review-agent.ts:273-287 | After a review that requests changes the hand-over names the next write only if it continues the prefix of done writes |
| LoopRuns.HandOverAfterWrite | harness/loop-code-agent.ts:80-117 | After write k review j is next exactly when it is pending and (j - 1) * q < k <= j * q; otherwise the next write, and after the last one the report |
| LoopRuns.HandOverAfterReview | harness/loop-review-agent.ts:94-130 | After review m the next write is named exactly when changes were requested and it directly follows both m and the done writes; otherwise the report |
| LoopRuns.CodeAgentStopsIff | harness/loop-code-agent.ts:45-60 | The code agent stops exactly when some task is blocked or some done review approved, then only shows itself idle, and a stopped agent changes nothing |
| LoopRuns.ReviewAgentStopsIff | harness/loop-review-agent.ts:45-60 | The review agent stops exactly with the report done |
| LoopRuns.PollWorksOnTheNextAction | harness/loop-code-agent.ts:45-130 | A poll changes exactly the pending task of the next action, and only when its own agent is named; any other poll changes no task |
| LoopRuns.PollKeepsInvariant | harness/loop-review-agent.ts:45-131 | Every poll of either agent keeps the inductive invariant of the protocol and says which of the two prefixes grows |
| LoopResults.WorkIsAlwaysAPrefix | harness/loop-code-agent.ts:236-274 | In every reachable state, for all counts and verdicts, the done writes and the finished reviews are prefixes, and until the report is done the next action names a pending task of its agent's kind |
| LoopResults.ExactlyOneAgentIsEnabled | harness/loop-code-agent.ts:45-130 | No deadlock: until the report is done the named agent still polls, is granted the lock and finishes the named task, while the other agent changes no task |
| LoopResults.EveryMoveLeaves | harness/loop-code-agent.ts:118-130 | After every working poll of every run its agent is idle, unlocked and has reported the task, or after the final report working and locked |
| LoopResults.NoWriteAfterAStop | harness/loop-code-agent.ts:199-210 | Once a review was approved or blocked, no later poll changes any write |
| LoopResults.WorkIsBounded | harness/loop-review-agent.ts:45-131 | No task is worked on twice: the working polls of a run plus the tasks still pending are always w + r + 1 |
| LoopResults.EveryFairRunFinishes | harness/loop-controller.ts:118-182 | Any schedule of w + r + 1 rounds in which both agents poll ends with the report done, whatever the verdicts |
| LoopResults.AllChangesRequestedOutcome | harness/loop-review-agent.ts:94-130 | A finished run in which every review requests changes did exactly the expected number of writes and reviews |
| LoopResults.OutcomeInNumbers | harness/loop-review-agent.ts:94-130 | All w writes and min(w, r) reviews if w < 2r or r <= 1, otherwise q + 1 writes and two reviews |
| LoopResults.AllWritesDoneIff | harness/loop-review-agent.ts:94-130 | Such a run did all w writes if and only if w < 2r or r <= 1 |
| LoopResults.FourWritesTwoReviews | harness/loop-review-agent.ts:94-130 | A schedule for four writes and two reviews that finishes with three writes done and the fourth pending |
| Countdown.DecisionDeadlineAt | harness/pending-countdown.ts:86-90 | The deadline is the start plus 60000 ms a minute of a positive wait, and the start itself otherwise; unusable numbers count as zero |
| Countdown.RecheckFiresIff | harness/pending-countdown.ts:199-201 | For every interval, when a recheck is due: from its interval on, at once for minus infinity, never for NaN and infinity |
| Countdown.PendingQuestionCountdown.Start | harness/pending-countdown.ts:189-191 | Under any re-entrancy the countdown stays sound and the new generation is bound to the deadline of the start time; with callbacks that do not call back, the whole new state, first tick included |
| Countdown.PendingQuestionCountdown.StartRecheck | harness/pending-countdown.ts:199-201 | The same for the next attempt, bound to the recheck interval from now, whatever number that interval is |
| Countdown.PendingQuestionCountdown.Stop | harness/pending-countdown.ts:210-218 | Owns nothing and has no timer afterwards, tells `onStop` which request ended, and swallows its failure |
| Countdown.PendingQuestionCountdown.Begin | harness/pending-countdown.ts:221-241 | A wait gets its timer and an immediate tick; without a timer it is given up, cleared and reported |
| Countdown.PendingQuestionCountdown.Tick | harness/pending-countdown.ts:249-305 | A tick of another generation changes and calls nothing; for every re-entrancy, the decision starts exactly at the first tick whose question is pending and whose deadline is reached, and its wait is then still owned exactly when the drawing callback neither calls back nor throws; with callbacks that do not call back, failing or not, the whole outcome |
| Countdown.PendingQuestionCountdown.AskWhetherPending | harness/pending-countdown.ts:255-273 | The tick goes on exactly when the question is pending and the check neither calls back nor fails; otherwise the countdown is no longer in this wait |
| Countdown.PendingQuestionCountdown.CountDown | harness/pending-countdown.ts:261-305 | For a pending question the remaining time is drawn, and the decision starts exactly when the deadline is reached, owned or not as drawing decides |
| Countdown.PendingQuestionCountdown.Fire | harness/pending-countdown.ts:274-297 | At the deadline zero is drawn first and then the decision starts, once; the countdown still owns the wait then if and only if the drawing callback neither calls back nor throws |
| Countdown.PendingQuestionCountdown.DrawZero | harness/pending-countdown.ts:274-286 | The timer goes and zero is drawn; the wait stays owned exactly for a drawing callback that neither calls back nor throws |
| Countdown.DecisionAfterTheStop | harness/pending-countdown.ts:274-297 | The concrete failing input: the row throws at the deadline, the countdown stops and reports, and the decision starts after that |
| Countdown.PendingQuestionCountdown.Decide | harness/pending-countdown.ts:290-295 | A failing decision handler ends the wait and is reported |
| Countdown.PendingQuestionCountdown.SafeRender | harness/pending-countdown.ts:308-315 | Shows exactly the time the binding has left; the generation stays exactly when the drawing callback neither calls back nor throws; a failing row stops the countdown and is reported |
| Countdown.PendingQuestionCountdown.SafeCall | harness/pending-countdown.ts:318-324 | A failing callback is reported and does not escape |
| Countdown.PendingQuestionCountdown.ClearTimer | harness/pending-countdown.ts:336-347 | The one timer is released and no other |
| Countdown.PendingQuestionCountdown.React | harness/pending-countdown.ts:189-241 | Any sequence of public calls inside a callback keeps the countdown sound; without a call nothing happened, with one the generation moved on |
| Countdown.PendingQuestionCountdown.Drive | harness/pending-countdown.ts:189-305 | Every run of public calls and ticks, late ones included: engaged exactly with a binding, then fired or one timer but never both, no timer otherwise, at most one live timer, at most one decision per binding and none before its deadline |
| Countdown.StoppingIsSound | harness/pending-countdown.ts:210-218 | Stopping keeps every promise about past decisions and drawings |
| Countdown.ArmingIsSound | harness/pending-countdown.ts:221-241 | A new binding, with or without a timer, keeps every promise about past ones |
| Countdown.DueIsSound | harness/pending-countdown.ts:274-297 | A decision of a generation that had none, with its deadline reached, keeps decisions unique |
| Countdown.RemainingNeverIncreases | harness/pending-countdown.ts:261-305 | Under a monotone clock the time drawn for one binding never increases and is never negative, as far as it is a number |
| Countdown.ShownTimeMakesTheDeadline | harness/pending-countdown.ts:265 | Over every run, a drawn time and the moment of drawing add up to the deadline of the binding, and from the deadline on the drawn time is zero |
| Countdown.DecisionIsNotEarly | harness/pending-countdown.ts:274-297 | Over every run, a decision belongs to its binding, does not start before its deadline, and starts once |
| Countdown.TickTells | harness/pending-countdown.ts:249-305 | When no callback calls back, everything a tick tells the outside, in order: question, row, decision, stops and reports of failures |
| Countdown.TickLeaves | harness/pending-countdown.ts:249-305 | And the wait it leaves: running with its timer, decided without one, or none |
| Countdown.BeginTells | harness/pending-countdown.ts:221-241 | A new wait ticks at once, on its own binding |
| Countdown.NoTimerTells | harness/pending-countdown.ts:228-239 | A wait without a timer is given up: `onStop` with its request, the report, and nothing owned |
| ContextWindow.PrepareMessages | harness/context-window-manager.ts:313-343 | The longest suffix of the input that fits, or the last message alone when none does, for every strategy |
| ContextWindow.DropFromFront | harness/context-window-manager.ts:328-335 | The shifting loop stops at the longest suffix that fits, and never drops the last message |
| ContextWindow.Conversation.MicrocompactToolResults | harness/context-window-manager.ts:408-444 | Rewrites the messages in place and returns exactly the drop in tool-result tokens over all messages |
| ContextWindow.PruneResults | harness/context-window-manager.ts:419-441 | The loop over one message: the returned number is the tokens its results lost |
| ContextWindow.PrunedResultsAreOldest | harness/context-window-manager.ts:424-440 | Only results beyond the age limit are cleared, and never one of the newest ones of its message |
| ContextWindow.PruningIsIdempotent | harness/context-window-manager.ts:432-441 | A second pruning at the same time changes nothing, so it frees nothing |
| ContextWindow.PruningClearsExactly | harness/context-window-manager.ts:408-444 | Exactly the results of assistants that are over the age limit and share no id with one of the newest ones are cleared, to the marker text and zero tokens; nothing else of any message changes |
| ContextWindow.ToolTokensIsSum | harness/context-window-manager.ts:408-444 | The tokens counted are the sum over all results of all messages |
| ContextWindow.TotalTokensIsSum | harness/context-window-manager.ts:318-322 | The estimate of a list is the sum of a quarter of each text, rounded up |
| ContextWindow.Thresholds | harness/context-window-manager.ts:231-240 | In tokens: compaction from the window less 33000 on, blocking from the window less 40000 on, 200000 without a window |
| Compaction.RunFullCompact | harness/context-compact-orchestrator.ts:302-400 | Succeeds exactly when something is old enough to drop; the array becomes one boundary and the kept suffix, otherwise it stays as it is |
| Compaction.CompactionOutcome | harness/context-compact-orchestrator.ts:302-400 | Works exactly from 5 messages on, leaves 1 + min(10, n / 5) of them, always fewer than before, and a heuristic boundary accounts for every dropped message |
| Compaction.CompactionKeepsRecent | harness/context-compact-orchestrator.ts:302-419 | The messages behind the boundary are the last ones of the old array, in order, equal but for the tool results of assistants |
| Compaction.KeptToolResults | harness/context-compact-orchestrator.ts:365-419 | In the new array, a kept assistant message has exactly min(keepResults, n) of its n results, the newest ones in order, each with its id, time, tokens and the first 1000 characters |
| Compaction.PreservedResultsAreNewest | harness/context-compact-orchestrator.ts:405-419 | A kept message keeps as many of its tool results as asked for, at most 1000 characters each, and none older than a dropped one |
| Compaction.AtMostTwoCompactions | harness/context-compact-orchestrator.ts:302-400 | Without new messages a second compaction succeeds exactly from 20 messages on, and a third never |
| Compaction.CompactOrchestrator.Compact | harness/context-compact-orchestrator.ts:187-229 | A stage compacts with the trigger of the stage; success clears the failures, failure keeps them |
| Compaction.CompactOrchestrator.TryMicrocompact | harness/context-compact-orchestrator.ts:456-469 | Prunes only after the time gap; the gap restarts only when tokens were freed |
| Compaction.CompactOrchestrator.InvokeWithCompact | harness/context-compact-orchestrator.ts:160-297 | The failure counter is always the number of first "context too long" answers since the last successful compaction or reset, and at most 3; messages, events and response are those of the specification |
| Compaction.CompactOrchestrator.PrepareContext | harness/context-compact-orchestrator.ts:186-229 | Blocking compaction, pruning and proactive compaction in this order; a failed blocking one ends the call |
| Compaction.CompactOrchestrator.Finish | harness/context-compact-orchestrator.ts:196-240 | A context that is not ready or a missing agent ends the call without calling anybody |
| Compaction.CompactOrchestrator.CallAgent | harness/context-compact-orchestrator.ts:231-297 | One call, and a reaction only to an answer that the context is too long; a success restarts the time gap |
| Compaction.CompactOrchestrator.React | harness/context-compact-orchestrator.ts:255-297 | After a counted failure: what the reaction settles, else the first answer stands |
| Compaction.CompactOrchestrator.RecordCall | harness/context-compact-orchestrator.ts:240-260 | Only a first answer counts as a failure of the breaker, a retry never |
| Compaction.CompactOrchestrator.ReactAndRetry | harness/context-compact-orchestrator.ts:258-290 | The third failure trips the breaker; before that one compaction and at most one retry, whose failure falls back to the first answer |
| Compaction.ProactiveOnlyAfterBlocking | harness/context-window-manager.ts:231-240 | A proactive compaction only runs right after a blocking one that succeeded, and then succeeds exactly from 20 messages on |
| Compaction.AnswerOfInvocation | harness/context-compact-orchestrator.ts:160-297 | The whole answer from the counts alone: why it fails, which of the two answers is returned, how many failures stay open, how long the array is |
| Compaction.CallsOfInvocation | harness/context-compact-orchestrator.ts:231-297 | First call, reaction unless the breaker trips, retry after a reaction that worked, in this order and no more |
| Compaction.MessagesBeforeCall | harness/context-compact-orchestrator.ts:186-229 | The array the agent gets: blocking compaction, pruning after the gap, proactive compaction, each on the result of the one before |
| Compaction.MessagesAfterCall | harness/context-compact-orchestrator.ts:255-281 | And the array afterwards: compacted once more exactly after a too-long answer that does not trip the breaker |
| Compaction.GapOfInvocation | harness/context-compact-orchestrator.ts:283-296 | Besides pruning, exactly a successful answer restarts the time gap |
| Compaction.ReasonOfStage | harness/context-compact-orchestrator.ts:186-281 | The boundary of a reactive compaction names the output limit, the others the token threshold |
| Compaction.InvocationIsBounded | harness/context-compact-orchestrator.ts:160-297 | At most two agent calls per invocation; with the breaker engaged none, and messages and counters stay as they are |
| Compaction.TripsIff | harness/context-compact-orchestrator.ts:255-265 | Below the limit, an invocation trips the breaker exactly when two failures are open, the call is not blocked, and the first answer is that the context is too long |
| Compaction.EngagedUntilReset | harness/context-compact-orchestrator.ts:178-184 | Over all runs without a reset, an engaged breaker refuses every invocation without any event and leaves messages and counters as they are |
| Compaction.FailureSurvivesIff | harness/context-compact-orchestrator.ts:255-290 | Before the third one, a failure survives its own call exactly when the prepared array has fewer than five messages |
| Compaction.LongConversationsNeverTrip | harness/context-compact-orchestrator.ts:160-297 | Over all runs of invocations and resets on five or more messages, from at most one failure, at most one failure is ever open and the breaker neither trips nor refuses |
| Compaction.ShortConversationsTrip | harness/context-compact-orchestrator.ts:160-297 | Three calls in a row on fewer than five messages, not blocked and too long, trip the breaker |
| TaskRetry.ExecuteTask | harness/loop-runtime.ts:353-584 | Terminates for every endless sequence of replies: continuations and compact retries are both bounded and add up to the turns; the total wait is backoffMs * (2^a - 1) for a continuations; how many messages the loop itself appends; which reply gives which outcome |
| TaskRetry.HandleAutoContinuation | harness/loop-runtime.ts:541-584 | One more attempt and its wait keep the total wait a full geometric sum |
| TaskRetry.OutputLimitHandler.HandleOutputLimit | harness/output-limit-handler.ts:145-174 | Counts the attempt and waits backoffMs * 2^(attempts so far) |
| TaskRetry.DoublingBackoff | harness/output-limit-handler.ts:312-315 | Doubling waits add up to one less than the next power of two |
| TaskRetry.CountsAre | harness/loop-runtime.ts:353-584 | The counts of truncated and compacted turns by cardinality, and the appended messages as two for each truncated turn and one for each continue message |
| JobLifecycle.JobStateMachine.CreateJob | harness/job-state-machine.ts:117-147 | Succeeds exactly when both writes do; memory follows only then, while the checkpoint may already be stored |
| JobLifecycle.JobStateMachine.Transition | harness/job-state-machine.ts:164-213 | Succeeds exactly for a valid target with both writes done, and then every field, log and file is as promised; a failure leaves memory and events alone, and the checkpoint is stored exactly when its own write succeeded |
| JobLifecycle.JobStateMachine.PersistBoth | harness/job-state-machine.ts:201-212 | Checkpoint, then event, then memory; what each failure leaves behind |
| JobLifecycle.JobStateMachine.ResumeJob | harness/job-state-machine.ts:152-159 | Memory becomes the stored checkpoint, if there is one |
| JobLifecycle.JobStateMachine.SetResumeTime | harness/job-state-machine.ts:263-275 | The resume time is in memory even when the save fails |
| JobLifecycle.JobStateMachine.RecordError | harness/job-state-machine.ts:280-292 | The same for the last error |
| JobLifecycle.StoredStatusIsSameOrAhead | harness/job-state-machine.ts:117-213 | Over all runs with failing writes, crashes and resumes, the stored status is the one in memory or one valid transition ahead |
| JobLifecycle.HistoryIsAPath | harness/job-state-machine.ts:39-89 | The statuses of a job, across crashes and resumes, are a path of the table from "created" |
| JobLifecycle.ArchivedWasReviewed | harness/job-state-machine.ts:39-89 | An archived job was ready for the client just before, and under review before that |
| JobLifecycle.EnteredFrom | harness/job-state-machine.ts:39-89 | The table by its columns: for each of the 14 statuses exactly the statuses it is entered from |
| JobLifecycle.CancelledAndArchivedAreFinal | harness/job-state-machine.ts:87-88 | Over all runs with failing writes, crashes and resumes, a cancelled or archived job stays so, in memory and stored |
| JobLifecycle.RunKeepsLogs | harness/job-state-machine.ts:201-212 | Over all runs the in-memory event log is the newest part of the persisted one, which holds valid transitions only |
| JobLifecycle.LogRecordsHistoryIff | harness/job-state-machine.ts:152-213 | Over all runs with failing writes, crashes and resumes, the persisted log tells of exactly the statuses the job held if and only if at every resume it ends with the stored status |
| JobLifecycle.StepKeepsComplete | harness/job-state-machine.ts:152-213 | A complete log stays complete in every step but one: a resume that finds another status stored than the log ends with, which loses a status |
| JobLifecycle.LogChainsIff | harness/job-state-machine.ts:201-212 | Over all runs, each persisted event starts where the one before ended exactly when no transition succeeded on a machine whose status the log did not end with; this alone does not mean that nothing is missing |
| JobLifecycle.OnlyResumeSkips | harness/job-state-machine.ts:152-159 | Only a resume brings a machine to a status other than the one the log ends with, exactly when that is not the stored status |
| JobLifecycle.ChainsUpToStoredIff | harness/job-state-machine.ts:117-292 | When at every resume the log ends with the stored status, it is one chain; it reaches the stored status exactly when the append after the last stored checkpoint did not fail, and the status one transition before it otherwise |
| JobLifecycle.LostEventLeavesAHole | harness/job-state-machine.ts:164-213 | A run whose log misses a transition: failing append, crash, resume, next transition |
| JobLifecycle.LostLoopLeavesNoGap | harness/job-state-machine.ts:164-213 | A run whose log misses "running" to "testing" and back, although every event starts where the one before ended and the log ends with the stored status |
| JobLifecycle.EveryOtherStatusIsReachable | harness/job-state-machine.ts:39-89 | Every status but "e2e_testing" is reached by a run from creation |
| JobLifecycle.E2eTestingIsUnreachable | harness/job-state-machine.ts:39-89 | No run reaches "e2e_testing", in memory or stored |
| AutoResume.DueAt | harness/auto-quota-resume.ts:61-65 | A timer is never due within 5 s, never earlier than 10 s before the reset, and one of the two exactly |
| AutoResume.AutoQuotaResume.CancelAutoResume | harness/auto-quota-resume.ts:119-125 | The timer and the pending timeout of the job are gone, all others stay |
| AutoResume.AutoQuotaResume.ScheduleAutoResume | harness/auto-quota-resume.ts:41-113 | The job's timer is replaced, so a job has at most one; the resume time is recorded; without a reset epoch only the old timer goes |
| AutoResume.AutoQuotaResume.OnTimeout | harness/auto-quota-resume.ts:76-109 | A job is moved only out of "paused_quota" and never before the current reset epoch; otherwise rescheduled or left alone |
| AutoResume.AutoQuotaResume.Wake | harness/auto-quota-resume.ts:79-109 | Once the timer is forgotten: reschedule while the mirror names a later reset, else the transition, else nothing |
| AutoResume.AutoQuotaResume.Expire | harness/auto-quota-resume.ts:76-78 | A firing timer is forgotten before anything else |
| AutoResume.AutoQuotaResume.ResumeOrWait | harness/auto-quota-resume.ts:76-109 | One timeout of a paused job before the epoch leaves it waiting for a new one, at or after it moves the job on; the other jobs' timers stay |
| AutoResume.AutoQuotaResume.WaitForReset | harness/auto-quota-resume.ts:41-113 | With a stable reset epoch R ahead and timers late by at most d ms, whatever other timers are pending and whichever writes fail, the job is moved on in [R, R + 5000 + d) after at most two reschedules; it runs exactly when that transition was written; exactly the other jobs' timers are left |
| KeyTree.SecureKeyTree | harness/key-file-audit.ts:415-469 | The recursive repair that pushes failures and bumps counters gives exactly the specified tree, failures and counts; an unsupported platform changes nothing |
| KeyTree.RepairOfTree | harness/key-file-audit.ts:415-469 | For every tree: the chmods are exactly those the names lead to, each ends as a failed path or as one count of its kind, and a chmod that works leaves the owner-only mode |
| KeyTree.VisitsExactly | harness/key-file-audit.ts:433-465 | The repair visits exactly the files and directories at most four levels down, below directories it made owner-only and can then list |
| KeyTree.RepairRecords | harness/key-file-audit.ts:433-465 | The record grows by every visited path that fails, in order, and by one count for each other visit |
| KeyTree.VisitedIsOwnerOnly | harness/key-file-audit.ts:433-451 | Every visited entry whose chmod works ends with 0o600 or 0o700 |
| KeyTree.KeyTreeRepair.Walk | harness/key-file-audit.ts:453-465 | Nothing happens beyond the depth limit or in a directory that cannot be listed |
| KeyTree.KeyTreeRepair.SecureAll | harness/key-file-audit.ts:455-464 | The loop over a directory repairs every entry in order and threads one record through all of them |
| KeyTree.KeyTreeRepair.SecureDirectory | harness/key-file-audit.ts:433-442 | Either 0o700 and the walk below, or a recorded failure and no walk |
| KeyTree.KeyTreeRepair.SecureFile | harness/key-file-audit.ts:444-451 | Either 0o600 and one more secured file, or a recorded failure and the old mode |
| KeyTree.ReadableBy | harness/key-file-audit.ts:483-489 | Nobody but the owner exactly when all group and others bits are clear; otherwise the group, the others or both, by whose bits are set |
| KeyTree.KeyTreeAudit.Walk | harness/key-file-audit.ts:552-582 | The audit's loop appends exactly the exposures below a directory, in order |
| KeyTree.CollectKeyTree | harness/key-file-audit.ts:530-586 | The audit's recursive walk gives exactly the specified report, in order |
| KeyTree.AuditReportsExactly | harness/key-file-audit.ts:530-586 | For every tree, repaired or not: a file or directory at most four levels down, below directories that can be listed with their modes, is reported with its own path and mode if and only if it has a bit for the group or the others; a linked key directory is walked through |
| KeyTree.AuditAfterRepairIsExplained | harness/key-file-audit.ts:415-586 | After a repair with any failing chmods, whatever the audit reports is a failed path or lies below one; without failures it reports nothing |
| KeyTree.RepairedEntryIsCovered | harness/key-file-audit.ts:433-582 | The same for every entry at every depth and every record so far, by induction on both walks |
| KeyTree.RepairMakesOwnerOnly | harness/key-file-audit.ts:433-465 | A repair changes modes only to the owner-only one of their kind, so that nobody but the owner gains a permission; links, special files and everything beyond the depth limit stay untouched |
| KeyTree.OwnerOnlyOpensToNobodyElse | harness/key-file-audit.ts:433-451 | Against any old mode the owner-only modes add no group or others bit, though they may add an owner bit, as for a file of mode 0o400 |
| KeyTree.RepairIsIdempotent | harness/key-file-audit.ts:433-465 | Repairing again changes no mode and records the same failures and counts |
| KeyTree.FailedEntryIsDisclosed | harness/key-file-audit.ts:433-582 | The converse: a failed path kept its old mode, and the audit reports it exactly with that mode if the mode exposes it |
| Revisions.SecretProvider.Initialize | harness/secret-provider.ts:103-123 | Memory is rebuilt from the stored config; the active revision is served exactly when its snapshot can be read back |
| Revisions.SecretProvider.Restart | harness/secret-provider.ts:103-123 | After a restart secrets are served exactly when the stored config is enabled and has an active revision, and they are that revision's |
| Revisions.SecretProvider.CreateRevision | harness/infisical-config.ts:205-230 | A new directory with metadata that is not validated; no other revision and no config changes, whatever fails |
| Revisions.SecretProvider.SaveSnapshotAndValidate | harness/secret-provider.ts:396-405 | Succeeds only with the snapshot written and the metadata validated, in this order |
| Revisions.SecretProvider.ActivateRevision | harness/infisical-config.ts:282-306 | The config names the revision exactly when it is validated and the config was written; no revision changes |
| Revisions.SecretProvider.PrepareRevision | harness/secret-provider.ts:220-280 | Exactly which failures end a refresh before the resolver answered, with the error of the first one; each leaves the served secrets and the config alone |
| Revisions.SecretProvider.DoRefresh | harness/secret-provider.ts:220-334 | Whatever step fails: the stored active revision still exists, is validated and has its snapshot; the config is lost exactly by a torn write of it; served secrets change only when the refresh completes, and otherwise the error names the first thing that went wrong |
| Revisions.OutcomesAre | harness/secret-provider.ts:220-334 | When a refresh completes, is on disk only, or loses the config, from its inputs and the failing step |
| Revisions.ErrorsAre | harness/secret-provider.ts:246-333 | Which error a failed refresh shows: "cancelled" exactly for an aborted step it came to, "validation" and "resolve" exactly for their causes, "unknown" otherwise |
| Revisions.SecretProvider.RefreshSecrets | harness/secret-provider.ts:177-215 | Answers success exactly when the integration is enabled; the provider is degraded then exactly when the refresh did not complete |
| Revisions.SecretProvider.RefreshCutAndRestart | harness/secret-provider.ts:220-334 | A refresh cut at any step and a restart: for every key, `get` answers from the new revision or for every key from the old one, unless the config itself was torn, when it answers nothing |
| Revisions.SecretProvider.CleanupOldRevisions | harness/infisical-config.ts:340-372 | The loop removes exactly the candidates of the specification, also when removals fail, and keeps the promise about the active revision |
| Revisions.Operate | harness/secret-provider.ts:103-334 | Over all runs of refreshes cut anywhere, cleanups and restarts from no active revision, the stored active revision is none or a published one |
| Revisions.SuccessWithoutSecrets | harness/secret-provider.ts:177-262 | A refresh with a refused schema: it answers success, is degraded and serves nothing |
| Revisions.TornConfigIsLost | harness/infisical-config.ts:179-200 | A refresh with a torn config write: it answers success, the revision is complete on the disk, and no config is left to name it |
| Revisions.CleanupKeepsNewestAndActive | harness/infisical-config.ts:340-372 | With all removals succeeding, exactly the newest keepCount revisions and the active one are left, unchanged |
| Revisions.RemovedAreOldest | harness/infisical-config.ts:353-362 | No removed revision was created after one kept for its age, and one without metadata counts as the oldest |
| Revisions.CleanupTouchesOnlyRemoved | harness/infisical-config.ts:362-371 | Nothing but the removed revisions changes, of those exactly the leftovers of failing removals stay, and the active one is never among them |
| Sorting.SortIsStable | harness/infisical-config.ts:353-360 | Revisions, like tool results, of the same time stay in the order they were listed in |
| Revisions.KeepsPublished | harness/infisical-config.ts:205-306 | Work on a revision that is not active cannot harm the active one |
| UsageWindows.RollUp | windows.ts:34-46 | The accumulating loop gives the statistics of the whole list |
| UsageWindows.StatsCountAndOldest | windows.ts:34-46 | The request count is the number of records, and the oldest time is the least time of a record |
| UsageWindows.StatsAreAdditive | windows.ts:34-46 | The statistics of a concatenation are the combined statistics |
| UsageWindows.StatsOfOne | windows.ts:34-46 | One record: the sum of its four token fields, one request, its cost, its time |
| UsageWindows.StatsAddUp | windows.ts:34-46 | Tokens, requests and costs of a concatenation add up |
| UsageWindows.StatsIgnoreOrder | windows.ts:34-46 | Any permutation of the records has the same statistics |
| UsageWindows.ResetTimeIsExact | windows.ts:49-58 | From now up to the local reset time, inclusive, the statistics are constant; at every later time there are fewer requests; without a reset time the window stays empty |
| UsageWindows.UtcMidnight | windows.ts:61-64 | A multiple of a day, at most a day before now |
| UsageWindows.AggregateWindows | windows.ts:76-82 | All four windows with their lengths in milliseconds, 5h within 7d within the lifetime and today within 7d |
| UsageWindows.WindowsAreNested | windows.ts:76-82 | The same for the records themselves, each as often as it was appended |
| UsageWindows.SinceKeepsMultiplicity | windows.ts:55-58 | A window holds each record from its cutoff on as often as it was appended, and no other |

## Left out

- Fine-grained interleaving of blackboard saves: a poll turn is atomic, although the code agent saves three more times after handing over (`harness/loop-code-agent.ts:120-129`).
- Blackboard files and JSON, the search for the active loop, the monitor of the controller and its final verdict text, generated code, review prompts and verdict files: input, output or text.
- A blackboard whose report node is missing: the review agent of the source throws there.
- The text of the remaining time ("MM:SS"), the tick interval and how often the host calls a tick: display and scheduling.
- Token estimation, summaries, error-text classifiers and boundary texts: arbitrary inputs here, so the total handed to an invocation is not tied to its messages.
- A clock that moves during one invocation, the compaction callbacks, usage statistics and tool-result tracking.
- A boundary's message count from a forked summarizer: the summarizer may report any number, so the count is stated for the heuristic summary only.
- LoopRuntime.run, handleQuotaPause and saveCheckpoint.
- The retry loop's branch for a `compactResult` is modelled (reply `Compacted`), but the orchestrator never produces that reply, so together the two never use it.
- TaskRetry.ExecuteTask: counts the messages it appends instead of keeping the array, because no promise depends on a text; a compaction inside a turn may shorten the array in between.
- A torn checkpoint file, `setCurrentTask` and `setProvider` (self-transitions the table rejects), injectivity of checkpoint directory names, and the time stamps of events.
- Delays of 2^31 ms or more, which the host's `setTimeout` would run at once, and a callback whose machine was reused for another job.
- Key tree modes are updated by rebuilding the tree on the way back, not in place, so the order of chmods on the disk is not captured; the audit of single credential files, octal formatting and locale comparison of names are missing.
- A cleanup during a refresh, a second refresh at the same time (refused by the source), error texts, and the schema check and resolver, whose answers are arbitrary.
- Floating-point costs, the weekly cutoff, burn rate and mirror deltas of `windows.ts`: rounding or one-line expressions.
- `index.ts`, the Telegram, LINE, relay, Honcho and Qdrant clients, formatters, settings and scrapers: input, output or easy members.
