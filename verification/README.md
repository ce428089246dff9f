# Verified model of the agent runtime

This project models the stateful core of the agent runtime and proves what it is meant to guarantee. To verify it, run
`dafny verify dfyconfig.toml`.

**Coordinator DAG engine.** A task list is a list of mutable `Task` records; `Graphs` defines the dependency graph it
describes, chains, cycles and longest chains. `CycleSearch`, `DepthTable` and `ValidateDag` are the validator, in the
source's order: dangling references, white/gray/black search, memoised depth. `Repair` is what decomposition does with
a rejected list. `Rounds` states one execute/check round as a function on the scheduling state, `Coordinator` is the
class whose nodes change tasks and dictionaries in place and implement that function, and `Scheduling`,
`FinalStatuses` and `ContinueRuns` prove the run-wide claims. The outcome of every task is an arbitrary input.

Three facts about the code came out of the proofs.
- After a first cycle, its tasks stay gray. A later search that walks into one of them calls `path.index` on something
  that is not on its path, and the `ValueError` escapes from `validate_dag`. `ValidateDag` says exactly when:
  some task is not itself left gray, and the walk that follows the first cycle-bound dependency from it meets a task
  an earlier search left gray (`SearchesCollide`). A list with no cycle never raises.
- The failure cap counts cancelled dependents as well as failures under `stop_dependents`, so it can be reached with
  fewer real failures than configured. Cancelled tasks are exactly the ones below a failure if and only if the cap
  never hits a task without a failed dependency. `OneFailureTripsACapOfTwo` is a run in which it does.
- Under `continue` a run can stall: `ContinueStallsExactly` gives the states in which it does, `EndsOrStalls` shows that
  nothing else keeps it going, and `FailureStallsContinue` is a run that stalls.

**Event stream.** `EventStream` models append, publish, subscribe, log read, replay, live delivery, disconnection and
resumption as interleaved steps, and the generator as a class on its own variables. Ids always increase; with
publishing in log order nothing is skipped across reconnections; in any other order a live connection sends exactly the
ids that are newer than everything published before them, and `OvertakenEventIsSkipped` is a run that loses one.
Transient events are all passed on, in their place.

**Clarification replay.** The fold of the log into exchanges, the filter, the preloaded queue and its pop by question
text, with the round trip over all four. Which questions are the same is defined on their characters (`Wordings`).

**Tool calls.** `DesktopCalls` splits `execute` at its awaits and interleaves the pieces with results, withdrawals,
timeouts and aborts. `Gateway` has the policy, the routing and the events around a call, which it ties to the ledger. An
event's target does not always name the executor that runs the call; `TargetNamesExecutor` says when it does, and
`RemoteRunsLocally` is a case in which it does not. A resource pattern that ends in `/*` covers none of the files in the
directory before it, since the slash in front of their names counts (`PatternsCover`, `OneStarCoversNoFile`).

**Accounting.** The monitor's per-model buckets, the estimate and the cost ledger, over exact amounts with
`round(x, 6)` to the even neighbour.

**Context and text.** Context compaction under a budget, on values and in place; the conversation summary watermark
under overlapping builds; length and content of the built context; the Markdown normaliser; the ReAct loop; OfficeCLI's two
command forms and its memory of fatal commands. Here too the code does not always do what it is meant to:
- a blank generated summary makes the next build leave rounds out (`WhenUpdateIsComplete`, `BlankSummaryLosesRounds`);
- a bold line with blank text inside makes the normaliser's second pass change the report (`NormalizationSettles`,
  `BlankBoldNeedsTwoPasses`);
- guidance loaded after a decision is what `call_tool` reads for tools, instead of the decision, so with plain-text
  guidance no tool runs (`GuidanceHidesTheDecision`, `PlainGuidanceRunsNothing`, `SearchIsLost`);
- a failed local `help` command is stored under another form than it is looked up, so it is executed again each time
  (`SameFormExactly`, `HelpIsExecutedAgain`).

Parameters stand for what lies outside: task outcomes and results, the order in which a set of dependencies is
iterated, the clock, invocation ids, model answers, JSON parsing, line extraction, parsed tool output, prices, file
authorization and how a command ends.

## Model

| member | source | states |
|---|---|---|
| CycleSearches.CycleSearch.Dfs | agent/coordinator/executor.py:69-81 | The search finds nothing exactly when no chain from the node runs into a cycle; a reported path is a closed chain of dependencies, namely the loop that the walk along first cycle-bound dependencies ends in; it leaves gray exactly that walk; it raises only if that walk meets a task left gray before |
| Graphs.FirstLoopIsUnique | agent/coordinator/executor.py:69-81 | The graph and the root determine which loop that is, element by element |
| DagValidation.DanglingErrors | agent/coordinator/executor.py:55-63 | For any list, with repeated ids or not: reports every reference to a missing task and nothing else |
| DagValidation.CycleErrors | agent/coordinator/executor.py:66-87 | One error, in list order, for each task that runs into a cycle and is not on the walk of an earlier one that does: the loop its walk ends in. Whatever task runs into a cycle, its walk goes round a reported loop. No error exactly when the graph is acyclic; raises exactly when a search collides with what an earlier one left gray |
| DagValidation.AllLoopsAreReported | agent/coordinator/executor.py:83-87 | With one loop for each root, the walk of every task that runs into a cycle goes round a reported loop |
| Depths.DepthTable.Depth | agent/coordinator/executor.py:32-47 | Terminates on a validated graph with the length of the longest dependency chain; every memo entry, whoever filled it, is already that length, and no entry changes |
| DagValidation.DepthErrors | agent/coordinator/executor.py:89-98 | Reports exactly the tasks whose longest chain is over the limit, with that length |
| DagValidation.ValidateDag | agent/coordinator/executor.py:50-100 | For unique ids and any iteration order of the dependency sets: no errors if and only if every dependency exists, the graph is acyclic and no chain is longer than the limit; otherwise all missing references, or a cycle below every task that runs into one, and which ones and how many, or all tasks that are too deep; and exactly when a `ValueError` escapes |
| DagRepair.Known | agent/coordinator/executor.py:238 | Keeps exactly the dependencies that exist |
| DagRepair.KnownKeepsOrder | agent/coordinator/executor.py:238 | Order and repetitions of the kept dependencies stay |
| DagRepair.AllKnown | agent/coordinator/executor.py:238 | A list without unknown dependencies stays as it is |
| DagRepair.PrunedIsClosed | agent/coordinator/executor.py:236-238 | Dropping unknown references leaves no dangling one, removes no other edge, and changes nothing if there was none |
| DagRepair.ClearedIsValid | agent/coordinator/executor.py:241-242 | A list without dependencies is accepted |
| DagRepair.PruneAll | agent/coordinator/executor.py:236-238 | In place, for any list: every task keeps exactly its known dependencies; statuses stay |
| DagRepair.ClearAll | agent/coordinator/executor.py:241-242 | In place, for any list: every task loses all dependencies; statuses stay |
| DagRepair.Repair | agent/coordinator/executor.py:231-242 | A valid list is left alone; otherwise the result is the pruned list if that is valid and the cleared one if not; the result is always accepted; raises exactly when one of the two validations does |
| DagRepair.ValidMeansNoCollision | agent/coordinator/executor.py:66-87 | On a list that meets the three conditions validation never raises |
| DagRepair.ValidationCanRaise | agent/coordinator/executor.py:72-75 | A concrete list on which it does: a task on itself, and a second one on the first |
| Rounds.Slice | agent/coordinator/executor.py:300 | The slice is the prefix of `max_parallel_tasks` tasks, or of all if there are fewer; a negative number drops tasks from the end |
| Scheduling.InitInv | agent/coordinator/executor.py:250-259 | The state handed over by decomposition meets the scheduler's invariant |
| Scheduling.ExecutedCore | agent/coordinator/executor.py:292-442 | Executing a batch moves exactly the batch out of pending, and keeps dictionaries and statuses in agreement |
| Scheduling.CheckedInv | agent/coordinator/executor.py:455-498 | The check restores the full invariant, only cancels pending tasks, and changes no finished one |
| Scheduling.CapInv | agent/coordinator/executor.py:462-470 | A check at the cap cancels exactly what is pending and restores the invariant |
| Scheduling.StopAllInv | agent/coordinator/executor.py:474-478 | Below the cap, `stop_all` with a failure cancels exactly what is pending without recording it |
| Scheduling.AfterInv | agent/coordinator/executor.py:278-498 | In every reachable state `completed` and `task_vars` are the done tasks, `failed` the failed ones plus the cancelled ones unless under `stop_all` the cap was not reached, nothing is left running, and a task that ran had all its dependencies done |
| Scheduling.LaterPending | agent/coordinator/executor.py:401-498 | Over any run the pending tasks only shrink and the done, failed and cancelled ones only grow |
| Scheduling.NotStartedAgain | agent/coordinator/executor.py:294-300 | No task is started by two rounds |
| Scheduling.StartsAreSafe | agent/coordinator/executor.py:294-315 | A round starts at most `max_parallel_tasks` tasks, each once in the whole run, with all its dependencies done and recorded in `task_vars` |
| Scheduling.NoReadyTaskWaits | agent/coordinator/executor.py:294-300 | A runnable task is left waiting only if the round starts `max_parallel_tasks` tasks that are listed before it |
| Scheduling.RoundShrinksPending | agent/coordinator/executor.py:294-303 | Under `stop_all` and `stop_dependents` every round with something pending leaves strictly less pending |
| Scheduling.ReachesSynthesis | agent/coordinator/executor.py:619-636 | Under either stopping strategy routing reaches `synthesize` within as many rounds as there are tasks |
| FinalStatuses.CauseSurvivesRound | agent/coordinator/executor.py:462-485 | One round keeps every cancellation caused by a failed transitive dependency exactly if the cap, when reached, hits only such tasks |
| FinalStatuses.CauseOverRuns | agent/coordinator/executor.py:462-485 | The same over whole runs, and a run where it fails has nothing pending left |
| FinalStatuses.StopDependentsIsExact | agent/coordinator/executor.py:480-498 | At the end of a `stop_dependents` run every task is done, failed or cancelled, and the cancelled ones are exactly those with a failed transitive dependency if and only if the cap was always harmless, in particular if it was never reached |
| FinalStatuses.ContinueStallsExactly | agent/coordinator/executor.py:455-498 | Under `continue` a round changes nothing and is followed by another exactly when the cap is not reached, something is pending and every pending task has a failed transitive dependency |
| ContinueRuns.StallIsForGood | agent/coordinator/executor.py:455-498 | From such a state every further round, whatever its outcomes, is followed by another and changes nothing |
| ContinueRuns.RoundEndsOrProgresses | agent/coordinator/executor.py:294-303 | From any other state with something pending a round under `continue` leaves strictly less pending |
| ContinueRuns.EndsOrStalls | agent/coordinator/executor.py:619-636 | Under `continue` a run has left the loop or stalled within as many rounds as there are tasks |
| SchedulingExamples.FailureStallsContinue | agent/coordinator/executor.py:487-498 | A run that stalls after its first task fails |
| FinalStatuses.SinksCoverCompleted | agent/coordinator/executor.py:536-547 | If anything completed there is a final task, so the fallback is unreachable, and every completed task is a final one or a transitive dependency of one |
| FinalStatuses.CapCountsCancelledTasks | agent/coordinator/executor.py:462-485 | Under `stop_dependents` the number compared with the cap is failed plus cancelled tasks |
| SchedulingExamples.Instances | agent/coordinator/executor.py:455-498 | The concrete plans of the two example runs |
| SchedulingExamples.OneFailureTripsACapOfTwo | agent/coordinator/executor.py:462-485 | A run in which one failure and its cancelled dependent reach a cap of two, and a task that depends on nothing is cancelled |
| Upstream.BuildTaskVarsEntry | agent/coordinator/state.py:148-159 | An entry names its task and skill and keeps the artifacts; its summary is the text, or for a longer one its first 1997 characters and an ellipsis |
| Upstream.NoDependencyIsSkipped | agent/coordinator/state.py:170-173 | A task about to be started has an entry for every dependency; the skip is never taken, and its input passes on all of them in order |
| Coordinators.Coordinator.constructor | agent/coordinator/executor.py:250-259 | The in-place state starts as the abstract initial state |
| Coordinators.Coordinator.IsTaskReady | agent/coordinator/executor.py:108-115 | Ready exactly if every dependency is in `completed` with status done |
| Coordinators.Coordinator.ReadyTasks | agent/coordinator/executor.py:294-297 | The runnable tasks of the abstract state, in list order |
| Coordinators.Coordinator.RecordResults | agent/coordinator/executor.py:401-434 | Exactly the tasks of the batch become done or failed by outcome, each dictionary gains exactly their ids, and every entry of `task_vars` stays the one made from its task's own result |
| Coordinators.Coordinator.ExecuteTasks | agent/coordinator/executor.py:278-442 | The node with its loops computes the abstract execution, and what it gives each started task tells the entries of its dependencies |
| Coordinators.Coordinator.CancelPending | agent/coordinator/executor.py:466-469 | The cancelling loop cancels the given pending tasks and records them exactly where the strategy does |
| Coordinators.Coordinator.CheckDependencies | agent/coordinator/executor.py:455-498 | The node with its branches and loops computes the abstract check |
| Coordinators.Coordinator.RouteAfterCheck | agent/coordinator/executor.py:619-636 | Routing on statuses and the pending list is the abstract routing |
| Upstream.InjectUpstream | agent/coordinator/state.py:162-182 | The context is one line for each dependency that has an entry, in order, with a blank line between neighbours and nothing else; a line is the skill and the id in brackets, then the whole summary. The artifacts are the artifact lists of these entries one after the other and nothing else |
| Coordinators.Coordinator.FinalTasks | agent/coordinator/executor.py:536-544 | The loop selects the completed tasks that no completed task depends on |
| Coordinators.Coordinator.RunRound | agent/coordinator/executor.py:278-498 | One execute/check round in place is the abstract round, and what it gives each task it starts tells the entries of its dependencies |
| Coordinators.Coordinator.EntriesAreResults | agent/coordinator/state.py:148-159 | Between rounds exactly the done tasks have entries, each made from its own result |
| Coordinators.Coordinator.StartedTaskIsTold | agent/coordinator/state.py:148-182 | A task that a round starts is told, for each of its dependencies in order, the text of its result cut to 2000 characters under its own skill and id, and all its artifacts |
| Coordinators.Coordinator.Run | agent/coordinator/executor.py:619-636 | For every strategy and parallelism: the graph's loop, cut off after a limit of rounds, is in the abstract state of its rounds; with a positive parallelism and a limit of the number of tasks it has left the loop, or stalled under `continue` |
| EventStream.ParseAfterSeq | web/runtime.py:131-140 | The query parameter wins over `Last-Event-ID`, a missing or unreadable header means the start, and a negative number counts as 0 |
| EventStream.EventGenerator.Replay | web/runtime.py:212-216 | The replay loop offers the rows in order, sending those above the last one sent |
| EventStream.EventGenerator.Receive | web/runtime.py:221-242 | A transient message adds one frame without id and moves nothing; a canonical one adds its frame exactly if it is newer than the last one sent, which it then is; anything else changes nothing |
| EventStream.IdsIncrease | web/runtime.py:205-245 | Over all interleavings of appends, publishes and reconnections, in any publishing order, the ids of a connection and of a client's connections together are log entries in strictly increasing order |
| StreamOrder.OrderInvHolds | agent/session/runtime.py:74-99 | With publishing in log order, what is queued and unpublished is always the tail of the log, and nothing between it and what was sent is missing |
| StreamOrder.NothingSkipped | web/runtime.py:205-245 | With publishing in log order, a connection has sent exactly the entries after its start up to the last one sent, the concatenated connections of a client are a gapless piece of the log, and what is newer is still ahead |
| StreamSkips.OfferAllSendsAccepted | web/runtime.py:237-241 | The ids that arrivals put on the wire, for any order of arrival |
| StreamSkips.SkipsNothingExactlyInOrder | web/runtime.py:237-241 | Every new arrival is sent if and only if the new ones arrive in increasing order |
| StreamSkips.SentExactlyWhenNewest | web/runtime.py:237-241 | An arrival is sent if and only if it exceeds what was sent before and every earlier arrival |
| StreamSkips.AcceptedAreNewest | web/runtime.py:237-241 | What any sequence of arrivals puts on the wire is exactly its newest-so-far entries, in order |
| StreamSkips.EveryTransientIsSent | web/runtime.py:231-242 | What goes out without an id is exactly as many frames as there were transient messages |
| StreamSkips.SendsIds | web/runtime.py:231-242 | The ids that go out are the newest-so-far among those that came in, whatever comes in between |
| StreamSkips.LiveConnectionSendsNewest | web/runtime.py:219-242 | While a connection of the system stays live, messages come off its queue in publishing order, and it sends, in that order, a frame for each transient one and for each canonical one newer than everything before it, and nothing else |
| StreamSkips.SkippedExactlyWhenOvertaken | web/runtime.py:205-245 | In runs of the system with any publishing order, between two moments with nothing queued a live connection has sent as many frames without id as transient events were published, and a published id if and only if nothing newer was sent or published before it |
| StreamSkips.OvertakenEventIsSkipped | web/runtime.py:237-241 | A run that ends live with nothing queued and never sends one of two events |
| Replay.GetClarificationHistory | agent/session/runtime.py:349-390 | The loop over the log computes the fold, and falls back to the stored history if it is empty |
| Replay.FoldKeepsOrder | agent/session/runtime.py:360-385 | For any log, the fold keeps the non-blank questions and the non-blank answers, each in order |
| Replay.KeyIdentifies | agent/runtime/interaction.py:70-71 | Two questions have the same key if and only if they have the same runs of non-whitespace characters in the same order; only blank ones have an empty key |
| Wordings.JoinedWords | agent/runtime/interaction.py:71 | Splitting and joining with single spaces keeps exactly the runs of a text |
| Replay.PreloadInOrder | agent/runtime/interaction.py:45-63 | Each reply is kept at the end, stripped, unless its answer or text is blank |
| Replay.ReplyQueue.constructor | agent/runtime/interaction.py:45-63 | The queue holds the non-blank replies, stripped, in order |
| Replay.ReplyQueue.Pop | agent/runtime/interaction.py:74-93 | Takes bare text from the front, else the first reply whose question is not blank and has the same wording as the one asked; removal by value removes that very entry |
| ReplayRoundTrip.EachAskGetsItsAnswer | agent/runtime/interaction.py:74-93 | From any keyed queue, the n-th ask of a question, in whatever spacing, gets its n-th answer whatever is asked in between |
| ReplayRoundTrip.AnswersMatchQuestions | agent/runtime/interaction.py:74-93 | An answer is only handed out for a question with the wording it was recorded for |
| ReplayRoundTrip.UsedUpExactly | agent/runtime/interaction.py:74-93 | The queue empties exactly if no entry has a blank question and each question is asked at least as often as it is stored |
| ReplayRoundTrip.FoldRecovers | agent/session/runtime.py:360-385 | Folding the log of some exchanges yields these exchanges, stripped |
| ReplayRoundTrip.RoundTrip | agent/runtime/task_execution.py:562-574 | For any log: a restarted graph that asks in any order gets, for the n-th ask of a question, the n-th answer folded for it, and exactly when the queue is used up |
| ReplayRoundTrip.RecordedRoundTrip | agent/session/runtime.py:349-385 | If the log records exchanges, these are their answers, up to whitespace at the ends |
| DesktopCalls.DesktopToolExecutor.Begin | agent/hands/desktop_executor.py:41-86 | Sends exactly if there is a connection and every timeout of the task that no payload for it has followed is at least a minute ago; then there is a fresh pending future, else nothing changes |
| DesktopCalls.EachStepShows | agent/hands/desktop_executor.py:41-138 | In every run each step shows what follows from what was observed before, without the executor's tables: when a call is sent, what it returns, and how it ends otherwise |
| DesktopCalls.CoolingIsRested | agent/hands/desktop_executor.py:42-50 | The cooldown entry of a task has run out exactly when its unanswered timeouts are a minute ago |
| DesktopCalls.DesktopToolExecutor.Wake | agent/hands/desktop_executor.py:88-98 | Returns the payload that came first for the call, which ends the cooldown of the task, or is cancelled if a withdrawal came first; the entry is popped |
| DesktopCalls.DesktopToolExecutor.Expire | agent/hands/desktop_executor.py:100-107 | A timeout starts the task's cooldown and leaves the call pending while the cancel is sent |
| DesktopCalls.DesktopToolExecutor.PopPending | agent/hands/desktop_executor.py:108-124 | Every other ending pops exactly this call and leaves the cooldowns |
| DesktopCalls.DesktopToolExecutor.ResolveInvocation | agent/hands/desktop_executor.py:126-132 | Settles the future of a pending call that is not settled, and nothing else |
| DesktopCalls.DesktopToolExecutor.CancelInvocation | agent/hands/desktop_executor.py:134-138 | Likewise with a cancellation |
| DesktopCalls.PendingIsInFlight | agent/hands/desktop_executor.py:65-124 | In every reachable state `_pending` is exactly the calls sent and not finished, and each future is what first happened to its call |
| DesktopCalls.PayloadIsTheFirst | agent/hands/desktop_executor.py:126-132 | A returned payload is the first one received for that call after it was sent, with no withdrawal or timeout before it |
| DesktopCalls.NoSendWhileCooling | agent/hands/desktop_executor.py:42-50 | After a timeout the task's next call is sent at least a minute later, unless one already in flight has returned a payload in between |
| DesktopCalls.FinishesOnce | agent/hands/desktop_executor.py:123-124 | No call finishes twice |
| DesktopCalls.LateResultsAreIgnored | agent/hands/desktop_executor.py:126-132 | A result for an unknown, finished or settled call changes no call and no cooldown |
| Gateway.AllowedByLastScope | agent/hands/gateway.py:47-76 | Without scopes everything is allowed; with some, only what the last scope for the tool covers, by its resource pattern |
| Gateway.PatternsCover | agent/hands/scope.py:44-58 | What each kind of resource pattern covers |
| Gateway.OneStarCoversNoFile | agent/hands/scope.py:54-57 | A directory pattern with one star covers no file of that directory |
| Gateway.ToolGateway.Choose | agent/hands/gateway.py:116-144 | The branches of `execute` choose the executor and the target that the routing rule gives, and which executor that is, for every configuration |
| Gateway.EachExecutorRunsItsTools | agent/hands/gateway.py:116-144 | Exactly which calls run on the desktop, on the remote executor, locally and not at all |
| Gateway.RoutedAtStart | agent/hands/gateway.py:116-144 | A call is routed by the configuration at its start and keeps that route |
| Gateway.DesktopOrNowhere | agent/hands/gateway.py:128-140 | A tool routed to the desktop runs there or nowhere |
| Gateway.TargetNamesExecutor | agent/hands/gateway.py:116-144 | Exactly when the target written to the events names the executor that runs the call |
| Gateway.RemoteRunsLocally | agent/hands/gateway.py:142-144 | A tool routed to a missing remote executor runs locally under the name remote |
| Gateway.EventsAreBracketed | agent/hands/gateway.py:97-213 | Over any interleaving of calls, route changes and failing event writes: no event for a call that its policy does not allow; else at most a started event with its target and one end event after it; both for a call that returned, the end telling what it returned; and only the failure that says so for a desktop tool that is unavailable |
| Gateway.OneRecordPerCall | agent/runtime/cost_logging.py:172-198 | The ledger of the log has exactly one tool record for a call that returned, which says what it returned and how long it took, and at most one for any call |
| Monitoring.MonitoringCollector.Record | core/logger.py:150-151 | Appends to its trace and to no other |
| Monitoring.Charge | core/logger.py:166-183 | The bucket update keeps, for every model, the exact sums of its finished calls |
| Monitoring.MonitoringCollector.GetSummary | core/logger.py:153-208 | The loop computes, per model in order of first use, the sums of its finished calls, the totals, and the duration that the run reported or else the time from its first start to its last end |
| Monitoring.MonitoringCollector.Finalize | core/logger.py:212-215 | The summary goes to the bounded history, the oldest one out; the trace is forgotten, others stay |
| Monitoring.BucketsConserve | core/logger.py:166-183 | The buckets together hold exactly the tokens and calls of all finished calls |
| Monitoring.BucketIsItsCalls | core/logger.py:166-183 | Each bucket holds what the calls of its model used and how many they were, under the role of the first of them |
| Monitoring.BucketsInOrder | core/logger.py:166-183 | One bucket per model, in the order of their first finished calls |
| Monitoring.DurationIsMeasured | core/logger.py:187-191 | Without a reported duration, the milliseconds from the first start to the last end or error |
| Monitoring.LastReportWins | core/logger.py:163-165 | The last duration that the run reported about itself is the one that counts |
| Monitoring.ErrorsAreCounted | core/logger.py:184-185 | The error count is the number of error events |
| Rounding.Round6 | agent/runtime/cost_logging.py:60 | A multiple of a millionth within half a millionth, even on a tie, and the amount itself if it is one |
| Accounting.DriftIsBounded | agent/runtime/cost_logging.py:35-98 | After n records of arbitrary cost each of the three balances is within n half millionths of the exact sum |
| Accounting.DriftIsReached | agent/runtime/cost_logging.py:93 | The bound is reached for every n |
| Accounting.WholeMicrosDriftOnce | agent/runtime/cost_logging.py:35-98 | With whole-micro costs the ledger is exact, except for at most one rounding of an opening balance that is not whole |
| Accounting.EstimateCostUsd | domain/billing/services.py:204-221 | An estimate is a whole number of millionths, within half a millionth of the tariff for the tokens used, and 0 without prices |
| Accounting.OwnPricesDecide | domain/billing/services.py:212-214 | The prices of a model, if it has any, decide alone; otherwise the default ones do, and without them the amount is 0 |
| Accounting.CostInNumbers | domain/billing/services.py:216-221 | In numbers: tokens of input and output at their prices per million, or all tokens at theirs if neither is known |
| Accounting.EstimateCostFromUsage | domain/billing/services.py:223-232 | The loop's result is exactly what the ledger postings of the same usage cost; the last rounding changes nothing |
| Accounting.MergeLlmUsage | agent/runtime/cost_logging.py:131-169 | The loop posts one model record per bucket, in order |
| Accounting.EachBucketIsRecorded | agent/runtime/cost_logging.py:138-168 | The record of each bucket has its role, model, tokens and cost, in order |
| Accounting.StagesArePosted | agent/runtime/cost_logging.py:35-62 | The stage records grow by exactly those that are appended |
| Accounting.MergeToolEvents | agent/runtime/cost_logging.py:172-198 | The loop posts the tool records of the log |
| Accounting.ToolPostingsAreTerminalEvents | agent/runtime/cost_logging.py:180-197 | These are one free record per completed or failed event, in order |
| Accounting.Settle | agent/runtime/task_execution.py:794-820 | A run's ledger rises by exactly the run's estimate in total and model cost, and not in tool cost, if its balances are whole; by it up to half a millionth in any case |
| Accounting.SettleTrace | agent/runtime/task_execution.py:790-820 | The run reports exactly the tokens of all its finished calls, and the ledger gains exactly the records of both merges |
| Compression.Phase1Guarantees | agent/capabilities/context_manager.py:190-212 | Phase 1 ends with the budget met or nothing eligible left; changes only findings two steps old or older; a strong one only with every eligible one that is not, and of equal ones the later first; and none once the budget is met |
| Compression.CurrentStepIsKept | agent/capabilities/context_manager.py:180-218 | The whole compression changes nothing of the current step and empties the raw text of what it changes |
| Compression.CompressionGuarantees | agent/capabilities/context_manager.py:180-218 | Nothing changes within the budget; else it is met or everything two steps old is compacted, and under a token budget that is still exceeded everything older than the current step; what a changed finding becomes by age and strength; and one of the step before changes only if the older ones were not enough |
| ResearchContexts.FindingEntry.CompactEntry | agent/capabilities/context_manager.py:157-178 | In place, the compact form with its sources, and no raw text |
| ResearchContexts.FindingEntry.Squeeze | agent/capabilities/context_manager.py:205-211 | A strong finding gets the model's summary, or the digest if that fails; others the digest |
| ResearchContexts.ResearchContext.SortCandidates | agent/capabilities/context_manager.py:196-200 | The stable sort puts what is compacted first at the end: not strong, then later steps, then later positions |
| ResearchContexts.ResearchContext.PopWhileOver | agent/capabilities/context_manager.py:202-212 | The loop compacts exactly the findings the rule chooses, and the running total is the actual sum of raw lengths |
| ResearchContexts.ResearchContext.Phase1InPlace | agent/capabilities/context_manager.py:190-212 | Phase 1 in place is the rule of phase 1, and the total it returns is the actual sum |
| ResearchContexts.ResearchContext.Phase2InPlace | agent/capabilities/context_manager.py:214-218 | Phase 2 in place compacts exactly what is at least one step old and still raw |
| ResearchContexts.ResearchContext.TriggerCompression | agent/capabilities/context_manager.py:180-218 | The two phases under the budget are the rule |
| ConversationSummaries.Generated | domain/conversations/context.py:101-113 | A summary is the stripped answer, cut to 4500 characters if it is longer, and empty exactly for a blank answer |
| ConversationSummaries.InExactlyOneBatch | domain/conversations/context.py:254-259 | A round is below the watermark if and only if it is in a batch, and batches do not overlap |
| ConversationSummaries.WhenUpdateIsComplete | domain/conversations/context.py:248-265 | A new summary stands for all older rounds if and only if it did not start from an empty text with a watermark below them |
| ConversationSummaries.GetOrUpdateSummary | domain/conversations/context.py:240-277 | One build on its own: when the stored summary is returned, when a new one is made and from which rounds, and what a failed generation or save leaves |
| ConversationSummaries.ReturnedAsIsExactly | domain/conversations/context.py:248-257 | When the stored summary is returned as it is, and which rounds are summarized otherwise |
| ConversationSummaries.BatchesPartition | domain/conversations/context.py:240-272 | However builds overlap and fail, while no generated summary is blank the stored one stands for consecutive, disjoint batches of exactly the rounds below its watermark |
| ConversationSummaries.AtMostTwoLag | domain/conversations/context.py:253-257 | Unless generation fails a build returns a summary of all but at most two older rounds, and one it makes has a higher watermark than the one it read |
| ConversationSummaries.BlankSummaryLosesRounds | domain/conversations/context.py:253-259 | A run in which a blank summary makes three rounds disappear from the next one |
| ConversationContext.TruncateToBudget | domain/conversations/context.py:297-302 | Within the budget; unchanged exactly up to 12001 characters, else cut to 12000 with an ellipsis |
| ConversationContext.Build | domain/conversations/context.py:189-238 | The strategy follows from the number of completed rounds, and the token estimate never exceeds the budget |
| ConversationContext.NothingIsCut | domain/conversations/context.py:189-238 | With summaries of the length the generator allows the cut never happens, and the context is all rounds, or the summary, what retrieval found and the last three rounds, under their headings in that order |
| ConversationContext.RoundsInOrder | domain/conversations/context.py:91-98 | Rounds follow each other in order with a blank line in between |
| ConversationContext.OneRound | domain/conversations/context.py:91-98 | A round is its question and its answer, each cut to 400 characters, without what is missing |
| ConversationContext.FoundInOrder | domain/conversations/context.py:293-294 | What retrieval found, in its order, questions cut to 200 and answers to 650 characters |
| Markdown.NormalizeMarkdownReport | core/content_utils.py:49-76 | The loops compute the normalised report |
| Markdown.CleanedShape | core/content_utils.py:57-76 | What the lines of a report look like, and that a bare heading mark comes from a blank bold line only |
| Markdown.EveryLineIsKept | core/content_utils.py:57-76 | Every line with text is kept in order, stripped or as a heading if it is bold, and set apart from the one before it exactly if it was |
| Markdown.ReturnsBecomeBreaks | core/content_utils.py:53 | A carriage return, with or without a line feed, is one line break |
| Markdown.NormalizationSettles | core/content_utils.py:49-76 | No leading, trailing or doubled blank lines, no carriage return, and idempotent if and only if no line is bold with only whitespace inside |
| Markdown.BlankBoldNeedsTwoPasses | core/content_utils.py:67-69 | A report that the second pass changes |
| ReactLoop.CallTools | agent/sub_graphs/base.py:153-190 | The loop appends one tool message per call the last message names, in order, and is what the tool node does to the state |
| ReactLoop.LoopIsBounded | agent/sub_graphs/base.py:80-113 | In every run `call_tool` is entered at most max(1, max_iterations) times however often the user is asked; `reason` at most once more per question; and a run reaches the end unless it keeps asking |
| ReactLoop.DecisionIsRouted | agent/sub_graphs/base.py:235-243 | A decision leads to the tools, to the user or to the end, exactly as it says |
| ReactLoop.FenceIsRemoved | agent/sub_graphs/base.py:29-36 | A decision in a code block is read from what is between the fences, with or without the second one |
| ReactLoop.AlwaysCallingMeetsTheBound | agent/sub_graphs/base.py:227-249 | The bound is reached for every limit |
| ReactLoop.GuidanceHidesTheDecision | agent/sub_graphs/base.py:120-158 | The tools that a decision names run if and only if no guidance is loaded after it or the guidance parses to the same tools |
| ReactLoop.PlainGuidanceRunsNothing | agent/sub_graphs/base.py:32-43 | With guidance that is not JSON, none of the named tools runs |
| ReactLoop.SearchIsLost | agent/sub_graphs/base.py:120-158 | A world in which a search that was decided on does not run |
| OfficeCommands.SameFormExactly | agent/tools/officecli.py:580-712 | Among specs that compile, the looked-up form is the stored one if and only if the verb is lower-case and not help, the file is authorized under its own name, and `create` has no flags |
| OfficeCommands.HelpForm | agent/tools/officecli.py:597-608 | For help the two forms always differ |
| OfficeCommands.CompilesExactly | agent/tools/officecli.py:580-656 | A spec compiles if and only if validation finds nothing, the verb is known, the file is authorized and a help format is supported |
| OfficeCommands.CompiledSays | agent/tools/officecli.py:610-654 | The compiled arguments for each verb |
| OfficeCommands.OneOption | agent/tools/officecli.py:1021-1036 | An option that is off or null adds nothing, one that is on its dashed flag, any other its flag before each of its texts |
| OfficeCommands.OptionsInOrder | agent/tools/officecli.py:1021-1036 | Options add their arguments one after the other |
| OfficeCommands.PropsInOrder | agent/tools/officecli.py:1014-1018 | Each property is one `--prop name=value`, in order |
| OfficeCommands.HelpTopic | agent/tools/officecli.py:602-607 | A help topic is the words of a text or the non-blank items of a list, and the command path stands in for a missing one |
| OfficeCommands.FatalMemory.Remember | agent/tools/officecli.py:100-106 | Adds the command to its scope and to no other |
| OfficeCommands.FatalMemory.Clear | agent/tools/officecli.py:109-116 | Removes the command from its scope only, and the scope when it becomes empty |
| OfficeCommands.FatalMemory.Execute | agent/tools/officecli.py:715-742 | Blocked, refused, raised or executed, and what the scope remembers afterwards |
| OfficeCommands.KeysFollowVerdicts | agent/tools/officecli.py:719-742 | What is remembered after a call: what failed or was refused, and what was and did not succeed |
| OfficeCommands.RepeatIsBlockedExactly | agent/tools/officecli.py:715-742 | After a fatal failure the same spec is blocked if and only if it ran on the desktop or is canonical |
| OfficeCommands.NeverAgain | agent/tools/officecli.py:715-742 | In any run of desktop calls and canonical ones in a scope, nothing is executed again after it was refused or failed fatally |
| OfficeCommands.HelpIsExecutedAgain | agent/tools/officecli.py:715-742 | A local help command that fails fatally is executed every time |

## Left out

- DagValidation.ValidateDag: task ids are required to be unique, which the source never checks; with repeated ids its dictionaries keep the last task only.
- DagRepair.Repair: likewise for unique ids.
- Coordinators.Coordinator.FinalTasks: a set of ids; the order of the completed dictionary, which only the wording of the synthesis follows, is left out.
- Coordinators.Coordinator.Run: LangGraph's recursion limit appears as a limit on rounds.
- EventStream.ParseAfterSeq: reading the header's integer is a parameter.
- Monitoring.MonitoringCollector.GetSummary: the rendering of events with rounded durations is left out; token counts are integers.
- ReplayRoundTrip.RoundTrip: for queues loaded from a history, whose replies all carry a question; `ReplyQueue.Pop` also covers bare text.
- Depths.DepthTable.Depth: does not model Python's recursion limit, nor the `except RecursionError` around the call.
- Interrupts and checkpoint resumption inside `execute_tasks_node`: they depend on LangGraph; runs without interrupts are modelled.
- `running_tasks`, `skill_runs` and the task's result and error texts: written but not read by scheduling.
- StreamOrder.NothingSkipped: for publishes in log order; a publish that is lost by Redis, or that fails after the append, is an entry that is never published.
- The end of a stream on a terminal task status, keep-alive frames and connection counters: an ended connection is a disconnection at that point.
- `ask_user` after the queue is empty: it waits for a person.
- DesktopCalls: how `asyncio.wait_for` resolves a result that arrives together with its timeout is left open; a settled call may still time out.
- DesktopCalls: the fields of the returned result and the elapsed time; sending is a step that succeeds or fails.
- Gateway: arguments and output in the events, and `bind_deepagents_tools`.
- Accounting: binary floating point; amounts are exact and rounding is to six decimals with ties to even.
- Accounting.MergeToolEvents: parsing a tool's output is a parameter; a record's time and the page inference are left out.
- Quota periods and the usage table: database arithmetic around one sum.
- Compression: line extraction, the rendered source list and the model's summary are parameters; a mutable finding list without repeated entries is required.
- ConversationSummaries.BatchesPartition: rounds are numbered as they complete; a round that completes after a later one, which shifts the numbers, and the reset of the watermark by `persist_summary` are left out.
- ConversationContext.Build: whether retrieval is tried and what it finds is a parameter.
- ConversationContext.TruncateToBudget: the division by 1.5 is exact.
- ReactLoop.LoopIsBounded: from the default state, iteration 0 and running; LangGraph's recursion limit is left out, and JSON parsing is a parameter.
- OfficeCommands.SameFormExactly: commands are compared as argument lists, which shell quoting keeps apart; numbers and dictionaries among the options arrive as text; lower-casing is for ASCII letters.
- OfficeCommands.FatalMemory.Execute: classifying a command's output is a parameter, the remembered message is left out, and calls of one scope come one after the other.
- `agent/root` scheduling and plan validation, providers, search and browser tools, OAuth, HTTP routers, repositories: plumbing or finite tables.
