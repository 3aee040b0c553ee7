# qhook: a verified model

qhook is a durable webhook queue with a workflow engine on top. An incoming event is stored with one
job for every handler and queue that wants it; workers claim the jobs, deliver them over HTTP, retry
or bury them; a workflow run moves from step to step by completing one job and inserting the next.

This project models the parts whose correctness cannot be seen by reading one function, and proves
what they promise:

- **The workflow engine** (`WorkflowModel`, `WorkflowEngine`). Two tables, runs and jobs; one
  transition for each start, claim, recovery, handled delivery and callback. A delivery carries the
  number of its claim and is handled whatever has become of its row, as in the code.
  `WorkflowEngine` is the engine as it works, statement after statement on a mutable store, proved
  to have the effect that the functions of `WorkflowModel` give for it. About those functions:
  `WorkflowOutcome` tells what each delivery leaves from the configuration and the rows alone;
  `WorkflowToken`, `WorkflowDelivery`, `WorkflowLate` and `WorkflowSafety` prove that a run in
  progress waits for exactly one thing, and exactly which deliveries break that;
  `WorkflowFlights` and `WorkflowFresh` add the deliveries in flight and show when a history has no
  such delivery; `WorkflowCallback` proves that callbacks count once in every history;
  `WorkflowResume` what completing a run does to its ancestors;
  `WorkflowJoin`, `BranchOrder` and `WorkflowAnswers` what a join reads, in which order, and whose
  answers they are; `WorkflowBound` how much
  work a run can cause.
- **The parallel counter** (`ParallelCounter`, `ParallelReset`): many completers of one join, with
  the increment as one transaction and, on D1, as an update followed by a read; and two joins of a
  run that follow each other on the same columns.
- **The job queue** (`Jobs`, `JobStore`, `JobProtocol`, `JobBudget`, `Ingest`, `JobRecovery`): the SQL
  statements on the jobs table, many workers that interleave them, accepting events with and without
  a transaction, and what becomes of claimed jobs whose worker is gone.
- **Timed guards** (`CircuitBreaker`, `RateLimiter`): classes with a clock as parameter, and theorems
  over whole histories of calls.
- **Text programs** (`Timestamp`, `Template`, `TemplateStops`, `EnvExpand`, `EnvStops`, `Filter`,
  `OverlayMerge`, on top of `Text`, `Strings`, `JsonDocument`, `JsonReader` and `Chains`): timestamps
  compared as text, the two rewriting loops, the filter language, and the merge of configuration
  overlays.

A delivery takes everything from outside the tables as a `View`: the clock before and after, the
answer, which choice conditions hold, and how long the mapped array is. The HTTP answer is any of
2xx, 4xx, 5xx, time-out and network error. A handled delivery is one step of the model. A history is
timely when every delivery finds its row running and none loses its run.

## Results that limit the code

Where a plain promise is false, the model keeps the code and proves when the promise holds:

- `OneTokenAlongIffBenign`: every run in progress has exactly one token throughout a history, if and
  only if no delivery of it does harm. `DeliveryKeepsIffHarmless` says which do, read from the tables
  before the delivery, for every row status and every reply: of a live row those that lose its run
  (an empty, unreadable or over-long map, a timestamp wait with an unreadable input, a branch whose
  failure is caught), and of a row that is over all but the quiet ones, because the marks that end a
  delivery have no guard on the status.
- `PromptRunsKeepToken`: late deliveries do not occur as long as no row is recovered while its
  delivery is in flight; `OvertakenDeliveryDoublesToken` shows that one such recovery is enough.
- `FailedChildStrandsParent`: when a sub-workflow fails, its parent run stays in progress for ever.
- `EndIgnoredAfterSubWorkflow`: the `end` flag of a sub-workflow step is not honoured when the child
  completes (wait steps ignore theirs too).
- `LateWorkIsUnbounded`: what a run can cause is bounded over timely histories only; a late delivery
  that does no harm is handled as often as it comes.
- `SplitJoinsTwice`: under D1 a join can be made twice. `SecondJoinIsRight`: as long as it is not, the
  join of a later fork on the same columns is right in every interleaving; `SecondJoinEarly`: once it
  is, the later join can be made while all its branches but one are missing.
- `FailureBudget`: a job that was never revived fails at most max(1, max_attempts) times and once
  more for every stale mark, that is, a mark that succeeds although the row was claimed since its copy
  was selected; `StaleMarksOverrun` reaches the bound for every number of stale marks.
  `NumberedIffFresh`: every delivery carries the number of its claim exactly while there are none, and
  `OnePollerIsFresh`: one poller makes none.
- `RetryCompletesIff`: without a transaction the retry after a crash restores every job if and only if
  the crash came before the event was inserted or after its last job, or the event has no key.
- `SecondProbeIff`: while a probe is under way another request is admitted if and only if another
  request's outcome was recorded since and the circuit then lets it through.
- `ItemOrderIffTen`: the merged array of a map is in item order exactly up to ten items.
- `AgreesIffSafe`: the template loop is a single pass on every template exactly when no replacement
  contains `{{` or ends in `{`. Otherwise it may still stop, with another result, and does so when no
  replacement contains `}` (`StopsWithoutBrace`), or never stop (`SelfReferenceNeverStops`).
  `PayloadStopsIffNoCycle`: when the strings of the payload are themselves written as templates, it
  stops on every template exactly when no string refers back to itself through others.
- `StopsIffNoCycle`: when the values of the environment are written in the reference syntax, expansion
  stops on every text exactly when no variable refers back to itself through others;
  `StopsOnEveryText`: it also does when one of `$`, `{` and `}` is in no value.
- `FaithfulIffFlat`: `${NAME:-default}` means what it says in every environment without dollar signs
  exactly when no default contains a reference; `NestedDefault` gives the stray brace.
- `EvaluatesIffReadable`: the filter evaluator reads plain filters correctly except the pattern
  `exists` and the empty list.
- `FaithfulIffFourDigits`: text comparison of times is right exactly for years below 10000.
- `AssociativeIffNothingHidden`: when three overlays can be merged in either order of association.
- `FewerThanTwiceTheLimit`: the per-IP limiter is described as a sliding window in
  `src/api.rs:83` but is a fixed one; it admits up to twice the limit less one in a second, and
  `BoundIsReached` shows that this happens.

## Model

| member | source | states |
|---|---|---|
| WorkflowConfig.Validate | src/config.rs:785-965 | of the checks made when a configuration is loaded, those on the shape of workflows accept if and only if names are distinct, gotos exist, forks have branches, and sub-workflows exist and are others |
| WorkflowConfig.CheckSteps | src/config.rs:796-965 | the same for the steps of one workflow |
| WorkflowConfig.CheckStep | src/config.rs:813-965 | the same for one step and its kind |
| WorkflowConfig.CheckDistinct | src/config.rs:801-811 | inserting into a set finds a repeated name if and only if there is one |
| WorkflowConfig.CheckGotos | src/config.rs:824-870 | every goto names a step, or the check fails |
| WorkflowModel.FirstCatchIsFirst | src/queue.rs:1213-1241 | the catch rule chosen is the first that matches the error; none is chosen only if none matches |
| WorkflowModel.FirstHoldingIsFirst | src/queue.rs:1414-1428 | the choice rule chosen is the first whose condition holds; none is chosen only if none holds |
| WorkflowModel.FindToken | src/db.rs:1627-1672 | a token finds a job that carries it, or there is none |
| WorkflowEngine.Engine.constructor | src/db.rs:148-376 | both tables start empty |
| WorkflowEngine.Engine.MarkJob | src/db.rs:663-719 | a mark changes the status of one job row, whatever it was |
| WorkflowEngine.Engine.SaveStepOutput | src/db.rs:1272-1282 | a step's output is saved on its job |
| WorkflowEngine.Engine.MarkRun | src/db.rs:1191-1220 | one run row is completed or failed |
| WorkflowEngine.Engine.UpdateRunStep | src/db.rs:1179-1189 | one run row notes its current step |
| WorkflowEngine.Engine.InsertWorkflowJob | src/db.rs:1222-1270 | one job of the step is appended, available and untried |
| WorkflowEngine.Engine.SetParallelState | src/db.rs:1355-1379 | a join is opened on one run with its count, nothing completed |
| WorkflowEngine.Engine.IncrementParallelCompleted | src/db.rs:1381-1419 | one is added and both columns are returned as they then are |
| WorkflowEngine.Engine.EnterStep | src/queue.rs:1100-1136 | the run notes the step and gets its job |
| WorkflowEngine.Engine.AdvanceRun | src/queue.rs:1071-1136 | the run goes to the next step, or completes and resumes its parent |
| WorkflowEngine.Engine.ResumeParentWorkflow | src/queue.rs:2348-2437 | the recursion over parents has the effect of ResumeParent, and terminates because parents are older |
| WorkflowEngine.Engine.LeaveStep | src/queue.rs:1050-1136 | as AdvanceRun, and the step's `end` flag completes the run |
| WorkflowEngine.Engine.HandleBranchCompletion | src/queue.rs:1685-1856 | output saved, completion counted; the last one closes the join and leaves the step (what is merged is in WorkflowJoin) |
| WorkflowEngine.Engine.HandleStepSuccess | src/queue.rs:957-1136 | branch jobs are counted; a run past its deadline fails; any other run leaves the step |
| WorkflowEngine.Engine.RouteToCatchStep | src/queue.rs:1311-1388 | the job is done and the run stands at the catch step with a new job |
| WorkflowEngine.Engine.MatchingCatch | src/queue.rs:1213-1241 | the loop over catch rules finds the first that matches |
| WorkflowEngine.Engine.HandleStepFailure | src/queue.rs:1168-1307 | has the effect of StepFailure: retry, else first matching catch, else continue, else bury the job and fail the run; which errors do what is in WorkflowOutcome |
| WorkflowEngine.Engine.HoldingRule | src/queue.rs:1414-1423 | the loop over choices finds the first whose condition holds |
| WorkflowEngine.Engine.HandleChoiceStep | src/queue.rs:1391-1498 | the run goes to the chosen step, to the default, or fails |
| WorkflowEngine.Engine.OpenJoin | src/queue.rs:1501-1575 | the join is opened and one job for each branch inserted |
| WorkflowEngine.Engine.HandleMapStep | src/queue.rs:1578-1682 | one job for each item, named by its position; nothing for an unreadable input; no job for an empty list |
| WorkflowEngine.Engine.HandleWaitStep | src/queue.rs:1859-1997 | the run advances, unless a timestamp cannot be read |
| WorkflowEngine.Engine.HandleCallbackStep | src/queue.rs:2000-2119 | a waiting job with a fresh token is inserted |
| WorkflowEngine.Engine.LaunchRun | src/queue.rs:2262-2345 | a run with its first job is inserted, linked to its parent |
| WorkflowEngine.Engine.Deliver | src/queue.rs:480-887 | deadline, internal step, success and failure are told apart as in the model's one delivery |
| WorkflowEngine.Engine.ResumeCallback | src/queue.rs:2122-2259 | only a job that still waits is resumed |
| WorkflowOutcome.RetryOutcome | src/queue.rs:1190-1210 | a failed HTTP step or branch is put back, and nothing else changes, if and only if its claim number is below max_attempts and its retry rule, if it has one, lists the class of the error or all |
| WorkflowOutcome.CatchOutcome | src/queue.rs:1213-1241 | else the run goes to the step of the first catch rule that lists the class, and the job is done |
| WorkflowOutcome.UncaughtOutcome | src/queue.rs:1243-1307 | else `continue` goes on as after a success with an error payload, and otherwise the job is buried and its run fails |
| WorkflowOutcome.DeadlineOutcome | src/queue.rs:497-526 | a delivery that starts after its run's deadline buries the job and fails the run, whatever the step |
| WorkflowOutcome.SuccessOutcome | src/queue.rs:957-1136 | a success saves its body; the run leaves the step, or fails when its deadline passed meanwhile |
| WorkflowOutcome.BranchOutcome | src/queue.rs:1685-1856 | a branch's success saves its body and is counted; the last one closes the join and leaves the step |
| WorkflowOutcome.ChoiceOutcome | src/queue.rs:1391-1498 | the run goes where the first holding rule leads, else where the default leads, else it fails |
| WorkflowOutcome.ParallelOutcome | src/queue.rs:1501-1575 | one untouched job for each branch, and a join that counts them |
| WorkflowOutcome.MapOutcome | src/queue.rs:1578-1682 | one untouched job for each item, named by its decimal position; the output `[]` and no job for an empty list; nothing for an unreadable input |
| WorkflowOutcome.WaitOutcome | src/queue.rs:1859-1997 | the run goes to the next step, or completes after the last, unless the timestamp's input cannot be read |
| WorkflowOutcome.CallbackOutcome | src/queue.rs:2000-2119 | one job that waits under a fresh token |
| WorkflowOutcome.SubWorkflowOutcome | src/queue.rs:2262-2345 | a run of the target at its first step, without a deadline, that knows its parent's run and step |
| WorkflowOutcome.StartOutcome | src/db.rs:1148-1177 | a started run stands at its first step, with its deadline and one untouched job |
| WorkflowOutcome.ResumedOutcome | src/queue.rs:2122-2259 | a callback saves its body on the job that waits and leaves the step; on any other job it changes nothing |
| WorkflowOutcome.ClaimOutcome | src/db.rs:645-661 | a claim takes a row on offer and counts one attempt; a recovery offers a running row again |
| WorkflowToken.TakeToken | src/queue.rs:957-1136 | finishing a run's one live job leaves that run alone between two tokens |
| WorkflowToken.GiveJob | src/queue.rs:1100-1136 | inserting the next job restores the invariant |
| WorkflowToken.GiveJoin | src/queue.rs:1501-1682 | so does opening a join of at least one and countably many branches |
| WorkflowToken.GiveChild | src/queue.rs:2262-2345 | so does launching a child run |
| WorkflowToken.CompleteMovesHole | src/queue.rs:2348-2437 | completing a child leaves its parent between two tokens, standing at its sub-workflow step |
| WorkflowDelivery.DeliverKeeps | src/queue.rs:957-2345 | handling a delivery of a live row keeps the one-token invariant if and only if it does not lose its run |
| WorkflowDelivery.BranchCaught | src/queue.rs:1213-1241 | a catch on a branch job breaks the invariant |
| WorkflowDelivery.ForkTooWide | src/queue.rs:1640-1640 | so does a fork wider than its 32-bit count |
| WorkflowLate.DeliverLateIff | src/db.rs:663-719 | handling a delivery of a row that is over keeps the invariant if and only if it is quiet, told from the statuses of its run and the run's ancestors, and from the live branches |
| WorkflowSafety.DeliveryKeepsIffHarmless | src/queue.rs:480-1307 | the exact condition for every row status, claim number and reply, read before the delivery |
| WorkflowSafety.EventKeepsToken | src/queue.rs:957-2345 | every event keeps the one-token invariant if and only if it is not a harmful delivery |
| WorkflowSafety.OneTokenAlongIffBenign | src/queue.rs:957-2345 | the invariant holds in all states of a history if and only if no delivery of it does harm |
| WorkflowSafety.EveryRunFromEmptyTables | src/queue.rs:957-2345 | in particular from empty tables |
| WorkflowSafety.TimelyHarmless | src/queue.rs:957-2345 | for a row that is running only the ways to lose the run do harm |
| WorkflowSafety.OverIsOver | src/queue.rs:957-2345 | over histories whose deliveries find their row running, whatever copy they carry, completed and failed runs keep their status, finished jobs their row, and no job is inserted for a run that is over |
| WorkflowCallback.CallbackCountsOnce | src/db.rs:1627-1656 | after any history, a second callback with the same token changes nothing, whatever history lies in between |
| WorkflowSafety.FailedChildStrandsParent | src/queue.rs:2348-2437 | over timely histories, the parent of a failed child run stays in progress without jobs for ever |
| WorkflowSafety.LateDeliveryDoublesToken | src/db.rs:663-719 | a second success of a finished step that has a next one always breaks the invariant |
| WorkflowFlights.PromptIsTimely | src/queue.rs:302-360 | when no row is recovered while its delivery is in flight, every delivery finds its row running |
| WorkflowFlights.PromptRunsKeepToken | src/db.rs:1034-1062 | for any number of workers, with fresh or stale copies of their rows, such histories keep the invariant, and what is over stays over |
| WorkflowFresh.PromptRunIsBounded | src/db.rs:590-607 | when copies are fresh too, as with claims in one statement, one run causes at most the deliveries that it costs |
| WorkflowFlights.OvertakenDeliveryDoublesToken | src/db.rs:1034-1062 | one recovery of a row whose delivery is in flight leads to a run with two tokens |
| WorkflowResume.ChainLinks | src/queue.rs:2348-2437 | each run of the chain is the parent of the one below, waiting at its last step |
| WorkflowResume.ResumeCompletesChain | src/queue.rs:2348-2437 | resuming completes exactly the maximal chain of such parents and moves the one above on with one job, or nobody |
| WorkflowResume.EndIgnoredAfterSubWorkflow | src/queue.rs:2374-2396 | a sub-workflow step marked `end` is followed by the next step all the same |
| WorkflowJoin.EveryForkIsRight | src/queue.rs:1501-1856 | over timely histories with forward gotos, every open join is over exactly the branch rows of its step, and counts the done ones |
| WorkflowJoin.JoinSeesEveryBranch | src/db.rs:1486-1507 | the last completer reads back exactly one row for each branch of its fork, and each is the name and the output of a done branch job |
| WorkflowJoin.ParallelMergesBranches | src/queue.rs:1740-1750 | the merged object has exactly the configured branches as keys, and under each the output of that branch's job; the last branch's is its body |
| WorkflowJoin.MergedObjectKeys | src/queue.rs:1740-1750 | the keys of a merged object are the names of its rows |
| WorkflowJoin.MergedObjectValues | src/queue.rs:1740-1750 | and each row's output is kept under its name when no two rows have one name |
| WorkflowJoin.MapMergesItems | src/queue.rs:1728-1739 | the merged array has one output for each item, in the text order of the item numbers; up to ten items, item i's job has its output at position i |
| WorkflowAnswers.BranchKeepsAnswer | src/queue.rs:1698-1701 | over every timely history a branch that is done keeps the answer to its last delivery: the body, or the error payload under `continue` |
| WorkflowAnswers.ParallelMergesAnswers | src/queue.rs:1719-1750 | so over timely histories with forward gotos the merged object has under each branch the answer to that branch's last delivery |
| WorkflowAnswers.MapMergesAnswers | src/queue.rs:1719-1739 | and the merged array of at most ten items has at each position the answer to that item's last delivery |
| BranchOrder.OrderByNameSorts | src/db.rs:1499-1503 | the select's order is a permutation of the rows, sorted by name as text |
| BranchOrder.OrderByNameKeeps | src/db.rs:1499-1503 | rows already in order stay as they are |
| BranchOrder.ItemOrderIffTen | src/queue.rs:1650-1668 | outputs come in item order for all lists of n items if and only if n is at most ten |
| WorkflowBound.BudgetEvent | src/queue.rs:1168-1498 | every event that is no late or losing delivery spends what it handles from the budget of the tables; only a start adds to it, and a delivery whose copy of the row is old costs one at most |
| WorkflowBound.WorkIsBounded | src/queue.rs:1168-1498 | over every timely history, deliveries handled never exceed the budget, what starts added, and the deliveries whose copy of the row was old |
| WorkflowBound.OneRunIsBounded | src/queue.rs:1168-1498 | over every timely history, one run causes at most the dearest way through its steps of branches times attempts, child runs included, and one for each delivery whose copy was old |
| WorkflowBound.LateWorkIsUnbounded | src/db.rs:663-719 | late deliveries of a completed one-step run are benign and are handled any number of times |
| WorkflowBound.ForkCostIsProduct | src/queue.rs:1501-1682 | a fork costs the number of its branches times max(1, max_attempts) |
| ParallelCounter.AtomicCounts | src/db.rs:1381-1419 | the atomic increment returns 1 to n without repeats in order of completion |
| ParallelCounter.AtomicJoinsOnce | src/queue.rs:1705-1717 | exactly the last of n completers passes the test |
| ParallelCounter.MissingBranchNeverJoins | src/queue.rs:1705-1717 | while a completer is missing nobody passes |
| ParallelCounter.SplitJoinsAtLeastOnce | src/d1_db.rs:1027-1045 | split increment, any interleaving of one join's completers: exactly those who read after the last increment pass, and at least one does |
| ParallelCounter.SplitJoinsTwice | src/d1_db.rs:1027-1045 | two can pass |
| ParallelReset.JoinsAtLeastOnce | src/d1_db.rs:1012-1056 | the same with the clear and the fork after the join among the interleavings: whoever passes read when all had completed, and somebody passes |
| ParallelReset.SecondJoinIsRight | src/d1_db.rs:1012-1056 | when one completer passes the first join, exactly those who read after the second join's last increment pass it, and at least one does, slow readers of the first join included |
| ParallelReset.SecondJoinEarly | src/d1_db.rs:1047-1056 | when two pass the first join, the second's clear lets the later join be made with all branches but one missing |
| Jobs.RetryAfter | src/queue.rs:2535-2541 | a Retry-After counts, as it is, if and only if it is a number from 1 to 86400 seconds (delay-seconds, section 10.2.3 of RFC 9110) |
| Jobs.RetryDelayBounds | src/queue.rs:2615-2652 | a reschedule delay is the Retry-After or lies in [48 s, 36864 s) |
| Jobs.JitterBounds | src/queue.rs:2632-2636 | the jittered delay is within a fifth of its base, up to truncation |
| Jobs.PushBackoffTable | src/queue.rs:2635-2635 | 30 seconds doubled with every attempt, up to the tenth: 30, 60, ... 30720 |
| Jobs.QueueBackoffTable | src/db.rs:1928-1930 | the same for a message that is given back, up to an hour: 30, 60, ... 1920, 3600 |
| Jobs.RetryDelayTable | src/queue.rs:2632-2637 | a delay is a valid Retry-After, else the product of table and jitter, truncated |
| JobStore.Store.SelectBatch | src/db.rs:583-633 | at most the limit of due rows, earliest first, without repeats |
| JobStore.Store.FetchAndClaim | src/db.rs:590-607 | of the push rows available or retryable and due, the earliest are taken up to the limit; each of them runs from now with one attempt more, and nothing else changes |
| JobStore.Store.FetchAvailable | src/db.rs:608-622 | the select form returns copies and changes nothing |
| JobStore.Store.MarkJobRunning | src/db.rs:645-661 | a row that is available or retryable runs from now with one attempt more; any other is left as it is |
| JobStore.Store.MarkJobCompleted | src/db.rs:663-676 | the row is completed, at the given time, and nothing else changes |
| JobStore.Store.MarkJobRetryable | src/db.rs:678-701 | the row is retryable and due at the given time, and nothing else changes |
| JobStore.Store.MarkJobDead | src/db.rs:703-720 | the row is dead, at the given time, and nothing else changes |
| JobStore.Store.HandleFailure | src/queue.rs:2615-2652 | buries the job at its last attempt, else puts it back after the delay of that attempt; nothing else changes |
| JobStore.Store.RecoverStaleJobs | src/db.rs:1034-1062 | row by row: exactly the push rows that ran since the cutoff or longer are put back for now, all others are unchanged, the changed rows are counted, and none is left |
| JobStore.Store.FetchQueueMessages | src/db.rs:1796-1870 | of this queue's rows available or retryable and due, the earliest are taken up to the limit; each of them runs from now with one attempt more, and nothing else changes |
| JobStore.Store.AckQueueMessages | src/db.rs:1872-1904 | for any id list, exactly the distinct listed rows running under the handler are completed at the given time, and counted |
| JobStore.Store.NackQueueMessages | src/db.rs:1906-1962 | those rows are each put back within a fifth of their base delay, or buried, by their attempts; both are counted, nothing else changes |
| JobStore.NackedAgain | src/db.rs:1928-1934 | a row put back with any jitter lies within a fifth of its base delay |
| JobStore.Store.RecoverExpiredQueueMessages | src/db.rs:1964-1994 | row by row: exactly this queue's rows past their visibility time-out are put back for now, all others are unchanged, the changed rows are counted, and none is left |
| JobStore.QueueDelayBounds | src/db.rs:1928-1932 | a nack's delay stays below 4320 s, its base below an hour |
| JobStore.PushAndPullDisjoint | src/db.rs:1034-1062 | push and pull claims and recoveries act on disjoint rows |
| JobStore.AckOnce | src/db.rs:1872-1904 | acknowledging a second time does nothing |
| JobProtocol.ClaimExclusion | src/queue.rs:302-360 | deliveries in flight plus one if on offer never exceed one plus revivals; without revivals one worker at a time, and only while the row is running |
| JobBudget.FailureBudget | src/queue.rs:2615-2652 | for any number of workers and a job never revived: attempts equal claims, and failures stay within max(1, max_attempts) plus the number of stale marks; with one attempt it never fails twice |
| JobBudget.NumberedIffFresh | src/db.rs:645-661 | every delivery of a history carries the number of its claim if and only if every mark that succeeded found the row's attempt equal to its copy's |
| JobBudget.FailureDecides | src/queue.rs:2615-2652 | without stale marks, a failed delivery buries the job exactly at its last claim, else puts it back after the delay of that claim; nothing else changes |
| JobBudget.OnePollerIsFresh | src/queue.rs:301-323 | one poller, which may drop the rest of a batch, or any number that claim in one statement, makes no stale mark |
| JobBudget.StaleMarksOverrun | src/db.rs:608-661 | for every max_attempts from 2 and every number of stale marks a history in which the job fails that many times past its budget |
| JobRecovery.StartIsLastClaim | src/db.rs:590-661 | over every history of workers a running row carries the time of its last claim |
| JobRecovery.WorkerRecovered | src/db.rs:1034-1062 | so recovery puts a running push row back, due at once, if and only if its last claim is at least the stale time ago; else it keeps running |
| JobRecovery.DeliveryColumns | src/queue.rs:340-348 | a success completes its row, a rejection by the circuit breaker puts it back for ten seconds, and no other row changes |
| JobRecovery.StartIsLastStatement | src/db.rs:1796-1870 | over every history of statements, push and pull, a running row carries the time of its last claim |
| JobRecovery.MessageRecovered | src/db.rs:1964-1994 | so the visibility time-out puts a running message back, due at once, if and only if its last claim is at least the time-out ago |
| JobRecovery.NothingInvisibleForLong | src/db.rs:1964-1994 | after the recovery of a queue, in every history, each of its running messages was claimed less than its visibility time-out ago |
| JobRecovery.NothingStaleForLong | src/db.rs:1034-1062 | and after the recovery of stale jobs each running push job was claimed less than the stale time ago |
| Ingest.CollectJobs | src/api.rs:1020-1066 | the loops collect the planned jobs of handlers, then queues |
| Ingest.PlanIsComplete | src/api.rs:1020-1066 | exactly the matching rules whose filter passes get a job |
| Ingest.UniqueKeyIsFirst | src/api.rs:1005-1015 | an event's key is the one configured for the first matching handler, else for the first matching queue |
| Ingest.EventStore.InsertEventAndJobs | src/db.rs:451-546 | with a transaction a crash leaves nothing, an event whose source and key are known leaves nothing, and any other adds the event and each planned job, available, untried and due from now |
| Ingest.EventStore.InsertOneByOne | src/d1_db.rs:241-265 | without one a crash leaves the event and the planned jobs up to it, available, untried and due from now |
| Ingest.NothingIsLost | src/db.rs:451-1096 | over any history: one event for each source and key, with the key its rules give it; every job's event exists; ended rows have a completion time; and each rule that matches an accepted event and whose filter passes has its job, or it was cleaned up after it ended, or drained |
| Ingest.EventsStay | src/db.rs:451-546 | an accepted event stays, and so does its plan |
| Ingest.AcceptedStaysDue | src/db.rs:526-546 | over every history that does nothing to it by its id, its handler or its age, an accepted job is untried and can be fetched from its arrival on and not before: push jobs by workers, queue jobs from their queue |
| Ingest.StatementKeepsRows | src/db.rs:1034-1096 | no statement moves a row to another event or handler or changes its max_attempts; rows leave only by cleanup after their end or by a drain |
| Ingest.MaintenanceColumns | src/db.rs:1065-1130 | expiry buries exactly the rows on offer of that age, cleanup removes exactly the ended rows past retention, a manual retry offers its rows again at once, a drain removes exactly its handler's rows |
| Ingest.RetryAfterCrashIsComplete | src/api.rs:1068-1083 | a sender that retries after a crash gets the event with all its jobs |
| Ingest.RetryCompletesIff | src/d1_db.rs:241-265 | without a transaction the retry restores every job if and only if the crash came before the event insert or after the last job insert, or the event has no key |
| Ingest.RetryAfterCrashIsDropped | src/d1_db.rs:241-265 | otherwise no retry, crashed or not, changes anything, and the missing jobs stay missing |
| CircuitBreaker.Guard.constructor | src/queue.rs:48-57 | a breaker starts closed |
| CircuitBreaker.Guard.State | src/queue.rs:59-72 | closed without an opening time, open until the cooldown is over, then half-open |
| CircuitBreaker.Guard.AllowRequest | src/queue.rs:74-87 | a half-open circuit lets a request through only if it can set the flag |
| CircuitBreaker.Guard.RecordSuccess | src/queue.rs:89-95 | everything is reset |
| CircuitBreaker.Guard.RecordFailure | src/queue.rs:97-119 | the failure is counted and, at the threshold, opens or reopens the circuit |
| CircuitBreaker.ClosedIffBelowThreshold | src/queue.rs:28-119 | over every history the circuit is closed if and only if fewer failures than the threshold followed the last success, wrap-around included |
| CircuitBreaker.ReportsOpeningOnce | src/queue.rs:97-119 | a failure returns true exactly when it opens a closed circuit and the threshold is not zero |
| CircuitBreaker.FailedProbeReopens | src/queue.rs:97-119 | a failure on a half-open circuit restarts the cooldown exactly while the 32-bit count is at the threshold or above |
| CircuitBreaker.OneProbeBetweenOutcomes | src/queue.rs:74-87 | between two outcomes an open circuit admits exactly the first request after its cooldown |
| CircuitBreaker.ClosedAdmitsAll | src/queue.rs:74-87 | a closed circuit admits every request and stays as it is |
| CircuitBreaker.SecondProbeIff | src/queue.rs:74-119 | after any history with a probe under way, one more request is admitted if and only if another request's outcome was recorded since and the last one left the circuit closed, or half-open with nobody admitted since |
| CircuitBreaker.LateFailureAllowsSecondProbe | src/queue.rs:97-119 | for every threshold a history from a new breaker in which an older request's failure lets a second probe go out while the first is under way |
| RateLimiter.IpRateLimiter.constructor | src/api.rs:95-100 | no address is known at first |
| RateLimiter.IpRateLimiter.CheckIp | src/api.rs:102-125 | a request is counted in its window, opens a new one, or is refused, also when the table is full |
| RateLimiter.IpRateLimiter.CleanUp | src/api.rs:126-131 | exactly the entries of the last minute are kept |
| RateLimiter.TableBounded | src/api.rs:91-109 | the table never exceeds its cap |
| RateLimiter.EntriesTrack | src/api.rs:102-125 | an entry records how many requests were admitted since its window opened |
| RateLimiter.FewerThanTwiceTheLimit | src/api.rs:86-132 | over every history fewer than twice the limit of an address's requests are admitted in any second |
| RateLimiter.BoundIsReached | src/api.rs:102-125 | for every limit a history admits one less than twice the limit in a second |
| RateLimiter.CleanupChangesNoVerdict | src/api.rs:126-131 | while the addresses fit the table, every request is answered as if no cleanup had run |
| Timestamp.TextOrderIsTimeOrder | src/db.rs:10-20 | for years of four digits text order is the order of instants truncated to milliseconds |
| Timestamp.DueTestIsFaithful | src/db.rs:593-598 | the SQL test `scheduled_at <= now` holds exactly when the time is not after now's millisecond |
| Timestamp.FiveDigitYearsSortFirst | src/db.rs:10-20 | from the year 10000 on a time sorts before all earlier ones |
| Timestamp.FaithfulIffFourDigits | src/db.rs:10-20 | the comparison is right if and only if the other year has four digits |
| Timestamp.FarFutureText | src/db.rs:1599-1601 | the callback's sentinel is the text of the last millisecond of 9999 |
| Timestamp.FarFutureIsNotDue | src/db.rs:1599-1601 | no other time reaches it |
| Strings.FindIsLeftmost | src/api.rs:2243-2245 | a search finds the leftmost occurrence, and nothing only when there is none |
| Filter.AnswerIsMeaning | src/api.rs:1999-2139 | each operator means what it says: order tests compare the two numbers, `contains` finds a part or an equal item, `starts_with` and `ends_with` an end, `==` and `in` equal scalars, and a bare path is neither missing, null, false, zero nor empty |
| JsonDocument.Resolve | src/api.rs:1965-1974 | the loop over the parts of a path walks down objects |
| JsonReader.ResolveReaches | src/api.rs:1965-1974 | a path of keys resolves to a value if and only if the keys, one after the other, lead to it |
| JsonReader.ExtractReaches | src/api.rs:1965-1974 | a filter's path gives the value that its keys reach in the payload, and none when the payload is not JSON |
| JsonReader.PrintReads | src/api.rs:2258-2262 | printed JSON is read back as the value it was printed from, in front of any text that ends a number |
| JsonReader.ReplacementReads | src/api.rs:2248-2265 | a template reference becomes `null` where its path leads nowhere, for a string text that is read as that string between the template's quotes, else text that is read as the value |
| JsonDocument.PrintNoPair | src/api.rs:2258-2258 | printed JSON has no `{{` when no string or key has, and does not end in `{` |
| Template.ApplyTransform | src/api.rs:2235-2270 | the rewriting loop stops on a safe payload for every template and equals the single left-to-right pass |
| Template.Substitute | src/api.rs:2247-2266 | one replacement is one round of the loop |
| Template.AgreesIffSafe | src/api.rs:2235-2270 | loop and single pass agree on every template if and only if no replacement contains `{{` or ends in `{` |
| Template.PlainIsSafe | src/api.rs:2235-2270 | a payload whose strings and keys have no `{{` and whose strings do not end in `{` is safe |
| Template.StopsWithoutBrace | src/api.rs:2235-2270 | the loop stops on every template, safe or not, when no replacement contains a closing brace |
| TemplateStops.StopsIffNoCycle | src/api.rs:2235-2270 | for finitely many replacements written as templates, the loop stops on every template if and only if following references from a replacement never takes more steps than there are replacements |
| TemplateStops.PayloadStopsIffNoCycle | src/api.rs:2235-2270 | so it is for payloads of scalars and of strings written as templates, escaping and trimming of references included |
| Template.SelfReferenceNeverStops | src/api.rs:2235-2270 | a string that refers to itself keeps the loop going for ever |
| EnvExpand.ExpandEnvVars | src/config.rs:1233-1257 | on every environment and text on which the loop stops, it returns the text in which no round is left |
| EnvExpand.RoundUses | src/config.rs:1233-1257 | a character of `$`, `{` and `}` that no value contains gets fewer with every round; closing braces by exactly one |
| EnvStops.StopsOnEveryText | src/config.rs:1233-1257 | the loop stops on every text when one of these three characters is in no value |
| EnvStops.StopsIffNoCycle | src/config.rs:1233-1257 | for values in the reference syntax and finitely many variables, it stops on every text if and only if following references from a variable never takes more steps than there are variables |
| EnvExpand.SelfReferenceLoops | src/config.rs:1233-1257 | a value that refers to its own variable is rewritten to itself |
| EnvExpand.FlatExpands | src/config.rs:1233-1257 | in an environment without dollar signs, text without nested defaults expands to its meaning in front of any other text |
| EnvExpand.FaithfulIffFlat | src/config.rs:1233-1257 | expansion means what it says in every environment without dollar signs if and only if no default contains a reference |
| EnvExpand.NestedDefault | src/config.rs:1238-1243 | a nested default is right when the outer variable is unset or empty and leaves a brace when it is set |
| Filter.PrintedFilterEvaluates | src/api.rs:1999-2139 | evaluating the text of a plain filter gives that meaning on every payload, despite the ordered search |
| Filter.BlanksAround | src/api.rs:1999-2004 | any of Unicode's white space around a plain filter changes nothing |
| Filter.EvaluatesIffReadable | src/api.rs:1999-2139 | it does so on every payload if and only if the filter tests neither the pattern `exists` nor the empty list |
| Filter.PatternMisread | src/api.rs:2007-2011 | the pattern `exists` is read as an existence test of another field |
| Filter.EmptyListMisread | src/api.rs:2114-2129 | the empty list is read as the list of the empty text: the test holds of the empty string alone |
| Filter.NotEqualsNegatesEquals | src/api.rs:2041-2065 | `!=` is the negation of `==` on every payload |
| OverlayMerge.DeepMerge | src/config.rs:1189-1208 | the loop over the overlay's keys computes the merge |
| OverlayMerge.MergeAt | src/config.rs:1189-1208 | what the merge has at every path, in terms of base and overlay alone |
| OverlayMerge.OverlayLeavesWin | src/config.rs:1187-1208 | every overlay leaf is in the result at its path |
| OverlayMerge.BaseSurvives | src/config.rs:1187-1208 | a base value without an overlay value survives if and only if the overlay does not shadow it |
| OverlayMerge.MergeIdempotent | src/config.rs:1189-1208 | merging a tree with itself changes nothing |
| OverlayMerge.OverlayAppliesOnce | src/config.rs:1189-1208 | applying an overlay a second time changes nothing |
| OverlayMerge.CoversIffAbsorbs | src/config.rs:1189-1208 | an overlay swallows a base if and only if it has all its keys |
| OverlayMerge.AssociativeIffNothingHidden | src/config.rs:1189-1208 | three layers associate if and only if the middle one hides no keys of the first below a non-mapping |

## Left out

- HTTP, TLS, SQL drivers, metrics, tracing and alerts: input and output. A delivery's outcome is a parameter; a failing database statement is not modelled.
- Crashes inside a handled delivery: the code is not atomic there; the model takes a delivery as one step, `DeliveryKeepsIffHarmless` says what a repeated one does, and `RetryCompletesIff` what an interrupted insertion does.
- The main loop of the worker (semaphore, shutdown, maintenance timer): only the claims it makes, and the selected rows it drops, are modelled, as interleaved events.
- Payloads inside the workflow tables (`input`, `output`, `result_path` transformations): the engine model keeps a step's output and no inputs; the transformation itself is in `Template`.
- Which choice conditions hold is an input of the engine model; how a condition is evaluated is in `Filter`.
- Fresh identifiers (ULIDs, callback tokens) are row numbers in the workflow tables, and the job queue requires inserted ids to be new.
- Handler names are not split at `/`: a workflow job carries its workflow and step, so workflow and step names are assumed to be free of `/`, and no workflow to be called `queue` or `outbound`.
- Event TTL, manual retry and redrive inside the workflow tables: they change rows without the engine's bookkeeping. The job queue model has TTL and manual retry.
- Expiry of timed-out callbacks (`src/db.rs:1700`) has no caller in the worker, so the engine model has no such event.
- WorkflowConfig.Validate: the checks of sources, URLs, methods, headers, wait fields, map fields and parameters are independent of each other and of the engine, and are not modelled; so it accepts more than the code does.
- WorkflowConfig.CheckSteps: likewise leaves out the checks of URLs, methods, wait, map and parameter fields of its steps.
- WorkflowConfig.CheckStep: likewise leaves them out for one step.
- WorkflowEngine.Engine.HandleBranchCompletion: does not carry the merged value and its result path; which rows are merged, under which names and in which order, is in `WorkflowJoin`.
- WorkflowEngine.Engine.HandleStepFailure: does not model the delay of the rescheduled step job; delays are in `Jobs`.
- WorkflowEngine.Engine.HandleWaitStep: does not model the scheduled time of the following job.
- ParallelCounter.SplitJoinsAtLeastOnce: is about one join; two joins that follow each other are in `ParallelReset`, and what two completers that both pass do to the run beyond that is `DeliveryKeepsIffHarmless`.
- SQL `LIKE` is taken as case-sensitive, although SQLite and MySQL ignore the case of letters, and the order of rows with equal times is open.
- BranchOrder.OrderByNameSorts: `ORDER BY branch_name` compares character codes, as SQLite does; the collation of a Postgres or MySQL database may order names differently.
- Counters of attempts and completions are unbounded in the workflow tables; the 32-bit clamp of branch counts and attempts is modelled.
- TemplateStops.PayloadStopsIffNoCycle: payloads with nested objects or arrays, or with braces in literal text, are not covered; `AgreesIffSafe` is about every payload.
- EnvStops.StopsIffNoCycle: its exact condition is for values that are text without `$`, `{` and `}` and references with plain defaults; for other values that contain all three characters only the examples say what happens.
- EnvExpand.FaithfulIffFlat: literal text is assumed to be free of `$` and `}`, and environments to be free of dollar signs, because a value that contains one can be read as the start of a reference.
- Filter.PrintedFilterEvaluates: paths, literals and patterns have no white space, quotes, commas, brackets or operator characters, because the language has no way to escape them; numbers compare as reals, and number syntax and regular expressions are parameters.
- Timestamp.TextOrderIsTimeOrder: leap seconds are not modelled.
- OverlayMerge.DeepMerge: the order of keys in a mapping is not modelled.
- CircuitBreaker.Guard.RecordFailure: each call is one step with one reading of the clock, and the counter wraps as in an optimised build.
- Signature checks, JSON Schema, cron schedules, network-address rules, endpoint and subscription tables, listing queries, migrations, command line, MCP server, SDKs: libraries or easy members.
