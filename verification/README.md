# Verified model of the kitchen dispatch protocol

An order becomes kitchen tasks; each task is announced on a stream, dispatched by
workers to the screen of a station, claimed and completed there by a cook, and the
order is ready for pickup when its last task is done. Four services take part and
talk over HTTP with replies that can be lost:

- **Fulfillment** owns the global state of tasks and orders (`Fulfillment.dfy`,
  `TransitionService.dfy`), builds the tasks of an order (`TaskBuilder.dfy`) and
  publishes and queues them (`OrderCreation.dfy`).
- **Kitchen** owns stations and the rows on their screens (`Kds.dfy`,
  `KdsService.dfy`, `Candidates.dfy`).
- **The scheduler worker** reads the stream, asks, delivers, marks, retries and
  dead-letters (`Dispatcher.dfy`, `Message.dfy`, `Text.dfy`, `Backoff.dfy`,
  `StationSelector.dfy`, `Idempotency.dfy`).
- **The station simulator** is the well-behaved cook (`VirtualWorker.dfy`).

Each transaction is a function from the tables it locks to the tables it commits. The
services' own code is modelled as classes and methods whose contracts equate their new
state with those functions. `Protocol.dfy` puts the functions together as one
transition system: a state holds both databases, the stream, every handler that is
between two of its transactions, and all requests and replies ever sent. Requests and
replies are never removed, so each may be served or received late, twice or never, and
every remote call is its own step. An event that is not possible leaves the state
unchanged, so any sequence of events is an execution; a state is reachable when some
execution leads to it from the empty system.

The invariant of all reachable states is built up in `Invariant.dfy` (facts per item),
`ServiceSteps.dfy`, `OrderSteps.dfy`, `Claims.dfy` and `Lineage.dfy` (each kind of step
keeps them) and `Executions.dfy` (all of it, in every reachable state). The results are in
`Safety.dfy`, `History.dfy`, `Agreement.dfy`, `Retries.dfy`, `Conflicts.dfy`,
`Provenance.dfy`, `Records.dfy`, `Recovery.dfy`, `Stranding.dfy`, `Displaying.dfy` and
`Serving.dfy`. `Dispatching.dfy` shows that the
pipeline works when calls are answered, and `Scenarios.dfy` uses it to exhibit the runs in
which a plausible property fails.

Six plausible properties are false of the code, and the model says exactly when they hold:

- Fulfillment's station need not be the station whose screen shows the row. After a lost
  delivery reply the retry may choose another station and passes that one on
  (`Scenarios.MismatchIsReachable`). A mismatch arises exactly by serving a mark-displayed
  request for a queued task that names a station other than the row's
  (`Recovery.MismatchArisesExactly`); such a task is stuck for good
  (`Recovery.MismatchIsPermanent`), and a displayed task can be finished exactly when there is
  no mismatch (`Recovery.CanBeFinished`).
- A queued task need not be dispatched in the end: its attempts can be used up while the one
  report of it is lost (`Scenarios.StrandingIsReachable`). A queued task that waits for no other
  can still be displayed exactly when it is not stranded (`Displaying.CanBeDisplayed`), and a
  stranded one never is (`Stranding.StrandedForGood`).
- All tasks done does not imply ready for pickup: the last completion rolls the order up
  exactly when it sees all others (`Agreement.LastCompletionRollsUp`,
  `Scenarios.RollUpCanBeMissed`), and a missed roll-up is never made up for
  (`Agreement.MissedRollUpIsPermanent`).
- A done task can be back on a screen (`Scenarios.UndisciplinedRunLeavesDoneTaskShown`), by
  exactly two kinds of step (`Agreement.ShownAgainExactlyBy`), and never when workers complete
  only what they claimed (`Agreement.DoneRowsAreTaken`).
- A screen can exceed its limit (`Scenarios.CompensationExceedsLimit`), exactly by withdrawing
  a claim while it is full (`Agreement.ScreenOverflowsExactly`), by at most the largest capacity
  (`Safety.SlotConservation`), and never without a failed start at that station
  (`Agreement.BacklogBound`).
- The delay between attempts is not always min(base * 2^(attempt-1), max): doubling can overflow
  (`Backoff.LargeDelaysOverflow`), and the loop computes the formula for every attempt exactly
  when no delay it goes through from 2^62 up is below the maximum (`Backoff.FormulaHoldsExactly`).

Where documentation and code differ the model follows the code. The worker's README says a
message is acknowledged only after delivery and mark-displayed succeed, or when it is stale,
invalid or out of attempts; the code also acknowledges it when it schedules a retry, and takes a
conflict answer to either call for success. Fulfillment's README says that only successfully
published tasks are queued; the code queues all tasks of an order or none.

## Model

| member | source | states |
|---|---|---|
| Serving.EveryOrderCanBeServed | services/fulfillment-service/app/services.py:125-206 | From any reachable state, whatever was lost, retried or given up in it, every acceptable new order can be created, and published, queued, displayed, claimed and completed until it is ready for pickup and a done task stands for every step of every unit of it. |
| Provenance.ShownAsOrdered | services/kitchen-service/app/services.py:182-205 | From order to screen: in every state of every run each row shows one step of one unit that some order asked for, with the recipe's operation and duration, at a station of the kitchen the order went to and of the type the recipe demands. |
| Provenance.CarriedFaithfully | services/fulfillment-service/app/redis/streams.py:26-49 | In every reachable state each message, delivery request and row has the order, kitchen, station type, operation and estimate of its task, and each row is at a station of the task's kitchen and type. |
| Provenance.MadeAsOrdered | services/fulfillment-service/app/task_builder.py:16-52 | Every task of every run was made by an order for the sorted recipe step at its position, for that order and its kitchen. |
| Safety.DependencySafety | services/kitchen-scheduler-worker/internal/scheduler/dispatcher.go:96-136 | In every reachable state a task with a row, or displayed, started or done, has all its dependencies done, though readiness is read several calls before delivery and not rechecked. |
| Safety.UnitPipeline | services/fulfillment-service/app/task_builder.py:25-50 | In every reachable state the steps of a unit in recipe order are a prefix of done, at most one in the kitchen, then only steps never displayed. |
| Safety.Progress | services/fulfillment-service/app/repositories.py:81-88 | While a task of an order is not done, some unfinished task of it has no unfinished dependency. |
| Safety.SlotConservation | services/kitchen-service/app/services.py:268-272 | In every reachable state busy_slots is the number of claimed rows, each with exactly one owning claim; busy slots stay within the largest capacity and displayed plus claimed rows within limit plus largest capacity. |
| Safety.PeakWasACapacity | services/kitchen-service/app/services.py:89-96 | That largest capacity is at most every bound of the capacities the station had. |
| Recovery.MismatchArisesExactly | services/kitchen-scheduler-worker/internal/scheduler/dispatcher.go:128-133 | At any step of any run a mismatch arises if and only if a mark-displayed request for a queued task is served that names a station other than the row's. |
| Recovery.MismatchIsPermanent | services/fulfillment-service/app/services.py:403-417 | A displayed task with mismatched stations never changes again in any continuation. |
| Recovery.CanBeFinished | services/kitchen-service/app/services.py:276-388 | From any reachable state a displayed or started task can still become done if and only if its stations agree. |
| Recovery.StartIsAccepted | services/fulfillment-service/app/services.py:310-328 | In any reachable state the start call for a row succeeds if and only if Fulfillment recorded the row's station, whether it is the first call or a repeated one. |
| Recovery.CompletionIsAccepted | services/fulfillment-service/app/services.py:330-341 | In any reachable state the completion call for a row succeeds if and only if the task is done already or the time is not before the start. |
| Recovery.AnsweredClaim | services/kitchen-service/app/services.py:268-306 | Whenever the invariant holds, a valid claim that is answered succeeds if and only if the stations agree, and takes row and slot. |
| Recovery.AnsweredCompletion | services/kitchen-service/app/services.py:345-388 | Whenever the invariant holds, the owner's answered completion completes the row if and only if the task is done already or the time is not before the start; otherwise nothing changes. |
| Recovery.NoMismatchWhenPassedOn | services/kitchen-scheduler-worker/internal/scheduler/dispatcher.go:128-133 | So as long as the dispatcher passes on the row's own station, no mismatch is in any state of the run. |
| Displaying.CanBeDisplayed | services/kitchen-scheduler-worker/internal/scheduler/dispatcher.go:80-185 | From any reachable state a queued task whose dependencies are done can still be displayed if and only if it is not stranded. |
| Stranding.StrandedForGood | services/kitchen-scheduler-worker/internal/scheduler/dispatcher.go:167-185 | A task whose copies are all dead-lettered or otherwise spent, with no request on the network that displays it, is never displayed in any continuation. |
| Agreement.CompletedRowsAreDone | services/kitchen-service/app/services.py:348-388 | A completed row's task is done, whatever replies were lost, late or repeated. |
| Agreement.OneRowPerTask | services/kitchen-service/app/models.py:85-88 | At most one row per task; what Fulfillment recorded is that row; from start on the stations agree. |
| Agreement.RedeliveryChangesNothing | services/kitchen-service/app/services.py:178-205 | Delivering a task again to any station changes no table. |
| Agreement.DoneRowsAreTaken | services/station-simulator-service/app/simulator/worker.py:158-190 | If workers complete only after a successful claim, a done task's row is claimed or completed. |
| Agreement.ShownAgainExactlyBy | services/kitchen-service/app/services.py:345-388 | At any step of any run a done task comes back on a screen if and only if a completion is served for a started task whose row is displayed, at its place and not before its start, or a claim is withdrawn after its task was done. |
| Agreement.NewlyDone | services/fulfillment-service/app/services.py:330-348 | Only serving a completion request makes a task done. |
| Agreement.ReadyMeansAllDone | services/fulfillment-service/app/services.py:349-352 | Ready for pickup implies all the order's tasks are done, however stale the count was. |
| Agreement.ReadyForGood | services/fulfillment-service/app/services.py:318-322 | Ready is never undone by a later write of cooking. |
| Agreement.AllDoneMeansReady | services/fulfillment-service/app/services.py:349-357 | If the completions of one order see each other, all done implies ready for that order in every state of the run, however other orders' completions overlap. |
| Agreement.LastCompletionRollsUp | services/fulfillment-service/app/services.py:349-352 | In any reachable state the last completion rolls the order up if and only if it sees all others. |
| Agreement.MissedRollUpIsPermanent | services/fulfillment-service/app/services.py:330-357 | An order whose roll-up was missed is never ready. |
| Agreement.ScheduleIsKept | services/fulfillment-service/app/services.py:343-348 | Every done task has actual duration in whole seconds, not negative, and delay max(0, actual - estimated). |
| Agreement.BacklogBound | services/kitchen-service/app/services.py:187-192 | Without a failed start at a station, it never shows more unclaimed rows than its limit, whatever happens at the others. |
| Agreement.ScreenOverflowsExactly | services/kitchen-service/app/services.py:439-460 | At any step of any run a screen comes to exceed its limit if and only if a claim of its station is withdrawn while the screen is full. |
| Records.NothingIsMadeUp | services/fulfillment-service/app/services.py:291-388 | In every reachable state the station, row, times and attempts a task records are those of requests that were sent, it is queued under its own message and stream, and those requests carry the times of their claims and completions and the attempts of dead-lettered messages. |
| Records.CompletedOnce | services/kitchen-service/app/services.py:379-389 | In every reachable state a completed row carries the time and worker of exactly one finished completion, and every finished completion has completed its row. |
| History.WriteOnce | services/fulfillment-service/app/domain/transitions.py:4-15 | From any reachable state on, a task takes at most four effective steps along the transition table; assigned fields keep their values and attempts never fall. |
| History.ServedOnce | services/fulfillment-service/app/services.py:291-388 | A request that Fulfillment once accepted takes no effect again, however late in the run a copy of it is served; the copy is accepted exactly as long as the task has not moved on. |
| History.QueuedWriteIsSafe | services/fulfillment-service/app/services.py:172-186 | In every reachable state the queued write finds every task it overwrites created. |
| History.CreatedIsNeverDelivered | services/kitchen-scheduler-worker/internal/scheduler/dispatcher.go:88-94 | A created task has no row, no delivery request and no mark request. |
| History.AbortedOrderStaysCreated | services/fulfillment-service/app/services.py:172-179 | After a failed publication no task of the order ever becomes queued. |
| History.QueuedTaskHasItsMessage | services/kitchen-scheduler-worker/internal/scheduler/dispatcher.go:80-142 | A queued task always has a message on its way or dead-lettered: no acknowledgement loses it. |
| Retries.LifeIsBounded | services/kitchen-scheduler-worker/internal/scheduler/dispatcher.go:167-213 | From attempt a a message is handled at most max(1, MaxAttempts - a + 1) times and sleeps at most a maximal delay between handlings; it is dead-lettered exactly when all attempts failed. |
| Retries.OneLiveCopy | services/kitchen-scheduler-worker/internal/scheduler/dispatcher.go:187-212 | In every reachable state each message has exactly one live copy, and never more copies than attempts allowed. |
| Retries.SleepIsBounded | services/kitchen-scheduler-worker/internal/scheduler/dispatcher.go:188-195 | Where the delay formula holds, a message never sleeps more than (MaxAttempts - 1) * BackoffMax in all. |
| Retries.FateIsFinal | services/kitchen-scheduler-worker/internal/scheduler/dispatcher.go:81-142 | Dispatched, stale or dead-lettered is for good: no further handling and no further copy. |
| Retries.RetriesTerminate | services/kitchen-scheduler-worker/internal/scheduler/dispatcher.go:54-213 | Over any run the workers take at most a fixed number of steps on one message. |
| Retries.DispatchedByAnswer | services/kitchen-scheduler-worker/internal/scheduler/dispatcher.go:128-142 | A message is closed as dispatched exactly by an answer to mark-displayed that is not a failure. |
| Retries.StaleBySnapshot | services/kitchen-scheduler-worker/internal/scheduler/dispatcher.go:80-91 | It is closed as stale exactly by a snapshot that shows its task past dispatching. |
| Retries.GivenUpOnLastAttempt | services/kitchen-scheduler-worker/internal/scheduler/dispatcher.go:167-185 | It is dead-lettered only with its attempts used up, and with a report of just that attempt. |
| Retries.SleepsBetweenAttempts | services/kitchen-scheduler-worker/internal/scheduler/dispatcher.go:187-195 | It sleeps the delay of its attempt, and only when another attempt is left. |
| Conflicts.ConflictIsNeverDispatched | services/kitchen-scheduler-worker/internal/kitchen/client.go:32-39 | After a swallowed conflict the empty row identifier is rejected in every run, so the message is retried or dead-lettered, never acknowledged as dispatched. |
| Conflicts.DeliveryAnsweredExactly | services/kitchen-scheduler-worker/internal/kitchen/client.go:32-39 | In any reachable state a delivery that reaches the insertion is answered with the task's row if and only if the station is open to it and has a place left, with a failure if and only if there is no such station, and else with a conflict. |
| Conflicts.MarkAnsweredExactly | services/fulfillment-service/app/services.py:291-308 | In any reachable state a mark-displayed request fails if and only if it names no row, and is accepted if and only if it names one and the task is queued or displayed there already; else it is a conflict. |
| Dispatching.DispatchesTask | services/kitchen-scheduler-worker/internal/scheduler/dispatcher.go:80-142 | From any reachable state in which a task is ready, its message waits and some station accepts it, a run displays it by a new row at the station with least backlog, busy slots and identifier, which is of the task's kitchen and type and shows what the task says; both services agree on row and station. |
| Scenarios.MismatchIsReachable | services/kitchen-scheduler-worker/internal/scheduler/dispatcher.go:129 | A lost delivery reply followed by another choice of station leads to a permanent mismatch. |
| Scenarios.UndisciplinedRunLeavesDoneTaskShown | services/kitchen-service/app/services.py:345-388 | A completion requested before the claim's reply can leave a done task on a screen. |
| Scenarios.RollUpCanBeMissed | services/fulfillment-service/app/services.py:349-352 | Two completions that do not see each other leave the order not ready. |
| Scenarios.CompensationExceedsLimit | services/kitchen-service/app/services.py:455-460 | Compensation can push a screen past its limit. |
| Scenarios.StrandingIsReachable | services/kitchen-scheduler-worker/internal/scheduler/dispatcher.go:167-185 | A run whose last attempt fails and whose report is lost leaves a task queued and stranded. |
| Executions.StepKeeps | services/kitchen-service/app/services.py:230-407 | Every step of every service keeps the whole invariant and loses nothing recorded. |
| Executions.RunKeeps | services/kitchen-scheduler-worker/internal/scheduler/dispatcher.go:54-143 | The invariant holds after every run, with any interleaving and any loss of replies. |
| Claims.KitchenKeepsClaims | services/kitchen-service/app/services.py:268-306 | Every claimed row has exactly one active claim, whose worker and time it carries. |
| Claims.CompensationReleasesItsOwn | services/kitchen-service/app/services.py:439-478 | Compensation releases the row its own claim took, or finds it completed; never another claim, not even the same worker's. |
| Lineage.WorkerKeepsLineage | services/kitchen-scheduler-worker/internal/scheduler/dispatcher.go:167-213 | Retries keep one live copy per message, its attempt equal to the number of copies, and sleep within the bound. |
| ServiceSteps.WorkerKeeps | services/kitchen-scheduler-worker/internal/scheduler/dispatcher.go:80-142 | Every step of a dispatcher, whatever it is answered, keeps the facts about all items. |
| ServiceSteps.KitchenKeeps | services/kitchen-service/app/services.py:172-478 | Every transaction between the halves of delivery, claim and completion keeps them, and the backlog limit unless it compensates. |
| OrderSteps.OrderKeeps | services/fulfillment-service/app/services.py:125-186 | Creating, publishing, aborting and queueing keep all facts about tables, items and order lists, and the roll-up. |
| OrderSteps.QueueWrites | services/fulfillment-service/app/repositories.py:58-66 | In an order still being published the queued write moves every task from created to queued and no other task. |
| Fulfillment.MarkDisplayedFacts | services/fulfillment-service/app/services.py:291-308 | Only a queued task becomes displayed, at the station and row of the request; an error changes nothing; any answer but "not found" means the task was created or is past dispatching; both directions of the roll-up are kept. |
| Fulfillment.StartTaskFacts | services/fulfillment-service/app/services.py:310-328 | Success means the task is in preparation at exactly the station and row of the request; only a displayed task moves; the unconditional write of cooking disturbs no roll-up. |
| Fulfillment.CompleteTaskFacts | services/fulfillment-service/app/services.py:330-370 | Success means done; only a task in preparation moves; ready still implies all done whatever the count missed, and all done still implies ready when it missed nothing. |
| Fulfillment.DispatchFailedFacts | services/fulfillment-service/app/services.py:372-388 | Only a queued task fails; attempts do not fall; replays change nothing. |
| Fulfillment.QueuedExactly | services/fulfillment-service/app/repositories.py:58-66 | The queued write touches exactly the listed tasks, and leaves each queued with one attempt and the time, stream and message of the last entry for it, whatever its status was. |
| Fulfillment.ReadyMeansDepsDone | services/fulfillment-service/app/services.py:272-289 | The readiness answer is yes if and only if the task is dispatchable and everything it depends on is done. |
| Fulfillment.DepsStayDone | services/fulfillment-service/app/domain/transitions.py:4-15 | Done is absorbing, so a task once cleared by its dependencies stays cleared. |
| Fulfillment.MarkDisplayedAccepts | services/fulfillment-service/app/services.py:291-303 | The exact condition for acceptance and for each error, and that only status, place and time of a dispatchable task are written. |
| Fulfillment.StartTaskAccepts | services/fulfillment-service/app/services.py:310-322 | The exact condition for acceptance and for each error, and that only status, start and deadline of a displayed task are written, with its order set to cooking. |
| Fulfillment.CompleteTaskAccepts | services/fulfillment-service/app/services.py:330-348 | The exact condition for acceptance and for each error, and that only status, time and service-level figures of a started task are written, with its order ready exactly when no visible task is unfinished and else as it was. |
| Fulfillment.DispatchFailedAccepts | services/fulfillment-service/app/services.py:372-380 | The exact condition for acceptance and for each error, and that only status and attempts are written, the latter as the larger of the two numbers. |
| TransitionService.Service.GetDispatchReadiness | services/fulfillment-service/app/services.py:272-289 | The exact condition for each answer: unknown, not dispatchable, ready, and waiting for exactly the unfinished dependencies. |
| TransitionService.Service.ValidateSameStationAndKds | services/fulfillment-service/app/services.py:403-417 | Passes exactly when station and row are the recorded ones; a replay's mismatch raises the "already" error, and else the station is checked first. |
| TransitionService.Service.MarkTaskDisplayed | services/fulfillment-service/app/services.py:291-308 | The in-place assignments commit exactly the specified transition and keep the invariant. |
| TransitionService.Service.Start | services/fulfillment-service/app/services.py:310-328 | As above, for start and the order's status. |
| TransitionService.Service.Complete | services/fulfillment-service/app/services.py:330-370 | As above, for completion, service-level figures and roll-up. |
| TransitionService.Service.MarkDispatchFailed | services/fulfillment-service/app/services.py:372-388 | As above, for a failed dispatch. |
| OrderCreation.Service.MarkTasksAsQueued | services/fulfillment-service/app/repositories.py:58-66 | The loop of field writes queues exactly the listed tasks, each with one attempt and time, stream and message of its last entry. |
| OrderCreation.Service.PublishAndQueueTasks | services/fulfillment-service/app/services.py:163-206 | A failing publication leaves its predecessors on the stream and queues no task at all; otherwise every task is queued under the position of its own message and the stream of its kitchen and type. |
| TaskBuilder.Build | services/fulfillment-service/app/task_builder.py:16-52 | The nested loops put at every position a new task with the fields of its recipe step, as many as units times steps, with exactly the chain edges of the list. |
| TaskBuilder.TaskAtPosition | services/fulfillment-service/app/task_builder.py:25-45 | The j-th task of the u-th unit of the i-th item stands at its position in the list and has station type, operation, duration and order number of the j-th sorted step. |
| TaskBuilder.BuildUnit | services/fulfillment-service/app/task_builder.py:29-50 | One unit's loop leaves what was built, adds one new task per step with the fields of that step, and links each to the one before it. |
| TaskBuilder.EdgesExact | services/fulfillment-service/app/task_builder.py:46-50 | An edge exists if and only if it joins a task to its immediate predecessor of the same unit; so edges point backwards and the graph is acyclic. |
| TaskBuilder.TasksCounts | services/fulfillment-service/app/task_builder.py:25-52 | Exactly the sum of quantity times steps tasks and of quantity times (steps - 1) edges. |
| TaskBuilder.TasksInOrder | services/fulfillment-service/app/task_builder.py:25-45 | The list runs by item, unit and step order, and every task is untouched, of an ordered unit, and carries station type, operation, duration and number of a step of its item's recipe. |
| TaskBuilder.SortStepsSorted | services/fulfillment-service/app/task_builder.py:27 | Sorting the recipe gives an ordered permutation of it. |
| TaskBuilder.SortStepsStable | services/fulfillment-service/app/task_builder.py:27 | Steps of equal order stay in the order of the recipe. |
| Kds.DeliverFacts | services/kitchen-service/app/services.py:182-205 | A delivery under the task's own key appends one displayed row that carries the request, with nothing else recorded, or changes nothing and answers with the row that is there; it never fails on the task constraint, and keeps counters, peak bound and backlog limit. |
| Kds.SameLookup | services/kitchen-service/app/repositories.py:131-142 | Looking up by key and by task gives the same row. |
| Kds.ClaimFacts | services/kitchen-service/app/services.py:268-272 | Claiming changes one row, by status, worker and time, and one slot of its station, and nothing else; it keeps counter equal to claimed rows, within the largest capacity. |
| Kds.CompensateFacts | services/kitchen-service/app/services.py:439-460 | Compensation clears exactly status, worker and time of a row claimed by that worker and frees one slot, or changes nothing; it keeps counter equal to claimed rows. |
| Kds.CompensationUndoesClaim | services/kitchen-service/app/services.py:455-460 | Compensating right after the claim restores both tables exactly. |
| Kds.CompensationFits | services/kitchen-service/app/services.py:455-460 | Showing a row again keeps every station within its limit, except its own exactly when that had no place left. |
| Kds.FinishFacts | services/kitchen-service/app/services.py:379-389 | Completing changes one row, by status and the completion time of the request, and releases exactly one slot of its station, without the clamp at zero taking effect. |
| Kds.StationFacts | services/kitchen-service/app/services.py:64-105 | Creating a station and changing its capacity or status keep the invariant, with the peak raised to any larger capacity. |
| Kds.ClaimAccepts | services/kitchen-service/app/services.py:417-427 | A claim is accepted if and only if the row is displayed on that station, which is available and has a free slot; otherwise the exact condition for each refusal. |
| Kds.CompleteAccepts | services/kitchen-service/app/services.py:429-437 | A completion is accepted if and only if the row is claimed on that station by that worker; otherwise the exact condition for each refusal. |
| Kds.DeliveryAccepts | services/kitchen-service/app/services.py:182-192 | A delivery is accepted if and only if the station is known, available, of the task's kitchen and type and below its limit; otherwise the exact condition for each refusal. |
| KdsService.Service.CreateStation | services/kitchen-service/app/services.py:64-79 | The new station has the given kitchen, type, capacity and limit, is available with no busy slot, and nothing else changes; the invariant is kept. |
| KdsService.Service.UpdateStationCapacity | services/kitchen-service/app/services.py:89-96 | Only the capacity of that station changes; the invariant is kept, also below the busy count. |
| KdsService.Service.UpdateStationStatus | services/kitchen-service/app/services.py:98-105 | Only the status of that station changes; the invariant is kept. |
| KdsService.Service.ValidateDeliveryStation | services/kitchen-service/app/services.py:409-415 | Passes if and only if the station is available and of the task's kitchen and type; the exact condition for each error. |
| KdsService.Service.InsertDelivery | services/kitchen-service/app/services.py:182-205 | From the lock on: one new displayed row with the request, or nothing; refused exactly when a check fails, and for that reason. |
| KdsService.Service.DeliverTask | services/kitchen-service/app/services.py:172-205 | Undisturbed: a known task is answered with its row and nothing changes; a new one is refused for the specified reason or gets one row. |
| KdsService.Service.ValidateClaim | services/kitchen-service/app/services.py:417-427 | Passes if and only if the row is displayed on that station, which is available with a free slot; the exact condition for each error. |
| KdsService.Service.BeginClaim | services/kitchen-service/app/services.py:238-272 | The first transaction of a claim: refusal, or the row taken by that worker at that time with one slot, and nothing else changed. |
| KdsService.Service.CompensateClaim | services/kitchen-service/app/services.py:439-478 | The field-by-field release puts exactly a row claimed by that worker back on display and frees its slot. |
| KdsService.Service.ClaimTask | services/kitchen-service/app/services.py:230-328 | Undisturbed: succeeds exactly when not refused and started, with row and slot taken; otherwise both tables are as before. |
| KdsService.Service.ValidateComplete | services/kitchen-service/app/services.py:429-437 | Passes if and only if the row is claimed on that station by that worker; the exact condition for each error. |
| KdsService.Service.CheckComplete | services/kitchen-service/app/services.py:338-345 | Passes if and only if the station exists and the row found for the task is claimed on it by that worker. |
| KdsService.Service.FinishComplete | services/kitchen-service/app/services.py:379-388 | The re-check, then the row completed at the time of the request and one slot released, never below zero, and nothing else changed. |
| KdsService.Service.CompleteTask | services/kitchen-service/app/services.py:330-407 | Undisturbed: completes the row at the time of the request exactly when the worker owns it and Fulfillment accepted; otherwise nothing changes. |
| Candidates.GroupsAreCounts | services/kitchen-service/app/repositories.py:85-95 | The grouped subquery with coalesce is the count of displayed rows. |
| Candidates.SelectedMeansAccepted | services/kitchen-service/app/repositories.py:80-106 | A station is in the query's answer if and only if deliver_task would accept the task there in the same state. |
| Candidates.SelectionIsRight | services/kitchen-scheduler-worker/internal/scheduler/station_selector.go:9-37 | Selecting from the query's answer picks, of all accepting stations, the one with fewest displayed rows, then fewest busy slots, then the first identifier, and none only if all refuse. |
| StationSelector.SelectStation | services/kitchen-scheduler-worker/internal/scheduler/station_selector.go:9-37 | The filtering loop and sort give none exactly when no candidate is available, healthy and below its limit, and else the best of those. |
| StationSelector.ChooseIsBest | services/kitchen-scheduler-worker/internal/scheduler/station_selector.go:23-36 | The choice has the smallest backlog of all eligible candidates, on equality the fewest busy slots, and then the first identifier; none exactly when none is eligible. |
| StationSelector.HeadIsBest | services/kitchen-scheduler-worker/internal/scheduler/station_selector.go:27-36 | Any sorted arrangement, stable or not, has the best candidate at its head. |
| StationSelector.BestIsUnique | services/kitchen-scheduler-worker/internal/scheduler/station_selector.go:27-36 | The best candidate does not depend on the order of the input. |
| StationSelector.LessExactly | services/kitchen-scheduler-worker/internal/scheduler/station_selector.go:27-35 | The comparator holds exactly when the first candidate has the smaller backlog, on equality the fewer busy slots, and on equality of both the identifier that is a proper prefix or smaller at the first difference. |
| Idempotency.KeyIsInjective | services/kitchen-scheduler-worker/internal/scheduler/idempotency.go:3-5 | Different tasks have different delivery keys. |
| Backoff.FormulaHoldsExactly | services/kitchen-scheduler-worker/internal/redisstream/retry.go:5-20 | For all 64-bit base and maximum that are not negative, the loop computes min(base * 2^(attempt-1), max) for every attempt if and only if base is below 2^62 and no doubled delay lies from 2^62 up to below the maximum. |
| Backoff.LargeDelaysOverflow | services/kitchen-scheduler-worker/internal/redisstream/retry.go:10-16 | Two witnesses: a base of 2^62, and a base of 1 with a maximum above 2^62. |
| Backoff.SmallNeverOverflows | services/kitchen-scheduler-worker/internal/redisstream/retry.go:5-20 | With a base below 2^62 and a maximum of at most 2^62 nanoseconds nothing overflows. |
| Backoff.Backoff | services/kitchen-scheduler-worker/internal/redisstream/retry.go:5-20 | The loop in wrapping 64-bit arithmetic computes the specified doubling, and the documented formula wherever that never overflows. |
| Backoff.DoublingIsDelay | services/kitchen-scheduler-worker/internal/redisstream/retry.go:10-16 | Where no delay overflows, the doubling is min(base * 2^(attempt-1), max). |
| Backoff.DelayGrows | services/kitchen-scheduler-worker/internal/redisstream/retry.go:5-20 | The delay is monotone in the attempt and never above the maximum. |
| Text.TrimSpaceDrops | services/kitchen-scheduler-worker/internal/redisstream/message.go:33-44 | Trimming drops spaces at both ends and nothing else, and leaves none there. |
| Text.AtoiExactly | services/kitchen-scheduler-worker/internal/redisstream/message.go:67-79 | A number is read exactly from a 64-bit numeral, alone or after a sign, and as what its digits say. |
| Message.RetryRoundTrip | services/kitchen-scheduler-worker/internal/redisstream/message.go:84-91 | Re-encoding a parsed message with a positive attempt and parsing again changes the attempt only. |
| Message.RetryKeepsFields | services/kitchen-scheduler-worker/internal/redisstream/message.go:84-91 | Re-encoding carries every field along, also unknown ones, and rewrites the attempt alone. |
| Message.RetriesRoundTrip | services/kitchen-scheduler-worker/internal/redisstream/message.go:27-91 | After any number of retries every reader sees the original message on its own attempt. |
| Message.PublishedMessageIsRead | services/fulfillment-service/app/redis/streams.py:26-49 | The parser recovers every published field if and only if the texts need no trimming, the required ones are not blank and the duration is a positive 64-bit number. |
| Message.WrittenExactly | services/fulfillment-service/app/redis/streams.py:26-49 | The exact set of fields of a published message, the correlation identifier only when there is one, and the text of each field that is not a number. |
| Message.FilterDispatchStreams | services/kitchen-scheduler-worker/internal/redisstream/message.go:101-115 | Keeps the first occurrence of every stream that is neither blank nor a dead-letter stream, in order. |
| Message.DeadLettersAreNotRead | services/kitchen-scheduler-worker/internal/redisstream/message.go:93-115 | No dead-letter stream passes the filter, and a task stream does if and only if its station type is not `dlq` and does not end in `:dlq`. |
| Message.ParsedExactly | services/kitchen-scheduler-worker/internal/redisstream/message.go:27-82 | The exact condition for each parse error, in the order of the checks, and what each field of a parsed message is; an absent or blank attempt is the first. |
| Dispatcher.DispatchedExactlyWhen | services/kitchen-scheduler-worker/internal/scheduler/dispatcher.go:80-142 | A message counts as dispatched if and only if its task is queued or retrying, it is ready, some candidate fits, and neither the delivery nor mark-displayed failed. |
| Dispatcher.StaleExactlyWhen | services/kitchen-scheduler-worker/internal/scheduler/dispatcher.go:80-91 | A message is dropped as stale if and only if its task does not exist or is displayed, in progress, done, cancelled or failed. |
| Dispatcher.NotNowExactlyWhen | services/kitchen-scheduler-worker/internal/scheduler/dispatcher.go:83-133 | The exact condition for each of the six reasons not to dispatch now. |
| Dispatcher.CallsExactly | services/kitchen-scheduler-worker/internal/scheduler/dispatcher.go:80-128 | Which calls are made, each if and only if all before it let the message through, with the arguments of each. |
| Dispatcher.Worker.Handle | services/kitchen-scheduler-worker/internal/scheduler/dispatcher.go:54-165 | Every message is acknowledged once and absorbed, dead-lettered once when its attempts are used up, or put back once on its stream with the next attempt after the delay of this one. |
| Dispatcher.Worker.Dispatch | services/kitchen-scheduler-worker/internal/scheduler/dispatcher.go:80-142 | The calls are made in order up to the first that ends the message, with the verdict that call calls for. |
| Dispatcher.Worker.RetryOrDLQ | services/kitchen-scheduler-worker/internal/scheduler/dispatcher.go:167-213 | On the last attempt one dead letter and one report; before it one delayed copy with the next attempt. |
| Dispatcher.DeliversOnlyWhenReady | services/kitchen-scheduler-worker/internal/scheduler/dispatcher.go:96-123 | Nothing is delivered unless dispatchable and ready when asked, and only to the best candidate under the task's own key. |
| Dispatcher.RequeuedReadsBack | services/kitchen-scheduler-worker/internal/scheduler/dispatcher.go:187-195 | What a retry puts back reads as the same task on the next attempt. |
| Dispatcher.LastLetterReads | services/kitchen-scheduler-worker/internal/scheduler/dispatcher.go:167-185 | A dead letter goes to the dead-letter stream of the message's kitchen and type, which no worker reads, and still reads as the message itself. |
| VirtualWorker.SelectDisplayedTask | services/station-simulator-service/app/simulator/worker.py:216-220 | The first listed of the displayed tasks of least display time, none exactly when nothing is displayed. |
| VirtualWorker.Worker.CompleteWithRetry | services/station-simulator-service/app/simulator/worker.py:197-214 | Asks for one task's completion until accepted, at most the configured number of times, and keeps the last error only after all of them. |
| VirtualWorker.Worker.RunOnce | services/station-simulator-service/app/simulator/worker.py:128-195 | A round polls; if a task is displayed it claims the one displayed longest; and only if that succeeds it completes the same task; the counter rises exactly when a completion was accepted. |

## Left out

- Agreement.AllDoneMeansReady: assumes that the completions of the order it speaks of see each other, because the code locks only the task's row and the property fails otherwise; the exact condition per completion is Agreement.LastCompletionRollsUp.
- Agreement.DoneRowsAreTaken: assumes workers that complete only what they claimed, because the kitchen service itself does not demand it.
- Agreement.OneRowPerTask: claims agreement of stations only from start on; before it the stations can differ.
- Retries.SleepIsBounded: assumes a backoff base and maximum for which the delay loop computes its formula, exactly those of Backoff.FormulaHoldsExactly; Retries.LifeIsBounded assumes them for the sleeping time only.
- Displaying.CanBeDisplayed: speaks of tasks whose dependencies are done; whether a displayed dependency can be finished is Recovery.CanBeFinished.
- FastAPI routes, request parsing beyond the rejected empty row identifier, settings, logging, metrics, correlation headers and event writers: they never change business state.
- Database internals: each transaction that locks its rows is one atomic step and reads current rows; session caching, isolation anomalies other than the stale count of unfinished tasks, deadlocks and failing commits are not modelled.
- Crashes between the acknowledgement and the delayed re-add, broker errors, consumer groups, stream scanning and shutdown.
- HTTP beyond the outcomes success, not found, conflict and failure; a failure stands for every error status, timeout and lost reply.
- The menu service, the availability checks of create_order and the fields of a message that only describe the dish: an order is created only for items with recipes, as those checks demand.
- Stream entries of the transition system hold the parsed fields; that parsing recovers them, over any number of retries, is proved in `Message.dfy`.
- Identifiers: fresh random identifiers are fresh names, and a row's identifier is its position.
- Time zones and floating-point rounding of seconds: times are whole microseconds and seconds truncate exactly.
- The library sorts: insertion sorts stand for them, and StationSelector.HeadIsBest covers every other arrangement.
- The station simulator's random cooking time and its outer loop.
- Statuses and endpoints nobody implements: retrying, cancelled, handed off, failed and removed rows.
