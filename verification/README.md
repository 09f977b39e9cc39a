# Verified model of the audit-log service core

This project models the two cores of the audit-log service and one piece of its MySQL exporter, and proves properties
of them: of all inputs of a function, and of all runs of the machines below, interleavings included. Where a result
rests on an assumption about clocks, statements or faults, its contract has it, and so has its row or the last section.

**The task scheduler** (`pkg/scheduler`). Any number of instances share one schedule table. A task's token goes round
from the time wheel to the priority queue, to the dispatcher, which takes a lease lock and asks the circuit breaker, to
a run, and back to the wheel.

- `Lease` is the lock of `lock.go` on one row and one cached time, and the same for any number of instances and rows;
  `LeaseRuns` is about whole runs of it (exclusion, bounded failover, continuous hold); `LeaseExact` shows that no
  weaker invariant gives exclusion; `LockService` is the object with its map of cached times over a shared table.
- `LeaseLatency` is the same protocol when clocks are skewed and time passes between reading the clock, the statement
  and storing the cached time, a take and a renewal of one task overlapping.
- `Breaker` is the circuit breaker against the history of successes, failures and queries. `TaskHeap` is the queue with
  the sift-up and sift-down of `container/heap`. `WheelTiming` is the wheel as a value with its timing, `TimeWheel` the
  wheel object. `Tasks` is the task.
- `Node` is one instance as a machine of single events (token conservation, run spacing, isolation), `Dispatch` any
  number of instances together (no two runs of one task at a time), `SchedulerService` the `Scheduler` object, whose
  methods perform the event sequences of `Node` that `SchedulerEvents` describes.

**The store-and-forward pipeline** (`pkg/pipeline`). A bounded queue feeds a batcher; batches are filtered and handed
to every exporter; what an exporter refuses is appended to rotated backup files and replayed later.

- `Framing` is the line format of a backup file, `FileNames` the names, `Storage` the store, `SaveGuards` which chunks of
  a save reach a file, `RoundTrip` what is replayed after any sequence of saves, `Recovery` one replay pass,
  `LocalStorage` the storage object.
- `Engine` is the delivery side with its status and the accounting of every item, `Losses` says which items are lost
  and which replays meet a name without an exporter, `Pipeline` is the whole pipeline with its select loop and its close,
  `Endings` is about what a failed rotation and a close leave behind, `PipelineService` is the `Pipeline` object.

**Shard routing** (`Routing`): the ids printed by `logid.go`, the table name parsed from them by `auditlog.go`, the
grouped inserts, and the chunked transaction of `mysql.go`.

Functions on values carry the meaning; classes with the source's fields and loops are proved to compute them; state
machines use the same functions, one step for each piece of work that the source does not interrupt. What the
environment decides (clock readings, outcomes of statements, exports and writes, the order of a map or of a select,
names of new files) is a parameter of the step.

## Where the code does less than it says

- `lock.go:149-153` deletes the cached time of a lock whose row is lost, and then stores it again, because a return is
  missing. With an atomic renewal the branch is unreachable (`Lease.RenewalFindsRow`). With latency it lets two
  instances pass at once, with perfect clocks and any lease of three units or more
  (`LeaseLatency.LostRowRenewalBreaksExclusion`); `LeaseLatency.LostRowFinishExact` says exactly when it does no harm
  then or ever after, and the results under latency hold of runs that take the branch only then.
- `lock.go:143` matches whatever row is live in the caller's name. A renewal that is slower than the lease can find the
  row taken again by its own instance and cut it short, so that another instance takes it while the first still passes:
  with perfect clocks, and also if the branch above were repaired (`LeaseLatency.RetakenRowRenewalBreaksExclusion`).
  `LeaseLatency.RenewalStatementExact` says exactly when a renewal does no harm.
- `scheduler.go:123` writes back every non-zero column read at `scheduler.go:129`, the lease columns among them.
  `LeaseRuns.StaleWriteBackBreaksExclusion` is a run in which this lets two instances hold a lock;
  `LeaseExact.WriteBackHarmless` says exactly when it does no harm then or ever after, and the exclusion results are
  about runs in which it meets that condition. The save after a run that failed and released its lock meets it while
  nobody else has taken the lock, but undoes the release (`Lease.WriteBackUndoesRelease`).
- `Unlock` whose reply is lost (`lock.go:89-92`) keeps the cached time of a lock that may be free;
  `LeaseExact.LostReleaseHarmless`, and with latency `LeaseLatency.LostReleaseExact`, say exactly when that does no harm.
- The comments at `task.go:50` and `task.go:70` promise first in, first out for equal priorities. Tasks A, B, C of one
  priority come out as A, C, B; the promise holds for at most two tasks and for no more (`TaskHeap.FifoExactly`).
- `core.go:278-281` drops the batch whose save meets a full disk (`Losses.DiskFullDrops`), and a save that fails loses
  what it has not written (`Losses.ErrorLosesExactly`). A backup file that is still open can be replayed and removed
  while later batches are appended to it (`storage.go:55`, `storage.go:129-131`): `Losses.LostAppendRun` is such a run,
  and `Losses.RemovalLosesExactly` says exactly when a removal loses an item. No item flushed while not blocked is lost
  in another way (`Pipeline.LossesAreKnown`), and what is lost stays lost (`Pipeline.LostForGood`).
- A rotation that fails after a chunk (`storage.go:87-89`, `storage.go:174-176`) leaves a closed handle that
  `storage.go:55` takes for an open file. No save of the process succeeds any more, and a pipeline that is blocked with
  data in its buffer stays so (`Endings.ShutForGood`); `SaveGuards.SaveShuts` says exactly when it comes to that.
- What is still buffered when Close ends is never saved (`Endings.ClosedForGood`); `Endings.LeftInBufferRun` is a run
  that loses an accepted item so.
- `core.go:201` dereferences nil for a record under a name that no exporter has. Data buffered while blocked is saved
  under the pipeline's own name, and no other record can be the cause (`Pipeline.UnregisteredExactly`);
  `Losses.UnregisteredRun` gets there in three steps.

## Model

| member | source | states |
|---|---|---|
| Lease.LeaseInvStep | pkg/scheduler/lock.go:46-160 | one atomic lock call, insertion, tick of the clock or save of a row by any of any number of instances, provided that a release whose reply is lost meets the condition of LostReleaseExact and saved columns that of WriteBackExact, keeps this: a cached time younger than the lease means that the row names that instance and outlasts the cached time by a whole lease; and no held row reaches further than a lease from now |
| Lease.LostReleaseExact | pkg/scheduler/lock.go:84-92 | a release whose reply is lost keeps that invariant if and only if the caller's cached time has already run out |
| Lease.WriteBackExact | pkg/scheduler/scheduler.go:122-129 | saving lease columns read earlier keeps it if and only if there is nothing to write, the row's holder no longer relies on its cached time, or the saved columns name the same holder and still cover it |
| Lease.WriteBackUndoesRelease | pkg/scheduler/scheduler.go:112-129 | a run that releases its lock and then saves back the columns it read while it held it uncovers nobody but undoes the release: nobody takes the lock until the lease that was read is over, and anybody does from then on |
| Lease.AtMostOneFresh | pkg/scheduler/lock.go:50-56 | at most one instance can answer TryLock from its cached time |
| Lease.FreshBlocksOthers | pkg/scheduler/lock.go:50-79 | while one instance can, TryLock of every other instance fails and leaves the row alone, whatever goes wrong with its statement |
| Lease.TakenIsHeld | pkg/scheduler/lock.go:46-80 | a TryLock that succeeds, by taking the row or from the cached time, leaves its caller with a fresh cached time and a live row |
| Lease.TakeStoresNow | pkg/scheduler/lock.go:59-79 | a TryLock that takes the row, which only a free or expired row without a fault lets it, caches the time of the call and holds the row for a whole lease from then |
| Lease.AnswersExactly | pkg/scheduler/lock.go:46-79 | TryLock succeeds if and only if the cached time is younger than the lease, or the statement meets no error and the row is free or expired; it reports an error if and only if it needs the table and its statement fails; and a refusal drops the cached time |
| Lease.ReleaseFrees | pkg/scheduler/lock.go:82-101 | an Unlock undoes it: the caller no longer passes, TryLock of any instance succeeds on the row, and a caller that does not own the row leaves it alone |
| Lease.RenewalFindsRow | pkg/scheduler/lock.go:137-153 | with read, update and store in one step a renewal that is attempted matches its row: the branch for a lost row is unreachable and the lease moves to a full lease from now |
| Lease.FailedRenewalLocksOut | pkg/scheduler/lock.go:136-148 | a renewal whose statement fails drops the cached time, whether the row was extended or not, so that the holder cannot take its own lock before the row is over; an entry that is not fresh is not renewed |
| Lease.FailedReleaseKeeps | pkg/scheduler/lock.go:89-92 | a release whose statement fails keeps the cached time, so that its caller passes on if it did |
| LeaseRuns.LeaseInvAlways | pkg/scheduler/lock.go:46-160 | the invariant holds at every point of every run in which those two steps meet those conditions |
| LeaseRuns.ExclusionAlways | pkg/scheduler/lock.go:46-160 | at every point of every such run, while one instance passes on its cached time no other does, no TryLock of another succeeds, and the row is live in its name |
| LeaseRuns.ReadColumnsBounded | pkg/scheduler/scheduler.go:129 | columns that a run read at its start never reach further than a lease from the moment it saves them |
| LeaseRuns.RowOfTheSilent | pkg/scheduler/lock.go:59-98 | the row of an instance that no longer acts stays as it is until another instance takes it, as long as no run saves columns over it |
| LeaseRuns.FailoverAfterCrash | pkg/scheduler/lock.go:59-79 | once a holder has been silent for more than a lease, and no run has saved columns over its row, TryLock of any instance succeeds, unless another instance has taken the lock in between |
| LeaseRuns.TracksGap | pkg/scheduler/lock.go:122-128 | with no two ticks missed in a row the cached time is never older than two periods |
| LeaseRuns.ContinuousHold | pkg/scheduler/lock.go:122-153 | in every such run, with a tick every third of the lease and no two in a row missed, a lock taken and not released stays held at every later point, its cached time never older than two thirds of the lease |
| LeaseRuns.TakenForALease | pkg/scheduler/lock.go:50-79 | in every such run a TryLock that takes the row is good for exactly a lease: as long as the instance does nothing more with the task, it passes at every time before that of the call plus the lease, and at none from then on |
| LeaseRuns.HoldFromTake | pkg/scheduler/lock.go:59-153 | such a TryLock begins a continuous hold: with the same ticks the lock stays held at every later point |
| LeaseRuns.StaleWriteBackBreaksExclusion | pkg/scheduler/scheduler.go:122-129 | a concrete run that ends with two instances passing on their cached times, because a long run writes back the lease columns it read at its start |
| LeaseExact.InvIsWeakest | pkg/scheduler/lock.go:46-160 | for leases of more than one unit and rows within a lease of the present: no two instances pass on their cached times, now and after any further disciplined steps (those that LeaseInvStep admits), if and only if the lease invariant holds |
| LeaseExact.LostReleaseHarmless | pkg/scheduler/lock.go:84-92 | after a release whose reply is lost no two instances ever pass, whatever disciplined steps follow, if and only if its caller does not pass at the time |
| LeaseExact.WriteBackHarmless | pkg/scheduler/scheduler.go:122-129 | after columns read earlier are saved no two instances ever pass, whatever disciplined steps follow, if and only if nothing is written, the row's holder no longer relies on its cached time, or the columns name the same holder and still cover it |
| LockService.LeaseTable.Insert | pkg/scheduler/scheduler.go:50-53 | creating a row leaves an existing one alone |
| LockService.LeaseTable.Take | pkg/scheduler/lock.go:64-66 | one guarded update: it takes a free or expired row and no other |
| LockService.LeaseTable.Extend | pkg/scheduler/lock.go:143 | one guarded update: it extends a row that is live in the caller's name |
| LockService.LeaseTable.Free | pkg/scheduler/lock.go:84-88 | one guarded update: it frees a row that is live in the caller's name |
| LockService.LeaseTable.Save | pkg/scheduler/scheduler.go:123 | columns saved back overwrite the row but for zero values, whoever holds it by then |
| LockService.MySQLLock.TryLock | pkg/scheduler/lock.go:46-80 | result, row and cached time are those of the lease function; from a fresh cached time it answers without a change, and a take caches its own time and writes a whole lease; no other task is touched |
| LockService.MySQLLock.Unlock | pkg/scheduler/lock.go:82-101 | row and cached time are those of the lease function, and no other task is touched |
| LockService.MySQLLock.SaveRow | pkg/scheduler/scheduler.go:122-123 | saving a row back does to the row what the lease function says, leaves the cached time alone, and touches no other task |
| LockService.MySQLLock.RenewLocks | pkg/scheduler/lock.go:131-160 | one round renews every cached lock once, in whatever order the map yields them |
| LockService.MySQLLock.ReleaseAll | pkg/scheduler/lock.go:103-120 | every cached lock is released once, in whatever order, and nothing else changes |
| LeaseLatency.NetInvStep | pkg/scheduler/lock.go:46-160 | clocks are apart, time passes inside every call, and a take and a renewal of one task overlap: every step keeps every cached time, and every time about to be stored, from outlasting the row, or its loss, by as much as the skew; three steps only if they meet their exact conditions, LostRowFinishExact, RenewalStatementExact and LostReleaseExact |
| LeaseLatency.NoSkewExclusion | pkg/scheduler/lock.go:51-66 | without skew, while an instance passes on its cached time it holds the row, no other passes, and no take that is under way can match |
| LeaseLatency.LostRowFinishExact | pkg/scheduler/lock.go:149-153 | while another instance with the fastest admissible clock is idle, storing the cached time of a lost row, as the code does, leaves passing on cached times honest now and after any further allowed moves if and only if the reply took at least a lease, or the instance has taken the row again and it covers the time, or the row was lost so late that the time expires within the skew |
| LeaseLatency.RenewalStatementExact | pkg/scheduler/lock.go:137-148 | while another instance with the fastest admissible clock is idle, a renewal that matches its row leaves passing on cached times honest now and after any further allowed moves if and only if the time its instance relies on, and that of a take it is about to store, both expire no later than the renewed row or within the skew |
| LeaseLatency.LostReleaseExact | pkg/scheduler/lock.go:84-92 | a release that is applied and whose reply is lost leaves passing on cached times honest now and after any further allowed moves if and only if its caller's cached time has run out, or runs out within the skew of an earlier loss of the row |
| LeaseLatency.ExtensionsAllowed | pkg/scheduler/lock.go:137-148 | a renewal that does not move the end of the row back always meets the condition of RenewalStatementExact |
| LeaseLatency.NetInvAlways | pkg/scheduler/lock.go:46-160 | the same invariant at every point of every run in which the three steps meet their exact conditions, runs through the branch for a lost row and with lost replies of releases included |
| LeaseLatency.LossIsRemembered | pkg/scheduler/lock.go:64-66 | the moment a row was taken from an instance is kept until the instance holds the row again |
| LeaseLatency.SkewBoundsOverlap | pkg/scheduler/lock.go:51-66 | in those runs, after another instance has taken an expired lease the old holder passes on its cached time for less than the skew of real time, until it takes the row again |
| LeaseLatency.LostRowRenewalBreaksExclusion | pkg/scheduler/lock.go:149-153 | as the code stands, with perfect clocks and any lease of three units or more, a delayed renewal lets two instances pass at once |
| LeaseLatency.RetakenRowRenewalBreaksExclusion | pkg/scheduler/lock.go:64-66 | with perfect clocks, any lease, and the branch for a lost row as it is or repaired, two instances pass at once after a renewal that arrives when its own instance has taken the row again, if its reply stays out for another lease less one unit |
| Breaker.RefinesHistory | pkg/scheduler/circuitbreaker.go:27-56 | the two maps are a function of the history: the count is the number of failures since the task last started afresh, and a task is tripped, at its latest failure, if and only if there are enough of them |
| Breaker.IsolationFromHistory | pkg/scheduler/circuitbreaker.go:43-56 | what a query answers is told from the history alone; for a threshold of at least one a task is tripped if and only if its count has reached it |
| Breaker.StreakTrips | pkg/scheduler/circuitbreaker.go:34-41 | failures in a row are counted one by one from a fresh start |
| Breaker.TripAndRecover | pkg/scheduler/circuitbreaker.go:34-56 | a row of failures isolates a task if and only if it is at least as long as the threshold, and a query after the isolation time sets the task free with its count at zero |
| Breaker.CircuitBreaker.OnSuccess | pkg/scheduler/circuitbreaker.go:27-32 | the maps stay those of the history with one success more |
| Breaker.CircuitBreaker.OnFailure | pkg/scheduler/circuitbreaker.go:34-41 | the maps stay those of the history with one failure more |
| Breaker.CircuitBreaker.IsIsolated | pkg/scheduler/circuitbreaker.go:43-56 | the answer is the one the history gives, and the maps stay those of the history with the query |
| TaskHeap.UpRestores | pkg/scheduler/task.go:43-48 | sifting up restores heap order and keeps the tasks |
| TaskHeap.DownRestores | pkg/scheduler/task.go:51-58 | sifting down restores heap order, keeps the tasks and leaves what lies behind the heap alone |
| TaskHeap.InsertKeeps | pkg/scheduler/task.go:43-48 | an insertion keeps heap order and adds exactly the one task |
| TaskHeap.PopTakesMax | pkg/scheduler/task.go:51-58 | a pop takes a task of maximal priority, the one at the root, and keeps heap order and all other tasks |
| TaskHeap.DrainSorts | pkg/scheduler/task.go:51-58 | popping until the queue is empty yields every task, by falling priority |
| TaskHeap.LessOfLargerFirst | pkg/scheduler/task.go:69-75 | asked with the larger index first, the comparator answers by priority alone |
| TaskHeap.TieBreakNeverDecidesUp | pkg/scheduler/task.go:69-75 | sifting up moves tasks as it would with a comparator that looks at priorities only |
| TaskHeap.TieBreakNeverDecidesDown | pkg/scheduler/task.go:69-75 | the same of sifting down |
| TaskHeap.EqualTasksDrain | pkg/scheduler/task.go:50-58 | tasks of one priority come out as the first one and then the others last to first |
| TaskHeap.FifoExactly | pkg/scheduler/task.go:50-75 | distinct tasks of one priority come out in the order they went in if and only if there are at most two |
| TaskHeap.ThreeEqualTasks | pkg/scheduler/task.go:69-75 | three tasks of one priority pushed as A, B, C are popped as A, C, B |
| TaskHeap.TaskQueue.Push | pkg/scheduler/task.go:43-48 | the loop computes the insertion, keeps heap order and adds the one task |
| TaskHeap.TaskQueue.Pop | pkg/scheduler/task.go:51-58 | the loop computes the pop: a task of maximal priority leaves, heap order and all others stay |
| WheelTiming.TickConserves | pkg/scheduler/timewheel.go:52-66 | a tick hands a task of the swept slot to the queue or puts it back into one slot, never both and never neither, and leaves every other task in the wheel |
| WheelTiming.AddConserves | pkg/scheduler/timewheel.go:33-48 | an addition puts the one task into one slot |
| WheelTiming.AddTimely | pkg/scheduler/timewheel.go:33-47 | the slot an addition chooses comes round in time, although slots are counted in 100 ms and ticks are not |
| WheelTiming.TickTimely | pkg/scheduler/timewheel.go:52-66 | a tick hands over only tasks whose time has passed, none of them late, and keeps the others on time, also those it puts back |
| WheelTiming.CarriedOrFired | pkg/scheduler/timewheel.go:33-66 | from its addition on a task is in the wheel, unchanged, and not handed over, or has left it and was handed over at exactly one tick |
| WheelTiming.HandedOverOnce | pkg/scheduler/timewheel.go:16-66 | in any run with ticks of 1 to 500 ms an added task is handed to the queue exactly once: strictly after its due time, at most two ticks after the later of due time and addition if a tick is at most 100 ms, and never more than one turn of the wheel after it |
| TimeWheel.TimeWheel.constructor | pkg/scheduler/timewheel.go:16-30 | the wheel starts empty, with as many slots as ticks fit into 500 ms |
| TimeWheel.TimeWheel.AddTask | pkg/scheduler/timewheel.go:33-48 | a task goes into the slot after the one that is as many slots ahead as its delay has 100 ms, the delay being zero if its time has passed; whatever value of the timed wheel the object stands for, it then stands for the addition to it |
| TimeWheel.TimeWheel.HandOut | pkg/scheduler/timewheel.go:59-63 | one swept task goes to the queue if its time has passed and back into the wheel if not |
| TimeWheel.TimeWheel.Sweep | pkg/scheduler/timewheel.go:56-64 | the loop over the swept slot, in whatever order and with clock readings of its own for each task, puts back what is not ripe and hands over exactly what is |
| TimeWheel.TimeWheel.Tick | pkg/scheduler/timewheel.go:52-66 | after a tick every slot holds what it held and what was put back into it, and the queue has gained exactly the tasks that were ripe by their own readings; with one reading for all of them the object goes from a value of the timed wheel to the tick of that value |
| TimeWheel.AddReflects | pkg/scheduler/timewheel.go:33-48 | what AddTask does to the slots is the addition of the timed wheel |
| TimeWheel.TickReflects | pkg/scheduler/timewheel.go:52-66 | what a sweep does to slots and queue is the tick of the timed wheel |
| Node.TokenStep | pkg/scheduler/scheduler.go:61-126 | no event of the wheel, the dispatcher or a run, with any slot AddTask may pick, loses or duplicates a task's token |
| Node.InvStep | pkg/scheduler/scheduler.go:61-160 | every event keeps tokens unique, runs spaced, and failures within the threshold |
| Node.TokenConservation | pkg/scheduler/scheduler.go:61-126 | at every point of every run a registered task is in exactly one of a slot, the sweep, the queue, the dispatcher's hand and a run; lock failures, isolation, errors and panics included |
| Node.RunSpacing | pkg/scheduler/scheduler.go:84-122 | a run starts strictly more than one interval after the clock reading that ended any earlier run of the task on the instance |
| Node.NoRunWhileIsolated | pkg/scheduler/scheduler.go:89-160 | after a failure that trips the breaker no run of the task starts on the instance until the isolation time is over |
| Node.FailuresStopAtThreshold | pkg/scheduler/scheduler.go:89-160 | at every point of every run, its end included, the failure count does not exceed the threshold, and a task is tripped if and only if it has reached it |
| Node.NoTryDuringRun | pkg/scheduler/scheduler.go:77-155 | at every point of every run the dispatcher does not have a task that is in a run, so that TryLock of a task never meets its release |
| Dispatch.HoldingOnlyByLock | pkg/scheduler/scheduler.go:77-96 | only a successful TryLock puts a task on its way into Run |
| Dispatch.InvStep | pkg/scheduler/scheduler.go:77-155 | every action of any instance, with timely renewals and with lost releases and saved columns that meet their exact conditions, keeps this: whoever dispatches or runs a task has a live lease on it |
| Dispatch.NeverTwoRuns | pkg/scheduler/scheduler.go:77-155 | for any number of instances and any interleaving without Stop: if held locks are renewed before their leases end, no release loses its reply while its caller relies on the cached time, and columns saved after a run leave nobody uncovered who relies on one (WriteBackExact), then no two instances are ever inside Run of the same task, and the one that is owns the row |
| Dispatch.LockAnswerDecides | pkg/scheduler/scheduler.go:77-96 | a TryLock that succeeds grants the popped task, and nothing else of the instance changes; one that does not puts it back into the wheel, due one interval from now |
| Dispatch.ReachesRun | pkg/scheduler/scheduler.go:41-122 | for any task and instance, a run within the assumptions of NeverTwoRuns that goes from the registration through wheel, queue, lock and breaker into Run |
| SchedulerService.Scheduler.constructor | pkg/scheduler/scheduler.go:29-39 | a new scheduler is an instance with nothing in any place |
| SchedulerService.Scheduler.RegisterTask | pkg/scheduler/scheduler.go:41-63 | a task is due at its stored time, or one interval from now if it has no row yet, goes into the wheel, and has a row afterwards |
| SchedulerService.Scheduler.DispatchNext | pkg/scheduler/scheduler.go:77-96 | one round of the loop, with a clock reading for each of lock, breaker, re-timing and wheel, pops a top task, does to its lock what TryLock does and nothing to any other, and is a sequence of enabled events that ends in the wheel, due one interval on, or in a new run if and only if the lock was got and the breaker does not isolate the task; no other due time changes |
| SchedulerService.Scheduler.OnSuccess | pkg/scheduler/scheduler.go:157-160 | records one success, after which the task has no failures and is not tripped, and is the success event of the instance |
| SchedulerService.Scheduler.OnFailure | pkg/scheduler/scheduler.go:149-155 | records one failure and one query: the count goes up by one, and the lock is released if and only if the count has reached the threshold and the query comes within the isolation time |
| SchedulerService.Scheduler.Perform | pkg/scheduler/scheduler.go:128-146 | a success leaves the task without failures and not tripped; an error records one failure and one query, and releases the lock if and only if the count reaches the threshold and the query comes within the isolation time; a panic or a missing row leaves the breaker as it was |
| SchedulerService.Scheduler.RunTask | pkg/scheduler/scheduler.go:110-147 | with a clock reading for each of its parts: the breaker is left as Perform leaves it, without a row as by a run that does not take place; the task is re-timed one interval ahead of the end and is back in the wheel; the lock is released if and only if an error leaves the task isolated, and then the row gets exactly the lease columns read at the start, unless there was no row, it named no holder, or the save fails; other tasks' locks and due times stay |
| SchedulerEvents.WholeSweep | pkg/scheduler/timewheel.go:52-66 | the sweep of a slot is a sequence of enabled events, one for each task at its own clock readings, after which exactly the ripe tasks are in the queue, the others in the slots of their times, and everything else is where it was |
| SchedulerService.Scheduler.Tick | pkg/scheduler/timewheel.go:52-66 | a tick of the wheel object is such a sequence of events of the instance, with that outcome |
| Framing.RawLinesOfFrame | pkg/pipeline/storage.go:80-81 | lines written one after the other, each with its newline, are read back as they were |
| Framing.ScanHeld | pkg/pipeline/storage.go:134-172 | reading a file of encoded records yields its records from the front, all of them if it is read to its end, which it is if every line is below the reader's limit |
| Framing.HoldsOnce | pkg/pipeline/storage.go:134-172 | a file's content determines its records |
| Framing.ScanExactly | pkg/pipeline/storage.go:150-169 | of any content, well kept or not, reading yields what the lines before the first one that is too long or does not decode hold, empty ones skipped, and ends well if and only if there is no such line |
| Framing.RawLinesOfTail | pkg/pipeline/storage.go:150-152 | a last line without a newline is read as well |
| FileNames.NameOrderIsTimeOrder | pkg/pipeline/storage.go:184-185 | for any two calendar readings with four-digit years the names compare as the times do |
| FileNames.ListingUnique | pkg/pipeline/storage.go:100-107 | a directory has one sorted listing |
| FileNames.ListingGrows | pkg/pipeline/storage.go:107-107 | a file with a name later than all others goes to the end of the listing |
| Storage.SaveGrew | pkg/pipeline/storage.go:51-93 | whatever fails, a save takes no record from any file; a successful one has written every item through a handle, and onto a file with a name if the handle has one; a full disk has written no record |
| Storage.SaveExactly | pkg/pipeline/storage.go:51-93 | whatever fails, after a save every file holds what it held and then, in order, exactly the records written through a handle on it |
| Storage.WrittenIsOfBatch | pkg/pipeline/storage.go:67-90 | every record of a save carries its name and items of its batch |
| Storage.WrittenThrough | pkg/pipeline/storage.go:55-89 | every chunk goes through the handle the save began with or onto a file created during the save |
| SaveGuards.SaveLands | pkg/pipeline/storage.go:51-93 | a save writes an item to a file that has a name if and only if the disk is not full and some chunk holds the item and lands: the handle is open, that chunk and all before it are encoded and written, every rotation that the counted size brings before it succeeds, and the handle of the start has a name or one of those rotations has replaced it |
| SaveGuards.SaveShuts | pkg/pipeline/storage.go:87-89 | a save leaves a closed handle if and only if it found one, or a rotation after a chunk that is written fails |
| SaveGuards.SaveReturns | pkg/pipeline/storage.go:51-93 | a save reports a full disk if and only if it has a file and the disk is full, and succeeds if and only if it has a file, the disk is not full, and each chunk is encoded and written with every rotation before it succeeding |
| RoundTrip.SaveChunksAppends | pkg/pipeline/storage.go:67-90 | from any index on the loop appends exactly the remaining chunks to the records on disk, across rotations |
| RoundTrip.AllOnDisk | pkg/pipeline/storage.go:51-93 | after any sequence of good saves, from any directory of well-kept files of earlier processes, the records of the listed files are the old ones and then the saved chunks of every name, in order |
| RoundTrip.StreamOfGood | pkg/pipeline/storage.go:113-123 | the replay stream of well-kept files carries exactly their records; end marks add nothing |
| RoundTrip.SaveRecoverRoundTrip | pkg/pipeline/storage.go:51-172 | after any sequence of saves without faults, with each new name later than those on disk and lines below the reader's limit, replay under a name yields the items that the files of earlier processes would have yielded and then the items saved under it, in order; every file is read to its end, chunks have 1 to batchSize items, no data record is an end mark, and no file is over the size limit by more than its last line |
| RoundTrip.LaterSecondIsNewest | pkg/pipeline/storage.go:184-186 | a file created in a later second than all others has the newest name |
| LocalStorage.LocalStorage.RotateFile | pkg/pipeline/storage.go:174-194 | the old handle is closed, and an empty file of the new name is open unless creating it failed; a file that had the name is emptied |
| LocalStorage.LocalStorage.Save | pkg/pipeline/storage.go:51-93 | the chunk loop computes the save of the store, with its result |
| LocalStorage.LocalStorage.RecoverFile | pkg/pipeline/storage.go:134-172 | the scanning loop yields the batches of the file and whether it was read to its end: if and only if every line is below 1024 bytes for each item of a batch, below 10 MB, and empty or decodable |
| LocalStorage.LocalStorage.Recover | pkg/pipeline/storage.go:96-127 | the stream is the batches of each listed file, with an end mark for those read to their end |
| LocalStorage.LocalStorage.RemoveFile | pkg/pipeline/storage.go:129-131 | the name is gone, and a handle open on it lives on without a name |
| LocalStorage.LocalStorage.Close | pkg/pipeline/storage.go:197-205 | an open file is closed and no file changes |
| Recovery.TryRecover | pkg/pipeline/core.go:181-210 | the loop over the stream computes the pass: counts, removed files and the carried flag |
| Recovery.ConsumeSegments | pkg/pipeline/core.go:183-210 | file by file, exactly the removable files are removed and the flag says whether a failure is carried on |
| Recovery.CountsExactly | pkg/pipeline/core.go:181-210 | no error is counted if and only if every batch was exported, and a success if and only if some batch with items was |
| Recovery.RemovedExactly | pkg/pipeline/core.go:181-210 | a file is removed if and only if it was read to its end, every batch of it was exported in this pass, and no failure was carried into it from files before it that had no end mark; no error was counted if and only if every batch of every file was exported |
| Recovery.CleanPassRemovesAll | pkg/pipeline/core.go:181-215 | a pass without an error removes every file that was read to its end |
| Recovery.StreamIsSegments | pkg/pipeline/storage.go:113-123 | the stream of a directory is, file by file, its batches and its end mark |
| Engine.SpillAccounts | pkg/pipeline/storage.go:51-93 | a save keeps everything accounted for, and a successful one accounts for its batch: on a file yet to be replayed, or in the bucket of appends to a replayed file |
| Engine.SpillLosesExactly | pkg/pipeline/storage.go:55-92 | a successful save writes through a handle whose file was already replayed or has no name if and only if it began with one; whether that loses an item is for Losses.RemovalLosesExactly to say |
| Engine.ExportAllHonest | pkg/pipeline/core.go:252-288 | an item counts as delivered to an exporter, or as lost to a failed save, if and only if that exporter's call ended so |
| Engine.FlushStatus | pkg/pipeline/core.go:274-288 | the last save of a flush that succeeded or met a full disk decides the status: recovering or blocked; without one it stays |
| Engine.ReplayStatus | pkg/pipeline/core.go:181-215 | a replay ends in normal status if and only if every batch it read was exported and at least one held an item |
| Engine.BlockedUntilSaved | pkg/pipeline/core.go:158-165 | blocked is left if and only if a recovery tick saves the whole buffer, which is then empty; until then the buffer only grows |
| Engine.ExportAllAccounts | pkg/pipeline/core.go:252-288 | after the exporters, in any order and however they fail, every item is accounted for with every one of them |
| Engine.RemovedWasDelivered | pkg/pipeline/core.go:184-200 | every record of a file that a replay gives up for removal was exported successfully in that replay |
| Engine.ReplayAccounts | pkg/pipeline/core.go:172-216 | a replay keeps everything accounted for although it gives up files |
| Engine.InvStep | pkg/pipeline/core.go:146-288 | every flush, recovery tick and removal keeps this: an item flushed while not blocked and kept by the filters is, for every exporter, delivered, on a file yet to be replayed, or in one of the two loss buckets; buffered data means blocked; and blocked does not turn into normal |
| Engine.FlushSorts | pkg/pipeline/core.go:218-246 | a flush sorts each item of its batch into kept, dropped by a filter, or buffered |
| Engine.FilterCounts | pkg/pipeline/core.go:232-246 | the filters keep each passing item as often as it was in the batch, and no other |
| Engine.FilterPicks | pkg/pipeline/core.go:232-246 | they keep the order: the kept items are those at increasing places of the batch |
| Engine.FilterConcat | pkg/pipeline/core.go:232-246 | filtering two batches one after the other is filtering them together |
| Engine.FlushExports | pkg/pipeline/core.go:218-246 | a flush exports what the filters keep, in order, or adds the batch to the end of the buffer, unfiltered |
| Engine.ExportsInTurn | pkg/pipeline/core.go:252-288 | each call that fails has the whole batch saved as it is, under its exporter's name, after what the calls before it saved |
| Engine.ReplayHonest | pkg/pipeline/core.go:172-210 | an item counts as delivered by a replay if and only if the export of a record that holds it succeeded, under the record's name |
| Engine.SmoothStep | pkg/pipeline/core.go:155-287 | with readable files, removals that succeed and saves that fail only for a full disk, normal status goes on meaning that no file yet to be replayed holds a record |
| Engine.DeliveredStep | pkg/pipeline/core.go:155-287 | under the same conditions normal status goes on meaning that every record on any file, also on one that is being removed, has been delivered |
| Losses.SpillPlaces | pkg/pipeline/storage.go:51-93 | a save puts an item on a file if and only if it writes it through a handle on that file, and takes none away |
| Losses.ErrorLosesExactly | pkg/pipeline/core.go:274-288 | a failed export of an item that is neither delivered nor on a file leaves it so, lost, if and only if the disk is full or no chunk that holds it lands, in the sense of SaveGuards.SaveLands: in terms of the handle, its size and the environment at the start |
| Losses.DiskFullDrops | pkg/pipeline/core.go:278-281 | a save that meets a full disk drops the whole batch: what was neither delivered nor on a file stays so |
| Losses.StepPlaces | pkg/pipeline/core.go:146-288 | after any step that does not flush an item or save it from the buffer, the same files hold it but for a removed one, and it has been delivered if it had been or if the step replays it with success |
| Losses.RemovalLosesExactly | pkg/pipeline/core.go:184-200 | an item that is on one file only and not delivered, whether that file was replayed before or not, is lost when the file is removed if and only if no replay up to then delivers it |
| Losses.LostAppendRun | pkg/pipeline/storage.go:51-93 | a run from an empty directory that loses an item for any two items: a batch is saved, its file replayed, a second batch appended to it, and the file removed |
| Losses.UnregisteredExactly | pkg/pipeline/core.go:201 | a replay meets a name without an exporter if and only if the pipeline's own name has none and the stream has a record under it; the items of such a record were buffered while the pipeline was blocked |
| Losses.UnregisteredRun | pkg/pipeline/core.go:158-201 | a run from an empty directory that ends before such a replay: a full disk, a batch meanwhile, and a tick that saves it |
| Pipeline.OrderStep | pkg/pipeline/core.go:91-143 | every push, receive, timeout, close and drain keeps flushed, batched and queued items together equal to the accepted ones in order |
| Pipeline.InvStep | pkg/pipeline/core.go:91-304 | every step of the whole pipeline keeps the order, the accounting, and that everything flushed reached the delivery side |
| Pipeline.BatchingKeepsOrder | pkg/pipeline/core.go:109-143 | at every point of every run, under every choice of the select and through Close, flushed batches, batch and queue without nils are the accepted items in order; between its rounds the loop holds less than a batch; the drained batch has at most 11 times the batch size less one items; at the end everything accepted was flushed |
| Pipeline.NoPushAfterClose | pkg/pipeline/core.go:91-107 | from the first step of Close on no push is accepted |
| Pipeline.PushExactly | pkg/pipeline/core.go:91-107 | a push is accepted if and only if the pipeline is not blocked, has been started and has fewer than ten batches queued; the reason of a refusal is the first of these that fails |
| Pipeline.NothingAcceptedWhileBlocked | pkg/pipeline/core.go:91-107 | no step of any run adds an item while the status is blocked, and whatever adds one adds it to the end of the queue |
| Pipeline.BatchesLeaveWhenDue | pkg/pipeline/core.go:109-143 | in every run a batch leaves when it has reached the batch size, at a time-out, or at the end of the drain, and in no other step |
| Pipeline.EveryItemAccounted | pkg/pipeline/core.go:91-288 | at every point of every run an accepted item is queued, batched, dropped by a filter, buffered or accounted for under the pipeline's name, or accounted for with every exporter |
| Pipeline.NothingLost | pkg/pipeline/core.go:218-288 | if no save failed and nothing was appended to a replayed file, every item flushed while not blocked and kept has been delivered to every exporter or is on a file yet to be replayed |
| Pipeline.LossesAreKnown | pkg/pipeline/core.go:218-288 | in every run an item that was flushed and kept, and is neither delivered to an exporter nor on any file for it, is in one of the two loss buckets |
| Pipeline.LostForGood | pkg/pipeline/core.go:146-288 | what is neither delivered nor on a file, nor buffered, stays lost in every continuation |
| Pipeline.UnregisteredExactly | pkg/pipeline/core.go:201 | the exact condition of Losses.UnregisteredExactly at every point of every run from an empty directory |
| Endings.ShutForGood | pkg/pipeline/storage.go:55-89 | in every run, once a rotation has left a closed handle it stays closed, no file gains a record, and a pipeline that is blocked with data in its buffer stays blocked with it |
| Endings.ShutLoses | pkg/pipeline/core.go:274-288 | what an exporter refuses from then on is lost to it |
| Endings.ClosedForGood | pkg/pipeline/core.go:291-304 | in every run, once the processor and the recovery monitor have returned, batch and queue and delivery side stay as they are but for removals of replayed files |
| Endings.LeftInBuffer | pkg/pipeline/core.go:150-165 | an item that is then in the buffer and on no file under the pipeline's name stays there and never gets onto one |
| Endings.LeftInBufferRun | pkg/pipeline/core.go:109-165 | for any batch size and any two items, a run of a pipeline on a full disk that ends closed, with the second item accepted and in the buffer, neither delivered nor on a file |
| Pipeline.StatusMachine | pkg/pipeline/core.go:155-165 | in every run buffered data means blocked, and blocked never turns into normal in one step |
| Pipeline.NormalMeansClean | pkg/pipeline/core.go:212-287 | from an empty directory, with readable files, removals that succeed and saves that fail only for a full disk, normal status means that no file yet to be replayed holds a record, and that every record on any file has been delivered |
| PipelineService.Pipeline.constructor | pkg/pipeline/core.go:37-62 | a new pipeline is empty, normal and not started, over a directory that may hold files of an earlier process |
| PipelineService.Pipeline.Start | pkg/pipeline/core.go:65-89 | is the start step of the pipeline |
| PipelineService.Pipeline.Push | pkg/pipeline/core.go:91-107 | on the object's own status, flag and queue: accepted if and only if not blocked, started and with room for one more of ten batches; blocked, not started and full are told apart in this order, and only an accepted item enters the queue, at its end |
| PipelineService.Pipeline.ApplyFilters | pkg/pipeline/core.go:232-246 | the two loops keep each item that passes every filter, as often as it was there, at increasing places of the batch |
| PipelineService.Pipeline.HandleExportError | pkg/pipeline/core.go:274-288 | the storage gets the save of the items under the exporter's name, and its result decides the status: recovering, blocked, or as before |
| PipelineService.Pipeline.FlushBatch | pkg/pipeline/core.go:218-272 | while blocked the batch goes to the end of the buffer; storage, buffer, status and history are those of the delivery machine |
| PipelineService.Pipeline.Receive | pkg/pipeline/core.go:126-133 | is the receive step of the pipeline, nil from a closed queue included |
| PipelineService.Pipeline.Timeout | pkg/pipeline/core.go:135-140 | is the timeout step of the pipeline |
| PipelineService.Pipeline.DrainAll | pkg/pipeline/core.go:116-124 | everything in batch and queue leaves in one flush, and nothing is left |
| PipelineService.Pipeline.TryRecoverFromDisk | pkg/pipeline/core.go:172-216 | exports, removals and status are those of the delivery machine for the stream on disk |
| PipelineService.Pipeline.RecoveryTick | pkg/pipeline/core.go:155-200 | while recovering, one tick replays, and hands over for removal exactly the files that were read to their ends, whose every batch was exported in this tick, and into which no failure was carried; while blocked, it saves exactly the buffer, and empties it if that succeeds; otherwise nothing, and nothing is handed over |
| PipelineService.Pipeline.RemoveReplayed | pkg/pipeline/core.go:190-198 | only a file that a replay has handed over is removed |
| Routing.PrintedIdRoutes | internal/model/auditlog.go:41-47 | the table parsed from an underscore-free uuid, an underscore and a position is the one of that position if and only if the position has no underscore |
| Routing.IdRoutes | internal/model/auditlog.go:41-47 | any id names the table of what is between its first two underscores, and the plain table if it has none |
| Routing.BeforeExport | pkg/plugin/lifecycle/logid.go:63-67 | after the printing loop every entity names the table of the position read, and its id is the one printed for it |
| Routing.RoutedOnce | internal/model/auditlog.go:58-65 | every entity is routed to the table its id names as often as it was handed in, and to no other table |
| Routing.RoutedConcat | pkg/plugin/exporter/mysql.go:43-49 | cutting a batch anywhere changes neither what goes to a table nor its order |
| Routing.GroupByTable | internal/model/auditlog.go:58-65 | the loop groups the batch: one group for each table named, with its entities in input order |
| Routing.InsertGroups | internal/model/auditlog.go:67-76 | inserting the groups in any order of the map gives every table its group, or fails if and only if some group's insert fails |
| Routing.SaveBatch | internal/model/auditlog.go:57-80 | every entity goes to one insert, into the table its id names, in input order |
| Routing.Export | pkg/plugin/exporter/mysql.go:26-59 | over all chunks either every table has gained, after its earlier rows, exactly the entities whose ids name it in input order, or the database is unchanged; and it fails if and only if some datum is no entity or the insert of some chunk into some table fails |
| Routing.Convert | pkg/plugin/exporter/mysql.go:32-39 | each datum's entity at the datum's place, if and only if every datum is one |

## Left out

- Stop and ReleaseAll in the exclusion theorem: Stop releases locks under tasks that are still running, so `Dispatch` has no such step.
- Lease columns saved by runTask: the exclusion results are about runs in which they meet the condition of WriteBackExact, because without it they are false (StaleWriteBackBreaksExclusion, WriteBackHarmless).
- LeaseLatency.NetInvStep: three steps of the code are admitted only under the conditions of LostRowFinishExact, RenewalStatementExact and LostReleaseExact, because without them the statement is false. The same goes for NetInvAlways and SkewBoundsOverlap.
- LeaseLatency: releases and renewals of one task on one instance do not overlap (TryLock and renewals do; TryLock and releases cannot, by Node.NoTryDuringRun), saves of rows are in `Lease` only, and an instance clock runs ahead of real time by a fixed amount.
- WheelTiming.HandedOverOnce: ticks are regular, of whole milliseconds, a sweep takes no time, and AddTask does not straddle a tick; Node.TokenConservation and Node.RunSpacing need none of this.
- Goroutines and mutexes inside one piece of work: each method of an object is taken alone, and `Node`, `Dispatch` and `Pipeline` interleave the pieces.
- The endless loops of Start, AutoRenew, processor and recoveryMonitor are their bodies, run any number of times by the machines.
- SchedulerService.Scheduler.RunTask: the sleep until the stored next run time at its start, which only delays the run, and columns of the schedule table other than the lease and that time.
- LocalStorage.LocalStorage.Write: a failed write leaves no bytes; partial lines at the end of a file are not modelled.
- File names used twice: a rotation within the second of an earlier one truncates that file, so the accounting and the round trip require a new name; name order is time order only while the local calendar does not go back.
- RoundTrip.SaveRecoverRoundTrip: asks for a new name to be later than the names on disk, not only unused, because replay follows the order of the names.
- Closing: Close of the pipeline object, which waits for its goroutines; its three steps are steps of `Pipeline`, and closing the open file is LocalStorage.LocalStorage.Close.
- What follows the nil dereference of `core.go:201`: a replay step is enabled only if every name in the stream is registered; UnregisteredExactly says when that fails.
- Losses.RemovalLosesExactly: is about an item on one file and not flushed again meanwhile; Pipeline.LostForGood needs neither.
- JSON: an encoding is any function that yields non-empty lines without a newline or a final carriage return and that its decoder inverts; typed values are not recovered, items are opaque and distinct.
- Lifecycle hooks in flushBatch do not change the items; what the id hook does to entities is in Routing.BeforeExport, which takes a batch of entities and a position that was read, without the cache, the retries and the type check of the first datum.
- The disk-space check is a free choice at each call.
- Starting a pipeline again after Close, and defaults of its configuration.
- Routing: the audit log is the only entity, so the type error of SaveBatch cannot occur; duplicates are inserted, because log_id is not unique; SQL itself is an append to a table that may fail.
- HTTP handlers, configuration, connection setup, metrics, logging, query building, plugin registries, Redis and the shard rollover job.
