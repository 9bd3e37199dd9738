# Tracking-Parking API: a verified model

The service counts cars. Edge devices post entry and exit events; a background queue applies them to
`system_count` of the device's parking lot. People adjust and reset `current_count`. Every change is
also a row of an append-only activity log. A crash may drop the in-memory queue, so a periodic sweep
retries rows that are still `pending` or `failed`. Beside this the service keeps a command queue that
devices poll, and rotating refresh tokens for administrators.

The project has three layers.

* **Transactions on values.** `Store.dfy` and `Operations.dfy` give the tables and, as the function
  `Do`, what each committed transaction does to them. `Ledger`, `Clamp`, `NonInterference`,
  `Correspondence`, `Sweep` and `ResetRace` prove what holds over every serial run.
* **Classes.** `Session.dfy`, `EventUsecase.dfy` and `ParkingLotUsecase.dfy` (also the devices and the
  daily reset script) change a session's working copy statement by statement, commit or roll it back,
  and are proved to commit exactly the transaction of the first layer, and to write, column by column,
  what the source writes (`Effects.dfy` for events). Exceptions come from a fault
  argument that says where a call raises. `DeviceCommands.dfy`, `RefreshTokens.dfy` and
  `ActivityExport.dfy` do the same for their parts.
* **Overlapping calls.** `Protocol.dfy` cuts `process_event`, `adjust_count` and `reset_count` into
  their database steps. Workers interleave them in any way, any call may raise, any set of workers may
  crash, and sweeps and retries come at any time. `Serializability` shows that every schedule commits
  what the serial run of its commits gives; there an application carries the lot and code that its worker
  saw, and a failure mark the attempts it read. So `Ledger`, `Clamp` and `NonInterference`, which are about
  any transactions, hold of schedules as they stand. `Correspondence` and the lemmas on whole sweeps are
  about whole calls: `WholeCalls` says when a schedule amounts to these, and `Traces` and `Skips` what is
  true of the log otherwise. `Accounting`, `Attempts`, `LostEvents` and `Overlaps` are about what
  overlapping adds, `Deadlock`, `SweepOrders`, `SweepRings`, `SweepMoves`, `SweepDeadlocks` and `SweepTies`
  about who waits for whom. `EnqueueRace.dfy` is the same for concurrent POST /events.

## Where the code differs from its documentation

* The docstring of `process_event` says its status guard rules out double processing. The failure mark
  (lines 141-149) runs after the rollback has released the row and does not look at the status again,
  so it can land on a row another worker has applied meanwhile; the row is then `failed` and is applied
  once more. `Overlaps.AppliedTwice` builds the schedule; `Accounting.OnceIffNoneMarked` says that this is
  the only way: an event is applied exactly once if processed, and never otherwise, if and only if no
  failure mark turns its row from `processed` to `failed`. (A mark by a call that had read `failed` does
  that only if a column assigned its old value is written; both cases are covered.)
* The early return of `process_event` (lines 115-116) ends no transaction, so a sweep keeps the lock of
  a row it skips until its next commit. Wait cycles are exactly rings of sweeps that each want a row the
  next one keeps (`Deadlock.CycleIffRing`). Sweeps, any number of them and begun at any time, can get there
  if and only if their lists are opposed in a circle (`SweepDeadlocks.DeadlockIffOpposed`); sweeps of one
  queue, if and only if two rows they list were received at the same instant (`SweepTies.DeadlockIffTie`).
  With distinct arrival times no schedule deadlocks (`SweepOrders.DistinctArrivalsNoDeadlock`). The database
  ends such a wait by an exception at line 114, which ends that sweep pass.
* That a processed event has its activity row (lines 119-134) is true of whole calls
  (`Correspondence.AllOrNothing`) but not of overlapping ones. A call uses the device row as its session
  loaded it, a sweep even as loaded with its list. If the lot named there is deleted before the call locks
  it, the event ends `processed` with no counter moved and nothing logged (`Skips.SkipReached`); this happens
  if and only if the lot is deleted in between (`Skips.SkipIffDeleted`), which takes a move of the device to
  another lot in between (`Skips.SkipTakesMove`).
* `docs/db-schema.md` draws the command life cycle pending, delivered, completed or failed. `ack_command`
  does not require it: an answer follows it exactly if the command was delivered and not yet answered
  (lemma `AckFollowsIff`), and `DeviceCommands.CompletedUndelivered` shows one that does not.
* `attempts` is not bounded by `event_queue_max_attempts`: only the sweep looks at the cap
  (`Sweep.RetriesIgnoreCap`, `Sweep.SweepRespectsCap`). A run stays within the cap if and only if it marks
  no failure on a row that is at the cap already (`Sweep.CapKeptIff`, `Sweep.CapKeptOverRunIff`). Nor does
  `attempts` count every failure: it is read and written without a lock, so of two overlapping marks one is
  lost (`Overlaps.MarkIsLost`); `Attempts.AttemptsCountMarks` says exactly when it is right. A late mark
  may even lower it, so that a row that was given up is retried again (`LostEvents.LeavesGivenUpIff`,
  `LostEvents.GivenUpComesBack`).
* A log row keeps the device code of the time the event was applied; after a rename it no longer names
  the device (`Correspondence.CodesMatch`, `Correspondence.RenameKeepsCodesIff`).
* `reset_all_counts` reads without a lock. Its log rows fit the zeroed counters exactly if no counter
  moved since that read (`ResetRace.AgreesIff`, `ResetRace.EntryBetween`).
* The statements of the daily reset are not one transaction: `TRUNCATE` commits by itself. Cut off before
  its last statement the script leaves counters without a log (`ParkingLotUsecases.ResetConsistentIff`).

## Assumptions

* A locking read returns the latest committed row; a row lock is held to the end of its transaction; a
  commit that raises has not taken effect. A column assigned the value it was loaded with may or may not
  be written; what depends on that is stated for both cases (`skips`).
* The unique indexes and foreign keys are those of the migrations; generated ids are not reused except
  that truncating a table starts its ids again.
* Where calls overlap, the daily reset is one step, and waits for transactions that have locked a row or read
  an event row for a failure mark, as `TRUNCATE` waits for the table to be out of use.
* Counts are unbounded integers. A value the column cannot hold makes the commit raise, which is one of
  the modelled faults. Times are integers on one clock.

## Model

| member | source | states |
|---|---|---|
| Ledger.RecordKeepsLedger | app/usecases/parking_lot_usecase.py:148-158 | Setting a counter and logging the difference keeps counters, deltas and count_after in agreement |
| Ledger.LedgerKept | app/models/parking_activity.py:12-15 | Every transaction keeps both counters of every lot equal to the sum of their logged deltas, and every count_after equal to the running sum |
| Ledger.RowsFollowOneAnother | app/models/parking_activity.py:24-25 | A row's count_after is the previous same-counter row's plus its delta; the last one shows the stored counter |
| Ledger.WithoutLotChained | app/models/parking_activity.py:20-22 | The cascade of a deleted lot leaves the running sums of all other rows right |
| Ledger.ReferencesKept | app/usecases/device_usecase.py:26-60 | Every device's lot and every event's device exist after any transaction |
| Ledger.EventsKept | app/models/event.py:27-34 | Request ids stay unique, and a pending event has no attempts |
| Ledger.CodesKept | app/models/device.py:14 | No two devices ever have the same code |
| Ledger.StoreOkOverRun | scripts/reset_daily_activity.py:69-71 | Ledger, references and event rows stay consistent over every run, the daily reset included |
| Ledger.BulkDeltas | app/usecases/parking_lot_usecase.py:122-135 | The deltas a reset-all logs add up to minus the previous total |
| Operations.BulkEqualsFold | app/usecases/parking_lot_usecase.py:115-139 | reset_all_counts gives the same counters and the same log, in the same order, as reset_count to 0 on each lot in id order |
| Clamp.LowIsLowest | app/usecases/parking_lot_usecase.py:149 | The lowest point used by the closed form is the minimum over all prefixes of the requested changes |
| Clamp.ClosedForm | app/usecases/parking_lot_usecase.py:141-150 | Counting clamped at 0 is plain counting lifted by the deepest dip below 0 |
| Clamp.ExactIffNeverClamps | app/usecases/event_usecase.py:121-125 | The plain sum is exact if and only if no step was clamped |
| Clamp.OrderBounds | app/usecases/event_usecase.py:121-125 | E entries and X exits in any order end between max(0, c+E-X) and max(0, c-X)+E |
| Clamp.ExitsFirst | app/usecases/event_usecase.py:121-125 | The upper bound is reached when all exits come first |
| Clamp.ExitsLast | app/usecases/event_usecase.py:121-125 | The lower bound is reached when all exits come last |
| Clamp.CounterOverRun | app/usecases/event_usecase.py:121-133 | Over any run without a reset of it, a stored counter is the clamped count of what was asked of it, and its logged deltas exceed what was asked by the deficit |
| Clamp.SystemCountBounds | app/usecases/event_usecase.py:121-125 | With E entry events and X exit events applied to a lot over any such run, its stored system_count ends between max(0, c+E-X) and max(0, c-X)+E, and at c+E-X iff no exit was clamped |
| Clamp.TypesAreRequests | app/usecases/event_usecase.py:121-125 | Each applied entry asks for one car more, each exit for one less |
| Clamp.EventRowDeltas | app/usecases/event_usecase.py:126-133 | Over every run each entry row has delta 1 and each exit row delta -1, or 0 where the count stays at 0 |
| Clamp.NeverNegative | app/schemas/parking_lot.py:20-21 | No counter is ever negative, given that a reset's count is not |
| NonInterference.ForeignInvisible | app/models/parking_lot.py:16-24 | An operation on one counter leaves everything the other side sees unchanged |
| NonInterference.OwnSameView | app/usecases/event_usecase.py:119-135 | An operation of one side depends on nothing the other side writes |
| NonInterference.NonInterferenceOverRun | app/usecases/event_usecase.py:75-84 | Erasing the other side's operations from any run changes no counter, event or log row (ids apart) of this side |
| Correspondence.ApplyingLogs | app/usecases/event_usecase.py:119-135 | In a whole call the lot exists, so applying an event logs exactly one row with its type and device code |
| Correspondence.AllOrNothing | app/usecases/event_usecase.py:114-136 | Over runs of whole calls without deletions, processed events and entry/exit rows correspond one to one, in order, with type and the device code of that time |
| Correspondence.CodesMatch | app/usecases/event_usecase.py:128-135 | While no device is renamed, every such row names the current code of its event's device |
| Correspondence.RenameKeepsCodesIff | app/usecases/device_usecase.py:54-63 | A rename leaves rows with an old code exactly if the code changes and an event of the device was applied |
| Correspondence.AllOrNothingFromEmpty | app/usecases/event_usecase.py:134-135 | From an empty database the correspondence is complete |
| Correspondence.RetryIsIdempotent | app/usecases/event_usecase.py:37-49 | Any number of repeats of a request, and of calls for its event, change nothing after the first was applied |
| Sweep.BatchSize | app/repositories/event_repository.py:58-69 | A sweep lists min(limit, number eligible) rows |
| Sweep.SweepEffect | app/usecases/event_usecase.py:170-175 | A sweep handles each listed row exactly once according to its outcome and touches no other row |
| Sweep.SweepCounts | app/usecases/event_usecase.py:155-175 | Lot counters after a sweep are the clamped fold of its successes in list order |
| Sweep.SweepRespectsCap | app/repositories/event_repository.py:64-66 | A sweep charges no row beyond the cap on attempts |
| Sweep.RetriesIgnoreCap | app/usecases/event_usecase.py:114-116 | Repeated calls of process_event raise attempts as far as one likes |
| Sweep.CapKeptIff | app/usecases/event_usecase.py:114-149 | A transaction keeps all attempts within the cap iff it is no failure mark that takes a row past it |
| Sweep.CapKeptOverRunIff | app/usecases/event_usecase.py:114-149 | A run stays within the cap all along iff none of its transactions is such a mark when its turn comes |
| Sweep.TickSpends | app/usecases/event_usecase.py:137-149 | A tick lowers the sum of (cap - attempts) by at least min(limit, eligible) |
| Sweep.NoStarvation | app/repositories/event_repository.py:58-69 | An eligible event with r retryable rows at or before it is picked within floor(r*cap/limit)+1 ticks, whatever fails |
| Sweep.DrainSpends | app/usecases/event_usecase.py:169-175 | Everything picked so far was paid for out of the initial budget |
| Sweep.QueueDrains | app/usecases/event_usecase.py:155-168 | Without arrivals, within as many ticks as there is budget some tick finds nothing eligible |
| Sweep.TickedDrains | app/main.py:27-32 | Successive sweeps of a stale queue leave nothing retryable within as many ticks as it has budget |
| Sweep.TickedTries | app/main.py:27-32 | Successive sweeps have applied or charged an eligible event within the bound of NoStarvation |
| ResetRace.AgreesIff | app/usecases/parking_lot_usecase.py:120-136 | A reset-all that read before committing leaves counters and log in agreement iff no counter moved in between, or only ones read as 0 that the mapper then does not write |
| ResetRace.RunBetween | app/usecases/parking_lot_usecase.py:120-136 | The same for any run committed between the read and the commit |
| ResetRace.EntryBetween | app/usecases/parking_lot_usecase.py:120-136 | One entry applied in between makes counter and log disagree |
| ResetRace.AloneIsSerial | app/usecases/parking_lot_usecase.py:120-136 | If none moved it is the reset-all of the serial model |
| EventUsecases.EventUsecase.EnqueueEvent | app/usecases/event_usecase.py:28-73 | A new request is stored with exactly the given device, type, track id and times, pending and untried, and no other row changes; whatever others commit before the commit and before the second lookup, the caller gets the row with its request id; it fails only if its insert was rejected and no such row is there |
| EventUsecases.EventUsecase.CreateEvent | app/routers/events.py:17-38 | A stored or repeated request is always scheduled, a failed one never; the stored row is the one posted |
| EventUsecases.EventUsecase.TryApply | app/usecases/event_usecase.py:118-136 | The try block commits together, or not at all wherever it raises: one car more for an entry, one less but not below 0 for an exit, the row of that kind with that change and count, and the status |
| EventUsecases.EventUsecase.TryMark | app/usecases/event_usecase.py:140-149 | The mini-transaction commits one more attempt and `failed`, or nothing |
| EventUsecases.EventUsecase.ProcessEvent | app/usecases/event_usecase.py:75-153 | One call commits that application, or one more failed attempt, or nothing, and returns true exactly when the event is no longer stuck |
| Effects.ProcessWrites | app/usecases/event_usecase.py:114-149 | What a whole call writes, for each way it can end, and that it writes nothing else |
| Effects.CommitWrites | app/usecases/event_usecase.py:119-135 | What the commit of an overlapping call writes, to the lot and under the code it had read |
| Effects.MarkReads | app/usecases/event_usecase.py:140-142 | A failed call reads the present attempts, and sets the status unless that was failed already and is then not written |
| Effects.MarkWrites | app/usecases/event_usecase.py:140-149 | Its mark writes one more than it had read, and the status if it sets it |
| EventUsecases.EventUsecase.ListStaleQueued | app/repositories/event_repository.py:48-69 | The listed rows are eligible, oldest first, and as many as the limit allows |
| EventUsecases.EventUsecase.SweepStaleEvents | app/usecases/event_usecase.py:155-175 | The pass processes its batch in order, aborts only on an exception outside the try block, and returns the number of listed events now applied |
| EventUsecases.EventQueueSweepLoop | app/main.py:19-34 | The loop survives failing sweeps; when failures get marked it drains a stale queue within its budget and tries every eligible event within floor(r*cap/limit)+1 ticks |
| ParkingLotUsecases.ParkingLotUsecase.CreateParkingLot | app/usecases/parking_lot_usecase.py:47-51 | A new lot starts with both counters at 0 |
| ParkingLotUsecases.ParkingLotUsecase.DeleteParkingLot | app/usecases/parking_lot_usecase.py:77-82 | A lot is deleted only if it exists and no device refers to it, and exactly its log rows with it |
| ParkingLotUsecases.ParkingLotUsecase.ResetCount | app/usecases/parking_lot_usecase.py:84-113 | The chosen counter is set and the difference logged as a reset of that counter; an unknown lot is rejected; nothing else changes |
| ParkingLotUsecases.ParkingLotUsecase.AdjustCount | app/usecases/parking_lot_usecase.py:141-161 | current_count moves by the delta but not below 0, what it moved is logged as a manual adjustment, and nothing else changes |
| ParkingLotUsecases.ParkingLotUsecase.ResetAllCounts | app/usecases/parking_lot_usecase.py:115-139 | One transaction that zeroes the chosen counter of every lot and logs each reset in id order, and equals reset_count to 0 over the lots in that order |
| ParkingLotUsecases.DeviceUsecase.RegisterDevice | app/usecases/device_usecase.py:23-37 | A device is stored only under an existing lot and an unused code |
| ParkingLotUsecases.DeviceUsecase.UpdateDevice | app/usecases/device_usecase.py:54-63 | Only the given columns change, only to an existing lot and an unused code |
| ParkingLotUsecases.DeviceUsecase.DeleteDevice | app/usecases/device_usecase.py:65-68 | The device goes and exactly its events with it |
| ParkingLotUsecases.ResetDailyActivity | scripts/reset_daily_activity.py:69-72 | Run through, events and log are emptied, both counters zeroed, lots and devices kept; cut off, what the statements so far committed |
| ParkingLotUsecases.ResetConsistentIff | scripts/reset_daily_activity.py:69-72 | The reset leaves a consistent store iff it is not cut off after the second truncation with cars counted |
| Protocol.NextExclusive | app/repositories/parking_lot_repository.py:33-36 | No event row and no lot row is ever locked by two workers |
| Protocol.NextSound | app/usecases/event_usecase.py:119-125 | What a worker read under a lock is still what the table says when it writes: no update is lost |
| Protocol.WritesOwnRows | app/usecases/event_usecase.py:119-149 | A commit writes only rows its worker has locked, and a failure mark only its own event |
| Serializability.WroteIsSerial | app/usecases/event_usecase.py:118-149 | What a worker commits from the values it read is the transaction applied to the latest store |
| Serializability.InvKept | app/usecases/event_usecase.py:86-97 | Exclusive locks, current reads and a consistent store at every step of every schedule |
| Serializability.Serializable | app/usecases/event_usecase.py:75-80 | Every schedule of overlapping calls, failures and crashes commits what a serial run of its commits gives, each carrying what its worker saw |
| WholeCalls.IsCallIff | app/usecases/event_usecase.py:114-149 | One such commit is what a whole call of process_event does at that moment iff it sees the present device row, or marks the present attempts of a row not yet applied, or changes nothing |
| WholeCalls.ScheduleIsCalls | app/usecases/event_usecase.py:75-80 | A schedule whose commits all do is a serial run of whole calls |
| WholeCalls.AllOrNothingScheduled | app/usecases/event_usecase.py:114-136 | For such a schedule processed events and entry/exit rows correspond one to one |
| Traces.RowsAreApplications | app/usecases/event_usecase.py:119-135 | Over every schedule the entry and exit rows of a lot are the commits that applied an event to it, in commit order, double applications included |
| Skips.SkipIffDeleted | app/repositories/event_repository.py:58-69 | From the state in which its device row was loaded, with the sweep's list or later, a call finds no lot to lock iff the lot named there is deleted in between |
| Skips.SkipTakesMove | app/usecases/device_usecase.py:54-63 | For that the event's device has to be moved to another lot in between |
| Skips.SkipReached | app/usecases/event_usecase.py:119-135 | A schedule exists that leaves an event processed with no counter moved and nothing logged |
| LostEvents.NoLostEvent | app/usecases/event_usecase.py:155-168 | Through any schedule an accepted event keeps its row and payload and is exactly one of applied, eligible for the sweep once stale, or failed by at least as many committed marks as the cap; pending rows are never given up |
| LostEvents.LeavesGivenUpIff | app/usecases/event_usecase.py:140-149 | A given-up row returns to the sweep iff a mark by a call that had read fewer attempts is committed on it, and is applied iff a call commits its application |
| LostEvents.GivenUpComesBack | app/usecases/event_usecase.py:140-149 | Such a mark is reachable from any quiet state |
| Attempts.AttemptsCountMarks | app/usecases/event_usecase.py:140-149 | Over every schedule `attempts` never exceeds the failure marks committed on the row, and equals them iff each mark wrote over the value it had read |
| Overlaps.MarkIsLost | app/usecases/event_usecase.py:140-149 | From any quiet state two overlapping failures commit two marks that raise `attempts` by one |
| Accounting.AppliedAreCommits | app/usecases/event_usecase.py:134-136 | The applications counted are exactly the applying commits of the schedule |
| Accounting.OpeningAccounted | app/models/event.py:27-34 | The accounts are right in the state a history starts in, whatever rows it starts with |
| Accounting.ExactAccounting | app/usecases/event_usecase.py:114-153 | Over every schedule, commits applying an event = 1 if it is processed + the failure marks that turn its row from processed to failed, whether or not unchanged columns are written |
| Accounting.OnceIffNoneMarked | app/usecases/event_usecase.py:86-97 | An event is applied once if processed and never otherwise iff no failure mark of the schedule turns its row from processed to failed |
| Accounting.AtMostOnce | app/usecases/event_usecase.py:86-97 | Without such a mark no event is applied twice, and applied events are exactly the processed ones |
| Overlaps.AppliedTwice | app/usecases/event_usecase.py:137-149 | From any quiet state a schedule exists that applies one entry twice; the event has to be pending if unchanged columns are not written |
| Deadlock.MiddleIsSweep | app/usecases/event_usecase.py:114-119 | A worker that is waited for and waits behind a waiting one is a sweep keeping a skipped row |
| Deadlock.CycleOfSweeps | app/usecases/event_usecase.py:114-119 | Every member of a wait cycle is such a sweep |
| Deadlock.CycleIffRing | app/usecases/event_usecase.py:114-119 | The wait cycles are exactly the rings of sweeps that each keep a row and wait for one the next keeps |
| Deadlock.OneSweepNoCycle | app/usecases/event_usecase.py:175 | With at most one sweep keeping rows there is no wait cycle |
| Deadlock.SomeoneMoves | app/usecases/parking_lot_usecase.py:144 | From any waiting worker a chain of who waits for whom ends at one that can go forward |
| Deadlock.DeadlockFree | app/usecases/event_usecase.py:114-119 | If sweeps list rows in one strict order, no reachable state has a wait cycle, and from whoever waits such a chain ends at one that can go forward |
| Deadlock.ArrivalOrders | app/repositories/event_repository.py:67 | Order by received_at is such an order when no two rows arrive at the same instant |
| SweepOrders.DistinctArrivalsNoDeadlock | app/repositories/event_repository.py:58-69 | Sweeps that list the queue as they find it never deadlock while no two rows arrive at the same instant |
| SweepDeadlocks.DeadlockIffOpposed | app/usecases/event_usecase.py:169-175 | Any number of sweeps, begun at any time, can come to a deadlock iff some sweeps and rows form a ring in which each sweep lists its row before the next one's |
| SweepTies.DeadlockIffTie | app/repositories/event_repository.py:67 | Two or more sweeps of one queue can come to a deadlock iff two rows they list were received at the same instant |
| EnqueueRace.RowIsNewEvent | app/usecases/event_usecase.py:51-58 | The row a caller inserts is the one it asked for, pending and untried, as the enqueueing transaction stores it |
| EnqueueRace.InvKept | app/usecases/event_usecase.py:59-71 | Every step of concurrent enqueues keeps request ids unique and every caller's knowledge true |
| EnqueueRace.EnqueuesAgree | app/usecases/event_usecase.py:47-73 | All callers with one request id get the same, only row, with the payload of the one who inserted it; nobody gets an exception |
| RefreshTokens.AuthUsecase.Login | app/usecases/auth_usecase.py:24-34 | A known user gets a new token good for 14 days, an unknown one nothing |
| RefreshTokens.AuthUsecase.Refresh | app/usecases/auth_usecase.py:36-49 | A token is exchanged exactly if it is stored, not revoked, not past its expiry and its user exists; it is revoked and one of the same user issued; a rejected call commits nothing |
| RefreshTokens.GoodForFourteenDays | app/usecases/auth_usecase.py:42-65 | A token issued at t by a login, and since then neither exchanged nor logged out with its user not deleted, is accepted iff at most 14 days have passed |
| RefreshTokens.RotatedForFourteenDays | app/usecases/auth_usecase.py:42-65 | So is one issued by an exchange |
| RefreshTokens.AuthUsecase.Logout | app/usecases/auth_usecase.py:51-57 | A live token is revoked, anything else left alone |
| RefreshTokens.DeadStaysDead | app/models/admin_refresh_token.py:20-22 | A revoked or deleted token is never accepted again |
| RefreshTokens.ExchangedOnce | app/usecases/auth_usecase.py:41-49 | Each token is exchanged successfully at most once |
| RefreshTokens.OneLiveTokenPerChain | app/usecases/auth_usecase.py:45-67 | Rotation chains are linear, and each has at most one live token |
| RefreshTokens.LiveTokensCount | app/usecases/auth_usecase.py:51-67 | Absent user deletion, live tokens = those at the start + logins - effective logouts |
| DeviceCommands.HeartbeatUsecase.QueueCommand | app/usecases/device_usecase.py:70-75 | A command of the given type is queued as pending for an existing device, and no other touched |
| DeviceCommands.HeartbeatUsecase.RecordHeartbeat | app/usecases/heartbeat_usecase.py:19-36 | A heartbeat returns exactly the device's pending commands, once each, marks these delivered now, and changes nothing else |
| DeviceCommands.HeartbeatUsecase.AckCommand | app/usecases/heartbeat_usecase.py:38-50 | Only the device's own command is answered, whatever its status; it gets the status, message and time given, and nothing else changes |
| DeviceCommands.ShowsLastAnswer | app/usecases/heartbeat_usecase.py:45-47 | Over any run an answered command shows its last answer |
| DeviceCommands.NeverPendingAgain | app/repositories/command_repository.py:18-23 | No step makes a command pending again |
| DeviceCommands.CommandsConserved | app/usecases/heartbeat_usecase.py:28-48 | Commands returned by heartbeats are pairwise disjoint, and queued ones split without overlap into pending, returned, and answered early |
| DeviceCommands.CompletedUndelivered | app/usecases/heartbeat_usecase.py:41-48 | A command can be completed without ever being delivered |
| ActivityExport.ListBetweenIs | app/repositories/parking_activity_repository.py:45-53 | The selection is every row in the half-open window, once, ordered by created_at and id |
| ActivityExport.OrderIsUnique | app/repositories/parking_activity_repository.py:53 | That order leaves no choice |
| ActivityExport.WindowsCompose | app/usecases/parking_lot_usecase.py:176-182 | The export of [a, c] is that of [a, b] followed by that of [b+1, c], for closed and open bounds |
| ActivityExport.ExportActivities | app/usecases/parking_lot_usecase.py:176-202 | One line per row of the given days, oldest first, with the row's time, lot and its name, labels, change, count after it, actor and note, column by column |

## Left out

- EventQueueSweepLoop: states a given number of rounds, because the loop itself never ends; nothing else runs between them. Its bounds assume that failures get marked and that no lookup raises outside the try block, without which nothing bounds the ticks.
- ExportActivities: writes rows as values; CSV quoting, the header line and the format of dates are library behaviour.
- ResetAllCounts: is one exclusive step wherever calls overlap; what its unlocked read can do is stated in `ResetRace` only.
- NoLostEvent: assumes the device is not deleted and the day not reset, which remove events on purpose.
- AttemptsCountMarks: assumes the same.
- OnceIffNoneMarked: assumes no daily reset within the schedule, after which ids begin anew; `AtMostOnce` does not.
- DistinctArrivalsNoDeadlock: assumes no daily reset within the schedule either.
- DeadlockIffOpposed: lists of rows that are to be applied when the schedule begins; each worker sweeps one list, as often as it likes.
- SkipTakesMove: assumes no daily reset in between, after which ids begin anew.
- AllOrNothing: assumes nothing is deleted and the day not reset; deletions remove events or rows on purpose.
- EnqueuesAgree: assumes rows are not deleted during the race; `EnqueueEvent` covers deletion for one caller.
- CommandsConserved: assumes devices are not deleted, which removes their commands; each heartbeat and answer is one atomic step, as they take no locks.
- OneLiveTokenPerChain: takes refresh and logout as atomic steps, as they take no locks.
- ORM row objects: rows are values in a session's tables, so object identity, the identity map and expiry of loaded rows are not captured.
- Lists a sweep works from while calls overlap: any list of ids is allowed there, which includes every list the query can give.
- Deadlocks through foreign-key and index locks of the storage engine.
- FastAPI routing, request validation beyond `count >= 0`, CORS, error responses and the health check.
- Google sign-in, JWT access tokens, hashing and random generation: tokens are fresh distinct values.
- The administrators' allow-list, apart from adding and deleting users.
- Names, capacity and map position updates of lots, online status, heartbeat text, who requested a command and when: single assignments.
- `list_for_lot` and `list_recent` queries, migrations and the seed script.
- Time zones and calendar arithmetic: a day is 86400 seconds of the local clock.
