# The monitor's reservoir, replay protocol, adapter, dispatcher and schema, in Dafny

The monitor sits between a transport and two downstream components, dedupe and causal-order. It writes every event it
accepts to a SQLite reservoir before anything else happens to it, forwards it when the components are healthy, and
replays what it had to buffer once they have recovered. This project models that machinery and proves what it promises.

How the files fit together:

- `Options`, `Counters`, `Rows`, `Ordering`, `Database`, `Store`, `Admission`: the event table as a value,
  the WHERE clauses and ordered selections, the two cached totals, what each operation does to the table, and the capacity checks.
- `Selections`, `Statistics`: what the selections and the statistics come to, read off the columns of the rows.
- `Reservoir`: the reservoir class. Every SQL statement is a call that may raise, the ROLLBACK of a failed transaction and
  the reading of the counter after it included.
- `Session`, `Protocol`, `Operations`: the replay session and the machine of atomic commits. One `Step` is one
  transaction, one stored session snapshot, or a failed transaction that may have left the in-memory counter wrong by any
  amount; a run is a list of steps, each enabled where it is taken, on a clock that never runs backwards.
- `RowHistory`, `SessionHistory`: over any run, what a row and the session are at its end and which steps made them so.
- `Runs`, `Bounds`, `Drain`, `Retention`, `Recovery`, `Gate`: what else holds over whole runs of that machine.
- `Routing`, `Panels`: the ingress decision; health, flags and startup evidence, and what a series of reports makes of
  them. `Decisions`: route, stored mode, tier and action in terms of what goes in.
- `Coordinator`, `Runtime`: the coordinator and runtime classes. Each method returns, as a ghost result, the run of the
  machine it was, also when a fault or a refusal cut it short, so the run theorems hold of every use of the classes.
- `Ledger`, `Adapter`, `AdapterRuns`, `TransportAdapter`: the adapter. Its asynchronous methods are cut at their awaits;
  a `Piece` is one uninterrupted piece of code, a `World` holds the suspended operations, the slot for the one in flight,
  live deliveries and a ledger of what was accepted, completed, delivered, put back and deleted. The class makes exactly
  one piece happen per method call. `Reconciliation`: when a reconcile acts. `Incidents`: one run of the adapter from a new
  database, piece by piece.
- `Lifecycle`, `LifecycleHistory`, `Dispatcher`: the dispatcher as a machine, entry by entry, and as a class. `Schema`:
  migrations and startup checks. `Codec` (with `Decimal`): the JSON codec of stored envelopes.

Inputs that come from outside are parameters: clock readings (ordered, one for each time the code reads the clock),
filesystem readings (a number or unknown), the outcome of every handler and notification, the health state the health
tracker arrives at, and which SQL statements fail.

Six results say that the code does not do what one would expect, each with its condition and an input:

- The in-memory counter of pending rows can be wrong. A transaction leaves it so exactly when it was to change the number
  of live rows, everything up to its COMMIT went through, the COMMIT raised, and the ROLLBACK or the reading of the
  counter after it raised too (`Reservoir.CounterGoesWrongExactly`; `CounterLeftAhead` and `CounterLeftBehind` are an
  append and an acknowledgement to which it happens). The next failing transaction that is read back puts it right
  (`Reservoir.ReadingBackHeals`), and so does a restart; a commit does not. A counter that is too low lets the session
  complete and the gate open over live rows (`Gate.WrongCounterOpensGate`).
- A version 2 database that lacks an indexed column is migrated and committed before the structure check refuses it; it
  is left at version 3 and no later opening succeeds (`Schema.FailureRestoresExactly`, `Schema.RefusedButChanged`).
- A retry deadline equal to time 0 is read back as "no deadline", so a restart before the epoch queues a session that
  should wait (`Recovery.ZeroDeadlineIsLost`; `Recovery.RebuiltSessionState` has the exact condition).
- The count of consecutive failures accumulates only over manual starts out of `failed`: a running session that fails
  reads more than one exactly if its last start was taken from `failed` with a positive count
  (`Runs.FailureCountExactly`; `Runs.TwoFailuresReadOne` is the run in which two failures in a row both read one).
- A delivered row does not stay delivered. Through any piece of the adapter it stays so unless a replay operation that has
  attempted it is resumed where its catch block can be reached and the reset commits, and then it does not
  (`AdapterRuns.DeliveredUnlessPutBack`). That takes no fault of the
  storage: the notification after the acknowledgement fails, or a handler rejects a row whose live delivery has
  completed meanwhile (`Adapter.LateFailureRevivesDelivered`). The same reset checks no limit: a run stays within the
  admission limits exactly if there is room for what each of its resets revives (`Bounds.AdmissionBoundExactly`).
  `Incidents.DeliveredComesBackOverTheLimit` is the run, from a new database, in which both happen.
- The reported number of lifecycle subscribers is below zero exactly when the dispatcher has closed and a subscription it
  closed with has been given up since (`Dispatcher.LifecycleDispatcher.CountBelowZeroExactly`;
  `Dispatcher.UnsubscribeAfterClose` is the shortest way there).

What a wrong counter can touch: the session, the gate, the routing and the statistics, which read it. The gate theorems
are about the counter, and about the rows in every run whose failing transactions keep it right; the two drain theorems
start from a counter that is right. Everything else holds however wrong it is: rows, persisted totals and admission
limits, the ledger and what became of every event, exclusive replay and its outcomes, both backoffs, the return of a
failed batch, retention and recovery.

## Model

| member | source | states |
|---|---|---|
| Rows.DeltaIsRecount | src/storage/SQLiteReservoir.ts:1131-1165 | the row and byte deltas computed from the rows selected before an update by ids are what a recount of the whole table finds after it, for any ids and any target state |
| Rows.LiveMovesKeepTotals | src/storage/SQLiteReservoir.ts:610-654 | moves between pending and replaying, and the counting of attempts, leave both totals alone |
| Database.InsertKeepsAccounts | src/storage/SQLiteReservoir.ts:466-500 | an insert with its accounting keeps the totals a recount, the byte evidence measured and the rowids ascending |
| Database.DeleteKeepsAccounts | src/storage/SQLiteReservoir.ts:1102-1113 | deleting rows of the terminal selection leaves the totals a recount |
| Database.WhereCount | src/storage/SQLiteReservoir.ts:978-1006 | the changes count of an update by ids is the number of distinct ids that name a row |
| Ordering.OrderedIsSelection | src/storage/SQLiteReservoir.ts:618-634 | the ordered selection has every matching row exactly once, nothing else, sorted; `Selections.SelectAscends` says by which columns |
| Selections.SelectAscends | src/storage/SQLiteReservoir.ts:1031-1100 | of two rows of a selection the earlier has the smaller (ingest time, rowid), or (terminal time, rowid) where rows are selected for deletion |
| Selections.SelectLeavesLater | src/storage/SQLiteReservoir.ts:1031-1100 | a matching row that the limit leaves out comes, in these columns, after every row it lets in |
| Selections.BatchExactly | src/storage/SQLiteReservoir.ts:1031-1100 | a batch, as ids, holds only matching rows, at most `limit` of them, and all of them unless it holds `limit` |
| Ordering.SortedIsUnique | src/storage/SQLiteReservoir.ts:618-634 | membership and order determine a selection |
| Ordering.RestAfterPrefix | src/storage/SQLiteReservoir.ts:1031-1100 | changing or removing exactly the rows of a selected prefix leaves exactly the rest of the selection, in order |
| Reservoir.SQLiteReservoir.constructor | src/storage/SQLiteReservoir.ts:379-424 | opens on validated accounting, with the counter read from the totals row |
| Reservoir.SQLiteReservoir.Rollback | src/storage/SQLiteReservoir.ts:1427-1430 | after a failed transaction the database is as before; the counter is read back unless the ROLLBACK or that reading raises, and then keeps what the transaction had made of it |
| Reservoir.SQLiteReservoir.EndTransaction | src/storage/SQLiteReservoir.ts:1420-1432 | COMMIT, or the rollback: how the transaction ends, and how far the counter is then off, from which statement was the first to raise |
| Reservoir.CounterGoesWrongExactly | src/storage/SQLiteReservoir.ts:1420-1432 | from a right counter, it is wrong afterwards if and only if live rows were to change, only the COMMIT raised, and then the ROLLBACK or the reading |
| Reservoir.ReadingBackHeals | src/storage/SQLiteReservoir.ts:1427-1430 | over any series of transactions a wrong counter is put right by the first failure that is read back, and stays right until the next harmful failure |
| Reservoir.CounterLeftAhead | src/storage/SQLiteReservoir.ts:466-506 | an append into an empty table after which the counter reads one over no row |
| Reservoir.CounterLeftBehind | src/storage/SQLiteReservoir.ts:943-976 | an acknowledgement after which the counter reads zero over a live row |
| Reservoir.SQLiteReservoir.CalculateCapacityDelta | src/storage/SQLiteReservoir.ts:1147-1165 | the loop computes the two deltas of the selected rows |
| Reservoir.SQLiteReservoir.AdjustCapacityAccounting | src/storage/SQLiteReservoir.ts:1167-1182 | persisted totals and in-memory counter move together, with one statement, or none when the delta is zero |
| Reservoir.SQLiteReservoir.UpdateReplayRows | src/storage/SQLiteReservoir.ts:943-1006 | duplicate ids count once, unknown ids match nothing; result, new rows and transitioned ids are exact and the totals kept; a fault at any statement leaves the database as it was, and which statement it was decides exactly how far the counter is off |
| Reservoir.SQLiteReservoir.MarkDelivered | src/storage/SQLiteReservoir.ts:667-683 | acknowledgement as that update to delivered, stamped with the terminal time: rows matched, ids that really moved, and the counter in every ending |
| Reservoir.SQLiteReservoir.ResetToPending | src/storage/SQLiteReservoir.ts:685-690 | reset as that update to pending, with or without a retry deadline: rows matched, ids that really moved, and the counter in every ending |
| Selections.TransitionedExactly | src/storage/SQLiteReservoir.ts:943-976 | the ids reported as moved are exactly those of the rows whose state is another one after the update |
| Reservoir.SQLiteReservoir.UpdateReplayState | src/storage/SQLiteReservoir.ts:591-608 | the bulk move changes the state of exactly the rows in the named states, returns their number and keeps the accounting; the counter in every ending |
| Reservoir.SQLiteReservoir.BumpReplayAttempts | src/storage/SQLiteReservoir.ts:577-589 | attempts of exactly the rows in the named states go up by one, their number is returned, totals stay |
| Reservoir.BulkMoveExactly | src/storage/SQLiteReservoir.ts:591-608 | row by row, the bulk move changes the state where it is one of the named ones, and no other column |
| Selections.BumpExactly | src/storage/SQLiteReservoir.ts:577-589 | row by row, attempt counting adds one where the state is one of the named ones, and changes no other column |
| Reservoir.SQLiteReservoir.ClaimReplayBatch | src/storage/SQLiteReservoir.ts:610-665 | claims and returns the entries of the selection that `Selections.ClaimTakesOldest` and `Selections.EntriesAscend` pin to columns; totals stay; a fault leaves no trace, but may put a wrong counter right |
| Selections.ClaimExactly | src/storage/SQLiteReservoir.ts:618-634 | a claim takes only pending rows without a retry time or past it, at most `limit`, and leaves one out only if it has taken `limit` |
| Selections.ClaimTakesOldest | src/storage/SQLiteReservoir.ts:618-634 | an eligible row that a claim leaves has a larger (ingest time, rowid) than every row it takes |
| Selections.EntriesAscend | src/storage/SQLiteReservoir.ts:618-664 | the entries of a claim are one for each row taken, with its payload, source and attempts plus one, in ascending (ingest time, rowid) |
| Reservoir.SQLiteReservoir.ReclaimLoop | src/storage/SQLiteReservoir.ts:696-717 | the batch loop terminates having moved exactly the rows stale when it began; a fault keeps a subset of them |
| Reservoir.SQLiteReservoir.ReclaimStaleReplayRows | src/storage/SQLiteReservoir.ts:696-717 | the same by age, with nothing reclaimed for a negative age or an empty batch size |
| Selections.StaleExactly | src/storage/SQLiteReservoir.ts:1058-1075 | what is reclaimed: exactly the replaying rows without a claim time or with one at least the given age ago |
| Reservoir.SQLiteReservoir.RecoverRestartState | src/storage/SQLiteReservoir.ts:719-744 | interrupted rows go back to pending, and the restart statistics are those of the recovered rows, the total being the counter |
| Reservoir.SQLiteReservoir.GetStats | src/storage/SQLiteReservoir.ts:800-863 | every field: the pending total is the counter; oldest age, waiting rows, earliest retry and the counts by source path and by delivery mode are functions of the rows |
| Statistics.LiveCountIsCardinality | src/storage/SQLiteReservoir.ts:1131-1165 | the first total is the number of rows that are pending or replaying |
| Statistics.LiveBytesAreMeasured | src/storage/SQLiteReservoir.ts:1131-1165 | the second is the UTF-8 length of all their payloads put together |
| Statistics.Utf8LengthAdds | src/storage/SQLiteReservoir.ts:443-444 | UTF-8 lengths of texts add up |
| Statistics.Utf8LengthOfOne | src/storage/SQLiteReservoir.ts:443-444 | a character takes the fewest bytes whose payload bits, 7 in one byte and 5n + 1 in n, hold it |
| Statistics.OldestAgeExactly | src/storage/SQLiteReservoir.ts:803-850 | the oldest pending age is measured to the least ingest time of a live row, and is 0 if that is 0 |
| Statistics.NoLiveRowHasNoAge | src/storage/SQLiteReservoir.ts:803-850 | without a live row it is 0 |
| Statistics.WaitingIsCardinality | src/storage/SQLiteReservoir.ts:809-822 | the waiting rows counted are the pending ones whose retry time is still to come; the pending total is the counter |
| Statistics.SourcesAreCardinalities | src/storage/SQLiteReservoir.ts:824-845 | each count by source path is the number of live rows of that path |
| Statistics.ModesAreCardinalities | src/storage/SQLiteReservoir.ts:831-848 | each count by delivery mode is the number of live rows of that mode |
| Statistics.SaturatesAtSafeInteger | src/storage/SQLiteReservoir.ts:288-290 | the saturating counters count up to 2^53 - 1 and stay there |
| Store.ReplayableByCounts | src/runtime/MonitorRuntime.ts:871-878 | the counts by delivery mode tell exactly whether some live row is buffered under a mode that recovery replays |
| Store.CountsAddUp | src/storage/SQLiteReservoir.ts:824-843 | the counts by source path add up to the live rows, and so do the counts by delivery mode |
| Reservoir.SQLiteReservoir.MarkExpiredPendingRows | src/storage/SQLiteReservoir.ts:1008-1021 | first prune phase: one batch of expired rows (`Selections.DeadLettersOldest`), all or nothing; the counter in every ending |
| Reservoir.SQLiteReservoir.DeleteExpiredTerminalRows | src/storage/SQLiteReservoir.ts:1023-1029 | second prune phase: one batch of old terminal rows (`Selections.DeletesLongestTerminal`), all or nothing |
| Reservoir.SQLiteReservoir.PruneExpired | src/storage/SQLiteReservoir.ts:746-769 | both phases; on success exactly the sizes of the two batches, at most the batch size each; a fault leaves the table as before or after the first phase, and the counter as its ending says |
| Selections.ExpiredExactly | src/storage/SQLiteReservoir.ts:746-757 | expired is, during an outage, a pending row as old as the outage window; otherwise also one as old as the rolling window that has no retry time |
| Selections.DeadLettersOldest | src/storage/SQLiteReservoir.ts:1031-1056 | the first phase dead-letters such rows only, all of them unless it fills its batch, and then the oldest by (ingest time, rowid) |
| Selections.DeletableExactly | src/storage/SQLiteReservoir.ts:1077-1100 | deletable is a delivered row past the delivered retention, or a dead letter past the dead-letter retention, since its terminal time |
| Selections.DeletesLongestTerminal | src/storage/SQLiteReservoir.ts:1077-1100 | the second phase deletes such rows only, all of them unless it fills its batch, and then the longest terminal |
| Reservoir.SQLiteReservoir.AppendInTransaction | src/storage/SQLiteReservoir.ts:466-506 | the logical limits and the insert in one transaction; a refusal or fault leaves rows and totals unchanged; the counter in every ending, a refusal included |
| Reservoir.SQLiteReservoir.AppendIngressEvent | src/storage/SQLiteReservoir.ts:430-506 | the whole admission: without a fault the append succeeds if and only if the event is within its limit, the filesystem does not hold it back and a recount of the table with its row is within both limits; every refusal and failure, the latch after it, the refusal counters, the counter of pending rows |
| Reservoir.SQLiteReservoir.AdmitsExactly | src/storage/SQLiteReservoir.ts:430-506 | the checks of the code, in their order, let exactly such events pass |
| Admission.AcceptedExactly | src/storage/SQLiteReservoir.ts:445-465 | an append is accepted if and only if the event size, the filesystem reading with the latch before it and, for a live row, the row and byte totals stay within what is configured; a limit may be met exactly |
| Admission.RefusalNamesFirst | src/storage/SQLiteReservoir.ts:1184-1274 | a refusal names the first of them that is exceeded, with its limit, the current and the attempted value |
| Reservoir.SQLiteReservoir.GetCapacitySnapshot | src/storage/SQLiteReservoir.ts:1298-1354 | the snapshot's posture is the observer's verdict on the persisted totals |
| Reservoir.NextReclaim | src/storage/SQLiteReservoir.ts:696-717 | one more pass takes a batch of the rows still stale and none twice, and an empty pass means none is left |
| Admission.ObserverAgreesWithEnforcer | src/storage/SQLiteReservoir.ts:1184-1274 | posture `refusing` means every pending append within the event limit is refused on the dimension named; otherwise such an append can be refused only for its own bytes; for one byte both directions |
| Admission.LatchIsLastDecisive | src/storage/SQLiteReservoir.ts:1227-1274 | after any history of readings the latch is on exactly when the last reading at or outside a threshold was at or below the minimum |
| Admission.LatchRemembersLastKnown | src/storage/SQLiteReservoir.ts:1227-1274 | the reading it reports when the filesystem cannot be read is the last known one |
| Admission.LatchIgnoresOversized | src/storage/SQLiteReservoir.ts:445-462 | over any series of appends only those within the event limit have moved it |
| Admission.UnknownExactly | src/storage/SQLiteReservoir.ts:1298-1354 | a snapshot is `unknown` exactly when admission goes on without evidence, and `refusing` exactly when rows or bytes are at their limit or the filesystem holds appends back |
| Admission.ReserveRefusesExactly | src/storage/SQLiteReservoir.ts:1227-1274 | appends are refused on the filesystem exactly when latched, or when the reading is unknown and evidence is required; an unknown reading never moves the latch |
| Store.EntriesDescribeClaimedRows | src/storage/SQLiteReservoir.ts:636-664 | the entries a claim returns are the claimed rows as they stand once it has committed |
| Session.QueueingCountsBacklog | src/replay/ReplayCoordinator.ts:106-145 | queueing counts the whole backlog, forgets nothing of a session under way, and ends queued, running or still waiting for its deadline |
| Session.ConfirmationIsAStreak | src/replay/ReplayCoordinator.ts:285-312 | over any series of heartbeats recovery is confirmed exactly when the last required ones of the targets were all healthy |
| SessionHistory.SessionIsItsLastTurn | src/replay/ReplayCoordinator.ts:54-271 | over any run state, start, end, error, deadline and failure count are those the last step to begin or end a session gave it |
| SessionHistory.TurnsAreGuarded | src/replay/ReplayCoordinator.ts:147-236 | and such a step is taken only where it may be: a finish only while running with the counter at zero, a return to idle only finished, confirmed and drained, a claim only while running |
| SessionHistory.DeliveredIsTallied | src/replay/ReplayCoordinator.ts:220-236 | the delivered count is the sum of the tallies since the session began |
| SessionHistory.QueuedExactly | src/replay/ReplayCoordinator.ts:106-178 | the queued count begins as the backlog, is delivered plus backlog after a tally, and delivered at the end |
| SessionHistory.HeartbeatsAreTheStreak | src/replay/ReplayCoordinator.ts:285-312 | the heartbeats counted are the length of the streak of healthy ones since the session began or finished, up to the required number |
| SessionHistory.HeardIsSteps | src/replay/ReplayCoordinator.ts:285-323 | a heartbeat is its counting step, followed by the return to idle exactly when it completes the confirmation of a finished and drained session |
| Protocol.RowOrigin | src/storage/SQLiteReservoir.ts:943-1029 | every row after any step is the appended one, or an earlier row untouched or changed in that step's own way |
| Protocol.RowSurvives | src/storage/SQLiteReservoir.ts:1077-1113 | a row leaves the table only by a purge, and then it was in the terminal selection |
| RowHistory.RowIsItsLastTouch | src/storage/SQLiteReservoir.ts:610-769 | over any run a surviving row keeps ingest time, source, payload, bytes and expiry, has been attempted once more per claim that took it, has the replay mode once claimed, and has the state and the three times that the last step to touch it wrote |
| RowHistory.AppendedRowTells | src/storage/SQLiteReservoir.ts:466-500 | so the row of an appended event tells, however much later, what was appended: its own or the clock's ingest time, source, payload, measured bytes, mode unless claimed, and the expiry of the window that applied |
| Runs.RowBackoff | src/storage/SQLiteReservoir.ts:618-654 | a row put back with a deadline is selected by no claim below it, through any run that does not rewrite that row, restarts included |
| Runs.DeliveredAfterStep | src/storage/SQLiteReservoir.ts:943-1029 | a surviving row is delivered after a step if and only if the step delivers it, or it was delivered and the step is no reset naming it |
| Runs.DeliveredExactly | src/storage/SQLiteReservoir.ts:943-1029 | over any run, a surviving row is delivered at the end if and only if the last update by ids that named it was a delivery, or there was none and it was delivered before |
| Runs.SessionBackoff | src/replay/ReplayCoordinator.ts:106-192 | after a failure, without abort, manual start or restart, nothing at all is claimed before `nextRetryAt` |
| Runs.FailureCountIsOne | src/replay/ReplayCoordinator.ts:157-178 | without manual starts every failure of a running session reads one |
| Runs.StartKeepsCount | src/replay/ReplayCoordinator.ts:157-178 | a start over a backlog keeps the count if and only if it is taken from `failed` or the count is zero already |
| Runs.FailureCountExactly | src/replay/ReplayCoordinator.ts:238-260 | a running session that fails reads more than one if and only if its last start was taken from `failed` with a positive count |
| Runs.TwoFailuresReadOne | src/replay/ReplayCoordinator.ts:106-178 | the run in which two attempts of a queued session fail one after the other and both failures read one |
| Runs.ManualRetryCounts | src/replay/ReplayCoordinator.ts:157-178 | a manual start from `failed` carries the count over |
| Runs.FailedBatchIsNotStranded | src/transport/TransportMonitorAdapter.ts:296-377 | after a batch fails part-way, every row of it is delivered or eligible at the first claim past the deadline: attempted rows by deadline, unattempted ones because their claim is stale by then |
| Runs.FailedBatchReturnsInOrder | src/replay/ReplayCoordinator.ts:180-192 | those eligible again stand in the order they were claimed in |
| Runs.RetryIsLate | src/runtime/MonitorRuntime.ts:802-812 | a claim that goes through on a failed session, queued first, is not before its deadline |
| Runs.RetryReturnsBatch | src/replay/ReplayCoordinator.ts:180-218 | so the first claim that goes through after a failed batch returns every row of it that is not delivered, unless its limit is used up by rows that come before |
| Runs.UnreclaimedRowIsStranded | src/storage/SQLiteReservoir.ts:696-717 | with a negative backoff or an empty batch size a row left claimed is never eligible: the condition of the two results above is needed |
| Bounds.StepWithinExactly | src/storage/SQLiteReservoir.ts:978-1006 | from within the limits a step stays within them if and only if it is no reset, or there is room for the terminal rows it names |
| Bounds.AdmissionBoundExactly | src/storage/SQLiteReservoir.ts:1184-1225 | a run that begins within the limits is within them at every point if and only if every reset fits where it is taken |
| Bounds.AdmissionBound | src/storage/SQLiteReservoir.ts:1184-1225 | in particular, if no step revives a terminal row, pending rows and bytes never exceed their limits |
| Drain.OrderedDrain | src/replay/ReplayCoordinator.ts:180-236 | k rounds of claim and acknowledge have claimed exactly the first min(n, k*limit) rows of the ordered backlog, each once, with queued = delivered + remaining throughout |
| Drain.DrainsOldestFirst | src/replay/ReplayCoordinator.ts:180-236 | of two claims of the drain the earlier is of the row with the smaller (ingest time, rowid) |
| Drain.DrainLeavesYounger | src/replay/ReplayCoordinator.ts:180-236 | a live row the drain has not claimed is younger than every row it has |
| Drain.DrainCompletes | src/replay/ReplayCoordinator.ts:202-236 | the drain ends `completed` after exactly ceil(n/limit) rounds with delivered = n and nothing pending |
| Drain.AcknowledgeOutcome | src/replay/ReplayCoordinator.ts:220-236 | an acknowledgement completes the session exactly when the live rows left and the error of the counter cancel out |
| Retention.PruneCalls | src/storage/SQLiteReservoir.ts:746-769 | after k prunes at a fixed clock exactly max(0, n - k*b) expired rows are left, and correspondingly many deletable ones |
| Retention.RepeatedPruneRefinesOneShot | src/storage/SQLiteReservoir.ts:746-769 | enough prunes amount to dead-lettering every expired row and deleting every old terminal row at once |
| Retention.PruneInColumns | src/storage/SQLiteReservoir.ts:746-769 | row by row and in the windows of the configuration: which rows end as dead letters of this time, which are gone, and that all others are unchanged |
| Retention.RetryStampDelaysExpiry | src/storage/SQLiteReservoir.ts:1031-1056 | a row is dead-lettered only past the outage window, or past the rolling window outside an outage and without a retry time |
| Recovery.RecoveryIsExact | src/storage/SQLiteReservoir.ts:719-728 | recovery moves exactly the replaying rows and changes only state and claim stamp |
| Recovery.RecoveryIsIdempotent | src/storage/SQLiteReservoir.ts:719-728 | recovering twice is recovering once |
| Recovery.EarliestRetryIsEarliest | src/storage/SQLiteReservoir.ts:809-863 | the reported deadline is the least among the waiting rows, except that 0 is reported as none |
| Recovery.MaxAttemptsIsMax | src/storage/SQLiteReservoir.ts:729-744 | the failure count after a restart is the largest number of attempts on a pending row |
| Recovery.RebuiltSessionState | src/replay/ReplayCoordinator.ts:54-79 | the rebuilt session is idle, failed or queued exactly when no row is live, all wait (and the earliest deadline is not 0), or otherwise |
| Recovery.RebuiltSessionOnPositiveClock | src/replay/ReplayCoordinator.ts:54-79 | from time 0 on the exception cannot arise |
| Recovery.ZeroDeadlineIsLost | src/replay/ReplayCoordinator.ts:60-66 | before time 0 it can: a concrete table |
| Routing.RefusalOnlyUnderPressure | src/runtime/MonitorRuntime.ts:324-360 | routes that cannot deliver buffer and never refuse; a pause needs a heavy backlog on the bypass route or a configured paused tier |
| Routing.HeavierBacklogIsNeverFaster | src/throttle/ThrottleController.ts:25-56 | on every route a heavier backlog never gets a faster tier, exactly unless the configured default is slower than `slow` |
| Gate.GateOpensOnlyDrained | src/replay/ReplayCoordinator.ts:92-104 | every step that opens the gate, other than an abort, leaves the counter at zero or below: over live rows only if it is too low by at least their number, over none if it is right |
| Gate.GateStaysUntilEmpty | src/replay/ReplayCoordinator.ts:92-104 | over a run without abort a closed gate stays closed until the counter has read nothing |
| Gate.NoLiveFlowBeforeDrained | src/runtime/MonitorRuntime.ts:324-360 | after a restart over a backlog, with live flow paused during replay, no decision is `accept` before the counter has read nothing, which is before the reservoir has been empty in every run whose failures keep the counter right |
| Gate.AbortOpensGate | src/replay/ReplayCoordinator.ts:262-271 | an abort opens the gate over whatever backlog there is |
| Gate.CounterStaysRight | src/storage/SQLiteReservoir.ts:1420-1432 | over a run whose failing transactions leave the counter right, it is the number of live rows throughout |
| Gate.WrongCounterOpensGate | src/replay/ReplayCoordinator.ts:92-104 | a failure that leaves the counter at zero over any backlog lets the session complete and the gate open over it |
| Coordinator.ReplayCoordinator.IsGateClosed | src/replay/ReplayCoordinator.ts:92-104 | the gate as a function of session and counter |
| Coordinator.ReplayCoordinator.QueueIfNeeded | src/replay/ReplayCoordinator.ts:106-145 | queueing is one step of the machine, or none on a fault |
| Coordinator.ReplayCoordinator.Start | src/replay/ReplayCoordinator.ts:147-178 | the start, its error exactly when the state forbids it, nothing changed on error |
| Coordinator.ReplayCoordinator.ClaimNextBatch | src/replay/ReplayCoordinator.ts:180-218 | start if queued, reclaim, claim, complete if drained: the specified outcome on success, a run of the machine in every case |
| Coordinator.ReplayCoordinator.AcknowledgeBatch | src/replay/ReplayCoordinator.ts:220-236 | delivery, tally and completion, exactly these commits in this order on success; a run of the machine in every case |
| Coordinator.ReplayCoordinator.Fail | src/replay/ReplayCoordinator.ts:238-260 | exactly two commits on success, rows put back with the deadline and then the failed session; a run of the machine in every case |
| Coordinator.ReplayCoordinator.Abort | src/replay/ReplayCoordinator.ts:262-271 | rows put back at once, then the aborted session |
| Coordinator.ReplayCoordinator.ObserveRecoveryHeartbeat | src/replay/ReplayCoordinator.ts:285-323 | counts and resets confirmations, and returns a confirmed drained session to idle |
| Coordinator.OpenCoordinator | src/replay/ReplayCoordinator.ts:41-79 | startup on a reservoir just opened is the restart step of the machine |
| Runtime.MonitorRuntime.GetIngressDecision | src/runtime/MonitorRuntime.ts:324-360 | the decision that `Decisions.RouteExactly`, `Decisions.ActionExactly` and `Decisions.TierExactly` spell out, of configuration, health, session, flags, rows and counter; the tier follows it |
| Decisions.RouteExactly | src/runtime/MonitorRuntime.ts:814-843 | the route and the mode of the stored row: replay while one is in the way; else full outage with both targets offline, bypass with dedupe alone, order buffer with causal-order alone or a transport cut off over a backlog; else normal |
| Decisions.ActionExactly | src/runtime/MonitorRuntime.ts:324-360 | accepted exactly when there is a destination, nothing holds live flow back, startup is over and the route is not overloaded; refused exactly when only the overload stands against it; buffered otherwise |
| Decisions.NeverIntoADownTarget | src/runtime/MonitorRuntime.ts:324-360 | nothing is accepted while causal-order is offline, unless a replay is in the way and live flow is not paused for it |
| Decisions.TierExactly | src/throttle/ThrottleController.ts:25-56 | the tier by route and backlog, threshold by threshold |
| Runtime.MonitorRuntime.IngestTransportEvent | src/runtime/MonitorRuntime.ts:604-663 | a paused decision persists nothing; any other appends one row under the decision's mode, stamped with the event's own ingest time or, if it has none, the clock |
| Decisions.StoredTransportEvent | src/runtime/MonitorRuntime.ts:604-663 | what it is stored as: pending, its own payload, the decision's mode, kept for the outage window exactly during a full outage |
| Decisions.StoredForReplay | src/runtime/MonitorRuntime.ts:604-663 | stored into a reservoir with nothing to replay, it is something to replay if and only if a replay was in the way or it had no destination |
| Runtime.MonitorRuntime.ObserveDedupeEvent | src/runtime/MonitorRuntime.ts:665-717 | an observation is appended as delivered, stamped in the same way |
| Decisions.StoredObservation | src/runtime/MonitorRuntime.ts:665-717 | it is stored as a delivered row that ends when it was taken in, and the counter does not move |
| Runtime.MonitorRuntime.AcknowledgeIngressDelivery | src/runtime/MonitorRuntime.ts:577-580 | one delivery step, or none |
| Runtime.MonitorRuntime.UpdateComponentHealth | src/runtime/MonitorRuntime.ts:362-430 | flags, tier, evidence and session after a health update, exactly; cut short by a fault it has still noted health and evidence, and is one of the reports the results on panels speak of |
| Runtime.MonitorRuntime.ObserveHeartbeat | src/runtime/MonitorRuntime.ts:432-461 | the same for a heartbeat |
| Panels.StartupEvidence | src/runtime/MonitorRuntime.ts:903-910 | under conservative startup, over any series of reports, cut short or not, the evidence is exactly the components that have been online, and startup is over if and only if all three have |
| Panels.NothingAcceptedBeforeStartup | src/runtime/MonitorRuntime.ts:324-360 | before that every decision buffers; from then on conservative startup changes no decision |
| Panels.RecoveryFlagExactly | src/runtime/MonitorRuntime.ts:880-888 | over any series of reports recovery is needed if and only if the last report to raise or clear the flag raised it, where only one that finds healthy targets, an idle session and nothing pending clears it |
| Panels.HealthIsLastReport | src/runtime/MonitorRuntime.ts:362-461 | of each component the panel shows what the last report about it said |
| Panels.TransitionSeenExactly | src/runtime/MonitorRuntime.ts:379-385 | a transition has been seen if and only if some update found a target in another state than it reported |
| Panels.TierIsTheLastSet | src/runtime/MonitorRuntime.ts:387-417 | over any series of reports the tier is the one last set: the default with everything online, paused or slow for what an update takes offline, or a new tier |
| Runtime.MonitorRuntime.AssertReplayOwnership | src/runtime/MonitorRuntime.ts:912-930 | the first owner binds, any other is refused |
| Runtime.MonitorRuntime.QueueReplay | src/runtime/MonitorRuntime.ts:779-789 | one queueing step by the owner, or none; another owner and a closed runtime are refused, and they alone, with nothing changed |
| Runtime.MonitorRuntime.StartReplay | src/runtime/MonitorRuntime.ts:791-800 | manual only, on healthy targets; refused to an adapter-owned or closed runtime with nothing changed |
| Runtime.MonitorRuntime.ClaimReplayBatch | src/runtime/MonitorRuntime.ts:802-812 | only for the owner and on healthy targets; queue, then claim; anyone else is refused with nothing changed |
| Runtime.MonitorRuntime.AcknowledgeReplayBatch | src/runtime/MonitorRuntime.ts:514-525 | the owner's acknowledgement, commit by commit; anyone else is refused with nothing changed |
| Runtime.MonitorRuntime.FailReplay | src/runtime/MonitorRuntime.ts:527-539 | the owner's failure, commit by commit; anyone else is refused with nothing changed |
| Runtime.MonitorRuntime.AbortReplay | src/runtime/MonitorRuntime.ts:541-553 | the owner's abort; anyone else is refused with nothing changed |
| Runtime.MonitorRuntime.PruneReservoir | src/runtime/MonitorRuntime.ts:719-731 | on success the rows are those of the reclaim and both prune phases, and the result their exact counts; each part is committed on its own |
| Ledger.StepKeeps | src/storage/SQLiteReservoir.ts:1008-1113 | every step keeps the ledger: accepted ids stand in the table or among the deleted, delivered rows had their handler complete, dead-lettered rows were old enough |
| Ledger.AcceptedIsNeverLost | src/storage/SQLiteReservoir.ts:719-769 | an accepted id is one row in one state, or was deleted after being delivered or dead-lettered |
| Adapter.TurnIsSound | src/transport/TransportMonitorAdapter.ts:280-378 | a turn of a replay operation keeps its account: what it then reports delivered or failed has been committed |
| Adapter.PieceIsSound | src/transport/TransportMonitorAdapter.ts:143-478 | every uninterrupted piece, including crashes, keeps the ledger, the exclusiveness of replay and each operation's account |
| Adapter.NewWorldIsSound | src/transport/TransportMonitorAdapter.ts:89-98 | a process on a new database starts with the whole invariant |
| Adapter.OutcomesAreTrue | src/transport/TransportMonitorAdapter.ts:296-377 | an operation that answers `delivered` has had every handler complete and exactly its rows marked delivered in one commit; one that answers `failed` has had exactly the rows it attempted put back in one |
| Adapter.OutcomesAreItsOwn | src/transport/TransportMonitorAdapter.ts:296-377 | between an operation's start and its answer one of its own turns commits what it answers, over exactly its rows, and the handlers that `delivered` counts are those its own turns were told of, in order |
| Adapter.AnswersExactly | src/transport/TransportMonitorAdapter.ts:280-446 | an operation answers `empty` exactly for a claim that found nothing, nothing for a reconcile that does not act or finds its session no longer under way, and a batch only after reporting it |
| Adapter.AcceptedEventIsNeverLost | src/transport/TransportMonitorAdapter.ts:143-378 | no event committed by `ingest` is lost in any interleaving of calls, handlers, faults, prunes, crashes and restarts |
| Adapter.ReplayIsExclusive | src/transport/TransportMonitorAdapter.ts:456-478 | at most one replay operation is unsettled, and it holds the slot |
| Adapter.TurnAdvances | src/transport/TransportMonitorAdapter.ts:280-446 | every turn uses up one of the turns an operation has left |
| Adapter.OperationEnds | src/transport/TransportMonitorAdapter.ts:280-446 | whatever happens in between, an operation that is not crashed has settled after n + 4 turns, n being the size of its batch |
| Adapter.NeverStuck | src/transport/TransportMonitorAdapter.ts:280-378 | however its await ends - the notification goes through or is rejected, the handler completes or rejects - an unsettled operation has a next turn without any fault, and one that rejects it only for a rejected notification or for want of a running session |
| Adapter.SettledOperationFreesTheSlot | src/transport/TransportMonitorAdapter.ts:463-477 | a settled operation, successful or not, gives the slot back |
| Adapter.LateFailureRevivesDelivered | src/transport/TransportMonitorAdapter.ts:333-368 | without any fault of the storage, a failed notification after the acknowledgement, and a rejecting handler, make delivered rows of the batch pending again and report the failure |
| AdapterRuns.TraceRuns | src/transport/TransportMonitorAdapter.ts:143-478 | every run of the adapter is a run of the protocol |
| AdapterRuns.DeliveredUnlessPutBack | src/transport/TransportMonitorAdapter.ts:342-377 | through any piece a surviving delivered row stops being delivered if and only if an operation that has attempted it is resumed in a phase and by an event that can lead to the catch block, and the reset commits |
| AdapterRuns.DeliveredOverRun | src/transport/TransportMonitorAdapter.ts:143-478 | over any run of the adapter it is delivered at the end if and only if the last update that named it delivered it |
| AdapterRuns.ClaimedBatchComesBack | src/transport/TransportMonitorAdapter.ts:280-378 | whatever handlers, notifications, faults, new events or a crash do after a batch is claimed, at the first claim past the deadline every row of it is delivered or eligible again, unless a prune or another claim came between |
| AdapterRuns.TraceRetriesAfterBackoff | src/transport/TransportMonitorAdapter.ts:342-377 | the adapter puts rows back only with a deadline one backoff away |
| AdapterRuns.NothingClaimedBeforeRetry | src/runtime/MonitorRuntime.ts:802-812 | under the adapter nothing is claimed in the process before the session's deadline |
| AdapterRuns.NothingAcceptedBeforeDrained | src/runtime/MonitorRuntime.ts:324-360 | after a crash over a backlog nothing is accepted before the counter has read nothing, nor before the reservoir has been empty if failures keep the counter right |
| Incidents.DeliveredComesBackOverTheLimit | src/transport/TransportMonitorAdapter.ts:333-368 | the run from a new database, without a storage fault and with room for one row, after which a delivered row is pending again and two rows are live |
| TransportAdapter.TransportMonitorAdapter.constructor | src/transport/TransportMonitorAdapter.ts:89-98 | a new process continues the ledger of the one that went down |
| TransportAdapter.TransportMonitorAdapter.Ingest | src/transport/TransportMonitorAdapter.ts:143-168 | persists under its own ingest time or the clock, then forwards exactly the accepted events |
| TransportAdapter.TransportMonitorAdapter.LiveDeliverySettles | src/transport/TransportMonitorAdapter.ts:170-266 | a completed handler is acknowledged, a rejected one leaves the row pending |
| TransportAdapter.TransportMonitorAdapter.RunReplayOperation | src/transport/TransportMonitorAdapter.ts:269-278 | an overlapping call is given the operation in flight and changes nothing |
| TransportAdapter.TransportMonitorAdapter.ReconcilePiece | src/transport/TransportMonitorAdapter.ts:387-446 | the reconcile is the turn of the machine that `Reconciliation.ReconcileActsExactly` pins down |
| Reconciliation.ReconcileActsExactly | src/transport/TransportMonitorAdapter.ts:387-446 | a reconcile queues exactly a resting session, confirmed by the required heartbeats, over a nonzero counter, that failed, or finished with something to replay, or is idle with recovery needed, a transition seen and something to replay; it claims exactly for a session under way over a nonzero counter; in every other case it commits nothing |
| Reconciliation.UnconfirmedSessionRests | src/transport/TransportMonitorAdapter.ts:419-428 | in particular a resting session short of its heartbeats stays as it is |
| TransportAdapter.TransportMonitorAdapter.ReplayNotified | src/transport/TransportMonitorAdapter.ts:282-341 | what a settled notification leads to, in every phase; a late failure that is reported has put the batch back |
| TransportAdapter.TransportMonitorAdapter.DeliverySettles | src/transport/TransportMonitorAdapter.ts:301-377 | one turn of the batch loop: next entry, acknowledgement or catch block; what is reported has been committed |
| TransportAdapter.TransportMonitorAdapter.ReleaseSlot | src/transport/TransportMonitorAdapter.ts:465-476 | the slot is freed |
| Lifecycle.StepKeepsValid | src/lifecycle/LifecycleDispatcher.ts:121-233 | every step keeps the books and, while open, work that remains is scheduled or active, never both, and only remaining work is waited for |
| LifecycleHistory.FatesExactly | src/lifecycle/LifecycleDispatcher.ts:121-200 | which events each step takes off the queue and what becomes of them: one dropped for room, one dispatched, all shut down, or none |
| LifecycleHistory.AnswerExactly | src/lifecycle/LifecycleDispatcher.ts:133-181 | a promise is answered `timed_out` exactly by its own timer, `closed` exactly when the dispatcher is closed, `drained` only when open and idle, with the depth and activity right after |
| LifecycleHistory.WaitsExactly | src/lifecycle/LifecycleDispatcher.ts:133-152 | a promise stays unanswered exactly while the dispatcher is open and busy and its timer runs |
| LifecycleHistory.LastDropIsLast | src/lifecycle/LifecycleDispatcher.ts:218-225 | over any run the record of drops shows the last event dropped and why |
| Lifecycle.NothingUnaccounted | src/lifecycle/LifecycleDispatcher.ts:121-131 | accepted = dispatched + queued + dropped over every run; the counter is the number dropped until it saturates; the queue stays within capacity |
| Lifecycle.HandedInOrder | src/lifecycle/LifecycleDispatcher.ts:192-216 | dispatched events are a subsequence of the accepted ones, and everything dispatched or dropped is older than everything queued |
| Lifecycle.AnswersAreFinal | src/lifecycle/LifecycleDispatcher.ts:133-152 | a flush promise is answered at most once |
| Lifecycle.DrainedMeansDrained | src/lifecycle/LifecycleDispatcher.ts:227-237 | a promise answered `drained`, however late, means every event accepted before the flush has left the queue |
| Lifecycle.DrainsByItself | src/lifecycle/LifecycleDispatcher.ts:183-216 | left to itself an open dispatcher drains in exactly 2*queued + active pieces, drops nothing more and answers every waiter `drained` |
| Dispatcher.LifecycleDispatcher.constructor | src/lifecycle/LifecycleDispatcher.ts:77-89 | starts empty and open |
| Dispatcher.LifecycleDispatcher.Subscribe | src/lifecycle/LifecycleDispatcher.ts:91-119 | refused when closed or for an unknown name; otherwise one subscription more |
| Dispatcher.LifecycleDispatcher.Unsubscribe | src/lifecycle/LifecycleDispatcher.ts:113-118 | counts down once per subscription, also after closing, when the count goes below zero |
| Dispatcher.LifecycleDispatcher.Publish | src/lifecycle/LifecycleDispatcher.ts:121-131 | the publish step of the machine |
| Dispatcher.LifecycleDispatcher.Flush | src/lifecycle/LifecycleDispatcher.ts:133-152 | the flush step, and the rejection of a negative timeout |
| Dispatcher.LifecycleDispatcher.RunMicrotask | src/lifecycle/LifecycleDispatcher.ts:183-200 | the drain up to its await |
| Dispatcher.LifecycleDispatcher.ListenerSettles | src/lifecycle/LifecycleDispatcher.ts:202-211 | failures are counted while open |
| Dispatcher.LifecycleDispatcher.FinishDispatch | src/lifecycle/LifecycleDispatcher.ts:212-216 | the drain after its await |
| Dispatcher.LifecycleDispatcher.Close | src/lifecycle/LifecycleDispatcher.ts:170-181 | drops what is queued in order, answers every waiter, zeroes the count |
| Dispatcher.LifecycleDispatcher.CountBelowZeroExactly | src/lifecycle/LifecycleDispatcher.ts:113-118 | in every reachable state the reported count is below zero if and only if the dispatcher is closed and a subscription held at close has been given up since; closed, it is minus the number of those |
| Dispatcher.UnsubscribeAfterClose | src/lifecycle/LifecycleDispatcher.ts:113-118 | after closing, giving up the one subscription leaves a count of -1 |
| Schema.SchemaConnection.MigrateToLatest | src/storage/schema.ts:624-650 | the loop terminates at version 3 with the specified chain of migrations, or stops at a version without one |
| Schema.SchemaConnection.MigrateInTransaction | src/storage/schema.ts:450-464 | any failure up to the commit restores the database |
| Schema.SchemaConnection.ValidateCapacityAccounting | src/storage/schema.ts:490-570 | accepts exactly measured byte evidence and recounted totals |
| Schema.SchemaConnection.ApplyMonitorSchema | src/storage/schema.ts:603-674 | the specified outcome without faults; with one, an error and the starting or the migrated database |
| Schema.OpensExactly | src/storage/schema.ts:603-674 | a database opens exactly when it is empty, current and consistent, or old with the columns its version needs; what opens, opens again unchanged |
| Schema.OpensInColumns | src/storage/schema.ts:603-674 | the same in tables, columns, bytes and totals, and what the opening reports |
| Schema.RefusedInColumns | src/storage/schema.ts:603-674 | and with which error each of the others is refused |
| Schema.FailureRestoresExactly | src/storage/schema.ts:622-664 | a refused database is unchanged exactly unless it is a version 2 database with a legacy structure, which is left at version 3 and refused for ever |
| Schema.RefusedButChanged | src/storage/schema.ts:622-664 | there is one: no rows, all tables, none of the later columns |
| Schema.MigrationPreservesRows | src/storage/schema.ts:274-344 | identity, payload, state, attempts and order key are kept, bytes are measured, terminal times filled from versions 0 and 1 |
| Schema.OpenedIsAccounted | src/storage/schema.ts:490-570 | after opening the reservoir's books are right |
| Schema.CommittedReopens | src/storage/schema.ts:666-673 | any database the reservoir has committed opens again unchanged |
| Schema.Version2TerminalTimesAreNotFilled | src/storage/schema.ts:307-343 | a terminal row without a time in a version 2 database keeps none and is never deleted |
| Schema.DeliveredForEver | src/storage/schema.ts:307-343 | there is one: a single delivered row without a time |
| Decimal.ParsePrint | src/storage/SQLiteReservoir.ts:306-308 | decimal texts of integers of any size and sign read back as themselves |
| Decimal.PrintParse | src/storage/SQLiteReservoir.ts:306-308 | an integer is written as the one text without a leading zero |
| Codec.FromEntriesOfEntries | src/storage/SQLiteReservoir.ts:323-346 | an object's entries rebuild the object, in order |
| Codec.RoundTrip | src/storage/SQLiteReservoir.ts:302-360 | decoding undoes encoding for every value, with big integers and with own keys equal to either sentinel at any depth |
| Codec.EncodeIsInjective | src/storage/SQLiteReservoir.ts:302-332 | different values are stored differently |
| Codec.EncodeIsPlain | src/storage/SQLiteReservoir.ts:302-332 | what is written contains no big integer and no repeated key |
| Codec.StoredAsIs | src/storage/SQLiteReservoir.ts:302-332 | a value without big integers and sentinel keys is stored as it is |
| Codec.EscapedExactly | src/storage/SQLiteReservoir.ts:313-329 | an object is stored as a list of entries if and only if one of its own keys is a sentinel |
| Codec.StoredForms | src/storage/SQLiteReservoir.ts:303-332 | the two forms on disk, by example |
| Codec.LastEntryWins | src/storage/SQLiteReservoir.ts:334-346 | an object read from a list of entries has every key once, with the value of its last entry |
| Codec.IntegerKeyDecides | src/storage/SQLiteReservoir.ts:348-357 | an object with a text under the integer key is read as that integer, or not at all |

## Left out

- Integer widths: rowids, counts and times are unbounded; SQLite's 64-bit integers and the safe-integer range of numbers
  are modelled only for the two saturating counters.
- Errors of constructor arguments: a non-positive queue capacity and a reserve without room between its thresholds are
  preconditions here.
- A ROLLBACK that raises and leaves its transaction open: in the model one raises only when SQLite has already rolled the
  transaction back, so the database is as before. (The migration code ignores a failing ROLLBACK, the reservoir does not.)
- Foreign calls: `node:sqlite`, WAL, pragmas, checkpoints, file and filesystem reads, paths.
- Columns that are only copied (event id, trace id, source node, stream, logical time), the three log tables, and the
  lifecycle emissions of the reservoir, coordinator, runtime and adapter, which cannot change an outcome.
- JSON text itself: the codec starts from parsed values. Numbers are kept as their text, so the sign of a negative zero
  is not an issue here; entry lists that are not [string, value] pairs and integer texts other than signed decimals count
  as decoding errors, where the runtime also accepts blank and hexadecimal texts.
- A stored envelope that no longer decodes, which makes a claim fail and roll back like any other fault.
- The health tracker's timing: the state it arrives at is an input. `refreshHealthStates` only logs and takes the
  recovery flag down, as the other two health calls do.
- Throttle numbers: a tier is decided, the rates and delays that go with it are not modelled.
- Configuration parsing and merging, the scheduler, snapshot inspection, error texts, deep freezing and payload
  stripping of lifecycle events: no state worth proving.
- Public `complete` and `resetToIdle` of the coordinator: called by nothing but the coordinator itself, they are modelled
  where it calls them.
- Handlers that call `pump` or `reconcile` synchronously from inside the first, synchronous part of an operation: the
  operation is assumed to reach its first await before another one is begun.
- Runtime commands of an adapter-owned process issued past the adapter (`claimManagedReplayBatch` called by hand): the
  exclusiveness result is about the adapter's own operations.
- The bulk state move does not maintain terminal times in the code; it is proved to keep the accounting and takes no part
  in the runs, where every terminal row has its time.
- Listener failures while a dispatch is awaited are counted by the class but are no part of the dispatcher machine, and a
  clock that throws while a drop is recorded is not modelled.
- That all buffered rows eventually replay: rows buffered under conservative startup may carry a mode reconciliation does
  not treat as eligible.
