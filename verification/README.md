# Shifty: booking availability, its cache, agenda blocks and smaller protocols

Shifty is a booking system: stores publish the hours of their professionals, clients book
turns, and staff block parts of the agenda. This project models the parts of its backend
whose correctness is hard to see from the code and proves properties of them.

Instants are integers in microseconds and Argentina is the constant offset UTC-3
(`Clock.dfy`). A database transaction is one atomic step. Redis has one clock and exact
expiries; the only failure of a cache command is that it does not happen.

| area | files |
|---|---|
| slot grid and gap filter | `SlotGrid.dfy`, `DayAgenda.dfy` |
| versioned availability cache | `AvailabilityCache.dfy`, `CacheProtocol.dfy`, `CacheLog.dfy`, `CacheCoherence.dfy`, `CacheAnswers.dfy`, `CacheBound.dfy`, `CacheStaleness.dfy`, `CacheWorstAge.dfy` |
| agenda blocks | `AgendaBlocks.dfy`, `BlockRuns.dfy`, `BlockInvalidation.dfy`, `BlockCancellations.dfy`, `BlocksAreServed.dfy` |
| circuit breaker, idempotency, rate limit | `CircuitBreaker.dfy`, `Idempotency.dfy`, `RateLimit.dfy`, `ExecutionWindows.dfy` |
| text and paging | `JsonNul.dfy`, `WhatsAppPhone.dfy`, `Base64.dfy`, `Keyset.dfy` |
| closures and migrations | `SchemaClosure.dfy`, `BatchedMigrations.dfy`, `DataMigrations.dfy` |

Main results:

- **Cache coherence.** The protocol is a state machine in which any number of requests
  interleave with commits, invalidations, expiries and each other, and write late under the
  keys they read early. Over every run, no answer comes from rows older than an invalidation
  finished before its keys were resolved, although counters expire and reuse numbers
  (`CacheAnswers.RowsAreCoherent`). The store's rules (buffer and notice) are another matter:
  the public endpoint reads them before the keys. A run is coherent if and only if no change of
  rules overtakes the request that loaded an answer between those two reads
  (`CacheAnswers.CacheIsCoherentExactly`), and this holds of all runs if and only if the longest
  request plus 300 s fits in the seven days of a counter (`CacheBound.BoundIsExact`).
- **Staleness.** When an invalidation is lost, the rows and the rules behind served slots are less
  than 301 s plus twice the longest request old (`CacheStaleness.StalenessIsBounded`). The bound
  is exact to the microsecond: some run reaches it (`CacheWorstAge.WorstAgeIsExact`).
- **Faithful day agenda.** Slots computed from the rows of one day are the slots computed from
  the whole history (`DayAgenda.DayAgendaIsFaithful`).
- **Gap filter.** What it hides, exactly; that it never empties a free window; and that booking
  an offered interior slot leaves something to offer on both sides when there is no buffer.
  With a buffer the promise fails: `SlotGrid.BufferBreaksThePromise` gives a shift, and
  `SlotGrid.SellableSidesExactly` the exact condition.
- **No orphans.** Over any run of block operations, bookings, payments and status changes, an
  active appointment under an active block was found not cancellable, when the block first came
  over it, by an operation a manager had confirmed (`BlockRuns.NoOrphans`). Whether anybody is
  told depends on the operation (`BlockRuns.ReportedExactly`).
- **Invalidation.** After a block operation, every day that loads other blocks than before has
  its version or the store's generation raised (`BlockInvalidation.CreateAndInvalidate`,
  `BlockInvalidation.UpdateAndInvalidate`), with at most 62 INCR (`BlockInvalidation.Invalidate`).
  So a request that resolves its keys after the operation ended is answered from rows read after
  its commit (`BlocksAreServed.NewBlocksAreServed`, `BlocksAreServed.EditedBlocksAreServed`).
- **Circuit breaker** over every interleaving, **idempotency** (mutual exclusion if and only if
  holders finish within the marker's 60 s), **fixed window limiter** (its five seconds of grace
  are exactly the delay it can bear), **keyset pages** (no row twice, none skipped, even while
  the table changes), **phone numbers** (the spellings of a number and no other text are read
  as it), **NUL scanner**, **schema closure**, **batched migrations**.

## Findings

Behaviours a caller may not expect. The model keeps them as the code has them; each has an input
that shows it and a statement of exactly when it happens.

- **Old rules under new keys.** The public endpoint reads the store's buffer and notice
  (`backend/modules/public_api/router.py:418`), and only then resolves the cache keys. If the rules
  change and the generation is bumped in between, the agenda is built with the old rules and
  stored under the new keys, where later requests find it for up to five minutes
  (`CacheBound.OldRulesAreServed`, at any request length; exactly when:
  `CacheAnswers.CacheIsCoherentExactly`). Rules read after the keys, as on the panel's path, never
  suffer it (`CacheAnswers.LateRulesAreNeverOvertaken`).
- **Edits do not report.** `create_blocks` logs the appointments it left under the block;
  `update_block` drops that list. A confirmed edit that stretches a block over an appointment with
  its deposit paid leaves it covered and says nothing (`BlockRuns.ConfirmedEditCoversSilently`,
  `BlockRuns.AnEditCoversSilently`). An appointment newly covered is reported if and only if the
  operation is a creation (`BlockRuns.ReportedExactly`).
- **Buffers and the gap filter.** The comment of `leaves_unsellable_gap` promises sellable sides,
  but the check ignores the buffer the next agenda puts around the new appointment
  (`SlotGrid.BufferBreaksThePromise`; exactly when: `SlotGrid.SellableSidesExactly`).
- **One failure can open the circuit**: a probe that fails after a straggler already closed it
  (`CircuitBreaker.LoneProbeFailureReopens`; exactly when: `CircuitBreaker.ClosedExactlyWhen`).
- **Three limits in one window.** Windows of clock readings let through at most twice the limit.
  By execution time that holds, whatever the window, if and only if hits execute within one
  microsecond of reading the clock (`ExecutionWindows.TwoLimitsExactly`). With any delay up to the
  five seconds of grace, the number of limits that always suffices is exactly
  `ExecutionWindows.BucketsMet`: three for delays up to a window
  (`ExecutionWindows.LimitsKeptExactly`; a run: `ExecutionWindows.ThreeGetThrough`).
- **Turns across midnight.** A block invalidates the days of its range. A turn it cancels may also
  be loaded by a neighbouring day, which keeps its old agenda for up to five minutes
  (`BlockCancellations.TurnAcrossMidnightIsMissed`, no buffer needed; exactly when:
  `BlockCancellations.CreationMissesExactly` and `BlockCancellations.EditMissesExactly`).
- **A quota of zero.** The read says there is room and the consume refuses
  (`RateLimit.ZeroLimitDisagrees`; exactly when: `RateLimit.QuotaReadForetellsConsume`). The only
  caller passes 10 (`backend/modules/public_api/service.py:326`), so it does not happen today.

## Model

| member | source | states |
|---|---|---|
| `SlotGrid.FirstGridStartIsLeast` | backend/modules/appointments/availability.py:76-81 | the ceiling division gives the least 15-minute grid point at or after the instant, counted from the start of the shift |
| `SlotGrid.FreeFromIsMaximum` | backend/modules/appointments/availability.py:84-104 | the free window begins at the latest end among obstacles already over, or at the shift's start |
| `SlotGrid.FreeUntilIsMinimum` | backend/modules/appointments/availability.py:84-104 | the free window ends at the earliest start among obstacles still to come, or at the shift's end |
| `SlotGrid.ScheduleSlots` | backend/modules/appointments/availability.py:739-804 | the walk returns, in order, every grid slot that fits in the hours and is not hidden, with its status, and no other |
| `SlotGrid.ShownExactly` | backend/modules/appointments/availability.py:771-804 | a slot is in the result if and only if it is a grid slot the gap filter does not hide |
| `SlotGrid.ShownInOrder` | backend/modules/appointments/availability.py:771-804 | slots come in strictly increasing order of start |
| `SlotGrid.CountOfFittingSlots` | backend/modules/appointments/availability.py:771-773 | the walk stops exactly after the last slot that fits |
| `SlotGrid.FreeIffClear` | backend/modules/appointments/availability.py:807-833 | a slot is available if and only if it clears every obstacle the gap filter reads: widened appointments, blocks and the minimum notice |
| `SlotGrid.WindowOfFreeSlot` | backend/modules/appointments/availability.py:84-104 | the window of a free slot contains it, stays within the hours and holds no obstacle |
| `SlotGrid.ClearWindowIsShared` | backend/modules/appointments/availability.py:84-104 | any turn inside the window of a clear turn is clear and sees the same window |
| `SlotGrid.WindowIsShared` | backend/modules/appointments/availability.py:84-104 | every grid slot inside a free window is free and has that same window |
| `SlotGrid.TurnFitsIff` | backend/modules/appointments/availability.py:137-148 | some grid-aligned turn fits on a side if and only if the first one does |
| `SlotGrid.HiddenExactlyWhenAGapIsLost` | backend/modules/appointments/availability.py:107-148 | a free slot is hidden if and only if its window has an earlier and a later slot and on some side no grid-aligned turn of the gap duration fits |
| `SlotGrid.FirstOfWindowIsOffered` | backend/modules/appointments/availability.py:84-148 | for any duration, the first grid slot that fits in the window of a free slot is free and offered |
| `SlotGrid.LastOfWindowIsOffered` | backend/modules/appointments/availability.py:84-148 | and so is the last one that fits |
| `SlotGrid.ObstaclesAfterBooking` | backend/modules/appointments/availability.py:739-770 | booking a slot adds exactly one obstacle, the slot widened by the buffer |
| `SlotGrid.FreeBesideTheBooking` | backend/modules/appointments/availability.py:84-148 | a grid turn of the old window that clears the booked slot and its buffer is free afterwards |
| `SlotGrid.OfferedOnTheLeft` | backend/modules/appointments/availability.py:107-148 | after booking, something is offered on the left if and only if a grid turn fits before the slot minus the buffer |
| `SlotGrid.OfferedOnTheRight` | backend/modules/appointments/availability.py:107-148 | the same on the right |
| `SlotGrid.SellableSidesExactly` | backend/modules/appointments/availability.py:107-148 | booking leaves something to offer on both sides if and only if on each side the first grid turn fits without entering the buffer |
| `SlotGrid.BookingLeavesSellableSides` | backend/modules/appointments/availability.py:107-148 | without buffer, booking any offered interior slot leaves a slot of the gap duration to offer on both sides |
| `SlotGrid.BufferBreaksThePromise` | backend/modules/appointments/availability.py:107-148 | with a 15-minute buffer an offered interior slot exists whose booking leaves nothing on its left |
| `DayAgenda.SpanCapIsExact` | backend/alembic/versions/e9f1b3d5a7c0_turno_tope_de_duracion_check.py:3-9 | the query's lower bound on the start loses no overlapping appointment if and only if appointments last at most one day |
| `DayAgenda.LoadBooked` | backend/modules/appointments/availability.py:633-681 | appointments of the day, widened by the buffer, end up grouped by professional in table order |
| `DayAgenda.LoadBlocks` | backend/modules/appointments/availability.py:682-703 | blocks of the day, not widened, end up grouped by professional in table order |
| `DayAgenda.StaffSlots` | backend/modules/appointments/availability.py:706-736 | the slots of a professional are those of each shift in turn |
| `DayAgenda.GridSlots` | backend/modules/appointments/availability.py:706-736 | the slots of a day are those of each professional in turn |
| `DayAgenda.SameStatus` | backend/modules/appointments/availability.py:807-833 | a slot has the same status, reason included, from the rows of its day as from the whole history |
| `DayAgenda.SameWindow` | backend/modules/appointments/availability.py:84-104 | a slot has the same free window either way |
| `DayAgenda.SameSlots` | backend/modules/appointments/availability.py:739-804 | a shift shows the same slots either way |
| `DayAgenda.DayAgendaIsFaithful` | backend/modules/appointments/availability.py:633-703 | for every query and history with no appointment over one day, the slots from the loaded rows equal the slots from the whole history, gap filter included |
| `AvailabilityCache.DaysTouched` | backend/core/availability_cache.py:278-285 | the local and UTC days of the instants, or an overflow exactly when one has no such day |
| `AvailabilityCache.WalkDays` | backend/core/availability_cache.py:359-372 | every day from the first to the last, or an overflow exactly when the walk steps past the last date |
| `AvailabilityCache.RangeDays` | backend/core/availability_cache.py:359-372 | the days of a range, or an overflow exactly when they cannot all be represented |
| `AvailabilityCache.LoadedDaysAreDaysOf` | backend/core/availability_cache.py:344-372 | every local day on which a row overlapping the range can be loaded is among its days |
| `AvailabilityCache.DaysOfExactly` | backend/modules/appointment_blocks/service.py:70-81 | the days of a range are the days that are counted for it and, exactly when the UTC day of its end is past the local one, that one more |
| `AvailabilityCache.RedisCounters.GetEx` | backend/core/availability_cache.py:135-145 | reads 0 for a missing or expired counter, stretches a live one for seven days and creates none |
| `AvailabilityCache.RedisCounters.CurrentGenerationAndVersion` | backend/core/availability_cache.py:165-178 | reads and stretches both counters, generation first |
| `CacheProtocol.ReadingsAreThePair` | backend/core/availability_cache.py:165-178 | the two readings of a request, when nothing happens in between, are what the client reads in one round trip |
| `AvailabilityCache.RedisCounters.BumpCounters` | backend/core/availability_cache.py:108-125 | one INCR and EXPIRE per key; an expired counter restarts at 1; other keys are untouched |
| `AvailabilityCache.RedisCounters.InvalidateStore` | backend/core/availability_cache.py:387-400 | bumps the store's generation only |
| `AvailabilityCache.RedisCounters.InvalidateRange` | backend/core/availability_cache.py:344-384 | bumps the versions of exactly the days of the range, or the store's generation when they cannot be represented |
| `CacheLog.StepKeepsLog` | backend/core/availability_cache.py:45-57 | every step keeps what readings of counters mean for seven days, and what the noted moments had seen |
| `CacheCoherence.HitIsFresh` | backend/core/availability_cache.py:45-57 | an entry found under freshly resolved keys was written by a request that saw the counters bumped just as often, so its rows are fresh and its rules come from a loader with the same bumps |
| `CacheCoherence.OwnOrigin` | backend/modules/appointments/availability.py:569-585 | the rules a request loads an agenda with are those it brought, read before its keys, or the store's, read after |
| `CacheCoherence.StepKeepsInv` | backend/modules/appointments/availability.py:277-406 | each step of a request, the early read of the rules included, a commit of rows or of rules, an invalidation or the clock keeps the invariant of the protocol |
| `CacheCoherence.InvAlways` | backend/modules/appointments/availability.py:277-406 | the invariant holds over every run |
| `CacheAnswers.RowsAreCoherent` | backend/core/availability_cache.py:45-57 | if the longest request plus 300 s is at most seven days, no answer of any run comes from rows older than an invalidation finished before its keys were resolved, or before it began if it resolved none |
| `CacheAnswers.LoaderOwesTheSame` | backend/core/availability_cache.py:45-57 | an answer owes an invalidation if and only if the request that loaded its agenda does |
| `CacheAnswers.MissesRulesExactly` | backend/modules/public_api/router.py:418-443 | an answer misses a change of rules it owes if and only if rules changed after its loader read them and were invalidated before its loader resolved that key |
| `CacheAnswers.CacheIsCoherentExactly` | backend/modules/public_api/router.py:418-443 | a run is coherent, rows and rules, if and only if no such change overtook the loader of an answer |
| `CacheAnswers.LateRulesAreNeverOvertaken` | backend/modules/appointments/availability.py:579-580 | rules read after resolving the keys are never overtaken |
| `CacheBound.LateWriteIsServed` | backend/core/availability_cache.py:45-57 | with longer requests, a run in which a late write is served after its counter expired and restarted |
| `CacheBound.BoundIsExact` | backend/core/availability_cache.py:45-57 | in all runs, coherent is the same as not overtaken, if and only if the longest request plus 300 s is at most seven days |
| `CacheBound.OldRulesAreServed` | backend/modules/public_api/router.py:418-443 | for any request length, a run in which a request begun after an invalidation of the rules is served slots computed with the old ones |
| `CacheStaleness.RemainingTtlBounds` | backend/modules/appointments/availability.py:206-216 | what flooring the age and the minimum of one second can add to the life of cached slots |
| `CacheStaleness.TimelyAlways` | backend/modules/appointments/availability.py:299-406 | over every run, entries of both levels expire soon enough after the oldest read behind them, the rules included |
| `CacheStaleness.StalenessIsBounded` | backend/modules/appointments/availability.py:330-406 | whatever invalidations are lost, an answer is less than 301 s plus twice the longest request older than the reads of its rows and of its rules |
| `CacheWorstAge.WorstAgeIsReached` | backend/modules/appointments/availability.py:330-406 | a run in which a late agenda write, the one-second minimum and a hit in the last microsecond reach that age |
| `CacheWorstAge.WorstAgeIsExact` | backend/modules/appointments/availability.py:330-406 | an age bounds every answer of every run if and only if it is at least that one |
| `AgendaBlocks.AddedIsDifference` | backend/modules/appointment_blocks/service.py:90-112 | added ranges cover exactly planned minus previous, as ordered disjoint non-empty pieces, active or not |
| `AgendaBlocks.FreedMirrorsAdded` | backend/modules/appointment_blocks/service.py:476-511 | freed is added with before and after exchanged |
| `AgendaBlocks.FreedIsDifference` | backend/modules/appointment_blocks/service.py:476-511 | freed ranges cover exactly previous minus new, as ordered disjoint non-empty pieces |
| `AgendaBlocks.LengthIsConserved` | backend/modules/appointment_blocks/service.py:90-112 | added length minus freed length is the growth of the covered time, in all active and inactive combinations |
| `AgendaBlocks.ExpandRanges` | backend/modules/appointment_blocks/service.py:115-134 | the occurrences are the base moved by whole periods, as many as the limit and the end date allow, the first always |
| `AgendaBlocks.ListedExactly` | backend/modules/appointments/repository.py:388-433 | the envelope and the one-day bound lose nothing: listed is active, of that staff and overlapping some range |
| `AgendaBlocks.AffectedExactly` | backend/modules/appointments/repository.py:388-433 | the affected appointments are exactly the listed rows |
| `AgendaBlocks.AffectedByStart` | backend/modules/appointments/repository.py:434 | they come in the order of their start, each once |
| `AgendaBlocks.ResolveExactly` | backend/modules/appointment_blocks/service.py:295-394 | cancellable affected rows are cancelled, every other row stays, and the result tells cancelled from skipped |
| `AgendaBlocks.ResolveKeepsBlocks` | backend/modules/appointment_blocks/service.py:295-343 | resolving appointments changes no block |
| `AgendaBlocks.ResolveNotifies` | backend/modules/appointment_blocks/service.py:345-394 | exactly the cancelled clients with an address are told, through the outbox, which only grows |
| `AgendaBlocks.ResolveLogs` | backend/modules/appointment_blocks/service.py:372-380 | exactly the cancelled appointments are logged, each with its status until then, and the log only grows |
| `AgendaBlocks.AppointmentBlockService.ListActiveOverlapping` | backend/modules/appointments/repository.py:388-433 | returns the affected appointments in the order of their start |
| `AgendaBlocks.AppointmentBlockService.LockAndResolveAffected` | backend/modules/appointment_blocks/service.py:295-343 | refuses without consent or permission and changes nothing, or resolves every affected appointment, logging and notifying those it cancels |
| `AgendaBlocks.AppointmentBlockService.CreateBlocks` | backend/modules/appointment_blocks/service.py:240-293 | one block per professional and range after the guard, with an audit entry naming the cancelled and the skipped after those of each cancellation, or an error and nothing changed |
| `AgendaBlocks.AppointmentBlockService.InsertBlocks` | backend/modules/appointment_blocks/service.py:265-293 | blocks are added professional by professional, range by range, behind the existing ones |
| `AgendaBlocks.AppointmentBlockService.UpdateBlock` | backend/modules/appointment_blocks/service.py:437-469 | the edited block, alone, after guarding only the added ranges, with cancellations logged and the freed ranges published; or an error and nothing changed |
| `AgendaBlocks.AppointmentBlockService.DeleteBlock` | backend/modules/appointment_blocks/service.py:471-474 | deleting is deactivating without consent |
| `BlockRuns.GuardClassifies` | backend/modules/appointment_blocks/service.py:295-343 | what the guard leaves active under the ranges is not cancellable, is in its skipped list, and needed a manager's confirmation |
| `BlockRuns.NewlyCoveredIsAdded` | backend/modules/appointment_blocks/service.py:90-112 | an appointment under the planned range and not under the previous one is under an added range |
| `BlockRuns.NewlyCoveredIsClassified` | backend/modules/appointment_blocks/service.py:240-474 | an appointment falls under a block only through a confirmed operation that found it not cancellable |
| `BlockRuns.OnlyOperationsCover` | backend/modules/appointments/repository.py:115-144 | bookings, status changes and payments put no appointment under a block |
| `BlockRuns.NextKeepsWellFormed` | backend/modules/appointment_blocks/service.py:240-474 | every step keeps ranges and spans well formed |
| `BlockRuns.NoOrphans` | backend/modules/appointment_blocks/service.py:240-474 | over any run, an active appointment under an active block was found not cancellable by the confirmed operation that first covered it, and has been under it since |
| `BlockRuns.ReportedExactly` | backend/modules/appointment_blocks/service.py:251-284 | an appointment newly covered is logged as skipped if and only if the operation is a creation |
| `BlockRuns.ConfirmedEditCoversSilently` | backend/modules/appointment_blocks/service.py:437-469 | any confirmed edit that stretches a block over an appointment that may not be cancelled leaves it covered and unreported |
| `BlockRuns.AnEditCoversSilently` | backend/modules/appointment_blocks/service.py:437-469 | one such edit |
| `BlockInvalidation.DaysCovered` | backend/modules/appointment_blocks/service.py:70-81 | the local days the ranges touch, added up, or an overflow exactly when one has no local day |
| `BlockInvalidation.Invalidate` | backend/modules/appointment_blocks/service.py:513-535 | raises the counter of each day of the ranges, or only the store's generation when they are too many, touches no other counter, and sends at most 62 INCR however many or long the ranges |
| `BlockInvalidation.CreateInvalidatesEveryChangedDay` | backend/modules/appointment_blocks/service.py:240-293 | every local day whose loaded blocks a creation changes is reached by its invalidation |
| `BlockInvalidation.UpdateInvalidatesEveryChangedDay` | backend/modules/appointment_blocks/service.py:437-469 | the same for an edit, with the previous and the new range |
| `BlockInvalidation.DeleteInvalidatesEveryChangedDay` | backend/modules/appointment_blocks/service.py:471-474 | the same for a deletion |
| `BlockInvalidation.RangeCommandsBounded` | backend/modules/appointment_blocks/service.py:70-81 | each range counts at least one day and takes at most one INCR more than the days it counts |
| `BlockInvalidation.CreateAndInvalidate` | backend/modules/appointment_blocks/service.py:240-293 | after a creation, every day that loads other blocks than before has its version or the generation raised; a failed one changes nothing |
| `BlockInvalidation.UpdateAndInvalidate` | backend/modules/appointment_blocks/service.py:437-474 | the same after an edit or a deletion |
| `BlockInvalidation.SameLoadedSameBlocks` | backend/modules/appointments/availability.py:682-701 | a day that loads the same blocks has the same agenda of every professional |
| `BlockCancellations.ResolveChangesTurnsExactly` | backend/modules/appointment_blocks/service.py:295-394 | a day loads other appointments after the guard if and only if it loaded one the guard cancelled |
| `BlockCancellations.CreationMissesExactly` | backend/modules/appointment_blocks/service.py:240-293 | a creation leaves some day with old appointments and not invalidated if and only if one it cancels is loaded on a day none of its ranges reaches |
| `BlockCancellations.EditMissesExactly` | backend/modules/appointment_blocks/service.py:437-469 | the same of an edit, with the added ranges and the invalidation of both spans |
| `BlockCancellations.TurnsWithinTheDaysAreReached` | backend/modules/appointment_blocks/service.py:513-535 | a turn that lies, buffer counted, within the days of a range is never missed |
| `BlockCancellations.TurnAcrossMidnightIsMissed` | backend/modules/appointment_blocks/service.py:513-535 | a creation after midnight that cancels a turn begun before it leaves the day before with its old agenda |
| `BlocksAreServed.ReachedDayIsServedAfresh` | backend/core/availability_cache.py:45-57 | on every day an invalidation reaches, a request that resolves its keys after it is answered from rows read after the commit |
| `BlocksAreServed.NewBlocksAreServed` | backend/modules/appointment_blocks/service.py:240-293 | so it is on every day that loads other blocks after a creation |
| `BlocksAreServed.EditedBlocksAreServed` | backend/modules/appointment_blocks/service.py:437-474 | and after an edit or a deletion |
| `CircuitBreaker.AsyncCircuitBreaker.Before` | backend/core/circuit_breaker.py:87-104 | refuses while open before the retry time or while another probe runs, otherwise admits, as the probe when half-open |
| `CircuitBreaker.AsyncCircuitBreaker.Succeed` | backend/core/circuit_breaker.py:110-115 | closes the circuit and clears the failures; the probe flag only for the probe |
| `CircuitBreaker.AsyncCircuitBreaker.OpenIt` | backend/core/circuit_breaker.py:128-131 | opens until the recovery time from now |
| `CircuitBreaker.AsyncCircuitBreaker.Fail` | backend/core/circuit_breaker.py:117-126 | a probe or a half-open failure reopens; any other counts and opens at the threshold |
| `CircuitBreaker.AsyncCircuitBreaker.Release` | backend/core/circuit_breaker.py:106-108 | a call cut short gives the probe back and neither opens nor closes |
| `CircuitBreaker.AsyncCircuitBreaker.End` | backend/core/circuit_breaker.py:48-75 | the three exits of an admitted call |
| `CircuitBreaker.EntryKeepsProbed` | backend/core/circuit_breaker.py:87-104 | entering keeps the count of probes within one plus the stragglers' failures |
| `CircuitBreaker.ExitKeepsProbed` | backend/core/circuit_breaker.py:106-131 | so does leaving by any exit, and the probe flag still means a probe in flight |
| `CircuitBreaker.NextKeepsInv` | backend/core/circuit_breaker.py:48-131 | every event keeps the invariant, and the retry time never moves back |
| `CircuitBreaker.BreakerOverEveryRun` | backend/core/circuit_breaker.py:48-131 | over every interleaving: the flag means a probe is in flight, probes are at most one plus straggler failures while half-open, closed if and only if failures are below the threshold, at the threshold otherwise |
| `CircuitBreaker.ClosedExactlyWhen` | backend/core/circuit_breaker.py:110-126 | closed if and only if, since the last success, failures are fewer than the threshold and none was a probe's |
| `CircuitBreaker.RetryAtNeverDecreases` | backend/core/circuit_breaker.py:128-131 | the retry time never decreases along a run |
| `CircuitBreaker.IdleBreakerRefusesOnlyWhileOpen` | backend/core/circuit_breaker.py:87-104 | with nothing in flight a call is refused if and only if the circuit is open and its retry time has not come |
| `CircuitBreaker.LoneProbeFailureReopens` | backend/core/circuit_breaker.py:117-126 | a run in which one failure since the last success opens the circuit |
| `Idempotency.Guard` | backend/core/idempotency.py:40-70 | at most 41 turns; the last is the first that finds the key not taken; it gives up if and only if all find it taken |
| `Idempotency.OwnedKept` | backend/core/idempotency.py:40-90 | every step keeps the marker in the hands of whoever executes |
| `Idempotency.OneHolder` | backend/core/idempotency.py:13-23 | if holders finish within the marker's life, at most one request executes |
| `Idempotency.TwoHoldersRun` | backend/core/idempotency.py:13-23 | with a longer holder, a run in which two execute |
| `Idempotency.MutualExclusionExactly` | backend/core/idempotency.py:13-23 | one at a time in every run if and only if no holder takes longer than 60 s |
| `Idempotency.ReleaseRemovesOwnMarker` | backend/core/idempotency.py:82-90 | the DELETE of a release, sent after a separate GET, removes only the request's own live marker, never another's nor a result |
| `Idempotency.RepliesAreTheSavedResult` | backend/core/idempotency.py:40-79 | every value a guard returns is the last saved one, under 24 h old, and two saves are at least 24 h apart |
| `Idempotency.SavedResultStands` | backend/core/idempotency.py:73-79 | from a save until 24 h later the key keeps that result and nobody executes |
| `Idempotency.MarkerIsShort` | backend/core/idempotency.py:20-23 | a request that died blocks its key for at most a minute more |
| `RateLimit.BucketIs` | backend/core/rate_limit.py:189-195 | buckets tile the clock: an instant is in the one bucket whose window contains it |
| `RateLimit.RetryIsTheLeastWait` | backend/core/rate_limit.py:189-195 | waiting the returned seconds lands in the next bucket and waiting less does not; it is between 1 and the window |
| `RateLimit.RateLimiter.HitRateLimit` | backend/core/rate_limit.py:198-212 | increments and stretches the bucket's counter and refuses above the limit |
| `RateLimit.RateLimiter.SubjectQuotaExhausted` | backend/core/rate_limit.py:294-320 | refuses if and only if a live counter has reached the limit, and consumes nothing |
| `RateLimit.RateLimiter.EnforceRateLimit` | backend/core/rate_limit.py:215-245 | the subject's bucket, in lower case, is hit only when there is a subject and the address is within its limit |
| `RateLimit.CountsAlways` | backend/core/rate_limit.py:198-209 | a counter holds the hits of its bucket and outlives the last hit the bucket can get |
| `RateLimit.AnswerIsTheHitCount` | backend/core/rate_limit.py:198-212 | every answer of the pipeline is the exact number of hits of the bucket |
| `RateLimit.EachBucketAdmitsTheLimit` | backend/core/rate_limit.py:198-212 | a bucket lets through exactly the lesser of its hits and the limit |
| `RateLimit.GraceIsExact` | backend/core/rate_limit.py:204-208 | buckets keep every limit if and only if hits execute at most five seconds after reading the clock |
| `RateLimit.LateHitIsAdmitted` | backend/core/rate_limit.py:204-208 | with a longer delay, a run that lets two hits through a limit of one |
| `RateLimit.AtMostTwiceTheLimit` | backend/core/rate_limit.py:189-212 | of the hits that read the clock in any window of that many seconds, aligned or not, at most twice the limit get through |
| `ExecutionWindows.ExecutedAtMost` | backend/core/rate_limit.py:189-212 | of the hits that execute in any such window, at most BucketsMet limits get through: two, and one more for each window, or part of one, of delay beyond the first microsecond |
| `ExecutionWindows.BurstGetsThrough` | backend/core/rate_limit.py:198-212 | for every window and delay, a run in which as many hits get through a limit of one within a window |
| `ExecutionWindows.LimitsKeptExactly` | backend/core/rate_limit.py:204-208 | a number of limits holds in every run if and only if it is at least that |
| `ExecutionWindows.TwoLimitsExactly` | backend/core/rate_limit.py:204-208 | twice the limit holds by execution time if and only if hits execute within a microsecond of reading the clock, whatever the window |
| `ExecutionWindows.ThreeGetThrough` | backend/core/rate_limit.py:204-208 | a run in which three hits get through a limit of one within ten seconds of execution |
| `RateLimit.QuotaReadForetellsConsume` | backend/core/rate_limit.py:269-320 | the read agrees with the next consume in its bucket if and only if the limit is positive or the bucket was hit |
| `RateLimit.ZeroLimitDisagrees` | backend/core/rate_limit.py:294-320 | with a limit of zero the read says there is room and the consume refuses |
| `JsonNul.DecodedNulIsNulFrom` | backend/core/security_middleware.py:59-76 | from the start of any character, the decoded rest has a NUL if and only if a raw NUL follows or the escape follows after an even run of backslashes |
| `JsonNul.RunIs` | backend/core/security_middleware.py:70-73 | walking back counts the run of backslashes before the match, and the match's own |
| `JsonNul.ContainsJsonNul` | backend/core/security_middleware.py:59-76 | true if and only if decoding the text left to right gives a NUL character; backward steps over all matches are at most the length |
| `WhatsAppPhone.SeparatorsDoNotMatter` | backend/core/whatsapp_phone.py:87-103 | a text is read if and only if nothing in it is illegible, and then as its digits, after a plus or not |
| `WhatsAppPhone.TenDigitsExactly` | backend/core/whatsapp_phone.py:48-60 | a national text is read as a number if and only if it is that number, or it with 15 after an area code of two, three or four digits; the first match never misreads a longer area |
| `WhatsAppPhone.SpelledDigitsAreRead` | backend/core/whatsapp_phone.py:63-103 | every spelling with country prefix, 9, 0 and 15 present or not gives the number, 549 for mobiles and 54 for the rest |
| `WhatsAppPhone.ReadDigitsAreSpelled` | backend/core/whatsapp_phone.py:63-103 | every result is the number some spelling stands for, or digits of another country as they are |
| `WhatsAppPhone.NumbersAreReadExactly` | backend/core/whatsapp_phone.py:87-103 | a text is read as a given Argentine number if and only if it is one of its spellings with any separators |
| `WhatsAppPhone.ResultReadsBack` | backend/core/whatsapp_phone.py:87-103 | a result written after a plus is read as itself |
| `Base64.PaddingIsRestored` | backend/core/keyset.py:40-52 | the padding taken off an encoding is the padding its length asks for |
| `Base64.DecodeOfEncode` | backend/core/keyset.py:40-52 | decoding an encoding gives the bytes back |
| `Base64.RoundTrip` | backend/core/keyset.py:40-52 | encode, strip, pad and decode gives the bytes back, for any length |
| `Keyset.CursorRoundTrip` | backend/core/keyset.py:37-59 | decoding an encoded cursor gives the same instant and id |
| `Keyset.BeforeKeyIsLess` | backend/core/keyset.py:62-79 | the filter is the strict order of (instant, id) |
| `Keyset.LessIsAnOrder` | backend/core/keyset.py:62-79 | that order is total, irreflexive and transitive |
| `Keyset.OrderByIs` | backend/modules/appointments/repository.py:740-742 | the ordered rows are the table's, strictly descending |
| `Keyset.WhereIs` | backend/modules/appointments/repository.py:743-746 | the filter finds exactly the rows below the cursor |
| `Keyset.CutIs` | backend/modules/appointments/repository.py:749-755 | the extra row tells whether another page follows, and the cursor decodes to the last row shown |
| `Keyset.NothingTwice` | backend/core/keyset.py:62-79 | even if the table changes between pages, the rows seen are strictly descending and no cursor is refused |
| `Keyset.NothingSkipped` | backend/core/keyset.py:62-79 | a row present at every page is seen once the reader is past it, and only rows of some page are seen |
| `Keyset.PagesAreSlices` | backend/modules/ledger/router.py:341-377 | n pages show the first n times the limit rows |
| `Keyset.ReaderSeesEveryRowOnce` | backend/modules/ledger/router.py:341-377 | following the cursors visits every row once, newest first, and ends after exactly the pages the rows need |
| `SchemaClosure.RefNameIs` | backend/scripts/gen_api_contract.py:89-92 | the name is what follows the last slash |
| `SchemaClosure.ContractRenderer.NoteRef` | backend/scripts/gen_api_contract.py:89-92 | a reference adds its name to the referenced set |
| `SchemaClosure.ContractRenderer.WalkRefs` | backend/scripts/gen_api_contract.py:210-218 | walking a node adds every name referenced in it at any depth and nothing else |
| `SchemaClosure.ClosedHoldsChains` | backend/scripts/gen_api_contract.py:220-227 | a closed set holds the end of every chain of references from the initial names |
| `SchemaClosure.ContractRenderer.ReferencedClosure` | backend/scripts/gen_api_contract.py:220-227 | on any reference graph the worklist ends with exactly the names reachable from those referenced at the start |
| `BatchedMigrations.Table.ChangeInBatches` | backend/alembic/versions/b5d7f9a1c3e6_minimizar_raw_payload_de_pagos.py:129-152 | for any batch size, every matching row after the first id goes through the change once, others stay, and the number of rows changed is returned |
| `BatchedMigrations.Table.MarkInBatches` | backend/alembic/versions/733220bbf66e_appointments_booked_via_backfill.py:60-86 | the same with one update per batch |
| `BatchedMigrations.MatchingIs` | backend/alembic/versions/b5d7f9a1c3e6_minimizar_raw_payload_de_pagos.py:134-139 | the batch query finds exactly the matching rows after the id, in order |
| `BatchedMigrations.BatchIsMarked` | backend/alembic/versions/733220bbf66e_appointments_booked_via_backfill.py:80-84 | one update for the ids of a batch changes exactly the matching rows up to its last id |
| `BatchedMigrations.SecondRunChangesNothing` | backend/alembic/versions/b5d7f9a1c3e6_minimizar_raw_payload_de_pagos.py:129-152 | a second run changes nothing and counts zero when the change is idempotent |
| `BatchedMigrations.EveryRowIsReachedExactly` | backend/alembic/versions/c7e9a1b3d5f7_auditoria_de_notas_sin_texto.py:72-103 | every row that needs the change gets it if and only if none has an id at or below the first one |
| `DataMigrations.TrimKeepsExactlyTheAllowed` | backend/alembic/versions/b5d7f9a1c3e6_minimizar_raw_payload_de_pagos.py:97-120 | of every scalar at any depth, inside lists too, a trimmed payload keeps those at allowed paths, unchanged, and no other |
| `DataMigrations.TrimIsIdempotent` | backend/alembic/versions/b5d7f9a1c3e6_minimizar_raw_payload_de_pagos.py:105-120 | trimming a trimmed payload gives it back |
| `DataMigrations.Minimize` | backend/alembic/versions/b5d7f9a1c3e6_minimizar_raw_payload_de_pagos.py:129-152 | every payload is trimmed once, the count is returned, and a second run finds nothing |
| `DataMigrations.OnlyTheLengthSurvives` | backend/alembic/versions/c7e9a1b3d5f7_auditoria_de_notas_sin_texto.py:63-69 | in the place of a payload with a note stand the mark and the note's length, and nothing else; other payloads are untouched |
| `DataMigrations.NoteIsTrimmedOnce` | backend/alembic/versions/c7e9a1b3d5f7_auditoria_de_notas_sin_texto.py:63-69 | a payload comes out as it was if and only if it holds no note, and twice is once |
| `DataMigrations.TrimAuditNotes` | backend/alembic/versions/c7e9a1b3d5f7_auditoria_de_notas_sin_texto.py:72-103 | every update log of an appointment loses its note's text, the count is returned, and a second run finds nothing |
| `DataMigrations.MarkPortalBookings` | backend/alembic/versions/733220bbf66e_appointments_booked_via_backfill.py:60-86 | exactly the bookings with accepted terms marked as panel become portal, the count is returned, and a second run finds nothing |

## Left out

- SQL, sessions, row-level security and row locks: each transaction is one atomic step. In particular `update_block` reads the previous range before it takes the lock; here both happen in the same step.
- The booking, payment and waitlist services: bookings enter the block runs only as a step that refuses overlaps with active blocks, payments as a step that accredits one.
- Invalidation after bookings, payments and other changes of appointments: its callers are not modelled. It is proved for blocks, and for the appointments they cancel up to the exact exception above.
- Names in slots, their formatting and the JSON of cache entries: slots carry the professional's id and a time range, entries carry their value.
- Cache keys are tuples, not strings: that distinct tuples give distinct text is not modelled.
- Redis eviction, replication and clock skew. Each database statement reads the latest commit (read committed).
- Time-zone databases: the store's zone is the constant UTC-3, without its history.
- `min_bookable_time` inside cached slots drifts; nothing is claimed about it beyond the staleness bound.
- CircuitBreaker.BreakerOverEveryRun: cancelling the task of an admitted call leaves through none of the three handled exits; every admitted call is taken to end through one of them.
- Idempotency.MutualExclusionExactly: Redis always answers; a guard that finds it down lets the request through unguarded, which only `Idempotency.Guard` models. Results are JSON objects, never null.
- RateLimit.RateLimiter.HitRateLimit: the switch that turns the limiter off and the choice between failing open and closed when Redis is down are one-branch policies and are not modelled; identifiers are not hashed.
- WhatsAppPhone.NumbersAreReadExactly: a missing text is read as the empty one.
- Keyset.DecodeCursor: Python's decoder skips characters outside the base64 alphabet and accepts "+" and "/" as well; here they make the cursor invalid, and bytes that are not ASCII too. The ISO codec is a parameter.
- Keyset.Less: ids are ordered by character code; the collation of the column is not modelled.
- SchemaClosure.ContractRenderer.ReferencedClosure: names of one round are visited in any order, not sorted; the rendering of the contract is not modelled.
- DataMigrations.Minimize: payloads that are a JSON text are not decoded a second time; ids are places in the column's order, the empty text being 0.
- HTTP routing, the other middlewares, logging, task queues, settings, crypto, roles, backups, load tests, schema-only migrations and the front end.
