# Verification of the reservation service

The service takes table reservations for one restaurant, tells customers about them through a durable
message queue, limits how often a client may call, and imports a hand-written file of reviews. This project
models its four stateful engines in Dafny and proves what they promise, over every input and every run.

## What is modelled

**The reservation allocator** (`app/crud.py`). `Booking.Floor` is the content of the rooms, tables and
reservations tables as a value, and each CRUD call is a function from a floor to an answer and a new floor; an
`Err` is a raised exception, after which nothing has changed. `Storage.Database` holds the same tables as fields,
and the methods of `Crud` update them in place, statement by statement, as the program does. Each method is
proved to do what its function says; the theorems are about the functions:

- `Safety`: no table is double-booked, every confirmed party fits, all references exist, names and codes are
  unique. Every operation keeps this.
- `Assignment`: what availability, booking, patching, cancelling and code lookup say about each other.
- `Effects`: what every call answers and which fields and messages it writes, said in terms of the rows alone.
- `Packing`: bounds on the whole restaurant that follow.
- `Backfill` and `SeedTables` (`scripts/seed_tables.py`): the batch allocator with its index in memory picks, row by
  row, what the online allocator would pick, is maximal, and does nothing when repeated.

**The notification queue and its worker** (`app/notifications/`). `Messages` gives the meaning of the queue's
statements, `NotificationQueue` performs them in place. `System` is the whole service as a state machine: CRUD calls,
the agent's own messages, the backfill, the worker's claim, each hand-over to the notifier, each acknowledgement,
and crashes, interleaved in any order. A CRUD call and a claim are assumed to be one step each (the program reads
before its write transaction opens, see "Left out"); the worker holds its batch outside any transaction.
`TickScript` gives the exact steps of one worker tick, for any calls, outcomes and crash around it, and what becomes of
every row of the batch; `WorkerTick.ProcessBatch` is the worker's loop and is proved to take just these steps. Over
all runs:

- `Protocol`: the invariants, final states, and at most one successful delivery of each message.
- `Attempts`: how often a message is tried, and how far apart.
- `Starvation`: a due message is claimed or cancelled within a bounded number of claims.
- `Reminders` and `Announcements`: reminders follow their reservation, and every event is announced exactly once.
- `Guarantees`: what holds for the restaurant and its customers in every reachable state.
- `Timestamps`: the queue compares times as strings; the order of the strings is the order of the times.
- `TwoWorkers` and `TwoCalls`: what the claim does not promise to two workers, and the allocator to two calls at once.

**The rate limiter** (`RateLimit`, for `_SlidingWindow` in `app/middleware.py`): the pruned deque decides as a count
over the full history would, and Retry-After is exact.

**The review importer and the confirmation codes** (`Paragraphs`, `Headings`, `ReviewFile`, `Codes`): a line scanner with two
modes that reads back what the documented layout writes, down to the characters of the file and the two regular
expressions (`Headings`), and normalising codes as the inverse of typing them.

Conventions: instants are whole microseconds (seconds as real numbers in the limiter). Every clock reading a call
takes, every random code it draws and every outcome of the notifier is a parameter of the call, so the theorems hold
for all of them; the clock never turns back. Ids are never used twice. Where the program leaves an order open
(the rows of a claimed batch) or orders by strings with mixed offsets (the rows of the backfill), any order is allowed.

## Where the code and its documentation differ

The model follows the code.

- The comment at `app/config.py:42-43` says that rows are still queued while messages are suppressed.
  `enqueue` drops them (`app/notifications/queue.py:51-53`); see `Guarantees.KillSwitch`.
- The docstring at `app/notifications/worker.py:7-9` says that two workers would be safe. The claim's UPDATE does not
  test the status again, so two claims whose SELECTs both come first share rows whenever anything is due; see
  `TwoWorkers.InterleavedClaimsOverlap`, and `TwoWorkers.OneRowClaimedTwice` for a concrete case.
- `README.md:83` says that cancelling a reservation cancels any pending reminder. That holds right after the call
  (`Reminders.CancelSilencesReminders`) but not for ever: `Guarantees.SilentUntilRevived` says exactly in which runs no
  reminder comes back, and `Guarantees.CancelledYetReminded` is a run from an empty database in which one does.

## Model

| member | source | states |
|---|---|---|
| Safety.CreateKeepsInv | app/crud.py:405-436 | creating a reservation keeps the allocator's promise: reservations of one table are 2h apart, parties fit, references exist, codes and names are unique |
| Safety.UpdateKeepsInv | app/crud.py:497-558 | so does every patch that goes through, whatever fields it sends and whatever the status of the reservation |
| Safety.CancelKeepsInv | app/crud.py:579-605 | so does cancelling |
| Safety.CreateTableKeepsInv | app/crud.py:164-174 | so does adding a table |
| Safety.UpdateTableKeepsInv | app/crud.py:177-209 | so does patching a table: a smaller capacity strands no confirmed party |
| Safety.DeleteTableKeepsInv | app/crud.py:212-225 | so does deleting a table: no reservation, confirmed or cancelled, loses its table |
| Safety.CreateRoomKeepsInv | app/crud.py:88-96 | so does adding a room |
| Safety.DeleteRoomKeepsInv | app/crud.py:117-130 | so does deleting a room: no table loses its room |
| Safety.PlacingKeepsApart | app/crud.py:230-250 | putting a reservation, new or moved, where the conflict query that ignores itself finds nothing keeps all reservations 2h apart |
| Safety.BestIsLeastOpen | app/crud.py:284-310 | automatic assignment has exactly one outcome: the open table that is least in (capacity, load, id), and none exactly if no table is open |
| Assignment.ListedIffBookable | app/crud.py:253-281 | a table is in the availability list exactly when a reservation pinned to it succeeds |
| Assignment.AutoBookingTakesHeadCapacity | app/crud.py:284-342 | automatic booking succeeds exactly when the availability list is not empty, takes a listed table, and one of the capacity of the list's head |
| Assignment.BookingBlocksExactly | app/crud.py:405-436 | a booking makes its table conflict at every time strictly within 2h and changes no other table's or time's availability |
| Assignment.CancelUndoesBooking | app/crud.py:579-605 | booking and then cancelling leaves every table's availability at every time as it was |
| Assignment.CancelFreesTheSlot | app/crud.py:579-605 | after a cancellation its table is open again at its time for its party |
| Assignment.PatchPinned | app/crud.py:513-532 | a patch that names a table moves there exactly if that table is open to it, ignoring itself |
| Assignment.PatchKeepsTableOrTakesBest | app/crud.py:513-540 | a patch of time or size keeps the table while it still fits and is free of others, takes the least open table otherwise, and fails exactly when no table is open |
| Assignment.UnchangedTimeNeverMoves | app/crud.py:513-540 | sending the stored time again never moves a confirmed reservation that has a table and still fits it |
| Assignment.ResendingTimeChangesNothing | app/crud.py:497-558 | sending only the stored time again leaves the whole floor as it was |
| Assignment.PatchWritesWhatIsSent | app/crud.py:542-558 | a successful patch stores the fields it was sent and leaves status, code, fields not sent, and every other row alone |
| Assignment.ResendingPatch | app/crud.py:497-558 | the same patch sent again changes nothing on the floor, with one exception given exactly: a null table, a confirmed reservation, and an open table of the capacity of the one it was given that carries fewer reservations counting its own there, or as many and has a smaller id |
| Assignment.AnyTableMovesOn | app/crud.py:513-531 | a concrete case of the exception: two calls with a null table take a reservation to the other of two tables and back |
| Assignment.LookupFindsExactlyVariants | app/crud.py:451-464 | a lookup finds a reservation exactly when what was typed is a variant of its code: any letter case, ligatures included, with dashes and spaces anywhere |
| Assignment.LookupFindsPrinted | app/notifications/templates.py:43-47 | the code as messages print it finds its reservation |
| Effects.ListingIsExact | app/crud.py:253-281 | a query lists exactly the tables of the room asked for, if one is, that seat the party, if one is given, and have no confirmed reservation less than 7,200 s away; by capacity, then id |
| Effects.FirstFreeIsFirst | app/crud.py:352-364 | the code is the first draw that no reservation has; none is found only if all draws are in use |
| Effects.BookingStoresWhatIsAsked | app/crud.py:405-436 | a booking stores the phone, name, notes, party and time it was sent, as confirmed, with the first unused draw as code, on the table it names or else on the least open one, and changes nothing else |
| Effects.ResolveAnswers | app/crud.py:313-342 | when a table can be had, and which of the four errors is raised when it cannot |
| Effects.BookingAnswers | app/crud.py:405-427 | a booking succeeds exactly if a table can be had, some draw is unused and the party is positive; otherwise what is raised |
| Effects.PatchAnswers | app/crud.py:513-558 | when a patch of a reservation succeeds |
| Effects.OtherEditsAreSilent | app/crud.py:517-576 | a patch without party, time and table queues and cancels no message and keeps the table |
| Effects.CancelWritesStatus | app/crud.py:587-594 | a cancellation changes the status of one reservation and nothing else on the floor |
| Effects.AddTableEffect | app/crud.py:164-174 | when a table can be added (room exists, number new, 2 to 12 seats), what is raised otherwise, and that it is stored as sent |
| Effects.TablePatchAnswers | app/crud.py:177-209 | when a table can be patched, and which error is raised when it cannot |
| Effects.TablePatchWritesWhatIsSent | app/crud.py:201-209 | number, capacity and room are stored as sent and otherwise kept; nothing else changes |
| Effects.DeleteTableEffect | app/crud.py:212-225 | a table is deleted exactly if no reservation is on it, and nothing else is |
| Effects.AddRoomEffect | app/crud.py:88-96 | a room is added exactly if its name is new |
| Effects.DeleteRoomEffect | app/crud.py:117-130 | a room is deleted exactly if no table is in it, and nothing else is |
| Effects.BookingQueues | app/crud.py:430-436 | the two rows a booking queues, field by field, and no other change of the queue |
| Effects.ChangeQueues | app/crud.py:561-576 | the rows a patch queues and the reminders it cancels, for every combination of fields sent |
| Effects.CancellationQueues | app/crud.py:579-605 | the row a cancellation queues and the reminders it cancels; a second one changes nothing |
| Effects.PostQueuesIt | app/routers/notifications.py:28-67 | an agent's message is queued as sent, suppressed or not, unless its reservation does not exist |
| Effects.DropsExactly | app/notifications/queue.py:68-87 | cancelling reminders changes the pending ones of the reservation and no other row |
| Effects.ClaimTakesFirstTwenty | app/notifications/queue.py:90-139 | a claim takes exactly the due rows with fewer than twenty due rows before them, counts an attempt for each, and changes no other row |
| Effects.RecordIsExact | app/notifications/queue.py:142-191 | a record marks the head of the batch sent, failed at the cap, or due again exactly min(60*2^attempts, 3600) s after its clock reading, and no other row |
| Packing.SittingsUseDistinctTables | app/crud.py:230-250 | confirmed reservations within half-open 2h use different tables |
| Packing.SeatingBound | app/crud.py:188-198 | the parties of any 2h never exceed the total capacity |
| Packing.PackingBound | app/crud.py:22 | n confirmed reservations of one table within a closed span L satisfy (n-1)*2h <= L |
| Backfill.BackfillKeepsInv | scripts/seed_tables.py:67-113 | the batch keeps the allocator's promise, in whatever order it takes the rows |
| Backfill.BackfillTouchesOnly | scripts/seed_tables.py:107-110 | the batch changes nothing but the table of the rows it was given |
| Backfill.BackfillGivesBest | scripts/seed_tables.py:88-112 | every row ends up with the table that automatic assignment gives it on the floor as the rows before it left it, or without one exactly if that has none |
| Backfill.BackfillIsMaximal | scripts/seed_tables.py:96-106 | a row left without a table fits no open table even in the final state |
| Backfill.BackfillIsIdempotent | scripts/seed_tables.py:82-113 | a second batch, in whatever order, assigns nothing |
| Backfill.SkippedAreLeft | scripts/seed_tables.py:88-113 | the rows counted as skipped are just those still unassigned at the end |
| SeedTables.ListedLoad | scripts/seed_tables.py:94 | the length of a table's list in the index is the load that the assignment query counts |
| SeedTables.ListedConflict | scripts/seed_tables.py:97-100 | a listed time lies within 2h exactly when the conflict query finds a conflict |
| SeedTables.AppendKeepsAgreement | scripts/seed_tables.py:107-111 | the index and the database agree on every table after an assignment: one listed time for each confirmed reservation |
| SeedTables.LoadUsage | scripts/seed_tables.py:74-80 | the index as first built agrees with the database |
| SeedTables.ChooseTable | scripts/seed_tables.py:91-102 | the index gives a row exactly the table that the online assignment would give it now, or none when that finds none |
| SeedTables.PlaceRow | scripts/seed_tables.py:89-112 | one turn of the loop makes the online assignment on the stored row, or leaves it exactly when that finds none, and the index still agrees |
| SeedTables.BackfillAssignments | scripts/seed_tables.py:67-113 | the batch refines the row-by-row online assignment; assigned and skipped add up to all rows; it raises exactly when there are no tables |
| Crud.TableHasConflict | app/crud.py:230-250 | the loop answers whether some confirmed reservation of the table, other than the excluded one, is less than 2h away |
| Crud.FindAllAvailableTables | app/crud.py:253-281 | the result holds exactly the matching tables without conflict, in strict order of capacity, then id |
| Crud.FindAvailableTable | app/crud.py:284-310 | the first candidate without conflict is the least open table in (capacity, load, id) |
| Crud.ResolveTableFor | app/crud.py:313-342 | the four outcomes for a requested table, in the order they are checked, and automatic assignment otherwise |
| Crud.GenerateUniqueCode | app/crud.py:352-364 | the first drawn code that no reservation has, or failure when all are taken |
| Crud.CreateReservation | app/crud.py:405-436 | the stored reservation and the two messages it sends, or the error and no change at all |
| Crud.ResolvePatch | app/crud.py:513-540 | where a patch puts a reservation, with the fallback when no table was named |
| Crud.UpdateReservation | app/crud.py:497-576 | the patched row, the message if time, size or table was sent, and the new reminder in place of the pending ones if the time was; on an error no change at all |
| Crud.CancelReservation | app/crud.py:579-605 | the soft cancel, its message and the cancelled reminders; a second cancel changes nothing |
| Crud.CreateTableRow | app/crud.py:164-174 | adds the table, or fails for a missing room, a number in use or a capacity out of range, changing nothing |
| Crud.UpdateTableRow | app/crud.py:177-209 | patches the table, or fails for stranded parties, a missing room or a refused value, in this order, changing nothing |
| Crud.StrandedCount | app/crud.py:188-198 | the count of oversized parties is positive exactly when a smaller capacity would strand a confirmed party |
| Crud.DeleteTableRow | app/crud.py:212-225 | deletes the table unless any reservation refers to it |
| Crud.CreateRoomRow | app/crud.py:88-96 | adds the room unless its name is in use |
| Crud.DeleteRoomRow | app/crud.py:117-130 | deletes the room unless a table is in it |
| Ordering.OrderBy | app/notifications/queue.py:109 | the ordered rows are all the rows, in strict order of key and then id |
| Ordering.PrefixIsLowRank | app/notifications/queue.py:109-110 | the first `limit` ordered rows are exactly those with fewer than `limit` rows before them |
| NotificationQueue.EnqueueRow | app/notifications/queue.py:26-65 | one new pending row, or none and no id when the kill switch drops its kind |
| NotificationQueue.CancelPendingRemindersFor | app/notifications/queue.py:68-87 | cancels exactly the pending reminders of the reservation and counts them |
| NotificationQueue.PickDue | app/notifications/queue.py:90-139 | claims exactly the due rows with fewer than `limit` due rows before them in (scheduled_at, id), each once |
| NotificationQueue.MarkRowSent | app/notifications/queue.py:142-151 | marks the row as sent, whatever its status was |
| NotificationQueue.MarkRowFailedOrRetry | app/notifications/queue.py:154-191 | gives up at the cap, otherwise puts the row back with the doubled and capped delay |
| Protocol.CrudStepEffect | app/crud.py:367-386 | a CRUD call leaves every row as it is, drops a pending reminder, or adds pending rows with higher ids, and never touches the worker's batch |
| Protocol.StepMoves | app/notifications/queue.py:68-191 | in every step a row makes one of the moves of the status machine; the unguarded updates only ever move rows in flight |
| Protocol.StepKeepsInv | app/notifications/worker.py:53-79 | every step keeps the allocator's promise, the attempts each status allows, and that all ids in the worker's batch are distinct and in flight |
| Protocol.RunKeepsInv | app/notifications/worker.py:25-50 | so does every run, with any interleaving and crashes |
| Protocol.AllocatorSafety | app/crud.py:177-342 | from an empty database no run puts two confirmed reservations on one table less than 7,200 s apart or seats a party that does not fit |
| Protocol.FinalRowsStay | app/notifications/queue.py:1-6 | sent, failed and cancelled are final: such a row is the same in every later state |
| Protocol.StrandedForever | app/notifications/worker.py:57-79 | a row whose worker died stays in flight for ever and is never handed to the notifier again |
| Protocol.StrandedExactlyByCrash | app/notifications/worker.py:57-79 | a row becomes stranded in a step exactly if the step is a crash of the worker that holds it |
| Protocol.NothingStrandedWithoutCrash | app/notifications/worker.py:57-79 | in a run without crashes no row is ever stranded |
| Protocol.DeliveredAtMostOnce | app/notifications/worker.py:61-78 | over a whole run the notifier returns normally at most once for each row; such a row is sent, about to be marked, or stranded |
| Attempts.AttemptsBounded | app/notifications/queue.py:128-133 | a row is claimed at most max_attempts times over a run; pending means fewer, failed means exactly that many |
| Attempts.ClaimsKeepBackoff | app/notifications/queue.py:179-191 | claims k and k+1 of a row are at least min(60*2^k, 3600) s apart |
| Attempts.TotalBackoffClosedForm | app/notifications/queue.py:179 | the delays add up to 120*(2^n-1) s up to n = 5 and to an hour more for each further one |
| Attempts.FirstToNthTry | app/notifications/queue.py:154-191 | from first to n-th claim of a row pass at least 120*(2^(n-1)-1) s for n <= 6, and 3720 + 3600*(n-6) s beyond |
| Starvation.ClaimTakesTwenty | app/notifications/queue.py:104-133 | a claim that leaves a due row waiting takes twenty of the rows ahead of it |
| Starvation.WaitEndsByClaimOrCancel | app/notifications/queue.py:68-139 | a due row stops waiting only by being claimed or cancelled |
| Starvation.ClaimsUseUpRivals | app/notifications/worker.py:57-79 | while a row waits, 20 times the claims of the run plus the rows still ahead are at most the rows that were ahead or were put ahead by past-dated messages |
| Starvation.NobodyStarves | app/notifications/worker.py:57-79 | a due row with k rows ahead and p put ahead is claimed or cancelled within (k+p) div 20 + 1 claims, whatever interleaves |
| Starvation.NobodyStarvesWithoutPastPosts | app/notifications/worker.py:57-79 | without past-dated messages, within k div 20 + 1 claims: retries and new rows always sort behind |
| Reminders.OneCurrentReminder | app/crud.py:569-575 | in every reachable state a reservation has at most one untried reminder; it is its newest, and set for max(present time - lead, moment of queueing) |
| Reminders.FirstReminderNotEarly | app/crud.py:394-402 | no reminder is first claimed before the lead time of the reservation as it stands then |
| Reminders.CancelSilencesReminders | app/crud.py:600-604 | right after a cancellation no reminder is pending |
| Reminders.RevivedExactlyBy | app/crud.py:561-576 | a reservation without pending reminder gets one again exactly by a successful patch of its time, or by the failure of a reminder in flight with tries left |
| Announcements.OneMessagePerEvent | app/crud.py:367-386 | over any run the number of messages of each kind for a reservation grows by exactly the number of events that call for that kind |
| Announcements.MessagesAreAddressed | app/crud.py:367-402 | every new message about a reservation is one that the event calls for, goes to the phone it then has, and is set for the time of the event or, if a reminder, for max(time - lead, then) |
| Announcements.BookedAndCancelledOnce | app/crud.py:432-435 | every reservation made in a run has exactly one created message, and exactly one cancelled message if and only if it was cancelled in the run |
| Announcements.ConfirmedAreReminded | app/crud.py:569-575 | over any run the newest reminder of every confirmed reservation exists and has not been cancelled, so a reminder for a former time does not stand in for it |
| Guarantees.SeatsSuffice | app/crud.py:188-198 | in every reachable state the parties of any 2h fit the seats there are |
| Guarantees.TablesAreNotPacked | app/crud.py:230-250 | in every reachable state n confirmed reservations of a table span at least (n-1)*2h |
| Guarantees.CodesLast | app/crud.py:352-364 | a reservation is never deleted and keeps its code over any run |
| Guarantees.CodeFindsReservationEverAfter | app/crud.py:451-464 | in every later state a lookup finds the reservation exactly when a variant of the code it once had is typed |
| Guarantees.KillSwitch | app/notifications/queue.py:51-53 | while messages are suppressed only custom messages are ever in the queue |
| Guarantees.SilentUntilRevived | app/crud.py:561-576 | over any run a reservation without pending reminder stays without one exactly if no step patches its time successfully or fails on a reminder of it with tries left |
| Guarantees.SupersededReminders | app/crud.py:569-575 | after a successful patch of the time no earlier reminder of the reservation is pending, and one becomes pending again in a later run exactly if it was in flight at the patch and a failure is recorded for it while it has tries left |
| Guarantees.CancelledYetReminded | app/crud.py:569-575 | a run from an empty database (add a table, book, cancel, patch the time) that ends with a cancelled reservation and a pending reminder for it |
| TwoWorkers.SerialClaimsAreDisjoint | app/notifications/queue.py:90-139 | claims that run one after the other share no row |
| TwoWorkers.InterleavedClaimsOverlap | app/notifications/queue.py:128-133 | claims whose SELECTs both come first are disjoint exactly if nothing was due at the earlier one |
| TwoWorkers.OneRowClaimedTwice | app/notifications/queue.py:128-133 | a concrete queue in which two workers hold the same row and use up two attempts |
| TwoCalls.StaleCreate | app/crud.py:405-427 | a creation that decided on one state and writes to another, whatever was committed in between, keeps the allocator's promise exactly if its table is then still open to its party and its code still new |
| TwoCalls.TwoCreates | app/crud.py:405-427 | two creations that both read before either writes keep the promise exactly if they chose different tables or are 2h apart, and drew different codes |
| TwoCalls.TwoCreatesApart | app/crud.py:230-250 | of the same two, the 2h spacing alone, which no constraint of the database guards, fails exactly if they chose the same table less than 2h apart |
| TickScript.TickOutcome | app/notifications/worker.py:53-79 | whatever calls, outcomes and crash come around a tick: with d rows got through before the worker dies, if it does, these are handed over once, recorded once and settled (sent, failed at the cap, or due again exactly the delay after the clock reading of the record, a reminder possibly cancelled since), all others are stranded as claimed, at most the first of them handed over; a crash is among the steps exactly if d is short of the batch |
| TickScript.PossibleCallsAreMade | app/notifications/worker.py:61-78 | the calls of a script that are possible when their turn comes are all made, in order |
| TickScript.AnswerIsSent | app/notifications/worker.py:60-79 | the number of rows the notifier took is the number of rows of the batch that are sent in the end |
| WorkerTick.Call | app/crud.py:405-605 | the in-place CRUD calls are the steps of the state machine |
| WorkerTick.Meanwhile | app/notifications/worker.py:61-78 | calls of other clients extend the run by exactly those that are possible when their turn comes, in order |
| WorkerTick.Acknowledge | app/notifications/worker.py:66-77 | recording an outcome is one step, on the head of the batch only |
| WorkerTick.DispatchRow | app/notifications/worker.py:61-77 | handing over and recording one row takes exactly the scripted steps, and the worker lives through it exactly if the script says so |
| WorkerTick.DispatchAll | app/notifications/worker.py:60-79 | the loop takes exactly the scripted steps for all rows, and counts those the notifier takes |
| WorkerTick.ProcessBatch | app/notifications/worker.py:53-79 | a tick claims the due rows, ends in exactly the state its script leads to, with the outcome above for every row, and answers the number of claimed rows that are sent in the end, exactly if the worker lives |
| Timestamps.CalendarOrder | app/notifications/queue.py:22-23 | dates and times in calendar order are in the order of their instants, and no two share an instant |
| Timestamps.FractionOrder | app/notifications/queue.py:56-63 | a left-out fraction sorts as zero, because '+' sorts before '.' |
| Timestamps.IsoSpelledOut | app/notifications/queue.py:22-23 | the text of a time without fraction, piece by piece |
| Timestamps.FractionSpelledOut | app/notifications/queue.py:22-23 | a fraction is a dot and six digits before the offset |
| Timestamps.MonthStarts | app/notifications/queue.py:22-23 | the day of the year on which each month begins, in common and leap years |
| Timestamps.TextOrder | app/notifications/queue.py:40-43 | isoformat strings of UTC times compare, byte by byte, as the times do field by field |
| Timestamps.StoredOrder | app/notifications/queue.py:22-23 | for all instants of the years 1 to 9999 the stored strings compare as the instants, and differ if the instants do |
| Timestamps.TextsClaimTheSameRows | app/notifications/queue.py:103-124 | the claim query on strings selects exactly the rows it would select on instants |
| RateLimit.WindowHoldsAtMostLimit | app/middleware.py:119-130 | over any history of hits of all keys, a closed interval of the window's length holds at most `limit` accepted hits of a key |
| RateLimit.KeysAreIndependent | app/middleware.py:117-122 | the hits of other keys make no difference to a key |
| RateLimit.RetryAfterIsExact | app/middleware.py:126-128 | Retry-After is between 1 and window + 1 and is the least whole number of seconds after which a hit is accepted; later hits are accepted too |
| RateLimit.PromiseIsKept | app/middleware.py:119-130 | over any history: a rejected key that keeps quiet is accepted when it was told, whatever other keys do, and not a second sooner |
| RateLimit.RejectionsAgree | app/middleware.py:126-128 | rejected hits never lengthen the wait: successive answers point to the same moment, to the second |
| RateLimit.BucketDecides | app/middleware.py:123-130 | the pruned bucket decides, and answers, as the full log of accepted hits does |
| RateLimit.HitBucket | app/middleware.py:121-130 | pruning and deciding on one bucket accepts and answers as the full log would, and leaves a bucket that stands for the log with the hit |
| RateLimit.SlidingWindow.Hit | app/middleware.py:119-130 | a hit is accepted exactly when fewer than `limit` hits accepted in the whole history so far are in the window, and otherwise told Retry-After of that history |
| Codes.NormalizeFindsVariants | app/codes.py:30-38 | normalising yields a text of code letters from exactly its variants: letter case, the five characters whose upper case is made of code letters, dashes and spaces |
| Codes.UpperIsEnough | app/codes.py:30-38 | whatever the upper case of the characters that do not turn into code letters, normalising yields a code exactly where it does in this model |
| Codes.NormalizeIdempotent | app/codes.py:30-38 | normalising twice is normalising once, whatever that upper case |
| Codes.WellFormedIffVariant | app/codes.py:41-44 | the syntax check accepts exactly the variants of possible codes |
| Codes.SharpSIsTwoLetters | app/codes.py:37-44 | a sharp s counts as two letters S: with four more code letters it is well formed |
| Codes.PrintedIsVariant | app/notifications/templates.py:43-47 | the printed form is one of the variants |
| Codes.PrintedForm | app/notifications/templates.py:43-47 | the printed form is three characters, a dash, three characters |
| Codes.CodesSpelledOut | app/codes.py:3-22 | codes are six capitals or digits, without B, I, L, O, U, V, 0, 1 and 8 |
| Paragraphs.Collapse | scripts/import_resenas.py:109-129 | the three loops compute the joined paragraphs of the lines |
| Paragraphs.LaidParagraphsAreRead | scripts/import_resenas.py:116-128 | paragraphs laid out with any indentation and any number of blank lines between them are read back, line by line |
| Paragraphs.CollapseReadsLaidParagraphs | scripts/import_resenas.py:109-129 | blank lines before, between and after paragraphs leave the collapsed text unchanged |
| Paragraphs.CollapseIsIdempotent | scripts/import_resenas.py:109-129 | collapsing the lines of a collapsed text gives the same text |
| Headings.HeaderOfMatches | scripts/import_resenas.py:39-59 | the heading function yields a name and a number of stars exactly if the heading expression matches with them, in whatever way it matches |
| Headings.CityInMatches | scripts/import_resenas.py:40-65 | the metadata function yields a city exactly if the metadata expression matches with it, the lazy group as short as can be |
| ReviewFile.ReadText | scripts/import_resenas.py:69-92 | the two-mode loop splits the lines under a heading into body, reply and the rest as the grammar of entries says |
| ReviewFile.ReadReview | scripts/import_resenas.py:58-105 | one entry is read with name, city, rating, body and reply, and scanning goes on right behind it |
| ReviewFile.Parse | scripts/import_resenas.py:51-106 | the scanner ends, and yields the entries of the whole file in order |
| ReviewFile.BlockIsRead | scripts/import_resenas.py:53-105 | an entry as it is laid out, with or without metadata, reply and rule, is read as exactly itself, whatever follows |
| ReviewFile.FileIsRead | scripts/import_resenas.py:43-106 | a file of such entries after any preamble is read as exactly those entries |
| ReviewFile.LabelComesOff | scripts/import_resenas.py:96-97 | the label of a reply and the space after it are removed, and no more |
| ReviewFile.WrittenEntriesAreRead | scripts/import_resenas.py:3-14 | round trip on lines: what the documented layout (heading, metadata, blank, body, blank, quoted reply with its label, blank, rule, blank) writes of a list of entries, with any other lines before and after, is read back as their names, cities, ratings, bodies and replies, paragraph by paragraph, whatever the indentation of their lines |
| ReviewFile.FileRoundTrip | scripts/import_resenas.py:43-106 | the same on the text of the file, from its characters through splitlines, both expressions, the scanner and the paragraphs |
| ReviewFile.SampleLines | scripts/import_resenas.py:3-14 | the documented layout of a sample entry, line by line |
| ReviewFile.SamplePublished | scripts/import_resenas.py:94-105 | what is read of the sample |

## Left out

- HTTP routers, token issue and checks, IP allowlist, security headers, body-size cap and audit log: input, output or one branch.
- SQLite itself: uniqueness, foreign keys, checks and never-reused ids are taken as it documents them; schema migrations and the codes given to rows from before codes existed are not modelled.
- Reviews, comments, room texts, `update_room`, and the seed scripts other than the batch assignment: they add only easy members.
- Message bodies, `last_error`, `sent_at`, `created_at` and `updated_at`: nothing depends on them; `Row.queued` keeps the clock reading at which a row is queued.
- Time zones and daylight saving: the model starts from instants, as stored times carry an offset.
- Explicit nulls for party size, time and capacity in a patch: they raise before anything is written.
- Two CRUD calls at once, and failures between the reads and the write of one: its reads run before the write transaction opens (`app/db.py:230-241`), so atomicity of a call, and of a claim, is an assumption of the state machine; `TwoCalls` says when two creations may overlap.
- The route that posts a message checks the reservation in a transaction of its own; reservations are never deleted, so both are one step here.
- Two workers at once: the state machine has one; `TwoWorkers` shows why its theorems would not hold for two.
- The table of upper case letters: `Codes.Upper` has the ASCII letters and the five other characters whose upper case is made of code letters; of the rest `Codes.LikeUpper` says what is assumed.
- Floating-point rounding in the limiter: the model uses real numbers. A limit of 0 would index an empty deque and is not allowed.
- Lines with a line break inside: lines come from `splitlines` and have none, so the end-of-line rules of the two regular expressions for them are not modelled. The decimal digits are those of Unicode 14.
- `Ordering.OrderBy`: how SQLite sorts is not modelled; the method stands for any way that gives the one order there is.
- `list_reservations` and the other listings: they only filter and print.
