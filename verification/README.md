# Appointment engine: model and proofs

This project models the parts of the booking application where several database transactions, workers or scripts
meet on the same rows, and proves what they promise. Verify with `dafny verify dfyconfig.toml`.

| files | what they model |
|---|---|
| `Blocking.dfy`, `Appointments.dfy` | when a row occupies a slot; the rows, the slot guard, the slot constraints, the calendar outbox |
| `ManageSpec.dfy`, `ManageStore.dfy`, `ManageLaws.dfy` | one locked move, service change or reassignment: as a function, as the statements that rewrite the tables, and its laws |
| `ManageProtocol.dfy`, `ManageSafety.dfy`, `ManageTheorems.dfy` | those mutations as interleaving steps (technician keys, row, salon NOWAIT, event, re-read, slot check, write, commit) beside salon-first bookings, settings writes, sweeps, reminder marks, outbox workers, calendar changes and a clock; the invariant; double booking, deadlock, serial history, calendar echoes |
| `ManageEffects.dfy`, `ManageVerdicts.dfy` | what each operation leaves in the row and its lines, exactly when it succeeds, and what its refusals mean, in terms of the old rows and the request alone |
| `ManageRuns.dfy`, `HiddenRevision.dfy` | the converse: every mutation the specification carries out is a run of the machine; runs in which an uncovered commit clashes, and in which a reminder mark hides a revision |
| `Discounts.dfy`, `NextAvailable.dfy` | price and discount over runs of service changes; the nested search for the next slot and where a move to it lands |
| `MergeWalk.dfy` | the two recursive merge-chain queries and the preflight counts |
| `BackfillSpec.dfy`, `Backfill.dfy` | the one-pass linking rule, and the keyset-paged batch loop that must refine it while it shrinks its own filter |
| `ForeignKeys.dfy`, `FixtureReset.dfy` | DELETE under cascade, set-null, restrict and no-action edges; applying and resetting the preview fixture in a transaction |
| `ReminderProtocol.dfy`, `ReminderSafety.dfy`, `ReminderRuns.dfy` | concurrent reminder passes with crashes: claim, validate, dispatch, record, mark, while the appointment moves; what a provider call and a mark presuppose in any run, and what an undisturbed pass does |
| `ManualReminder.dfy` | staff-triggered reminders with the recent-window check and the five-minute bucket |
| `ApprovalSweep.dfy` | the bounded sweep over lapsed approval requests |
| `MigrationRunner.dfy` | migration runners behind the coordinator lock |
| `CivilCalendar.dfy`, `AnalyticsRange.dfy` | civil dates as day numbers; reporting periods and their comparison periods |
| `PaymentLedger.dfy` | the payment ledger, its resolution and its cached total |

Protocols are step machines: a run is any sequence of steps of any number of transactions or workers, so a theorem
about runs covers every interleaving and every crash. Code that rewrites rows in order is a class whose methods are
proved against the functions that the theorems are about.

## What the proofs found

- An administrator may pass an empty technician id to a move or a service change. It survives `??` but fails the
  truthiness test, so the slot guard never runs while the row keeps its technician. What is left are the two slot
  constraints of the database: the unique index on technician and start, which is always there, and the exclusion
  constraint on [start, end), which exists only where btree_gist could be installed. `EmptyTechnicianIsSafeIff` says
  exactly, with and without the latter, which such requests cannot lead to overlapping windows.
- A reassignment checks the window computed from duration and buffer but does not rewrite the stored end or blocked
  minutes. `ReassignIsSafeIff` says exactly for which rows guard and constraint cover what the row occupies.
- With the exclusion constraint no run double-books, whatever it is asked (`NoDoubleBooking`); only buffers can still
  overlap. Without it every operation that is not covered ends some run with a clash, and with a double booking when
  more than its buffer is uncovered (`UncoveredRunClashes`).
- The constraints look at the status alone and keep a request whose deadline has passed, which the guard no longer
  counts, as the comment above `blockingAppointmentCondition` says. `LapsedRequestRefusesIff`: a slot the guard finds
  free is refused exactly when such a request collides with the new row. Until a sweep finalizes it the sweep is
  therefore more than a latency optimization, which is what the comment above `APPROVAL_REQUEST_SWEEP_BATCH` calls it.
- Not active is weaker than failed: a manual reminder whose message was read no longer stops a second one within two
  minutes. `SecondCallNeedsInactiveFirst` is the exact guarantee, `ReadMessageDoesNotBlock` the counterexample.
- A reminder mark stores the instant at which its pass began, which can lie before the row's `updatedAt`; a later
  mutation can then repeat a revision, and the deduplicated outbox learns nothing new (`MarkCanHideRevision`).
  `RevisionsIncreaseIff` is the exact condition, `RepeatNeedsLowering` names the write that must lie in between, and
  `RevisionsIncrease` holds while other writers never lower `updatedAt`.
- A price above its subtotal is not restored when the first service comes back: `ReturnRestoresPriceIff`.
- The move lands on the slot that the search found only when the server's zone and the salon's differ by a multiple of
  the slot interval: `MoveLandsWhereSearchedIff`.
- With 200 rows that fail in every pass, the sweep starves everything behind them (`TwoHundredFailuresStarve`); with
  fewer in each pass it never does, whichever they are (`LapsedRequestIsExpired`, `LapsedRequestIsExpiredWithin`).
- The to-date comparison stays within the previous range exactly in zones that keep local times within their day
  (`ComparisonNeverLeavesPreviousIff`). The two-guess conversion to UTC does not where clocks go forward at midnight
  west of UTC, as in America/Santiago: the last hour of the day before is mapped behind the start of the next day
  (`DayIsKeptIff`).
- Along the attested foreign keys every fixture can be applied; it can be reset exactly when none of its services has a
  parent service (`FixtureOfTheseKeys`).
- The comment above `sumNonVoidedPayments` says the cached total is never incremented. The payment routes do add to and
  subtract from it, and then check the result; the model follows the routes and proves that this gives the recomputed
  sum.

## Assumptions about code and systems outside the model

- The slot guard holds the technician key until commit and refuses unless the window misses every other blocking row of
  the technician. Advisory keys of distinct technicians are distinct (hash collisions are not modelled).
- Enqueuing a calendar intent adds a row with the given version unless an ordinary row with it exists; intents are not
  deleted, and their status moves among the six known values.
- Rows are locked one holder at a time, statements are atomic, and transactions that fail leave nothing behind.
- Every appointment takes some time: it ends after it starts and its duration is positive. Services last at least five
  minutes (`src/app/api/salon/services/route.ts:57-63`) and a move asks for at least fifteen.
- The slot constraints are checked by the UPDATE or INSERT itself, and a refused statement ends its transaction.
- The clock of one run never goes back; the slot guard and the new revision each read it once.
- In the backfill no other writer runs, (created_at, id) is a strict total order that the cursor keeps, and the sequence
  of rows stands for that order.
- The migrator reads its journal before one atomic transaction, and the coordinator session lasts until its own commit
  or rollback.
- The prices, schedule policy, tax snapshot, consent, eligibility and ownership verdicts are parameters: the theorems
  hold whatever they answer.

## Model

| member | source | states |
|---|---|---|
| Blocking.QueryAgreesWithPredicate | src/libs/appointmentBlocking.ts:112-179 | the query form selects a row exactly when the in-memory predicate holds, NULL deadlines and three-valued logic included |
| Blocking.BlockingOnlyLapses | src/libs/appointmentBlocking.ts:89-123 | time alone can only free a slot, and does so at the request's deadline and nowhere else |
| Blocking.WhatBlocks | src/libs/appointmentBlocking.ts:72-123 | closed states never block, confirmed, running and unpaid ones always do, a pending row does strictly before its deadline and forever without one |
| ManageStore.Store.ApplyMove | src/libs/appointmentManage.ts:1303-1375 | the move, statement by statement, leaves the tables the specification computes, with its error cases (ManageEffects.MoveWrites says what those are) |
| ManageStore.Store.ApplyReassign | src/libs/appointmentManage.ts:1384-1418 | the reassignment, likewise |
| ManageStore.Store.ApplyChangeService | src/libs/appointmentManage.ts:1465-1638 | the service change with its row, service and add-on writes, likewise (ManageEffects.ServiceChangeWrites) |
| ManageStore.Store.WithLockedManagedAppointment | src/libs/appointmentManage.ts:901-1058 | the whole locked mutation: result, error and new tables are those of the specification, refusals by the slot constraints and the rollback of rows already written included; errors and idempotent moves leave the rows as they were, and a write happened on exactly what was loaded |
| ManageEffects.MoveWrites | src/libs/appointmentManage.ts:1303-1375 | a committed move leaves the minutes asked for, else the old ones, between 15 and 480, the end and blocked minutes that follow from them, the latest slot start at or before the one asked for, and the named technician, else the old one; lines and every other field stay |
| ManageEffects.MoveSettles | src/libs/appointmentManage.ts:997-1031 | however a move succeeds the row then stands where it was wanted, and nothing is written exactly when it stood there before |
| ManageEffects.ReassignWrites | src/libs/appointmentManage.ts:1384-1418 | a reassignment changes the technician and nothing but revision and calendar flag beside it |
| ManageEffects.ServiceChangeWrites | src/libs/appointmentManage.ts:1465-1638 | after a committed service change there is one service line with the catalog's price and duration, the add-on lines are in order exactly the old ones the service allows, the subtotal is those lines added up with its two parts beside it, the minutes are theirs, and the discount is the one carried over |
| ManageEffects.SubtotalReadingsAgree | src/libs/appointmentManage.ts:507-520 | on such a row the stored subtotal, its stored parts and the lines all read the same subtotal |
| ManageVerdicts.MoveSucceedsIff | src/libs/appointmentManage.ts:901-1058 | a move succeeds exactly when row, fence and permission allow it and either the row stands there already or rows, minutes, tax snapshot, technician, policy, slot and constraints do |
| ManageVerdicts.ReassignSucceedsIff | src/libs/appointmentManage.ts:901-1058 | a reassignment, likewise, in the window of the stored duration and buffer |
| ManageVerdicts.ServiceChangeSucceedsIff | src/libs/appointmentManage.ts:901-1058 | a service change, likewise, in the window of the service and the add-ons it allows |
| ManageVerdicts.RefusalsAreMeant | src/libs/appointmentManage.ts:901-1058 | each error says something true of the tables and the request, and the operation's own errors come only after those of row, fence, version and permission |
| ManageLaws.EnqueueAnnounces | src/libs/integrationOutbox.ts:387-455 | after enqueuing the revision is announced, and nothing but the pending flag of the row changed |
| ManageLaws.MutationIsNotLost | src/libs/appointmentManage.ts:997-1039 | a successful mutation either wrote nothing for an idempotent move, or ran on exactly the loaded rows, strictly raised `updatedAt` and touched nothing else; a stale load is accepted only in the first case |
| ManageEffects.SameVersionIff | src/libs/appointmentManage.ts:874-880 | loaded rows count as current exactly when the appointment is the same and every line occurs as often, in whatever order |
| ManageLaws.MarksFollowStartTime | src/libs/appointmentManage.ts:863-872 | reminder marks are cleared exactly when the start time changes |
| ManageLaws.CoveredOperationKeepsNoClash | src/libs/appointmentManage.ts:845-854 | an operation whose window the guard saw, or on a row that does not block, leaves a table free of clashes from the guard's instant on |
| ManageLaws.OperationIsSafeIff | src/libs/appointmentManage.ts:901-1058 | with and without the exclusion constraint: the locked mutation creates no clash, buffers included, around any table the database can hold exactly when a check refuses it, it asks for what is there, the row does not block, or guard and constraint cover its window |
| ManageLaws.UncoveredOperationClashes | src/libs/appointmentManage.ts:784-795 | otherwise there is a table that satisfies the constraints, on which it commits without violating one and clashes; without the exclusion constraint it double-books when more than its buffer is uncovered |
| ManageLaws.EmptyTechnicianIsSafeIff | src/libs/appointmentManage.ts:784-795 | a move or service change with an empty technician id is safe exactly when it is refused, the row does not block, or the new window starts no earlier and ends no later; with the exclusion constraint it may end later if it starts within or right after the old window and has no buffer |
| ManageLaws.ReassignIsSafeIff | src/libs/appointmentManage.ts:1384-1418 | a reassignment is safe exactly when it is refused, the row does not block or keeps its technician, the stored window lies in the one the guard checks, or the exclusion constraint is there and the row occupies nothing past its end |
| ManageLaws.LapsedRequestRefusesIff | src/libs/appointmentBlocking.ts:136-167 | an operation whose window the guard found free is refused by the slot constraints exactly when a pending request past its deadline, not swept yet, collides with the new row |
| ManageLaws.LapsedRequestRefuses | src/libs/approvalRequestSweeper.ts:35-51 | whatever goes to a new technician can meet such a request: nothing blocks the slot and the answer is APPOINTMENT_CONFLICT |
| ManageSafety.CommitIsOneOperation | src/libs/appointmentManage.ts:1032-1039 | what a transaction publishes at commit is the whole mutation run at once on the current tables |
| ManageSafety.InvHolds | src/libs/appointmentManage.ts:901-1058 | the invariant holds in every state of every run |
| ManageTheorems.NoDoubleBooking | migrations/0066_deposit_hold_awaiting_payment.sql:29-84 | with the exclusion constraint, in every state of every run, no two rows that block now and share a technician overlap, whatever was requested; without it the same in runs whose commits the guard covered; in both cases no two of them start together |
| ManageTheorems.NoClashHolds | src/libs/appointmentManage.ts:775-861 | in every state of every run whose commits were covered, no two windows of a technician overlap, buffers included |
| ManageRuns.MutateIsRun | src/libs/appointmentManage.ts:901-1058 | every mutation the specification carries out on sound tables is a run of the interleaving machine, all lock steps included |
| ManageRuns.BookingRuns | src/libs/bookingConflictGuard.ts:58-100 | every booking into a slot that guard and constraints leave free is a run as well |
| ManageRuns.UncoveredRunClashes | src/libs/appointmentManage.ts:784-795 | every operation that is not covered has a run that it ends with a clash, and with a double booking when there is no exclusion constraint and more than its buffer is uncovered |
| ManageTheorems.OrdinaryRunsAreHarmless | src/libs/appointmentManage.ts:775-861 | those include every run in which no request has an empty technician id and no stored row reaches past its own duration and buffer |
| ManageTheorems.SlotCheckNeverBlocks | src/libs/appointmentManage.ts:845-854 | the slot check's lock request is always granted at once |
| ManageTheorems.NoDeadlock | src/libs/appointmentManage.ts:915-966 | no reachable state has a cycle of waiting transactions, salon-first transactions included |
| ManageTheorems.SerialHistory | src/libs/appointmentManage.ts:997-1039 | every reachable table is the result of running the committed mutations one at a time in commit order, each on exactly what it had loaded |
| ManageTheorems.OldFeedbackIsRefusedEver | src/libs/appointmentManage.ts:313-359 | after a commit, feedback with an older revision is refused in every later state, and with the same revision while its intent is runnable |
| ManageTheorems.FeedbackNeverOverwritesNewer | src/libs/appointmentManage.ts:984-995 | committed feedback is never older than an earlier committed mutation, whatever interleaved |
| ManageTheorems.NewIntentIff | src/libs/integrationOutbox.ts:387-455 | a mutation gets an intent of its own exactly when no ordinary one carries its revision, and always while no intent is ahead of its row |
| ManageTheorems.RevisionsIncreaseIff | src/libs/appointmentManage.ts:882-884 | revisions of an appointment increase over a history exactly when every mutation is ahead of the earlier ones in that sense |
| ManageTheorems.RepeatNeedsLowering | src/libs/appointmentManage.ts:882-884 | a later mutation repeats or undercuts a revision only if a write of another kind put the row below it in between and the mutation's clock had not passed it |
| HiddenRevision.MarkCanHideRevision | src/libs/appointmentReminders.ts:970-976 | a run of the machine with two moves and a reminder mark between them, in which the second move repeats the revision and the outbox stays as it is |
| ManageTheorems.RevisionsIncrease | src/libs/appointmentManage.ts:882-884 | while other writers never lower `updatedAt`, revisions of an appointment strictly increase over the history |
| Discounts.ChangeSplitsSubtotal | src/libs/appointmentManage.ts:507-569 | after a committed service change price and granted discount add up to the subtotal, neither is negative, and the discount is the one before, capped by the subtotal |
| Discounts.OthersKeepPrice | src/libs/appointmentManage.ts:1303-1418 | moves and reassignments change no price |
| Discounts.DiscountIsLeastSubtotal | src/libs/appointmentManage.ts:530-569 | over any run of locked mutations and other writes the granted discount is the least of the first one and every subtotal a service change led to |
| Discounts.ReturnRestoresPriceIff | src/libs/appointmentManage.ts:1497-1507 | coming back to the first subtotal restores the price exactly when there was no surcharge and no subtotal fell below the discount |
| Discounts.FirstVisitForgets | src/libs/appointmentManage.ts:544-555 | under the first-visit discount the price depends on the last subtotal alone |
| NextAvailable.GetAllSlots | src/libs/appointmentManage.ts:364-375 | the nested loops list exactly the visible slots, ascending |
| NextAvailable.SlotsAreEven | src/libs/appointmentManage.ts:364-375 | from eight to twenty o'clock there is a slot every interval and none between |
| NextAvailable.FindNextAvailableStart | src/libs/appointmentManage.ts:1060-1128 | the search returns the earliest accepted slot after the search start, or none only if none is accepted |
| NextAvailable.VisibleHoursAreOrdered | src/libs/appointmentManage.ts:1060-1128 | the search's hypothesis holds in zones whose clocks change overnight |
| NextAvailable.MoveLandsWhereSearchedIff | src/libs/appointmentManage.ts:522-528 | a move to a slot lands on it exactly when the distance then between the server's and the salon's zone is a multiple of the interval, and otherwise less than one interval early |
| MergeWalk.LaterRoundsAreEmpty | scripts/rehearse-client-lifecycle.ts:589-589 | the depth bound ends both recursions |
| MergeWalk.PreflightIsExact | scripts/rehearse-client-lifecycle.ts:556-645 | the four counts are zero if and only if every merged client reaches an unarchived, unmerged client of its salon within 15 hops |
| MergeWalk.TerminalClientIsTheChainEnd | scripts/rehearse-client-lifecycle.ts:169-209 | on any table `terminal_client` is exactly the end of the chain within the depth limit |
| MergeWalk.CleanPreflightGivesTerminals | scripts/rehearse-client-lifecycle.ts:169-209 | with zero counts every client has exactly one terminal, and `terminal_client` is it |
| MergeWalk.CycleIsCounted | scripts/rehearse-client-lifecycle.ts:630-630 | a cycle of any length makes a count nonzero |
| BackfillSpec.MapKeyIsInjective | scripts/backfill-appointment-salon-client-id.ts:417-420 | the lookup key names one salon and phone, whatever the salon id contains |
| BackfillSpec.TenDigitsNormalize | scripts/backfill-appointment-salon-client-id.ts:138-153 | ten digits normalize to themselves, with or without the country code |
| BackfillSpec.FormattingIsIgnored | scripts/backfill-appointment-salon-client-id.ts:138-153 | a character that is no digit changes nothing wherever it stands |
| BackfillSpec.OtherNumbersAreRefused | scripts/backfill-appointment-salon-client-id.ts:138-153 | any other number of digits, or eleven without the country code, is no phone |
| BackfillSpec.PassLinksHisClient | scripts/backfill-appointment-salon-client-id.ts:353-486 | row by row: a linked row stays, an unlinked one gets exactly the client of lowest id in its salon with the number its phone reads, and nothing else of it changes |
| BackfillSpec.SameNumberLinkedAlike | scripts/backfill-appointment-salon-client-id.ts:138-153 | rows whose phones differ in formatting or country code only are linked alike |
| BackfillSpec.UnmatchedMeans | scripts/backfill-appointment-salon-client-id.ts:353-423 | each reported reason holds exactly when there is no phone, no number in it, or no client with the number |
| BackfillSpec.LowestClientIsLowest | scripts/backfill-appointment-salon-client-id.ts:406-415 | the chosen client has the salon and phone and the lowest id, and is absent only when none matches |
| BackfillSpec.SelectedSkipsBehind | scripts/backfill-appointment-salon-client-id.ts:318-340 | past the cursor exactly the still unlinked rows ahead are selected, whatever was written behind it |
| BackfillSpec.SecondPassLinksNothing | scripts/backfill-appointment-salon-client-id.ts:309-499 | every row a second pass visits is unmatched |
| BackfillSpec.RerunCompletesPartialPass | scripts/backfill-appointment-salon-client-id.ts:488-495 | running again after a failed batch gives what one full run would have given |
| BackfillSpec.RemainingRowsAreReported | scripts/backfill-appointment-salon-client-id.ts:509-519 | the rows still unlinked afterwards are exactly the reported unmatched ones, in order |
| Backfill.Prepare | scripts/backfill-appointment-salon-client-id.ts:353-423 | the batch's decision about each row is the rule's |
| Backfill.Script.LinkBatch | scripts/backfill-appointment-salon-client-id.ts:430-486 | a batch links exactly its rows and keeps processed = updated + unmatched |
| Backfill.Script.Run | scripts/backfill-appointment-salon-client-id.ts:289-499 | the loop terminates, visits each initially unlinked row once, ends in the one-pass state with matching counters, writes nothing in a dry run, and stops on a prefix of the pass when a batch fails |
| ForeignKeys.ClosureIsLeast | scripts/preview-service-image-fixtures.ts:301-302 | the cascade set is the least one closed under cascading edges |
| ForeignKeys.ClosureCascades | scripts/preview-service-image-fixtures.ts:301-302 | what goes beside the given rows refers by a cascading edge to something that goes |
| ForeignKeys.DeleteEffect | scripts/preview-service-image-fixtures.ts:292-302 | a DELETE is refused exactly by a restricting reference or a kept reference without action; else it takes the closure and of the kept rows drops exactly the set-null references to it |
| ForeignKeys.DeleteKeepsWellFormed | scripts/preview-service-image-fixtures.ts:292-300 | a successful DELETE leaves no dangling reference |
| ForeignKeys.DeleteIsExactIff | scripts/preview-service-image-fixtures.ts:292-300 | a DELETE removes exactly its rows and alters no other if and only if no outside row refers to them and no restrict edge joins them |
| FixtureReset.ChecksAreClear | scripts/preview-service-image-fixtures.ts:445-477 | the three reference checks, each after the earlier deletions, amount to: nothing outside refers to the fixture and its rows are layered |
| FixtureReset.FixtureOfTheseKeys | scripts/preview-service-image-fixtures.ts:252-264 | a fixture along the attested keys can be applied to any database, and reset exactly when none of its services has a parent service |
| FixtureReset.ApplySetsListedColumns | scripts/preview-service-image-fixtures.ts:245-264 | apply sets exactly the listed columns of the fixture rows, keeps their other columns and all other rows, and is idempotent |
| FixtureReset.Script.ApplyFixture | scripts/preview-service-image-fixtures.ts:252-264 | apply succeeds exactly when every reference is found by its upsert, and lays the fixture over the database |
| FixtureReset.Script.AssertNoIncomingReferences | scripts/preview-service-image-fixtures.ts:445-463 | passes exactly when no row of a child table refers to a fixture row of the requested tables |
| FixtureReset.Script.ResetFixture | scripts/preview-service-image-fixtures.ts:464-477 | reset succeeds exactly when the fixture is clear, removes exactly the fixture rows and alters no other |
| FixtureReset.Script.WithTransaction | scripts/preview-service-image-fixtures.ts:493-519 | any failure restores the database; a commit happens exactly when attestation, operation and verification all pass |
| FixtureReset.Script.ApplyThenReset | scripts/preview-service-image-fixtures.ts:535-552 | apply and then reset on a database without fixture rows: the reset commits exactly when the fixture is layered, and every row is as before |
| ReminderProtocol.ReminderStore.ClaimReminderSmsDelivery | src/libs/appointmentReminders.ts:467-538 | insert, take-over or refusal, and the same as the worker's uninterrupted claim steps |
| ReminderProtocol.ReminderStore.FinishReminderSmsDelivery | src/libs/appointmentReminders.ts:585-601 | the update of the row is the step a worker takes to record its outcome, or to let go when superseded |
| ReminderProtocol.ReminderStore.MarkReminderSent | src/libs/appointmentReminders.ts:961-1012 | the update of the appointment is the step a worker takes to mark it |
| ReminderSafety.StepKeeps | src/libs/appointmentReminders.ts:603-736 | every step of every worker, a crash, a move or a status change keeps the invariant |
| ReminderRuns.DispatchIsWanted | src/libs/appointmentReminders.ts:603-736 | in every run, whoever calls a provider has claimed the delivery and afterwards seen the appointment eligible, at the start the message names, unmarked and due |
| ReminderRuns.MarkIsWanted | src/libs/appointmentReminders.ts:961-1012 | in every run a mark is set only on an eligible, unmarked appointment at that start |
| ReminderRuns.WorkWasWanted | src/libs/appointmentReminders.ts:603-736 | whatever a worker is at, it took up from an eligible appointment that started then and had no mark of the kind |
| ReminderRuns.LonePassReminds | src/libs/appointmentReminders.ts:603-736 | an undisturbed worker with claimable messages sends the email and, where possible, the SMS, records both answers, and marks the channel that took its message, the email first |
| ReminderRuns.TurnLetsGo | src/libs/appointmentReminders.ts:691-705 | a message no longer wanted or due is not sent: its row fails for good |
| ReminderRuns.TurnReads | src/libs/appointmentReminders.ts:467-538 | a message whose row may not be taken over is not sent, and one already sent counts as sent |
| ReminderSafety.SecondDispatchNeedsRecordedFailure | src/libs/appointmentReminders.ts:671-731 | a second provider call for a message comes only after the first was recorded failed and retryable, which rules out acceptance, lost answers of emails, and any SMS whose attempt row does not say transient error or no sender |
| ReminderSafety.AtMostOneAccepted | src/libs/appointmentReminders.ts:467-538 | per appointment, kind, start time and channel at most one message is ever accepted |
| ReminderSafety.SecondTakenMessageNeedsError | src/libs/SMS.ts:548-573 | a message is taken by the provider twice only when it took the first and yet answered with an error, or an SMS lost both its answer and its attempt row |
| ReminderSafety.MarkBelongsToCurrentStart | src/libs/appointmentReminders.ts:961-1012 | a sent mark belongs to the current start time and names a channel that took that very message |
| ReminderSafety.OneMarkPerStart | src/libs/appointmentReminders.ts:961-1012 | between two marks of a kind the appointment moved |
| ManualReminder.OneCallPerBucket | src/libs/SMS.ts:343-404 | at most one unforced provider call per appointment and five-minute bucket |
| ManualReminder.FewCallsInWindow | src/libs/SMS.ts:257-258 | at most ceil(L / 5 min) + 1 unforced calls are requested in any window of length L |
| ManualReminder.LoneRequest | src/libs/SMS.ts:312-404 | an uninterrupted request calls exactly when its bucket is free and no active delivery is recent, and else changes nothing |
| ManualReminder.LoneResend | src/libs/SMS.ts:343-404 | an uninterrupted forced request always calls |
| ManualReminder.SecondCallNeedsInactiveFirst | src/libs/SMS.ts:312-341 | a second lone call within two minutes finds the first delivery no longer active, hence failed exactly unless it was read or is still scheduled |
| ManualReminder.ReadMessageDoesNotBlock | src/libs/SMS.ts:326-332 | a message that was read is not active, and a second call one minute later goes out |
| ManualReminder.DeliveryStore.SendSmartAppointmentReminder | src/libs/SMS.ts:267-465 | the function, statement by statement: each of its four answers exactly when it is due, with the rows and calls of each |
| ApprovalSweep.Sweeper.ExpireApprovalRequest | src/libs/expireApprovalRequest.ts:88-180 | one request is finalized with one notice, or left alone with the reason |
| ApprovalSweep.TransitionIsFinal | src/libs/expireApprovalRequest.ts:88-180 | exactly a lapsed request is transitioned; it ends cancelled, its deadline and all other rows stay, and a later call at any instant finds it expired and changes nothing |
| ApprovalSweep.LapsedIffNotBlocking | src/libs/appointmentBlocking.ts:89-105 | an open request has lapsed, for the sweep, exactly when it no longer blocks its slot |
| ApprovalSweep.SweepOnlyCancelsLapsed | src/libs/approvalRequestSweeper.ts:71-94 | whatever interleaves, each transaction of a pass cancels its own candidate if that has lapsed, and alters nothing else |
| ApprovalSweep.Sweeper.SweepExpiredApprovalRequests | src/libs/approvalRequestSweeper.ts:58-97 | whatever other transactions do between candidates, the pass leaves what its transactions one by one leave, its counters account for every candidate, and exactly the expired ones get a notice |
| ApprovalSweep.QuietSweep | src/libs/approvalRequestSweeper.ts:71-94 | undisturbed, it finalizes exactly the batch's rows that do not throw |
| ApprovalSweep.QuietResults | src/libs/approvalRequestSweeper.ts:71-94 | undisturbed, every candidate is counted expired or skipped, the skipped ones being those that throw |
| ApprovalSweep.SweepKeepsBlocking | src/libs/approvalRequestSweeper.ts:49-56 | from its instant on, no transaction of a sweep changes any row's blocking |
| ApprovalSweep.SweepMayUnblockEarlierOnly | src/libs/approvalRequestSweeper.ts:49-56 | an undisturbed sweep changes blocking exactly at instants before the deadline of a row it finalized |
| ApprovalSweep.SweepIsPass | src/libs/approvalRequestSweeper.ts:58-110 | the sweep, with other transactions in between, is a pass of the fairness argument |
| ApprovalSweep.LapsedRequestIsExpired | src/libs/approvalRequestSweeper.ts:58-110 | a lapsed request is gone once the passes have taken more rows than were ahead of it, a pass taking 200 less the rows that fail in it; the failing rows may differ from pass to pass, and new requests may lapse |
| ApprovalSweep.LapsedRequestIsExpiredWithin | src/libs/approvalRequestSweeper.ts:58-110 | with at most F < 200 failures in each pass, a request that does not fail itself is gone after a number of passes fixed at the start |
| ApprovalSweep.TwoHundredFailuresStarve | src/libs/approvalRequestSweeper.ts:25-38 | with 200 failing rows a pass can repeat forever and starve a request |
| MigrationRunner.StaleApplyDuplicatesIff | scripts/migrate-client-lifecycle.ts:260-264 | applying from any journal read duplicates 0062 exactly when the ledger has it and the read is older |
| MigrationRunner.NoMigrationRecordedTwice | scripts/migrate-client-lifecycle.ts:229-293 | with any runners, failures and retries no migration is recorded twice |
| MigrationRunner.SuccessMeansExactRow | scripts/migrate-client-lifecycle.ts:192-227 | after a success the ledger has exactly one 0062 row, with the exact hash, in every later state |
| MigrationRunner.ChecksMean | scripts/migrate-client-lifecycle.ts:150-227 | the checks pass exactly when 0061 is recorded once with its hash and 19 objects, or not at all and without any, and 0062 is recorded once with its hash and one ready row |
| MigrationRunner.AttemptsFollowRetries | src/libs/clientLifecycleMigrationRetry.ts:51-79 | another attempt follows only a retryable error of one of the first two; any other error ends the runner |
| MigrationRunner.ApplyPassesChecks | scripts/migrate-client-lifecycle.ts:192-227 | on a database whose ledger ends before 0062, with 0061 done or still to come from the history, the migrator leaves one that passes both checks |
| MigrationRunner.ReapplyIsIdle | scripts/migrate-client-lifecycle.ts:260-264 | where the ledger has reached the end of the history, applying again changes nothing |
| MigrationRunner.LoneRunnerSucceedsIff | scripts/migrate-client-lifecycle.ts:229-293 | an undisturbed runner succeeds at its first attempt exactly when the checks pass before and after |
| MigrationRunner.Session.RunMigrationAttempt | scripts/migrate-client-lifecycle.ts:229-293 | the coordinator transaction is closed on every exit, success means both checks passed, and without a fault the attempt succeeds exactly when they pass, as they do on every prepared database |
| MigrationRunner.Session.RunWithRetry | src/libs/clientLifecycleMigrationRetry.ts:51-79 | at most three attempts, each but the last ended by a retryable error, and a final error is not retryable or the third; without a fault the first decides |
| CivilCalendar.DayFromYearIsFormula | src/libs/analyticsDateRange.ts:26-41 | counting years one by one gives ECMAScript's closed form, before and after 1970 |
| CivilCalendar.DayOfCivilOf | src/libs/analyticsDateRange.ts:26-37 | every day has a valid date that leads back to it |
| CivilCalendar.CivilOfDayOf | src/libs/analyticsDateRange.ts:26-37 | every valid date is the date of its day |
| CivilCalendar.DaysInMonthIsLength | src/libs/analyticsDateRange.ts:88-90 | the day-zero trick gives the length of any month, leap Februaries included |
| AnalyticsRange.OwnRange | src/libs/analyticsDateRange.ts:134-186 | every day is in its own range, for every period |
| AnalyticsRange.SameRange | src/libs/analyticsDateRange.ts:134-186 | every day of a range has that range: two ranges are equal or disjoint |
| AnalyticsRange.PreviousIsRange | src/libs/analyticsDateRange.ts:134-186 | the previous range is the range of the day before and ends where the current one starts |
| AnalyticsRange.WeekStartsOnMonday | src/libs/analyticsDateRange.ts:148-157 | weeks start on Mondays |
| AnalyticsRange.DayIsKeptIff | src/libs/timeZone.ts:42-56 | the two-guess conversion keeps the local times of a day within it exactly when clocks do not go forward further than the switch is from either midnight, and keeps midnights in order unless a day is skipped |
| AnalyticsRange.InstantRangesPartition | src/libs/analyticsDateRange.ts:179-186 | in zones whose midnights are in order, the ranges of two days as intervals of instants are equal or do not overlap |
| AnalyticsRange.InstantInOwnRange | src/libs/analyticsDateRange.ts:179-186 | every local time of a day is an instant of the day's range, and every one of the day before the range an instant of the previous range |
| AnalyticsRange.ComparisonStaysInPrevious | src/libs/analyticsDateRange.ts:92-115 | the comparison day lies in the previous range |
| AnalyticsRange.MonthlyComparisonKeepsPosition | src/libs/analyticsDateRange.ts:97-103 | a monthly comparison keeps its offset, or clips exactly when the day does not exist there |
| AnalyticsRange.YearlyComparison | src/libs/analyticsDateRange.ts:104-108 | a yearly comparison is the same date a year before, 28 February for 29 February |
| AnalyticsRange.ComparisonNeverLeavesPreviousIff | src/libs/analyticsDateRange.ts:197-234 | the period runs from the current range's start to now and the comparison stays within the previous range, for every period, anchor and time of day, exactly in zones that keep local times within their day |
| PaymentLedger.ResolveAppointmentPaymentLedger | src/libs/appointmentPaymentLedger.ts:59-143 | the resolution is the specified verdict on every input |
| PaymentLedger.RowsResolveIff | src/libs/appointmentPaymentLedger.ts:59-143 | with rows the ledger resolves, to their live sum, exactly when the records are sound and the cached total is absent or that sum |
| PaymentLedger.NoRowsResolveIff | src/libs/appointmentPaymentLedger.ts:105-126 | without rows each of the three resolved states, and each way of being blocked, has exactly its condition |
| PaymentLedger.VerdictIgnoresOrder | src/libs/appointmentPaymentLedger.ts:59-143 | the verdict depends only on the multiset of rows |
| PaymentLedger.RunResolvesIffSafe | src/libs/appointmentPaymentLedger.ts:128-143 | after any run of payments and voids the rewritten cache resolves to exactly the sum while it is a safe integer, and is blocked otherwise |
| PaymentLedger.Tender.SumNonVoidedPayments | src/libs/appointmentCheckoutServer.ts:61-83 | the sum of the non-voided rows |
| PaymentLedger.Tender.RecordPayment | src/app/api/appointments/[id]/payments/route.ts:233-325 | adding to the cache equals recomputing; the route's own check fails exactly when the new sum is not a safe integer |
| PaymentLedger.Tender.VoidPayment | src/app/api/appointments/[id]/payments/[paymentId]/void/route.ts:118-213 | subtracting from the cache equals recomputing, and the route's own check never fails |

## Left out

- ManageTheorems.NoDoubleBooking: without the exclusion constraint it holds for runs whose commits the slot guard
  covered, because any other commit can end a run with a double booking (ManageRuns.UncoveredRunClashes);
  ManageTheorems.OrdinaryRunsAreHarmless gives the runs that need no such care.
- ManageTheorems.NoClashHolds: takes the same premise with and without the constraint, because the constraint does not
  see buffers.
- ManageTheorems.RevisionsIncrease: holds for histories in which other writers never lower `updatedAt`, because a
  reminder mark may (ManageTheorems.RevisionsIncreaseIff is exact).
- ManualReminder.SecondCallNeedsInactiveFirst: says no longer active, not failed, because a read or scheduled message is
  neither (ManualReminder.ReadMessageDoesNotBlock).
- NextAvailable.MoveLandsWhereSearchedIff: takes the distance in force on the day and the server's at that instant; a
  change of the server's clocks between the slot and the hour it is rounded within is not modelled.
- ReminderSafety.SecondTakenMessageNeedsError: the attempt row of another worker, read when one's own could not be
  written, stands for any row.
- Server components, hooks, styling, e-mail and SMS wording, provider clients, logging: no behaviour that rows depend on. A provider call is a step with an outcome.
- Other writers of appointments (customer reschedule, completion, deposits): they appear only as steps that release a slot, touch a row's marks or insert a guarded booking.
- Other database constraints than the two on slots, and the error that PostgreSQL raises for a range whose end lies
  before its start.
- AnalyticsRange.DayIsKeptIff: one clock change within the days around, and none that takes a zone from west to east of
  UTC (a skipped day at the date line), because the conversion then switches back and forth.
- Several salons: rows of one salon are modelled; technician identifiers stand for the salon's keys.
- Identifiers are natural numbers where only equality and a fixed order matter; capability links, notes and labels are not modelled.
- The text form of date keys, years before 100 and after 9999, and the time-zone database: dates are civil dates, zones are maps from local to UTC time with the order they need stated.
- Unique columns other than the key in the fixture upserts, SET DEFAULT edges, and composite foreign keys column by column: a reference names a whole row.
- The ownership and schema attestations of the fixture script, and the state comparison after apply: their verdicts are parameters.
- The duplicate-client check and the advisory lock of the backfill: the rule is proved for tables with duplicates too.
- The counters of a reminder pass, the order in which it visits appointments, and the contact lookup: passes are workers of the step machine.
- The shared-sender reminder lane, orphaned intents and e-mail retries of the reminder pass: only the connected-sender path with both channels is modelled, and the due windows are a parameter.
- The order in which waiting lock requests are granted, lock time-outs and retries of manage mutations: a waiting transaction may also abort.
- The measurements and synthetic writes of the rehearsal script, and its other preflight counts.
- The deposit and tax resolvers of the payment routes: whether they allow the payment is a parameter.
