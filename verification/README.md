# Verification model of the Dijital workplace services

Five parts of the repository carry state machines, arithmetic or promises about
whole runs. This project models them in Dafny and proves those promises, or
proves exactly when they hold where the code and its documentation disagree.

* **Birthday detection** (`Calendar`, `References`, `OrderStore`, `Detection`,
  `Backfill`, `Schedules`). Gregorian day counting and the next-birthday rule;
  printing and parsing of order references; the tables as a committed state and
  a working copy with commit, rollback and a savepoint insert under two unique
  constraints; one employee's transaction with a fault at any point; the daily
  scan with its counters; the reference backfill with its live set; and any
  interleaving of all these with manual creation, deletion and status changes.
  `Placement` says what an order that a scan creates records of the employee, the
  supplier and the day; `Handover` shows that it is the state the lifecycle starts from.
* **Order lifecycle** (`OrderStatuses`, `Lifecycle`, `LifecycleRuns`,
  `LifecycleEffects`, `LifecycleCommits`, `LifecycleService`). The transition table, the email send with its success and
  failure branches, the verify-then-release decision, holds, the supplier portal
  and auto-completion. `LifecycleService.BirthdayOrder` is the order row with its
  fields and two append-only logs, plus the row as last committed; each request
  method is proved against the request function in `Lifecycle`, which says both what
  the request leaves and what the database keeps when it raises, and keeps the
  invariant that the run theorems rest on. `LifecycleEffects` says what each request does
  and how each status is entered; `LifecycleCommits` says which states a request commits on
  its way, and what is left when it dies between two of them.
* **Fixed-window rate limiter** (`RateLimit`). The limiter as a class, its sweep,
  and a bound over every history of calls.
* **Client scope across two services** (`Authorization`, `TalentScope`,
  `Administration`, `Provisioning`). Direct and group grants become claims, claims become a local
  scope, the scope becomes a row filter; and the administrator's writes that
  create the grants, composed with what they let a user see.
* **Recruitment reconciliation** (`Recruitment`, `RecruitmentRuns`,
  `RecruitmentFacts`). Upsert loops
  over a feed inside a sync run that keeps the last good data when it fails.

Where the source updates things in place, a class or a loop with invariants is
proved equal to a function of its inputs or of the old state, and the properties
are proved about that function. Where the source only computes, there is only
the function.

## What the proofs found

* **The window of exactly-once detection is a year, the last birthday excluded.** A
  day is heading for an occurrence exactly when it is 0 to 365 days ahead and, at
  365, today is not itself the birthday (`Calendar.SeesWithinTheYear`,
  `Calendar.TheWindowCannotBeLonger`).
* **A lost commit is tallied twice.** An employee who is due and whose closing
  commit fails is counted as created or existing and as an error as well; the
  balance of a scan holds exactly when no due employee's commit fails
  (`Detection.BalanceIffNoCommitIsLost`, with a failing scan in
  `Detection.LostCommitIsTalliedTwice`).
* **The backfill is not idempotent on every table.** On a table that respects both
  unique constraints a second run can correct a row that the first skipped as a
  collision (`Backfill.SecondRunCanCorrect`). It corrects nothing exactly when no
  row asks for a reference that the first run leaves free, which the table before
  the run decides (`Backfill.SecondRunCorrectsNothingIff`). On every
  database the services can reach it corrects nothing
  (`Backfill.SecondRunCorrectsNothing` with `Schedules.EveryRunIsSound`).
* **A send commits twice.** When the second commit fails, the communication, the
  retry count, the status and released_at stay and only the EMAIL_SENT or
  EMAIL_FAILED event is missing; over every run the accounts are short of exactly
  the events so lost (`LifecycleCommits.CutRunAccounting`,
  `LifecycleCommits.SentWithoutItsEvent`).
* **Reprinting a parsed reference is exact except for a final newline**, which
  the pattern's `$` lets through (`References.ReprintIsExactWithoutNewline`).
* **CHANGE_REQUESTED is a dead end**: the table has an edge back to
  SENT_TO_SUPPLIER, but no request takes it
  (`LifecycleRuns.ChangeRequestedCanOnlyBeCancelled`).
* **A resend never works from SENT_TO_SUPPLIER**, although its documentation
  offers it there (`LifecycleRuns.ResendWorksExactlyFromSendable`).
* **Verification can raise after the VERIFIED mark is committed**, from exactly
  the statuses `LifecycleRuns.VerifyRaisesIff` lists.
* **The limiter's bound is 2n - 1, and it is reached**, per key and overall
  (`RateLimit.RateIsBounded`, `RateLimit.KeyBoundIsReached`,
  `RateLimit.OverallBoundIsReached`).
* **Granted rows can be hidden in one case only**: the whole scope is one public
  id that two local clients share (`TalentScope.SeesAllThatIsGrantedIff`, a case in
  `TalentScope.SharedIdHidesAClient`).
* **Adding a grant never narrows access, but adding a scope row can**: exactly when
  it is the first row of a contributing assignment, is not ALL_CLIENTS, and no other
  contributing grant is unrestricted (`TalentScope.ScopeRowNarrowsIff` and its
  companions).
* **An empty client list reads back as unrestricted**
  (`Administration.ScopeReadsBack`).

## Model

| member | source | states |
|---|---|---|
| Calendar.FirstDayIsOne | apps/birthday-api/app/services/detection_service.py:45 | Day numbers start at 1 on 1 January of year 1. |
| Calendar.OrdinalCountsDays | apps/birthday-api/app/services/detection_service.py:45 | The day number behind date subtraction grows by exactly one from each calendar day to the next, across months, years and leap years. |
| Calendar.OrderAgreesWithDayCount | apps/birthday-api/app/services/detection_service.py:42-45 | Comparing dates by year, month and day is comparing their day numbers, in both directions. |
| Calendar.OncePerYear | apps/birthday-api/app/services/detection_service.py:37-40 | A birthday, 29 February included, is observed at most once in a year, on the date the inner function computes for that year. |
| Calendar.YearlyGap | apps/birthday-api/app/services/detection_service.py:37-45 | Consecutive occurrences of a birthday are 365 or 366 days apart. |
| Calendar.NextOccurrenceIsLeast | apps/birthday-api/app/services/detection_service.py:28-45 | The result is the least occurrence on or after today, and it raises exactly when the calendar holds none. |
| Calendar.DaysRemainingInRange | apps/birthday-api/app/services/detection_service.py:28-60 | 0 <= days_remaining <= 365 for every day and birthday. |
| Calendar.SeesExactlyTheNext | apps/birthday-api/app/services/detection_service.py:28-45 | A day is heading for occurrence o exactly when o has not passed and no other occurrence lies between. |
| Calendar.SeesWithinTheYear | apps/birthday-api/app/services/detection_service.py:28-60 | The same as a day count: exactly when o is 0 to 365 days away, and not 365 days away on a birthday. |
| Calendar.EveryDayInTheWindowSeesIt | apps/birthday-api/app/services/detection_service.py:28-60 | Each of the 364 days before an occurrence, and the day itself, is heading for that occurrence. |
| Calendar.TheWindowCannotBeLonger | apps/birthday-api/app/services/detection_service.py:28-60 | At 365 days the previous claim fails: a concrete day and birthday. |
| References.DecodePrinted | apps/birthday-api/app/services/order_sequence_service.py:29-33 | Token, year and number can be read back from every printed reference, however long the number. |
| References.PrintIsInjective | apps/birthday-api/app/services/order_sequence_service.py:29-33 | Two printed references are equal exactly when all three parts are, past 99999 too. |
| References.ParsePrinted | apps/birthday-api/scripts/backfill_order_references.py:48-95 | The backfill's pattern reads a printed reference exactly when the token is a non-empty single line, the year has four digits and the number at most five, and then it reads the printed parts. |
| References.ReprintParsed | apps/birthday-api/scripts/backfill_order_references.py:48-95 | The parsed groups put together are the original string, up to a final newline. |
| References.ReprintIsExactWithoutNewline | apps/birthday-api/scripts/backfill_order_references.py:48-95 | Reprinting is exact if and only if the string has no final newline. |
| References.AFinalNewlineIsParsed | apps/birthday-api/scripts/backfill_order_references.py:48-95 | A string with a final newline that the pattern reads and reprinting does not give back. |
| OrderStore.Session.NextSeqForYear | apps/birthday-api/app/services/order_sequence_service.py:36-59 | Hands out the year's next number, starting at 1, and advances only that year's counter. |
| OrderStore.Session.NextOrderReference | apps/birthday-api/app/services/order_sequence_service.py:29-33 | Prints the number it drew. |
| OrderStore.Session.CreateOrGetOrder | apps/birthday-api/app/services/order_service.py:29-116 | The savepoint insert: on a conflict the working copy is as before and the existing row of the key comes back, or the error is re-raised when there is none. |
| OrderStore.Session.WriteEvents | apps/birthday-api/app/services/order_service.py:119-138 | A new order gets its DETECTED event, and one more when it starts on hold or needing attention. |
| OrderStore.ClashMeansViolation | apps/birthday-api/app/models/birthday_order.py:34-39 | The unique constraints refuse a row exactly when it shares a key or a reference. |
| OrderStore.SoundImpliesConstraints | apps/birthday-api/app/models/birthday_order.py:34-39 | Distinct (year, number) pairs below the counters make all references distinct. |
| OrderStore.NumbersStartAtOne | apps/birthday-api/app/services/order_sequence_service.py:36-59 | Every year's numbers start at 1. |
| OrderStore.DrawnReferenceIsFresh | apps/birthday-api/app/services/order_sequence_service.py:29-59 | The reference about to be printed is on no existing order, whatever its token. |
| OrderStore.PlaceOrderIsIdempotentAndSafe | apps/birthday-api/app/services/order_service.py:29-138 | Drawing a reference and inserting never re-raises on a sound database; a new row appears exactly when the employee had none for the year, otherwise the old one is returned untouched; one number of that year is spent and no other year's. |
| OrderStore.MatchingCounts | apps/birthday-api/app/models/birthday_order.py:34-39 | Under the constraints an employee has at most one order a year. |
| Detection.LookbackExcludesNobody | apps/birthday-api/app/services/detection_service.py:56-60 | With a non-negative lookback the window test is only about the lookahead. |
| Detection.ProcessEmployee | apps/birthday-api/app/services/detection_service.py:181-299 | One pass of the loop body, with its exception handler and a fault at the mapping, the lookups, after the reference, after the insert or at the commit: the committed tables and the outcome are those of the transaction function, and nothing is left uncommitted. |
| Detection.RunDailyScan | apps/birthday-api/app/services/detection_service.py:133-309 | The loop's tables and six counters are those of the roster folded employee by employee; an unavailable directory defers, any other fetch error raises, both with the tables untouched. |
| Detection.AttemptIsAllOrNothing | apps/birthday-api/app/services/detection_service.py:174-299 | A transaction commits exactly one placement, for the next occurrence, or leaves orders, events and counters as last committed; it commits exactly when the employee is due and no fault strikes. |
| Detection.GateReasons | apps/birthday-api/app/services/eligibility_service.py:30-57 | Which reason the gate gives for whom: inactive, not yet hired, no hire date, or employment ended before the birthday. |
| Detection.ScanConservation | apps/birthday-api/app/services/detection_service.py:174-309 | Every scanned employee is tallied once, except that a lost commit is tallied twice; the order table grows by the orders created less those whose commit was lost. |
| Detection.BalanceIffNoCommitIsLost | apps/birthday-api/app/services/detection_service.py:181-309 | The plain balance of the counters, with the employees out of window counted from the roster, holds if and only if no employee who is due meets a failing commit. |
| Detection.CensusFromInputs | apps/birthday-api/app/services/detection_service.py:181-299 | How many employees fall out of the window, and whether any commit is lost, follow from roster, day and faults alone, whatever the tables hold. |
| Detection.TalliesFromInputs | apps/birthday-api/app/services/detection_service.py:181-309 | The skipped, the odd ones among them, and the error list with its ids in order, follow from roster, day and faults alone; with the balance that leaves each counter one value. |
| Detection.LostCommitIsTalliedTwice | apps/birthday-api/app/services/detection_service.py:288-299 | One due employee whose commit fails: scanned once, created once, an error once, and no order in the table. |
| Detection.SomeoneIsDue | apps/birthday-api/app/services/detection_service.py:184-240 | An employee and a day for which a transaction reaches the insert. |
| Placement.StartingStatus | apps/birthday-api/app/services/detection_service.py:102-130 | The starting status and exception reason of every order a scan creates, exactly: to be verified when email, supplier and cake are settled and there is time, on hold when only time is lacking, otherwise in need of attention for the first fact missing. |
| Placement.DefaultCakeIs | apps/birthday-api/app/services/detection_service.py:82-99 | The default cake is the only active default, or else the only active item; the cake is settled when there is one or nothing to choose from. |
| Placement.CreatedOrderCake | apps/birthday-api/app/services/detection_service.py:221-280 | The created order carries that cake. |
| Placement.CreatedOrderRecords | apps/birthday-api/app/services/detection_service.py:221-280 | Dates, lead time and its class, review mark, supplier and verify-by day of the created order, each in terms of employee, supplier and thresholds. |
| Placement.CreatedReference | apps/birthday-api/app/services/detection_service.py:242-245 | The reference carries the employee number where there is one and the internal id otherwise, the occurrence's year, and the number drawn. |
| Placement.PrintedExamples | apps/birthday-api/app/services/order_sequence_service.py:29-33 | The printed format by example. |
| Placement.CreatedOrdersNeedNoCorrection | apps/birthday-api/scripts/backfill_order_references.py:72-95 | No order that a scan creates is one the backfill would correct. |
| Backfill.StripTrims | apps/birthday-api/scripts/backfill_order_references.py:74-75 | Stripping takes white space off both ends and nothing else. |
| Backfill.CorrectableHasNumber | apps/birthday-api/scripts/backfill_order_references.py:74-95 | A row is correctable exactly when it has a number of its own and a readable reference that shows the internal id. |
| Backfill.Run | apps/birthday-api/scripts/backfill_order_references.py:56-124 | The loop's rewritten rows, corrections and counters are those of the row-by-row pass; a dry run commits nothing. |
| Backfill.RefsStayLive | apps/birthday-api/scripts/backfill_order_references.py:69-118 | At every row the live set is exactly the references on the table, and the unique constraints hold. |
| Backfill.CorrectionKeepsIdentity | apps/birthday-api/scripts/backfill_order_references.py:81-95 | A correction changes the token of a reference and neither its year nor its number. |
| Backfill.NoCollision | apps/birthday-api/scripts/backfill_order_references.py:96-101 | With distinct (year, number), a corrected reference is on no row. |
| Backfill.RunIsRowByRow | apps/birthday-api/scripts/backfill_order_references.py:69-118 | On a sound table a run meets no collision, lists each row's own correction, a dry run lists the same ones, and the table stays sound. |
| Backfill.ForceDecides | apps/birthday-api/scripts/backfill_order_references.py:50-106 | On a sound table a correctable row keeps its reference exactly when the supplier works with it and the run is not forced. |
| Backfill.CountersAre | apps/birthday-api/scripts/backfill_order_references.py:57-106 | Each row is counted once, and four of the counters are what the table shows before the run. |
| Backfill.RunKeepsYearAndNumber | apps/birthday-api/scripts/backfill_order_references.py:69-118 | Every row keeps everything but the token of its reference. |
| Backfill.SecondRunCorrectsNothing | apps/birthday-api/scripts/backfill_order_references.py:56-124 | The promised idempotence, on every sound table. |
| Backfill.CorrectsNothingIff | apps/birthday-api/scripts/backfill_order_references.py:69-118 | On any table at all, a run corrects nothing exactly when no row is correctable as the table stands. |
| Backfill.RunMakesTheMoves | apps/birthday-api/scripts/backfill_order_references.py:69-118 | On any table that respects the constraints the run rewrites exactly the rows whose wanted reference is free when their turn comes, said of the table before the run. |
| Backfill.SecondRunCorrectsNothingIff | apps/birthday-api/scripts/backfill_order_references.py:56-124 | Idempotence, exactly: on any table that respects the constraints a second run corrects nothing if and only if no row asks for a reference that the first run leaves free. |
| Backfill.NoForwardWantsIsIdempotent | apps/birthday-api/scripts/backfill_order_references.py:56-124 | A simple sufficient condition: no correctable row asks for the reference of a later correctable row. |
| Backfill.SecondRunCanCorrect | apps/birthday-api/scripts/backfill_order_references.py:56-124 | A table that respects the constraints but repeats a (year, number), on which the second run corrects a row. |
| Schedules.EveryRunIsSound | apps/birthday-api/app/services/order_sequence_service.py:36-59 | After any run of scans, faults, manual creations, deletions, status changes and backfills, each order's number is below its year's counter, no two share (year, number) or (employee, year), and the constraints hold. |
| Schedules.InsertNeverReraises | apps/birthday-api/app/services/order_service.py:105-113 | In no reachable database does the insert take its re-raise branch. |
| Schedules.ScanIsARun | apps/birthday-api/app/services/detection_service.py:174-309 | A scan is the sequence of its employees' transactions, so interleaved scans are covered by the run theorems. |
| Schedules.OrderExistsIffPlaced | apps/birthday-api/app/services/detection_service.py:174-299 | Without deletions, an employee has an order for a year if and only if some transaction or manual creation placed it. |
| Schedules.PlacedStays | apps/birthday-api/app/services/detection_service.py:174-299 | A placed order stays through everything but a deletion. |
| Schedules.AtMostOnce | apps/birthday-api/app/services/order_service.py:29-116 | In every run nobody has two orders for one year. |
| Schedules.CatchingWindowIsExact | apps/birthday-api/app/services/detection_service.py:28-60 | The days of the catching window are exactly those on which a scan is heading for the occurrence and inside its window test. |
| Schedules.ExactlyOnce | apps/birthday-api/app/services/detection_service.py:133-309 | One undisturbed scan of an eligible employee on any day of the catching window (non-negative lookback, verify-by date inside the calendar) leaves exactly one order for the occurrence, whatever surrounds it. |
| Schedules.TheOrderIsForTheOccurrence | apps/birthday-api/app/services/detection_service.py:174-299 | That order is dated on the occurrence, if nobody recorded another birthday for the employee. |
| Handover.PlacedIsFreshlyDetected | apps/birthday-api/app/services/order_service.py:29-138 | A newly placed order, with exactly its own creation events as timeline, is freshly detected as the lifecycle understands it. |
| Handover.EveryTimelineStarts | apps/birthday-api/app/services/order_service.py:119-138 | Over every run of the birthday database each order carries its creation events once, and no event belongs to an order that was never inserted. |
| Handover.EveryEventHasItsOrder | apps/birthday-api/app/api/routes/orders.py:251-288 | Over every run no event is left without its order. |
| Handover.DeletionTakesOneOrder | apps/birthday-api/app/api/routes/orders.py:251-288 | A deletion takes one row and its events; every other row and timeline stays, and no counter is wound back. |
| Handover.ManualCreationIsRefused | apps/birthday-api/app/api/routes/orders.py:110-179 | A manual creation for an employee and year that has an order changes nothing. |
| Handover.ScannedOrdersLiveWell | apps/birthday-api/app/services/detection_service.py:174-299 | After any run of the database, an order a scan creates keeps the lifecycle invariant under whatever requests follow. |
| Lifecycle.SendKeepsGood | apps/birthday-api/app/services/order_email_service.py:170-249 | A send never ends in an invalid transition, and whichever way the email goes the timeline, the counters and the address log stay in step, short of no more events than before. |
| LifecycleRuns.EveryRunIsGood | apps/birthday-api/app/services/order_status_service.py:28-208 | From detection on, whatever requests arrive and whichever raise, all invariants of the order hold. |
| LifecycleRuns.TimelineReplays | apps/birthday-api/app/services/order_status_service.py:108-154 | DETECTED and the status events form a connected walk through the table from an initial status to the current one. |
| LifecycleRuns.SendAccounting | apps/birthday-api/app/services/order_email_service.py:99-249 | retry_count, the FAILED communications and the EMAIL_FAILED events agree; so do the SENT communications, the EMAIL_SENT events and the moves to SENT_TO_SUPPLIER; released_at is set exactly when there was a success. |
| LifecycleRuns.RunExtendsLogs | apps/birthday-api/app/services/order_email_service.py:99-166 | No event and no communication is ever rewritten or dropped. |
| LifecycleRuns.CompletedOrdersWereFulfilled | apps/birthday-api/app/services/order_status_service.py:28-92 | The walk of a completed order ends in exactly the six fulfilment stages. |
| LifecycleRuns.VisibleOrdersWereSent | apps/birthday-api/app/services/order_email_service.py:174-235 | A supplier-visible order that is not cancelled has a successful send, made with a supplier and while the address stood VERIFIED. |
| LifecycleRuns.RequestMoves | apps/birthday-api/app/services/order_status_service.py:28-92 | One request moves an order along at most one edge (two for a delivery), and only a send enters SENT_TO_SUPPLIER. |
| LifecycleRuns.TerminalStatusesAbsorb | apps/birthday-api/app/services/order_status_service.py:61-62 | No run leaves CANCELLED or COMPLETED. |
| LifecycleRuns.ChangeRequestedCanOnlyBeCancelled | apps/birthday-api/app/services/order_status_service.py:49 | From CHANGE_REQUESTED every run stays there or cancels. |
| LifecycleRuns.UnableToFulfilLeavesOnlyUnready | apps/birthday-api/app/services/address_verification_service.py:158-214 | UNABLE_TO_FULFIL is left exactly by a verify that finds the order unready or its supplier gone. |
| LifecycleRuns.ResendWorksExactlyFromSendable | apps/birthday-api/app/services/order_email_service.py:58-276 | A send or resend of an assigned, verified order reaches the email client exactly from the sendable statuses, and so never from SENT_TO_SUPPLIER. |
| LifecycleRuns.VerifyIsTotalFromPending | apps/birthday-api/app/services/address_verification_service.py:143-214 | From PENDING_VERIFICATION the decision never raises; readiness, flags, the switch and the email fix which of three statuses it ends in, and an AUTO_RELEASED event is written exactly on the way to the supplier. |
| LifecycleRuns.VerifyRaisesIff | apps/birthday-api/app/services/address_verification_service.py:158-214 | From any status, exactly when the decision raises, and that the VERIFIED mark is then kept. |
| LifecycleEffects.EdgesFromTheTarget | apps/birthday-api/app/services/order_status_service.py:28-63 | The transition table read from the target's side. |
| LifecycleEffects.HoldEffect | apps/birthday-api/app/services/order_status_service.py:157-166 | A hold leads to ON_HOLD with the reason, from exactly four statuses, and else changes nothing. |
| LifecycleEffects.ReleaseEffect | apps/birthday-api/app/services/order_status_service.py:169-182 | A release leads back to PENDING_VERIFICATION without the reason, from exactly two statuses. |
| LifecycleEffects.CancelEffect | apps/birthday-api/app/services/order_status_service.py:185-193 | What can be cancelled, exactly. |
| LifecycleEffects.AutoCompleteEffect | apps/birthday-api/app/services/order_status_service.py:196-208 | Delivered orders, and no others, are completed. |
| LifecycleEffects.SupplierStatusEffect | apps/birthday-api/app/api/routes/portal.py:175-213 | The supplier's moves one by one; a delivery completes at once. |
| LifecycleEffects.SupplierIssueEffect | apps/birthday-api/app/api/routes/portal.py:219-260 | When an issue is recorded and when it moves the order. |
| LifecycleEffects.SetAddressEffect | apps/birthday-api/app/services/address_verification_service.py:29-79 | Sets the address status and nothing else, and logs the change. |
| LifecycleEffects.CorrectAddressEffect | apps/birthday-api/app/services/address_verification_service.py:92-134 | Every submitted field reads back as submitted and every other as before; the order counts as corrected exactly when something differed. |
| LifecycleEffects.EditEffect | apps/birthday-api/app/api/routes/orders.py:183-248 | An edit takes effect in full or not at all, never moves the order, and is noted for a new supplier and for a change the supplier can see. |
| LifecycleEffects.SendEffect | apps/birthday-api/app/services/order_email_service.py:170-249 | When a send happens, and everything it leaves: status, release, retry count, communication with its number, and both events. |
| LifecycleEffects.ConfirmEffect | apps/birthday-api/app/services/order_email_service.py:265-270 | A confirmation sends a flagged order in the confirmer's name, or leaves it unconfirmed. |
| LifecycleEffects.VerifyEffect | apps/birthday-api/app/services/address_verification_service.py:158-214 | From PENDING_VERIFICATION, everything a verify leaves in each of its four cases, the exception reason included, said from the facts of the order. |
| LifecycleEffects.FlagsAre | apps/birthday-api/app/services/address_verification_service.py:143-155 | The flags are exactly the things to look at. |
| LifecycleEffects.EnteredBy | apps/birthday-api/app/services/order_status_service.py:28-208 | Which requests can enter each status; no request leaves an order DELIVERED. |
| LifecycleEffects.EveryStatusWasEntered | apps/birthday-api/app/services/order_status_service.py:28-208 | Over every run an order is where it started or was led there by such a request: cancelled only by a cancellation, on hold only by a hold. |
| LifecycleCommits.StagesEndInAfter | apps/birthday-api/app/services/order_status_service.py:108-154 | The last state a request commits is the one it leaves. |
| LifecycleCommits.EveryCutRunIsGood | apps/birthday-api/app/services/order_email_service.py:121-249 | Whatever requests arrive and at whichever commit each of them dies, the timeline replays, the address log holds, and the accounts are short of exactly the lost email events. |
| LifecycleCommits.CutRunAccounting | apps/birthday-api/app/services/order_email_service.py:99-249 | The same spelt out: the retry count equals the FAILED communications, the releases equal the SENT ones, and the email events agree with them if and only if none was lost. |
| LifecycleCommits.SentWithoutItsEvent | apps/birthday-api/app/services/order_email_service.py:226-249 | Every accepted send whose second commit fails is such a case. |
| LifecycleService.BirthdayOrder.MoveTo | apps/birthday-api/app/services/order_status_service.py:108-154 | Overwrites the status, appends the event and commits along an edge of the table; off the table it raises and changes nothing. |
| LifecycleService.BirthdayOrder.SendEmail | apps/birthday-api/app/services/order_email_service.py:170-249 | The three gates, then the send with its two branches, committing the specified states one after the other; a refusal changes nothing. |
| LifecycleService.BirthdayOrder.RecordFailure | apps/birthday-api/app/services/order_email_service.py:121-166 | Counts the retry, moves to REQUIRES_ATTENTION unless already there, and logs EMAIL_FAILED. |
| LifecycleService.BirthdayOrder.DecideRelease | apps/birthday-api/app/services/address_verification_service.py:183-214 | The readiness check, the flags and the release, step by step, are the specified decision and commit what it commits. |
| LifecycleService.BirthdayOrder.VerifyAndRelease | apps/birthday-api/app/services/address_verification_service.py:158-214 | The mark, committed, and then the decision. |
| LifecycleService.BirthdayOrder.CheckReadiness | apps/birthday-api/app/services/readiness_service.py:34-53 | The list names exactly the facts that are missing, and is empty exactly when the order is ready. |
| LifecycleService.BirthdayOrder.ClassifyFlags | apps/birthday-api/app/services/address_verification_service.py:143-155 | The flags raised, in order. |
| LifecycleService.BirthdayOrder.SetAddressVerification | apps/birthday-api/app/services/address_verification_service.py:29-79 | Sets the address status and logs the old and the new one. |
| LifecycleService.BirthdayOrder.UpdateDeliveryAddress | apps/birthday-api/app/services/address_verification_service.py:92-134 | Writes exactly the submitted fields that differ, and marks the order manually corrected when there are any. |
| LifecycleService.BirthdayOrder.UpdateOrder | apps/birthday-api/app/api/routes/orders.py:183-248 | The edit of all six fields, refused as a whole for an inactive supplier, with its notes. |
| LifecycleService.BirthdayOrder.ConfirmAndRelease | apps/birthday-api/app/api/routes/orders.py:324-346 | Only from REQUIRES_REVIEW; a refused send does not keep the confirmation. |
| LifecycleService.BirthdayOrder.PutOnHold | apps/birthday-api/app/services/order_status_service.py:157-166 | Sets the reason, then moves; a refusal keeps neither. |
| LifecycleService.BirthdayOrder.ReleaseHold | apps/birthday-api/app/services/order_status_service.py:169-182 | Clears the reason and moves back to verification. |
| LifecycleService.BirthdayOrder.CompleteDelivered | apps/birthday-api/app/services/order_status_service.py:196-208 | Completes a delivered order and leaves any other alone. |
| LifecycleService.BirthdayOrder.UpdateSupplierStatus | apps/birthday-api/app/api/routes/portal.py:175-213 | A supplier moves an order only along the drivable edges, and a delivery completes it. |
| LifecycleService.BirthdayOrder.RaiseSupplierIssue | apps/birthday-api/app/api/routes/portal.py:219-260 | Records the issue with its type, text and reporter, and its event; CANNOT_FULFIL also moves the order where the table allows it. |
| RateLimit.FixedWindowRateLimiter.Bump | apps/talent-api/app/core/rate_limit.py:36-41 | One count in the window, started over when it is due. |
| RateLimit.FixedWindowRateLimiter.AllowCall | apps/talent-api/app/core/rate_limit.py:43-57 | One call's answer and the new windows, sweep included. |
| RateLimit.SweepIsInvisible | apps/talent-api/app/core/rate_limit.py:47-57 | On every history of a monotonic clock each answer is that of a limiter that never forgets a key. |
| RateLimit.DictionaryIsBounded | apps/talent-api/app/core/rate_limit.py:47-57 | After a call the dictionary holds at most the sweep threshold plus one key, or the live windows plus one. |
| RateLimit.TwoWindowsAtMost | apps/talent-api/app/core/rate_limit.py:36-41 | For one window: at most twice the limit passes in any interval of its length, one less once a call has started it. |
| RateLimit.RefusedUnderLoad | apps/talent-api/app/core/rate_limit.py:36-57 | A refused call has at least its key's limit of earlier calls, or the overall limit of them, within one window length before it. |
| RateLimit.KeyBoundIsReached | apps/talent-api/app/core/rate_limit.py:36-57 | For every limiter whose overall limit is no tighter, a history of one key on which 2n - 1 calls are allowed in one interval. |
| RateLimit.OverallBoundIsReached | apps/talent-api/app/core/rate_limit.py:36-57 | For every limiter, a history with a new key per call on which 2n - 1 calls are allowed overall in one interval. |
| RateLimit.RateIsBounded | apps/talent-api/app/core/rate_limit.py:36-57 | On every history, per key and overall, at most 2n calls are allowed in any half-open interval of one window length; 2n - 1 when times are not negative. |
| Authorization.GroupsForUser | apps/platform-api/app/services/authorization_service.py:111-122 | The active groups of the user, and no others. |
| Authorization.EffectiveModuleRoles | apps/platform-api/app/services/authorization_service.py:124-152 | A module has an entry exactly when some enabled direct or group grant contributes, and the entry lists the contributing roles, direct ones first. |
| Authorization.EffectiveScope | apps/platform-api/app/services/authorization_service.py:154-244 | None exactly when there is no grant or one is unrestricted; otherwise exactly what some contributing grant names. |
| Authorization.EffectivePermissions | apps/platform-api/app/services/authorization_service.py:246-254 | Exactly the permissions of the given roles. |
| Authorization.BuildClaims | apps/platform-api/app/services/claims_service.py:22-72 | One claim for each module with a grant and for no other, with the effective scope in both columns, the single-valued companions and the permissions. |
| TalentScope.SeesOnlyWhatIsGranted | apps/talent-api/app/api/deps.py:95-137 | Through claims, local scope and filter, a row is seen only if some contributing grant is unrestricted or names its client's public id. |
| TalentScope.SeesAllThatIsGrantedIff | apps/talent-api/app/api/deps.py:95-137 | Every granted row is seen if and only if the scope is not a single public id shared by two local clients. |
| TalentScope.WiderGrantsSeeMore | apps/talent-api/app/repositories/talent_request_repo.py:20-29 | When all contributing grants still contribute, no visible row and no permission is lost. |
| TalentScope.AddingADirectGrantWidens | apps/platform-api/app/services/authorization_service.py:124-254 | A new direct assignment with its scope rows keeps everything that contributed. |
| TalentScope.AddingAGroupGrantWidens | apps/platform-api/app/services/authorization_service.py:124-254 | So does a new group assignment. |
| TalentScope.JoiningAGroupWidens | apps/platform-api/app/services/authorization_service.py:111-254 | So does joining a group. |
| TalentScope.ScopeRowNarrowsIff | apps/platform-api/app/services/authorization_service.py:82-244 | A new scope row of a direct assignment takes access away if and only if it restricts the last unrestricted contributing grant, a condition on the grant tables before the insert. |
| TalentScope.GroupScopeRowNarrowsIff | apps/platform-api/app/services/authorization_service.py:154-244 | The same for a scope row of a group assignment. |
| TalentScope.ScopeRowHidesRowsIff | apps/talent-api/app/repositories/talent_request_repo.py:20-29 | Under the tokens issued before and after, some request row stops being visible exactly on that condition. |
| TalentScope.GroupScopeRowHidesRowsIff | apps/talent-api/app/repositories/talent_request_repo.py:20-29 | The same for a scope row of a group assignment. |
| TalentScope.AddingAScopeRowCanNarrow | apps/platform-api/app/services/authorization_service.py:82-100 | A member, the tokens issued to them before and after, and a row they lose. |
| TalentScope.SharedIdHidesAClient | apps/talent-api/app/api/deps.py:95-137 | A member whose one public id two local clients carry: the second is granted and not seen. |
| Administration.AdminService.ResolveClientScopeRefs | apps/platform-api/app/services/admin_service.py:114-159 | Succeeds exactly when every listed id is a client's own or a legacy id, and maps each to its public id. |
| Administration.AdminService.UpsertModuleAssignment | apps/platform-api/app/services/admin_service.py:338-419 | Replaces or adds the one assignment and its scope rows; an unknown user, role or client changes nothing. |
| Administration.AdminService.RemoveModuleAssignment | apps/platform-api/app/services/admin_service.py:421-441 | Removes the assignment and its scope rows. |
| Administration.ScopeReadsBack | apps/platform-api/app/services/admin_service.py:352-403 | After an upsert the reference scope is exactly the public ids of a non-empty list, and unrestricted for ALL_CLIENTS and for an empty list. |
| Administration.UpsertTouchesOneAssignment | apps/platform-api/app/services/admin_service.py:352-403 | At most one assignment per (user, module) before and after, and every other assignment and its scope unchanged. |
| Administration.RemovalStaysTidy | apps/platform-api/app/services/admin_service.py:421-441 | No assignment of the pair and none of its scope rows remain. |
| Administration.AdminService.SetUserActive | apps/platform-api/app/services/admin_service.py:272-296 | Refuses to deactivate the last active SUPER_ADMIN. |
| Administration.AdminService.SetPlatformRole | apps/platform-api/app/services/admin_service.py:298-334 | Refuses to demote the last active SUPER_ADMIN, and admin roles to actors who do not manage administrators. |
| Administration.ActivationEffect | apps/platform-api/app/services/admin_service.py:272-296 | An activation takes effect, on that user alone, unless it would switch off the last active SUPER_ADMIN. |
| Administration.RoleChangeEffect | apps/platform-api/app/services/admin_service.py:298-334 | A role change takes effect, on that user alone, exactly when its three conditions hold. |
| Administration.UpsertEffect | apps/platform-api/app/services/admin_service.py:338-419 | When an upsert is refused and why, and the assignment's own columns afterwards, the legacy tenant included. |
| Administration.ListedIdsAreDenoted | apps/platform-api/app/services/admin_service.py:114-159 | The scope left by a client list names exactly the clients the ids mean: their own before the crosswalk's. |
| Administration.ASuperAdminAlwaysRemains | apps/platform-api/app/services/admin_service.py:264-334 | From at least one active SUPER_ADMIN, every sequence of activations and role changes keeps at least one. |
| Administration.AdminRolesChangeByManagersOnly | apps/platform-api/app/services/admin_service.py:298-334 | In every run, a step that grants or removes an admin role is a role change whose actor manages administrators at that step. |
| Provisioning.TokenHasEntryIff | apps/platform-api/app/services/authorization_service.py:111-152 | A token has an entry for a module exactly when an enabled assignment of the user, or of an active group of the user, gives it. |
| Provisioning.TokenPermissionIff | apps/platform-api/app/services/authorization_service.py:246-254 | A permission is in the token exactly when the role of such a grant carries it in that module. |
| Provisioning.OwnRoleIsShown | apps/platform-api/app/services/claims_service.py:43-63 | The token shows the role of the user's own assignment wherever that is enabled. |
| Provisioning.DisablingRevokes | apps/platform-api/app/services/admin_service.py:338-419 | After an upsert that disables, the token has the module only if a group gives it. |
| Provisioning.EnablingGrants | apps/platform-api/app/services/admin_service.py:338-419 | After one that enables, it has it. |
| Provisioning.LegacyTokenSees | apps/talent-api/app/api/deps.py:95-119 | A token with numeric ids only sees exactly the rows of the clients it lists, or all. |
| Provisioning.RemovalTakesOneAssignment | apps/platform-api/app/services/admin_service.py:421-441 | A removal takes that row; every other assignment stays, in order, with its scope. |
| Provisioning.RemovalNarrowsNobodyElse | apps/platform-api/app/services/admin_service.py:421-441 | No other user, and the user in no other module, loses access by it. |
| Provisioning.RemovalRevokes | apps/platform-api/app/services/admin_service.py:421-441 | The pair is left with what groups give. |
| Provisioning.NewAssignmentWidens | apps/platform-api/app/services/admin_service.py:338-419 | Upserting an assignment for a pair that has none takes no access from anybody, in any module. |
| Provisioning.ListedClientsAreSeenIff | apps/talent-api/app/api/deps.py:95-137 | From the write to the filter: after an enabled assignment with a client list, a user with no group grant sees exactly the rows of the listed local clients, if and only if the list does not come down to one public id that two local clients share. |
| Recruitment.SyncSession.SyncPostings | apps/recruitment-api/app/services/lever_posting_service.py:35-100 | The mock guard, the upsert loop and its counters: created is the growth of the table, the rest of the feed was updated. |
| Recruitment.SyncSession.ResolveCandidate | apps/recruitment-api/app/services/lever_candidacy_sync_service.py:117-154 | The contact's one row, created or overlaid, with its mapping. |
| Recruitment.SyncSession.UpsertCandidacy | apps/recruitment-api/app/services/lever_candidacy_sync_service.py:71-105 | Skipped exactly when the first application names no local posting; otherwise created or updated. |
| Recruitment.SyncSession.SyncOpportunities | apps/recruitment-api/app/services/lever_candidacy_sync_service.py:46-115 | The tables are the opportunities applied in order, the five counters are the tables' growth, the skipped and the rest; it raises exactly what the first failing call raises. |
| Recruitment.SyncSession.RequestSync | apps/recruitment-api/app/services/recruitment_sync_service.py:92-114 | Returns the active run, or commits a new queued one exactly when there is none. |
| Recruitment.SyncSession.ExecuteRun | apps/recruitment-api/app/services/recruitment_sync_service.py:119-159 | A queued run is started and finished as specified, with rollback on any exception; any other id changes nothing. |
| RecruitmentRuns.OneRowPerId | apps/recruitment-api/app/services/lever_candidacy_sync_service.py:117-154 | After a reconciliation each table has one row per Lever id, for exactly the ids stored before or fed now, old rows in their places. |
| RecruitmentRuns.CreatedCountsNewIds | apps/recruitment-api/app/services/recruitment_sync_service.py:137-148 | records_created is the number of posting, contact and linked opportunity ids that were new. |
| RecruitmentRuns.CandidateAfter | apps/recruitment-api/app/services/lever_candidacy_sync_service.py:117-140 | A contact's stored facts after the loop are the old ones overlaid once with what the feed as a whole says. |
| RecruitmentFacts.CandidacyStandsAs | apps/recruitment-api/app/services/lever_candidacy_sync_service.py:65-103 | The stored stage, status and archive reason are those of the last linked opportunity of the id, spelt out from its fields and the catalogue. |
| RecruitmentFacts.UnlinkedKeepsCandidacy | apps/recruitment-api/app/services/lever_candidacy_sync_service.py:65-74 | An id none of whose opportunities is linked keeps its candidacy as it was. |
| RecruitmentFacts.LastNonEmptyTextWins | apps/recruitment-api/app/services/lever_candidacy_sync_service.py:123-126 | Name, email and headline are each the last non-empty one fed for the contact, else the stored one. |
| RecruitmentFacts.LastLabelsWin | apps/recruitment-api/app/services/lever_candidacy_sync_service.py:127-129 | Tags and sources are those of the contact's last opportunity, and the row is stamped. |
| RecruitmentFacts.AbsentContactStays | apps/recruitment-api/app/services/lever_candidacy_sync_service.py:117-140 | A contact the feed does not have keeps its row. |
| RecruitmentFacts.MappingAfter | apps/recruitment-api/app/services/lever_candidacy_sync_service.py:142-153 | A new contact is mapped to the row it gets; every other mapping stays. |
| RecruitmentFacts.ListedPostingIs | apps/recruitment-api/app/services/lever_posting_service.py:56-94 | A posting's facts are those listed last; an unlisted posting is not touched. |
| RecruitmentRuns.NewCandidaciesAreRightlyLinked | apps/recruitment-api/app/services/lever_candidacy_sync_service.py:64-105 | No link dangles, links once written never change, and each new candidacy belongs to its opportunity's contact and first application's posting. |
| RecruitmentRuns.RepeatingChangesOnlyTimestamps | apps/recruitment-api/app/services/recruitment_sync_service.py:119-159 | The same feed again succeeds (exactly unless a mock feed held a posting that is no fixture), creates nothing, reads as much, and leaves everything but the timestamps as it was. |
| RecruitmentRuns.CountsBalance | apps/recruitment-api/app/services/recruitment_sync_service.py:137-148 | read = postings + opportunities; created + updated + unchanged = postings + 2 * opportunities; none negative. |
| RecruitmentRuns.EveryRunIsSane | apps/recruitment-api/app/services/recruitment_sync_service.py:92-159 | Over every interleaving of requests, starts and finishes: at most one run is active, a failed run reports zeros and an error, a successful one accounts for what it read, and the read model is keyed and linked. |
| RecruitmentRuns.EmptyDatabaseIsSane | apps/recruitment-api/app/services/recruitment_sync_service.py:92-159 | The starting point of such runs. |
| RecruitmentRuns.ExecutionIsTwoSteps | apps/recruitment-api/app/services/recruitment_sync_service.py:119-159 | Executing a queued run is its start followed by its finish, so the interleavings cover it. |
| RecruitmentFacts.RunSucceedsIff | apps/recruitment-api/app/services/recruitment_sync_service.py:133-159 | When a run succeeds, exactly; otherwise it fails with the tables as they were, and a mock run over real postings names the guard. |
| RecruitmentFacts.UpdatedAndUnchanged | apps/recruitment-api/app/services/recruitment_sync_service.py:137-148 | The other two counters in terms of ids: what was listed or linked again, and what matched or was skipped. |
| RecruitmentRuns.OnlySuccessMovesTheReadModel | apps/recruitment-api/app/services/recruitment_sync_service.py:133-159 | The read model changes only by a run that succeeds, and then to the reconciled tables in full; a failed run leaves it alone. |
| RecruitmentRuns.NoOtherWriterWhileRunning | apps/recruitment-api/app/services/recruitment_sync_service.py:92-159 | While a run is running no other request, start or finish changes anything. |

## Left out

Common to all parts:

- HTTP, authentication tokens, the front ends, logging, audit entries, notifications and email text: they do not feed back into the state modelled here.
- SQL: tables are sequences or maps with their unique constraints; searching, sorting and paging are not part of this model.
- Row objects: rows are values held in sequences or maps that the methods reassign, so aliasing between two references to one row is not captured; the order of the ORM's flushes is not either.
- Timestamps are kept only where a property speaks of them, as set or unset, or as one number per sync.

Birthday detection:

- OrderStore.Session.NextSeqForYear: does not model the retry after an integrity error on the counter's own row, because each employee's transaction is one atomic step and no other session can insert that row in between.
- The scan's own audit row, and the resolution of an office to a supplier, which is a parameter of the scan.
- Deletion may strike any order at any time; the route's guards (awaiting verification, no communications) are not part of this model, so the run theorems hold with more deletions than the service allows.
- Manual creation is modelled by the key check, the reference and the insert; its remaining fields are whatever the draft holds.
- The pattern's `\d` is read as the ASCII digits.

Order lifecycle:

- `release` is modelled with its default target only; stage timestamps, and the commit that writes one, are not part of this model.
- The supplier's acceptance is modelled as the supplier status change to CONFIRMED, which has the same guard; whose order it is (404 otherwise) is not part of this model.
- Issues raised by staff, and resolving issues: nothing else reads them.
- `VerifyOutcome.auto_released`: the properties are stated on status and events instead.

Rate limiter:

- Times are real numbers that never decrease from call to call; the lock, and reading the clock before taking it, are not part of this model, nor is `reset`.

Client scope:

- The token's sorted lists are kept as sets; the platform's own role permissions, the external-client sessions and the single-row lookups of the repository are not part of this model.
- Group administration (members, group assignments) appears as the effect on the grant tables, not as admin methods.

Recruitment:

- The Lever client and its stage and archive-reason mapper are parameters of the feed.
- A request, a start and a finish are atomic steps: races inside `request_sync` are not part of this model, and a worker that dies, or whose last commit fails, is a start without a finish. The first and last commits of a run are taken to succeed.
- Run ids are taken to be fresh; requester, trigger and correlation columns, the shortened error text, run history and freshness reads are not part of this model. Primary keys are row positions, since these tables only grow.
- Tag parsing, webhooks, and the reconcilers that assign clients to postings: separate from the sync, and they would add only simpler members.
