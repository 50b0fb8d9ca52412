# Banking back-end: credits, scheduled repayments, accounts and cards

This project is a Dafny model of the core of a Go banking back-end. The modelled parts are:

- **Credit engine.** The annuity formula, the repayment schedule, issuing a credit, and repaying it by hand.
- **Payment scheduler.** Its hourly jobs charge due payments or escalate them to OVERDUE with a one-time 10 % penalty.
- **Account ledger.** Deposit, withdraw, transfer, and account opening.
- **Card-number rules.** The Luhn check digit, validation, masking, and the order of checks in card creation.
- **Support utilities.** The sliding-window rate limiter, the metrics counters, the user-record length bounds, and the password rule.

The database is an in-memory value `Store` (`models.dfy`). It holds:

- one map per table, keyed by primary key;
- the append-only transaction journal;
- the autoincrement counters.

A database transaction is a method from a store to a result and the store after commit. Every error path returns the store it was given, which is what a rollback leaves behind. Where the source chains several saves, the individual save failures of the scheduler are an input: a set of failing writes. A method body then follows the source's sequence of in-place updates step by step.

Other modelling choices:

- Clock readings (`time.Now()`), the central bank's rate and random draws are parameters.
- Money is `real`. Go's truncating integer division is written out (`GoArith.TruncDiv`).
- The `RateLimiter` and `Metrics` objects are classes whose fields the methods update.

Files:

- `wrappers.dfy`: Option, Result and Outcome.
- `arith.dfy`: truncating division, bytes and digits.
- `calendar.dfy`: `AddDate(0, k, 0)` and the 30-day period count.
- `models.dfy`: records, store, and the store invariant `Valid`.
- `credit_service.dfy`, `payment_scheduler.dfy`, `bank_service.dfy`, `card_service.dfy`, `ratelimit.dfy`, `metrics.dfy`, `user.dfy`, `auth_controller.dfy`: one per source file.

Three behaviours of the code are easy to misread, and the model keeps each as the code has it:

- **The overdue penalty is one-shot.** The `IsOverdue` guard in `processPayment` applies the 10 % penalty only on the first failed charge; later failed ticks leave the amount alone (`PaymentScheduler.PenaltyAppliedOnce`).
- **The schedule counts 30-day periods.** `generatePaymentSchedule` counts whole 30-day periods between the start and end dates, not calendar months. A 1-month credit from 1 February 2023 therefore has no payments, and a 120-month credit from 1 January 2024 has 121.
- **A scheduler tick is one transaction.** Each job processes its rows inside one transaction and rolls all of it back on the first error, so one failing payment also undoes its siblings.

## Model

| member | source | states |
|---|---|---|
| `CreditService.AnnuityPayment` | services/credit_service.go:77-86 | a positive amount gives a positive monthly payment |
| `CreditService.AnnuitySingleMonth` | services/credit_service.go:77-86 | over one month the payment is amount × (1 + rate/12/100) |
| `CreditService.AnnuityAmortises` | services/credit_service.go:77-86 | paying the annuity each month brings the outstanding principal to exactly zero after the last month |
| `CreditService.RemainingClosedForm` | services/credit_service.go:100-124 | closed form of the running principal after k monthly payments |
| `CreditService.ClosedFormStep` | services/credit_service.go:100-108 | one month of interest and payment carries the closed form from k to k + 1 months |
| `CreditService.RemainingStep` | services/credit_service.go:108-123 | one loop iteration (interest, principal, new remainder) advances the remainder by one month |
| `CreditService.GeneratePaymentSchedule` | services/credit_service.go:89-125 | the schedule has one payment per whole 30-day period; every payment is PLANNED, not overdue, unpaid, for this credit, with amount = initial amount = the annuity; payment i is due i+1 months after the start; due dates strictly increase; the loop's principal reaches zero |
| `CreditService.DueDatesIncrease` | services/credit_service.go:111 | monthly due dates strictly increase |
| `CreditService.FebruaryCreditHasNoPayments` | services/credit_service.go:91 | a 1-month credit from 1 Feb 2023 spans less than one 30-day period, so it has no payments |
| `CreditService.TenYearCreditHas121Payments` | services/credit_service.go:91 | a 120-month credit from 1 Jan 2024 has 121 payments |
| `CreditService.Create` | services/credit_service.go:140-264 | errors in source order (invalid request, rate unavailable, account missing, access denied, active credit exists), each leaving the store unchanged; success iff all checks pass; on success the new ACTIVE credit, its schedule under fresh IDs, the balance raised by the amount and one DEPOSIT "Credit issuance" row; the store invariant is kept |
| `CreditService.PersistSchedule` | services/credit_service.go:212-219 | the save loop gives the payments consecutive fresh IDs and keeps every other payment |
| `CreditService.IssuedByParts` | services/credit_service.go:190-242 | the credit, payments, balance and journal row that `Create` writes make up the issued store |
| `CreditService.IssuePreservesValid` | services/credit_service.go:181-242 | issuing a credit to an account with no ACTIVE credit keeps the store invariant, including one ACTIVE credit per account |
| `CreditService.IssueKeepsKeys` | services/credit_service.go:195-219 | new credit and payment IDs are fresh and every link resolves |
| `CreditService.IssueKeepsShapes` | services/credit_service.go:112-120 | every new payment is PLANNED with amount = initial amount |
| `CreditService.IssueKeepsOneActive` | services/credit_service.go:181-198 | the new ACTIVE credit is its account's only one |
| `CreditService.PayCredit` | services/credit_service.go:364-512 | rejects with no change, checking in this order: invalid request, credit missing, credit not ACTIVE, account mismatch, account missing, funds short, no PLANNED payment, amount below the earliest PLANNED payment's amount (both directions); when every check passes and the amount covers the earliest PLANNED payment it succeeds; on success the earliest-due PLANNED payment becomes PAID at now with the paid amount, the balance drops by the amount, one −amount WITHDRAW row is logged, and the credit becomes PAID iff no PLANNED payment remains; the store invariant is kept |
| `CreditService.EarliestPlannedExists` | services/credit_service.go:427-435 | a credit with a PLANNED payment has one with the earliest due date |
| `CreditService.EarliestOf` | services/credit_service.go:427-435 | a non-empty set of payments has one whose due date is not after any other's |
| `CreditService.RepayPreservesValid` | services/credit_service.go:442-490 | a repayment keeps the store invariant |
| `CreditService.RepaidClosesLast` | services/credit_service.go:475-486 | after repaying an ACTIVE credit, it is PAID exactly when no PLANNED payment of it is left |
| `CreditService.RepayKeepsKeys` | services/credit_service.go:442-470 | a repayment keeps IDs, links and account numbers |
| `CreditService.RepaidSkeleton` | services/credit_service.go:442-490 | a repayment changes only balances, statuses and amounts |
| `CreditService.RepayKeepsShapes` | services/credit_service.go:442-447 | a repayment keeps every PLANNED and OVERDUE payment well formed |
| `CreditService.RepayKeepsOneActive` | services/credit_service.go:482-490 | a repayment creates no second ACTIVE credit on an account |
| `CreditService.PowAboveOne` | services/credit_service.go:82 | (1+r)^n > 1 for r > 0 and n ≥ 1, so the annuity's denominator is not zero |
| `CreditService.CancelFactor` | services/credit_service.go:82 | r·q/(q−1) = q when q − 1 = r, the one-month case of the formula |
| `Calendar.AddMonthsStrictlyIncreasing` | services/credit_service.go:111 | adding more months gives a strictly later instant |
| `Calendar.AddMonthsDayGap` | services/credit_service.go:111 | each extra month adds at least 28 days |
| `Calendar.NormaliseAddMonths` | services/credit_service.go:191 | `AddDate(0, k, 0)` followed by Go's normalisation of an overflowing day gives a valid date at the same instant |
| `Calendar.MonthLengthTable` | services/credit_service.go:111 | month lengths follow the Gregorian calendar, including leap years |
| `Calendar.MonthLengthBounds` | services/credit_service.go:111 | every month has 28 to 31 days |
| `Calendar.MonthStartIncreasing` | services/credit_service.go:111 | month starts are 28 to 31 days apart per month |
| `Calendar.MarchYearLength` | services/credit_service.go:111 | a March-based year has 366 days exactly when its February has 29 |
| `Calendar.WholeDayPeriods` | services/credit_service.go:91 | between instants at the same time of day, the 30-day period count is whole days divided by 30 |
| `Calendar.PeriodsOfAddMonths` | services/credit_service.go:91 | from a start date to k months later the period count is the day distance divided by 30, never negative |
| `Calendar.DivScale` | services/credit_service.go:91 | dividing seconds by 30 days equals dividing days by 30 |
| `Calendar.Div4Step` | services/credit_service.go:111 | step of the divide-by-4 leap term |
| `Calendar.Div100Step` | services/credit_service.go:111 | step of the divide-by-100 leap term |
| `Calendar.Div400Step` | services/credit_service.go:111 | step of the divide-by-400 leap term |
| `Models.SkeletonKeepsKeys` | services/credit_service.go:442-490 | a store with the same rows, counters, links and numbers keeps fresh keys, foreign keys and unique numbers |
| `Models.SkeletonKeepsForeign` | services/payment_scheduler_service.go:121-177 | foreign keys survive any update of balances, statuses and amounts |
| `Models.EmptyValid` | services/credit_service.go:140-264 | the empty database satisfies the store invariant |
| `Models.BookedAppend` | services/payment_scheduler_service.go:163-174 | the sum booked on an account is additive over journal concatenation |
| `PaymentScheduler.Load` | services/payment_scheduler_service.go:97-100 | a payment is loaded with its credit and that credit's account, whose balance the item records |
| `PaymentScheduler.Step` | services/payment_scheduler_service.go:121-177 | it changes only the item's payment, credit and account; it fails iff one of its writes fails; an already overdue short payment is left alone; a short payment is escalated (OVERDUE, flag, ×1.1, credit OVERDUE) without touching balance or journal; a covered payment is PAID at now, the balance drops by its amount and one −amount WITHDRAW row is written, credit statuses untouched |
| `PaymentScheduler.ProcessPayment` | services/payment_scheduler_service.go:121-177 | the step-by-step method computes exactly `Step` |
| `PaymentScheduler.Preload` | services/payment_scheduler_service.go:97-100 | one loaded item per selected payment, each fitting the store |
| `PaymentScheduler.RunItems` | services/payment_scheduler_service.go:105-110 | the batch on preloaded copies fails iff some item's write fails, and keeps the store's skeleton |
| `PaymentScheduler.RunFresh` | services/payment_scheduler_service.go:105-110 | the batch with fresh reads keeps the skeleton and foreign keys and touches only the batch's payments |
| `PaymentScheduler.RunBatchAsWritten` | services/payment_scheduler_service.go:88-118 | the as-written loop over preloaded items equals `RunItems`, committing all its effects or none |
| `PaymentScheduler.RunBatch` | services/payment_scheduler_service.go:88-118 | the corrected loop, reading each item afresh, equals `RunFresh`, all or nothing |
| `PaymentScheduler.Select` | services/payment_scheduler_service.go:64-66 | the query returns each matching payment exactly once and nothing else |
| `PaymentScheduler.RunJob` | services/payment_scheduler_service.go:55-85 | the job's result and store are those of its selection preloaded and run as one all-or-nothing batch on the preloaded copies (`Commit` of `RunItems` over `Preload`) |
| `PaymentScheduler.ProcessPayments` | services/payment_scheduler_service.go:88-118 | selects exactly the PLANNED payments due by now, preloads them and commits the as-written batch over them or nothing |
| `PaymentScheduler.ProcessOverduePayments` | services/payment_scheduler_service.go:55-85 | selects exactly the payments flagged overdue with status OVERDUE, preloads them and commits the as-written batch over them or nothing |
| `PaymentScheduler.PenaltyAppliedOnce` | services/payment_scheduler_service.go:123-131 | after one escalation, a later short tick changes nothing: the amount is never inflated twice |
| `PaymentScheduler.StepKeepsShapes` | services/payment_scheduler_service.go:127-160 | a step keeps PLANNED and OVERDUE payments well formed |
| `PaymentScheduler.StepKeepsOneActive` | services/payment_scheduler_service.go:139 | a step never makes a credit ACTIVE |
| `PaymentScheduler.StepKeepsValid` | services/payment_scheduler_service.go:121-177 | every store inside a step satisfies the store invariant |
| `PaymentScheduler.PreloadCurrent` | services/payment_scheduler_service.go:97-100 | preloading distinct pending payments gives distinct pending items, in order, each carrying its row as stored |
| `PaymentScheduler.ItemsTail` | services/payment_scheduler_service.go:105-110 | a step that touches only the head's payment leaves the rest of the preloaded batch distinct, current and pending, and none of it names the head |
| `PaymentScheduler.BatchKeepsValid` | services/payment_scheduler_service.go:88-118 | a preloaded batch of distinct pending payments keeps the store invariant whether it commits or rolls back |
| `PaymentScheduler.RunKeepsValid` | services/payment_scheduler_service.go:105-110 | every store the as-written batch over preloaded items passes through satisfies the invariant, however stale the balances the items saw |
| `PaymentScheduler.StepTracksJournal` | services/payment_scheduler_service.go:148-174 | a committed step moves each balance by exactly what it journals |
| `PaymentScheduler.TracksTrans` | services/payment_scheduler_service.go:105-110 | balance-journal agreement composes across steps |
| `PaymentScheduler.RunTracksJournal` | services/payment_scheduler_service.go:105-110 | a committed batch with fresh reads debits each account by exactly what it journals |
| `PaymentScheduler.BatchTracksJournal` | services/payment_scheduler_service.go:88-118 | the committed effect of a corrected batch keeps balances and journal in step |
| `PaymentScheduler.RunOnlyEscalates` | services/payment_scheduler_service.go:139-176 | over the as-written batch, credit statuses are only kept or moved to OVERDUE; no credit becomes PAID or ACTIVE |
| `PaymentScheduler.RunItemsFrame` | services/payment_scheduler_service.go:105-110 | a batch leaves every payment that none of its items names exactly as it was |
| `PaymentScheduler.SettledCons` | services/payment_scheduler_service.go:105-110 | a settled head and a settled tail make a settled batch |
| `PaymentScheduler.RunSettlesBatch` | services/payment_scheduler_service.go:121-177 | a committed as-written batch of distinct PLANNED payments leaves each PAID or OVERDUE |
| `PaymentScheduler.DueBatchPlanned` | services/payment_scheduler_service.go:97 | in a valid store, every payment `processPayments` selects is PLANNED and not yet flagged overdue |
| `PaymentScheduler.PlannedBatchClearsDue` | services/payment_scheduler_service.go:97-110 | a committed preloaded batch of exactly the due PLANNED payments leaves none of them for the next query |
| `PaymentScheduler.PlannedItemsClearDue` | services/payment_scheduler_service.go:105-110 | the same over the items: settled batch items plus untouched other payments leave nothing due |
| `PaymentScheduler.SettledLeavesNoneDue` | services/payment_scheduler_service.go:97 | settling every selected payment and leaving the rest alone leaves nothing the query selects |
| `PaymentScheduler.DueJobClearsDue` | services/payment_scheduler_service.go:88-118 | after a committed `processPayments` over the preloaded rows, no PLANNED payment due by now remains |
| `PaymentScheduler.SkeletonKeepsFits` | services/payment_scheduler_service.go:97-100 | preloaded items stay linked to the rows they were loaded from |
| `PaymentScheduler.AllFitSuffix` | services/payment_scheduler_service.go:105 | the rest of a fitting batch fits |
| `PaymentScheduler.SkeletonTrans` | services/payment_scheduler_service.go:105-110 | same-skeleton is transitive |
| `PaymentScheduler.BitesShift` | services/payment_scheduler_service.go:105-110 | some item of a batch hits a failing write iff the first does or one of the rest does |
| `PaymentScheduler.RunItemsFirst` | services/payment_scheduler_service.go:105-110 | a batch stops at a failing first item and otherwise goes on from that item's store |
| `PaymentScheduler.TwoCollected` | services/payment_scheduler_service.go:97-110 | two preloaded payments that each see enough balance are both collected, and the account ends at the second one's snapshot less its amount while both rows are journaled |
| `PaymentScheduler.SnapshotBatchLosesDebit` | services/payment_scheduler_service.go:98-100 | the as-written batch pays two 100-payments from a 150 balance, leaving 50 while 200 is journaled |
| `PaymentScheduler.SnapshotRun` | services/payment_scheduler_service.go:123-148 | the concrete as-written run: both payments PAID, balance 50, two −100 rows |
| `PaymentScheduler.BookedTwoRows` | services/payment_scheduler_service.go:163-174 | the journal total of two rows |
| `PaymentScheduler.FreshBatchKeepsDebit` | services/payment_scheduler_service.go:121-177 | with fresh reads the second payment is escalated instead, and only 100 is debited and journaled |
| `BankService.Deposit` | services/bank_service.go:192-276 | invalid request or missing account fail with no change; success iff valid and the account exists; the balance rises by exactly the amount; one "ATM" row only for type DEPOSIT; the total of balances rises by the amount; the store invariant is kept |
| `BankService.Withdraw` | services/bank_service.go:279-364 | invalid request, missing account or short balance fail with no change; success iff none applies; the balance drops by exactly the amount and stays non-negative; one positive "ATM" row only for type WITHDRAW; the total drops by the amount |
| `BankService.TransferAsWritten` | services/bank_service.go:367-450 | invalid request and same account fail before touching anything; a missing or short source fails with no change; a missing destination fails with the source still debited and the total reduced; success iff both halves can be carried out, with source −amount, destination +amount and two positive TRANSFER rows; credits, payments and the three id counters never change |
| `BankService.Transfer` | services/bank_service.go:367-450 | the same checks as one transaction: any failure changes nothing, success moves the amount, logs the two TRANSFER rows and leaves credits, payments and the three id counters as they were; the total of balances never changes |
| `BankService.TotalRemove` | services/bank_service.go:227 | the total of balances splits off any one account |
| `BankService.TotalUpdate` | services/bank_service.go:227 | replacing one account moves the total by the change of its balance |
| `BankService.BalanceChangeKeepsValid` | services/bank_service.go:227-232 | changing one balance keeps the store invariant |
| `BankService.TransferLogKeepsValid` | services/bank_service.go:416-441 | appending journal rows keeps the store invariant |
| `BankService.TransferToMissingAccountLosesMoney` | services/bank_service.go:395-413 | running the as-written transfer of 50 from an account holding 100 to a missing account returns `AccountNotFound`, leaves the source at 50 and journals nothing, so the total of balances drops by 50 |
| `BankService.AccountNumber` | services/bank_service.go:178-189 | one decimal digit character per draw, with the draw's value |
| `BankService.GenerateAccountNumber` | services/bank_service.go:178-189 | the number has exactly 20 decimal digits, the draws in order |
| `BankService.TitleOrDefault` | services/bank_service.go:131-133 | an empty title becomes "Go White", any other is kept |
| `BankService.CreateBankAccount` | services/bank_service.go:110-175 | an invalid request fails with `InvalidRequest`; a taken number or a missing holder makes the insert fail with `AccountCreateFailed`; every failure leaves the store unchanged; success iff valid, unique and the holder exists, and then exactly one account is added under the next id with a non-empty title; the store invariant is kept |
| `BankService.OpeningKeepsValid` | services/bank_service.go:136-156 | adding an account with an unused number under the next ID keeps the store invariant |
| `CardService.LuhnSumNonNegative` | services/card_service.go:310-323 | the checksum is never negative, so Go's `%` and Dafny's agree on it |
| `CardService.LuhnValue` | services/card_service.go:239 | a byte's digit value is its distance from '0' taken modulo 256, in 0..255 |
| `CardService.Checksum` | services/card_service.go:237-247 | the summing loop computes the left-to-right Luhn sum, doubling at even indices and subtracting 9 above 9 |
| `CardService.ValidateLuhn` | services/card_service.go:310-323 | accepts iff the sum is a multiple of 10 |
| `CardService.LuhnSumFromRight` | services/card_service.go:310-323 | the left-indexed sum equals the right-indexed ISO sum, with the parity set by the length |
| `CardService.ValidateLuhnIsIso` | services/card_service.go:310-323 | for even-length numbers, such as 16 digits, `validateLuhn` is the ISO/IEC 7812-1 Annex B check |
| `CardService.DigitBytes` | services/card_service.go:232-234 | each reading becomes its ASCII digit |
| `CardService.CompletesToTen` | services/card_service.go:250 | adding (10 − L mod 10) mod 10 to a sum L gives a multiple of 10 |
| `CardService.CheckDigitTopsUp` | services/card_service.go:250 | the check digit brings the prefix's checksum to a multiple of 10 |
| `CardService.AppendUndoubled` | services/card_service.go:237-247 | a digit appended at an odd index adds exactly its own value to the checksum |
| `CardService.CheckDigitCompletes` | services/card_service.go:250-251 | an odd-length prefix, such as 15 digits, followed by its check digit passes `validateLuhn` |
| `CardService.GenerateCardNumber` | services/card_service.go:229-252 | exactly 16 ASCII digits: the 15 readings then the check digit (10 − sum mod 10) mod 10, in 0..9; the result passes both `validateLuhn` and the ISO check |
| `CardService.MaskCardNumber` | services/card_service.go:211-216 | unchanged when the length is not 16; otherwise length 19, the first and last four kept and the eight middle digits replaced by exactly " **** **** " |
| `CardService.MaskHidesMiddle` | services/card_service.go:215 | two 16-digit numbers that agree on their first and last four mask to the same string |
| `CardService.CreateCardAsWritten` | services/card_service.go:62-79 | missing account and foreign holder fail first; for the holder it always fails, because the generated number always passes the check it rejects on |
| `CardService.CreateCard` | services/card_service.go:62-79 | the same first two checks; succeeds iff the account exists and belongs to the requester, returning a 16-digit Luhn-valid number that starts with the readings |
| `RateLimit.Prune` | utils/ratelimit.go:35-40 | the filter loop keeps exactly the entries strictly after the cutoff, in order |
| `RateLimit.RecentMembers` | utils/ratelimit.go:36-40 | an instant survives pruning iff it was recorded and is after the cutoff |
| `RateLimit.RecentAscending` | utils/ratelimit.go:36-40 | pruning keeps the order |
| `RateLimit.RecentKeepsAll` | utils/ratelimit.go:36-40 | a list entirely inside the window is kept whole |
| `RateLimit.RecentIdempotent` | utils/ratelimit.go:36-40 | pruning twice with one cutoff prunes nothing more |
| `RateLimit.RateLimiter.constructor` | utils/ratelimit.go:17-23 | a limiter with the given limit and window and no entries |
| `RateLimit.RateLimiter.Allow` | utils/ratelimit.go:26-52 | admits iff fewer than limit entries are strictly after now − window; stores the pruned list when the key existed; on admission appends now, so the list then holds at most limit entries; no other key changes; ordered lists stay ordered |
| `RateLimit.RateLimiter.Reset` | utils/ratelimit.go:55-59 | deletes the key and nothing else |
| `RateLimit.RateLimiter.GetRemaining` | utils/ratelimit.go:62-77 | limit minus the entries inside the window, with no state change; limit for a missing key, including after `Reset` |
| `RateLimit.RateLimiter.GetResetTime` | utils/ratelimit.go:80-90 | now for an empty or missing key, otherwise the first entry plus the window; with ordered lists the first entry is the oldest |
| `RateLimit.KeepsOrder` | utils/ratelimit.go:41-50 | the list `Allow` stores is ascending and not later than now |
| `RateLimit.OrderedLater` | utils/ratelimit.go:50 | with a clock that never goes back, the lists stay ordered from call to call |
| `Metrics.TallyRemove` | utils/metrics.go:113 | the sum of the per-type counts splits off any one type |
| `Metrics.TallyIncrement` | utils/metrics.go:113 | counting one more error of a type raises the sum of the counts by one |
| `Metrics.ErrorType` | utils/metrics.go:108-111 | an error is counted under its text, nil under "unknown" |
| `Metrics.CardStep` | utils/metrics.go:77-93 | create and delete move Total and Active together by ±1; block, unblock and expire move one unit between Active and Blocked or Expired; unknown names change nothing; conservation is kept in both directions |
| `Metrics.CardSteps` | utils/metrics.go:77-93 | any sequence of operations keeps Active + Blocked + Expired = Total and moves Total by creations minus deletions |
| `Metrics.Metrics.constructor` | utils/metrics.go:40-47 | the fresh metrics are all zero with an empty tally and satisfy the counter invariant |
| `Metrics.Metrics.RecordError` | utils/metrics.go:101-114 | ErrorCount + 1 and one more under the error's type; the tally still sums to ErrorCount |
| `Metrics.Metrics.RecordRequest` | utils/metrics.go:50-68 | TotalRequests + 1, the latency added, the average by truncating division, FailedRequests + 1 and an error recorded (its type counted, LastErrorTime set) only on error; the card counters, LastCardOperation and CriticalErrors unchanged; FailedRequests ≤ TotalRequests is kept |
| `Metrics.Metrics.RecordCardOperation` | utils/metrics.go:71-98 | the card counters move as `CardStep` says, so conservation is kept; LastCardOperation set; an error is recorded (type counted, LastErrorTime set) exactly when there is one; the request counters, latency, average, LastRequestTime and CriticalErrors unchanged |
| `Metrics.Metrics.RecordCriticalError` | utils/metrics.go:117-123 | CriticalErrors + 1, ErrorCount + 1, one more under the error's type and LastErrorTime set; the request counters, latency, average, LastRequestTime, LastCardOperation and the card counters unchanged |
| `Metrics.Metrics.ResetMetrics` | utils/metrics.go:147-163 | every counter zero and an empty tally, the Last* timestamps untouched |
| `Users.Utf8Width` | models/user.go:26 | one to four bytes per character, one exactly for ASCII |
| `Users.Utf8LengthBounds` | models/user.go:26-34 | a string's byte length is between its character count and four times it, equal for ASCII and double for two-byte characters |
| `Users.BeforeCreate` | models/user.go:25-36 | first name, last name and email are checked in that order against [2, 50], [2, 50] and [3, 100] bytes, the first failure reported; nil iff all three are in bounds |
| `Users.ShortFieldsPass` | models/user.go:25-36 | names of 2 to 12 characters and emails of 3 to 25 characters pass whatever their characters |
| `Users.CyrillicNameRefused` | models/user.go:26-28 | a 26-letter Cyrillic first name is 52 bytes and is refused |
| `Users.OneLetterAsciiNameRefused` | models/user.go:26-28 | a one-character ASCII first name is refused |
| `AuthController.ClassesDisjoint` | controllers/AuthController.go:69-75 | no character is in two of the four classes |
| `AuthController.ContainsSplice` | controllers/AuthController.go:69-75 | characters outside a class can be inserted anywhere without changing that class's test |
| `AuthController.UncountedIgnored` | controllers/AuthController.go:66-78 | characters outside the four classes count toward none of them |
| `AuthController.AppendKeepsAccepted` | controllers/AuthController.go:66-78 | appending characters to an accepted password keeps it accepted |
| `AuthController.ContainsSameCharacters` | controllers/AuthController.go:69-75 | a class test depends only on the multiset of characters |
| `AuthController.OrderIrrelevant` | controllers/AuthController.go:66-78 | acceptance does not depend on the order of the characters |
| `AuthController.AcceptedHasFourCharacters` | controllers/AuthController.go:66-78 | an accepted password has at least four characters, so any shorter one is refused |
| `AuthController.ExampleAccepted` | controllers/AuthController.go:66-78 | "Passw0rd!" has all four classes and is accepted |
| `GoArith.TruncDiv` | services/credit_service.go:91 | Go's integer quotient: the remainder has the sign of the dividend and is smaller than the divisor |

The contracts above rest on these reference definitions, which carry no contract of their own:

- `Calendar.AddMonths`: Go's `AddDate(0, k, 0)` with day-overflow normalisation (services/credit_service.go:111, 191).
- `Calendar.Periods`: `int(EndDate.Sub(StartDate).Hours() / 24 / 30)` (services/credit_service.go:91).
- `Models.Penalised`: the amount after the one-time ×1.1 penalty (services/payment_scheduler_service.go:131).
- `PaymentScheduler.Selects`: the two job queries' `Where` conditions (services/payment_scheduler_service.go:64, 97).
- `RateLimit.Recent`: the entries strictly after the window start, in order (utils/ratelimit.go:36-40).
- `CardService.LuhnSum` and `CardService.CheckDigit`: the doubling checksum and `(10 - sum % 10) % 10` (services/card_service.go:237-250).
- `Users.Utf8Length`: Go's `len` of a string, its UTF-8 byte length (models/user.go:26-34).

## Left out

- Database plumbing: GORM preloads, `Begin`/`Commit`/`Rollback` and association upserts are left out. A transaction is a store replaced only on success.
- The scheduler jobs' failing `Find` and failing `Commit` are left out (services/payment_scheduler_service.go:67-69, 80, 100-102, 113). Each returns an error with nothing changed; the model's jobs have no such outcome.
- Individual save failures are left out, except in the scheduler, where the failing writes are an input. `Create`, `PayCredit`, `Deposit`, `Withdraw` and `CreateBankAccount` assume every save and the commit succeed. The exceptions are the unique index on account numbers and the foreign key from an account to its holder, whose insert failures `CreateBankAccount` models. The read-back of the holder after the insert cannot fail once that foreign key holds, so its error path is not modelled.
- `CreditService.Create`: requires the store's keys to lie below the autoincrement counters (`FreshKeys`), which the database's autoincrement guarantees.
- The zero rate and zero-month cases are left out: the annuity formula divides zero by zero there. `AnnuityPayment` therefore requires rate > 0, and the schedule requires a non-negative period count.
- IEEE float64 rounding and int64 overflow are left out. Money is an exact real, the ×1.1 penalty is ×11/10, and counters are unbounded integers.
- Cent rounding of balances is left out. The balance column is `decimal(20,2)` (models/bank_account.go:12), so the database rounds every stored balance to cents. Payment amounts and journal amounts are full-precision floats (models/payment.go:24-25, models/transaction.go:10), and annuity payments and the ×1.1 penalty are rarely whole cents. The "balance drops by exactly the amount" clauses of `PayCredit`, `Deposit`, `Withdraw` and the scheduler steps, and the balance–journal agreement of `StepTracksJournal`, `RunTracksJournal` and `BatchTracksJournal`, therefore hold in the program only up to half a cent per stored write.
- Time zones and daylight saving are left out. Instants are UTC wall-clock readings.
- The email notifier after a credit is paid off is left out. It is an external call whose failure the source ignores, and leaving it out does not change any stored state.
- The central bank rate lookup is an input (`None` when it fails).
- Random and clock-derived digits are inputs: twenty draws for the account number, fifteen readings for the card number. A negative `UnixNano` reading, which would produce a '-' sign through Go's `%`, is not modelled.
- Card encryption, HMAC, CVV hashing, the expiry date and the card's storage are left out. `CreateCard` returns the number it would store.
- `validator` message assembly is left out. Validation is one `InvalidRequest` error whose conditions are the `required`, `gt=0`, `gte=0`, `min`/`max` and `omitempty` tags.
- The locks in `Metrics` and `RateLimiter` are left out. `RecordRequest`, `RecordCardOperation` and `RecordCriticalError` call `RecordError` while holding the same non-reentrant mutex, so in Go they would deadlock; the model gives only their counter effects.
- `Metrics.Metrics.RecordRequest`: `RequestsPerMinute` (float, clock based) is not modelled.
- `Metrics.Metrics.RecordRequest`: requires `TotalRequests` ≥ 0. Every reachable state satisfies this, because the counter starts at 0, `ResetMetrics` zeroes it and nothing decreases it.
- The scheduler's goroutines and tickers are left out. One job run is one call.
- A scheduler batch uses a single clock reading `now`, both for the selection query and for every payment's `RealPayDate`. The code reads `time.Now()` once for the query and again inside each `processPayment`. No contract depends on the difference.
- `CreditService.PayCredit`: the earliest PLANNED payment is any one with the smallest pay date; GORM's `First` after `Order("pay_date ASC")` breaks ties by primary key. Every contract holds for each choice, so the tie-break is not modelled.

## Findings

| source | as written | input that shows it | evidently intended | confidence | as-written member | corrected member |
|---|---|---|---|---|---|---|
| services/card_service.go:77-79 | `CreateCard` returns an error when `validateLuhn` accepts the generated number, and `generateCardNumber` always appends a correct check digit | any existing account whose holder requests a card | refuse only a number that fails the Luhn check | high, not executed | `CardService.CreateCardAsWritten` | `CardService.CreateCard` |
| services/bank_service.go:395-413 | `Transfer` commits the withdrawal in its own transaction before the deposit; when the deposit fails, the money has left the source and arrived nowhere | account 1 holds 100, account 2 does not exist, transfer 50 from 1 to 2: an error is returned and account 1 holds 50 | both halves in one transaction, no change on failure, total of balances preserved | high, not executed | `BankService.TransferAsWritten` | `BankService.Transfer` |
| services/payment_scheduler_service.go:98-100 | each payment of a batch carries its own preloaded copy of its account, so two due payments of one account both check and debit the same starting balance; the second save overwrites the first debit | account 1 holds 150, two PLANNED payments of 100 are due in one tick: both become PAID, the balance ends at 50 and 200 is journaled | read the account afresh for each payment, so the second payment is escalated and what is journaled is debited, up to the cent rounding of the stored balance | high, not executed | `PaymentScheduler.SnapshotBatchLosesDebit` | `PaymentScheduler.BatchTracksJournal` |
