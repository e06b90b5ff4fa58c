# Billing lifecycle of a personal-finance backend, in Dafny

This project models the billing core of a NestJS personal-finance service and proves properties of the model. The core covers:

- accounts (fixed bills, loans, credit cards and others);
- their installment schedules;
- the payments that settle them;
- each user's monthly summary;
- the credit-card link table;
- the user table;
- the bearer-token guard and the response envelope.

Two generations of the services exist side by side: `src/modules/*` and the older `src/*` copies. Both are modelled. Where an older copy behaves like the newer one, the model shares the member, and the table cites the newer copy.

How the model is built:

- **Persistence.** The database is the class `Store.Db` in `store.dfy`. It holds one sequence per table (accounts, installments, transactions, monthly summaries, card links) and a counter that hands out fresh ids. Users live in `Users.UserStore`.
- **Invariants.** `Db.Valid()` says that ids are unique and below the counter, that there is one summary per (user, year, month), and that card links are unique. Every mutating method preserves it. `Accounts.AllWellFormed` says every stored account has a valid start date and at least one installment when the field is set. The account operations preserve it too.
- **Services.** Each service is a module. Its methods take the `Db` and name in `modifies` the tables they write.
- **Inputs from outside.** The clock (`now`, `today`) is a parameter. The outcome of each step whose error the service logs and swallows is a boolean field of `Accounts.Faults`.
- **Shared vocabulary.** `common.dfy` holds the folds the services use: sums, counts, filters, first-match lookups and pointwise updates, with their algebra. `calendar.dfy` is the ECMA-262 `Date.UTC` arithmetic (sections 21.4.1, 21.4.2.1 and 21.4.3.4): a year argument 0..99 means 1900 + year, month overflow carries into the year, and a day past the month's end rolls on. Time values are not clipped to the ±8.64e15 ms range. `pagination.dfy` is the skip/take window and page counting.

Money is integer cents, and integers are unbounded. `Math.round(t / n)` is `(2t + n) div 2n`, the JavaScript rounding for every integer `t` and positive `n`.

## Model

| member | source | states |
|---|---|---|
| Installments.GetById | src/modules/installments/installments.service.ts:29-46 | a found row is in the table with that id; the lookup fails with INSTALLMENT_NOT_FOUND exactly when no row has the id |
| Installments.Delete | src/modules/installments/installments.service.ts:75-79 | deleting a single installment is always refused with INSTALLMENT_INDIVIDUAL_DELETION_NOT_ALLOWED |
| Installments.RoundHalfUp | src/modules/installments/installments.service.ts:236 | the result lies within half of t/n, ties rounding up, which is `Math.round` on the exact quotient |
| Installments.RoundHalfUpUnique | src/modules/installments/installments.service.ts:236 | that integer is unique, so the closed form is the only rounding meeting the contract |
| Installments.NormalizeStartDate | src/modules/installments/installments.service.ts:484-498 | a Date argument is kept, except that a year 0..99 becomes 1900 + year when the service rebuilds it with `Date.UTC`; a valid Y-M-D string gives that day at 00:00 UTC, its year read the same way; the result is always a valid calendar date |
| Installments.StartDateRollsOver | src/modules/installments/installments.service.ts:484-498 | an impossible string date (2025-02-30) rolls over to 2025-03-02 instead of being rejected |
| Installments.StartDateTwoDigitYear | src/modules/installments/installments.service.ts:484-498 | year 50, as a string or as a Date, starts the schedule in 1950 |
| Installments.CalculateDueDate | src/modules/installments/installments.service.ts:504-530 | the due date is a valid calendar date and its month and year are the reference month and year reported with it |
| Installments.DueDateIgnoresBaseDay | src/modules/installments/installments.service.ts:504-530 | the day of the base date plays no part in any due date |
| Installments.MonthsAfter | src/modules/installments/installments.service.ts:515-519 | stepping k months from a valid month always gives a month 1..12 |
| Installments.MonthsAfterIsCarry | src/modules/installments/installments.service.ts:515-519 | k months after (y, m) is year y + (m-1+k) div 12, month (m-1+k) mod 12 + 1: the month overflow carries into the year |
| Installments.DueDateInTargetMonth | src/modules/installments/installments.service.ts:504-530 | when the due day exists in the target month, installment k is due on that day of the month k-1 months after the start |
| Installments.DueDateRollsOver | src/modules/installments/installments.service.ts:504-530 | a due day past the end of the target month is not clamped: it rolls into the next month by the excess |
| Installments.DueDateExample | src/modules/installments/installments.service.ts:504-530 | starting 15 Jan 2025 with due day 31, installment 2 is due 3 Mar 2025; from Nov 2025, installment 3 falls in Jan 2026 |
| Installments.EvenSplit | src/modules/installments/installments.service.ts:224-283 | the even-split plan has n rows numbered 1..n with their due dates; all but the last carry the rounded share; the last carries the rest |
| Installments.FixedSchedule | src/modules/installments/installments.service.ts:290-336 | the fixed-amount plan has n rows numbered 1..n with their due dates, each carrying the installment amount |
| Installments.EvenSplitSum | src/modules/installments/installments.service.ts:236-258 | the amounts of an even split add up to the total exactly |
| Installments.SharesSum | src/modules/installments/installments.service.ts:236-258 | k rows of the same share add up to k times the share |
| Installments.FixedScheduleSum | src/modules/installments/installments.service.ts:305-318 | a fixed-amount schedule adds up to n times the amount |
| Installments.LastInstallmentBound | src/modules/installments/installments.service.ts:236-258 | the last amount differs from the share by less than n/2 and can be negative (2 cents in 4 parts gives 1, 1, 1, -1) |
| Installments.PlanEvenSplit | src/modules/installments/installments.service.ts:240-268 | the loop that fills the plan builds exactly the even-split schedule |
| Installments.PlanFixedAmount | src/modules/installments/installments.service.ts:305-322 | the loop that fills the plan builds exactly the fixed-amount schedule |
| Installments.Rows | src/modules/installments/installments.service.ts:270-275 | the stored rows copy the plan field by field, with consecutive fresh ids, unpaid and without a payment time |
| Installments.RowsKeyed | src/modules/installments/installments.service.ts:270-275 | appending the rows with ids from the counter keeps ids unique and below the advanced counter |
| Installments.AccountScheduleFacts | src/modules/installments/installments.service.ts:116-121 | the read-back is a permutation of the account's installments, sorted by number |
| Installments.FreshScheduleReadBack | src/modules/installments/installments.service.ts:276-282 | for an account with no earlier installments, the read-back after the insert is the created schedule itself |
| Installments.InsertMany | src/modules/installments/installments.service.ts:270-275 | the table grows by the plan's rows at the counter, and the counter by the plan's length |
| Installments.CreateInstallmentsFromTotalAmount | src/modules/installments/installments.service.ts:224-283 | on success the even-split rows are appended and the account's schedule is returned; a store failure gives INSTALLMENT_CREATION_ERROR and changes nothing |
| Installments.CreateInstallmentsFromAmount | src/modules/installments/installments.service.ts:290-336 | the same for the fixed-amount schedule |
| Installments.PaidTransition | src/modules/installments/installments.service.ts:461-478 | paidAt is set to now on unpaid to paid, cleared on paid to unpaid, and otherwise kept; no other field changes |
| Installments.PaidTransitionIdempotent | src/modules/installments/installments.service.ts:461-478 | setting the same status twice is setting it once; the first payment time survives |
| Installments.PaidTransitionRoundTrip | src/modules/installments/installments.service.ts:461-478 | paying then un-paying leaves the row unpaid with no payment time, which is the original row when it started that way |
| Installments.UpdatePaidStatus | src/modules/installments/installments.service.ts:461-478 | the row with that id is rewritten with the transition computed from the row the caller passed; nothing else changes |
| Installments.MarkAsUnpaid | src/modules/installments/installments.service.ts:423-426 | a missing id fails with INSTALLMENT_NOT_FOUND and changes nothing; otherwise the row becomes unpaid with paidAt cleared |
| Installments.MarkAsPaidSimple | src/modules/installments/installments.service.ts:433-436 | a missing id fails with INSTALLMENT_NOT_FOUND; otherwise the row is marked paid by the transition and no transaction is made |
| Installments.MarkAsPaid | src/modules/installments/installments.service.ts:342-402 | rejects a missing id, an already paid row and an existing payment, each changing nothing; otherwise records one payment transaction and leaves the row paid at `now` |
| Installments.SettleAfterPayment | src/modules/installments/installments.service.ts:380-390 | the status update after the payment leaves the row as one payment at `now` would |
| Installments.IndexOfId | src/modules/installments/installments.service.ts:380-390 | a row of the table sits at the returned position |
| Installments.PaidUpdateOverwrites | src/modules/installments/installments.service.ts:380-390 | the payment's write followed by the status update equals one write at `now` |
| Installments.MarkAllUnpaidAsPaid | src/modules/installments/installments.service.ts:441-455 | one bulk update marks every unpaid installment of the account paid at the same instant |
| Installments.MarkAllUnpaidAsPaidEffect | src/modules/installments/installments.service.ts:441-455 | afterwards every installment of the account is paid; exactly its unpaid ones changed, and they got paidAt = now; ids are kept |
| Installments.HasNextPageIff | src/modules/installments/installments.service.ts:543-544 | `page < Math.ceil(total / limit)` holds iff page·limit < total for a limit ≥ 0, and iff total < page·limit for a negative one |
| Installments.BuildPaginatedResult | src/modules/installments/installments.service.ts:536-556 | defined for every limit and page, which reach it unvalidated (src/modules/installments/installments.service.ts:90-106); docs, total, limit, page and offset pass through; for a limit ≥ 0 (0 making the page count Infinity or NaN) hasNextPage iff page·limit < total, for a negative limit iff total < page·limit; hasPrevPage iff page > 1 |
| Installments.PaginatedResultAgrees | src/modules/installments/installments.service.ts:536-556 | for every limit ≥ 0 and every page, with offset = (page-1)·limit, the page-count rule agrees with the offset + limit < total rule of the other lists |
| LegacyInstallments.FindById | src/installments/installments.service.ts:17-30 | a found row is in the table with that id; the lookup fails with the not-found message exactly when no row has the id |
| LegacyInstallments.FindByAccount | src/installments/installments.service.ts:35-40 | a permutation of exactly the account's rows, sorted by number |
| LegacyInstallments.FindUnpaidByAccount | src/installments/installments.service.ts:45-53 | exactly the account's unpaid rows, sorted by number; the same multiset as the filter |
| LegacyInstallments.FindOverdueByAccount | src/installments/installments.service.ts:58-72 | exactly the account's unpaid rows due strictly before the reference date, sorted by number |
| LegacyInstallments.SortedFilter | src/installments/installments.service.ts:45-72 | sorting a filtered table keeps exactly the rows that pass the filter, in number order |
| LegacyInstallments.OverdueAreUnpaid | src/installments/installments.service.ts:45-72 | every overdue installment is also listed as unpaid |
| LegacyInstallments.UpdatePaidStatus | src/installments/installments.service.ts:78-104 | loads the row by id and decides paidAt from it; a missing id fails with the not-found message; the result is the transition of the loaded row |
| LegacyInstallments.MarkAsPaid | src/installments/installments.service.ts:109-111 | the paid-status update with isPaid = true |
| LegacyInstallments.MarkAsUnpaid | src/installments/installments.service.ts:116-118 | the paid-status update with isPaid = false |
| LegacyInstallments.MissingIdChangesNothing | src/installments/installments.service.ts:78-104 | a missing id leaves the table as it was |
| LegacyInstallments.PaidStatusUpdateIdempotent | src/installments/installments.service.ts:78-104 | applying the same status twice equals applying it once, whatever the second clock reading |
| LegacyInstallments.PaidStatusUpdateTouchesOnlyThatRow | src/installments/installments.service.ts:78-104 | only the row with that id changes, only in its two status fields, and it ends with the requested status |
| MonthlySummaries.CalculateStatus | src/modules/monthly-summary/monthly-summary.service.ts:204-222 | the four bands each as an iff: EXCELLENT for a non-negative balance and no bills, GOOD with bills, WARNING for a balance from -50000 to -1, CRITICAL otherwise; the older copy at src/monthly-summary/monthly-summary.service.ts:118-136 is the same rule |
| MonthlySummaries.StatusMonotoneInBalance | src/modules/monthly-summary/monthly-summary.service.ts:204-222 | a lower balance never gives a better status |
| MonthlySummaries.NegativeBalanceIgnoresBills | src/modules/monthly-summary/monthly-summary.service.ts:204-222 | with a negative balance the bills play no part |
| MonthlySummaries.StatusBoundaries | src/modules/monthly-summary/monthly-summary.service.ts:204-222 | the boundary values: 0/0 EXCELLENT, 0/1 GOOD, -1 and -50000 WARNING, -50001 CRITICAL, negative bills CRITICAL |
| MonthlySummaries.SummaryRow | src/modules/monthly-summary/monthly-summary.service.ts:36-70 | the written row has the (user, year, month) key, balance = income - expenses, the status of that balance, and the calculation time |
| MonthlySummaries.OnlyRowWithKey | src/modules/monthly-summary/monthly-summary.service.ts:36-70 | with unique keys, a row with the key is the only one |
| MonthlySummaries.Upsert | src/modules/monthly-summary/monthly-summary.service.ts:36-70 | the table grows by at most one row, holds the computed row, every row with the input's key is the computed row, and rows of other keys keep their place |
| MonthlySummaries.UpsertKeepsKeysUnique | src/modules/monthly-summary/monthly-summary.service.ts:36-70 | the upsert keeps one row per key |
| MonthlySummaries.UpsertStores | src/modules/monthly-summary/monthly-summary.service.ts:36-70 | after the upsert the key has exactly one row, and it is the computed row |
| MonthlySummaries.UpsertKeepsOthers | src/modules/monthly-summary/monthly-summary.service.ts:36-70 | rows of other keys are unchanged and in place |
| MonthlySummaries.UpsertIdempotent | src/modules/monthly-summary/monthly-summary.service.ts:36-70 | upserting the same input twice equals upserting it once at the later time |
| MonthlySummaries.UpsertDiffersOnlyInTimestamp | src/modules/monthly-summary/monthly-summary.service.ts:36-70 | two upserts of one input at different times differ only in lastCalculatedAt |
| MonthlySummaries.UpsertMonthlySummary | src/modules/monthly-summary/monthly-summary.service.ts:36-70 | the summaries table becomes the upsert of the input and the stored row is returned; the older copy at src/monthly-summary/monthly-summary.service.ts:32-66 is the same |
| MonthlySummaries.CalculateMonthlySummary | src/modules/monthly-summary/monthly-summary.service.ts:75-87 | the call resolves without doing anything |
| MonthlySummaries.BalanceIsSignedSum | src/modules/monthly-summary/monthly-summary.service.ts:138-149 | income minus expenses is the sum of the signed values |
| MonthlySummaries.BillsAreDueInMonth | src/modules/monthly-summary/monthly-summary.service.ts:151-163 | an installment counts as a bill iff it is the user's, unpaid, and due in that calendar month (a year 0..99 meaning 1900 + year) |
| MonthlySummaries.ComputeMonthTotals | src/modules/monthly-summary/monthly-summary.service.ts:123-170 | the loops compute the month's income, expenses, unpaid bills and bill count as the folds define them |
| MonthlySummaries.RecalculateSummaryForMonth | src/modules/monthly-summary/monthly-summary.service.ts:118-182 | the month's totals are computed and upserted under (user, year, month) |
| MonthlySummaries.UpsertAllKeepsKeysUnique | src/modules/monthly-summary/monthly-summary.service.ts:187-195 | upserting a list of months keeps one row per key |
| MonthlySummaries.UpsertAllStores | src/modules/monthly-summary/monthly-summary.service.ts:187-195 | after upserting a list, a month not repeated later in the list holds its computed row |
| MonthlySummaries.MonthInputs | src/modules/monthly-summary/monthly-summary.service.ts:187-195 | one input per month requested |
| MonthlySummaries.RecalcMonthsStores | src/modules/monthly-summary/monthly-summary.service.ts:187-195 | after a recalculation of several months, each month not repeated later holds the row the recalculation computes for it |
| MonthlySummaries.FindAfterOtherUpsert | src/modules/monthly-summary/monthly-summary.service.ts:36-70 | an upsert of another key does not change what a key's lookup finds |
| MonthlySummaries.RecalculateSummariesForMonths | src/modules/monthly-summary/monthly-summary.service.ts:187-195 | the loop recalculates each requested month in order |
| MonthlySummaries.GenerateSummariesForAccount | src/modules/monthly-summary/monthly-summary.service.ts:93-113 | a missing account fails with "Account X not found" and changes nothing; otherwise the owner's months are recalculated |
| LegacySummaries.GenerateSummariesForAccount | src/monthly-summary/monthly-summary.service.ts:88-96 | always rejected with the not-implemented message |
| LegacySummaries.RecalculateSummariesForMonths | src/monthly-summary/monthly-summary.service.ts:101-109 | always rejected with the not-implemented message |
| Accounts.ClosingPeriod | src/modules/accounts/accounts.service.ts:65-81 | a card bills in the current month up to and including its closing day and in the next month after it; December rolls into January of the next year |
| Accounts.ReferencePeriod | src/modules/accounts/accounts.service.ts:59-90 | given month and year are kept when both are set; otherwise a card with a closing day uses the closing rule and anything else uses the start date's month |
| Accounts.CalculateMonthlyInterestRate | src/modules/accounts/accounts.service.ts:1028-1092 | the rate is exactly zero when the installments repay the principal |
| Accounts.CalculateLoanAmounts | src/modules/accounts/accounts.service.ts:996-1022 | the stored total is the principal; principal plus interest is what the installments pay; zero interest has a zero rate |
| Accounts.CreateAmounts | src/modules/accounts/accounts.service.ts:90-133 | the iff for rejection: a FIXED account with installments but no installment amount, or a LOAN missing any of the three amounts; each error's message; the accepted totals |
| Accounts.UpdateAmounts | src/modules/accounts/accounts.service.ts:240-278 | the iff for rejection; a LOAN patch without installmentAmount is always rejected; the FIXED total is amount·count when both are given, otherwise the patched or stored total |
| Accounts.SchedulePlan | src/modules/accounts/accounts.service.ts:152-181 | a schedule is generated iff the account has installments and an amount to use; FIXED and LOAN with an amount get n equal rows summing to n·amount; otherwise the total is split evenly and the rows sum to it |
| Accounts.GetByIdFull | src/modules/accounts/accounts.service.ts:473-527 | fails iff the id is missing; otherwise the schedule sorted by number; amountPaid + remainingAmount = total; amountPaid is the sum of paid installments for a LOAN and 0 otherwise |
| Accounts.AmountPaidCountsEachPaidRow | src/modules/accounts/accounts.service.ts:508-515 | the paid sum over the read-back equals the paid sum over the table for the account |
| Accounts.List | src/modules/accounts/accounts.service.ts:529-561 | defaults page 1 and limit 10; total is the number of matches; at most limit rows, a full page when more follow; totalPages is the ceiling of total / limit |
| Accounts.ListPageHoldsNewest | src/modules/accounts/accounts.service.ts:540-550 | page p of size l holds the matches newest first from the ((p-1)·l)-th on: l of them while they last, only the rest on the last page, none past it |
| Accounts.ListShowsEveryMatch | src/modules/accounts/accounts.service.ts:540-550 | every match is listed: the j-th newest is on page j / l + 1 at position j mod l |
| Accounts.ListReturnsMatches | src/modules/accounts/accounts.service.ts:529-561 | every listed account exists and passes the user and paid filters |
| Accounts.GetPeriodStatisticsTyped | src/modules/accounts/accounts.service.ts:642-677 | counts and amounts of the period's accounts, split into paid and unpaid, with paid + unpaid = total for both; the older copy at src/accounts/accounts.service.ts:438-473 is the same |
| Accounts.NewAccount | src/modules/accounts/accounts.service.ts:135-149 | the written row carries the input's user and type, isPaid and isPreview defaulting to false, and the derived reference period |
| Accounts.GenerateSchedule | src/modules/accounts/accounts.service.ts:152-181 | the table grows by the generated schedule, or by nothing when generation fails |
| Accounts.AppendAccount | src/modules/accounts/accounts.service.ts:151 | the new row is appended under a fresh id and is what a lookup of that id finds |
| Accounts.InsertAccount | src/modules/accounts/accounts.service.ts:151-192 | the row, its schedule and its month's summary are written, the id counter advancing past the row and the schedule; failures of the last two are swallowed |
| Accounts.Create | src/modules/accounts/accounts.service.ts:54-196 | a rejected amount check changes nothing; otherwise the row, schedule and summary are written, the id counter advances past them, and the full view of the new account is returned |
| Accounts.ApplyPatch | src/modules/accounts/accounts.service.ts:282-301 | id and owner are kept; the total is the recomputed one; an absent creditCardId keeps the stored card, a given one (possibly null) replaces it |
| Accounts.AffectedMonths | src/modules/accounts/accounts.service.ts:350-369 | the new period when it is set, and the old one when it was set and differs: at most two distinct months |
| Accounts.WriteUpdate | src/modules/accounts/accounts.service.ts:282-383 | the patched row is written; the schedule is replaced, and the id counter advanced past it, when a schedule field changed and the row has installments; the affected months are recalculated |
| Accounts.WritePatchedRow | src/modules/accounts/accounts.service.ts:282-303 | only the row with the id changes, to the patched row, and the patched row is still well formed |
| Accounts.RebuildSchedule | src/modules/accounts/accounts.service.ts:305-345 | when a schedule field changed and the row has installments, every installment of the account is dropped and a fresh schedule appended under fresh ids; otherwise the table and the id counter are untouched |
| Accounts.RecalculateMonths | src/modules/accounts/accounts.service.ts:347-379 | with no affected month, or when the recalculation fails, the summaries are untouched; otherwise each affected month is recalculated |
| Accounts.Update | src/modules/accounts/accounts.service.ts:198-383 | a missing id or a rejected amount check changes nothing; otherwise the writes above, and the updated view is returned |
| Accounts.WriteAccepted | src/modules/accounts/accounts.service.ts:300-382 | for a found row: patched row, rebuilt schedule and recalculated months, transactions and card links untouched, and the returned view is the one of the updated row |
| Accounts.DeleteLinks | src/modules/accounts/accounts.service.ts:411-423 | a card loses all its links by card; any other account loses its links by account |
| Accounts.DeleteRows | src/modules/accounts/accounts.service.ts:428-453 | one transaction removes the payments of the account's installments, the account's transactions, its installments and the row |
| Accounts.Delete | src/modules/accounts/accounts.service.ts:385-467 | a missing id fails and changes nothing; otherwise the cascade above, with the link removal and the summary recalculation swallowed on failure |
| Accounts.DeleteFound | src/modules/accounts/accounts.service.ts:428-467 | for a found row: card links removed unless that step fails, the account, its installments and their payments and linked transactions removed, and the months it counted in recalculated |
| Accounts.DeleteLeavesNoDanglingRows | src/modules/accounts/accounts.service.ts:428-453 | after the cascade no account has the deleted id, no installment belongs to it, no transaction is linked to it or pays one of its installments, and every other row survives; a surviving account may still carry a deleted card's id in creditCardId |
| Accounts.MarkPaidCheck | src/modules/accounts/accounts.service.ts:727-750 | accepted iff the account exists, belongs to the user, is not yet paid, and any given payment covers the total; each rejection's error |
| Accounts.SettleAccount | src/modules/accounts/accounts.service.ts:761-767 | the account becomes paid and no longer a preview |
| Accounts.RecordPayment | src/modules/accounts/accounts.service.ts:769-786 | a payment transaction for the settled account is appended, or nothing when it fails |
| Accounts.MarkAsPaidFull | src/modules/accounts/accounts.service.ts:727-791 | a rejected check changes nothing; otherwise the unpaid installments are paid, the account is settled and the payment is recorded, each failure swallowed as the service does |
| Accounts.AssociateAccountToCreditCardFull | src/modules/accounts/accounts.service.ts:835-866 | a missing or foreign account and a failed link check change nothing; otherwise the link is stored and update runs. On failure (always for a LOAN) the link stays and accounts, installments, summaries and the id counter are unchanged. On success only the account's row is patched, to creditCardId = the card; the installments and the id counter are unchanged; the affected months are recalculated |
| Accounts.Disassociate | src/modules/accounts/accounts.service.ts:875-905 | a missing account, one not carrying the card, or a missing link fails and changes nothing; otherwise the link is removed and update runs with the patch. A failed update leaves accounts, installments, summaries and the id counter unchanged. A successful one patches the row (creditCardId as the patch says), rebuilds the schedule and advances the counter exactly as update does, and recalculates the affected months |
| Accounts.DisassociateAccountFromCreditCardFull | src/modules/accounts/accounts.service.ts:875-905 | as written: the link is removed. A LOAN fails with nothing else changed. Any other account has only its row patched, keeping creditCardId on the card, with installments and the id counter unchanged and the affected months recalculated |
| Accounts.DisassociateAccountFromCreditCardCorrected | src/modules/accounts/accounts.service.ts:875-905 | with the null patch: the same frame, but a successful call clears creditCardId |
| Accounts.DisassociationKeepsCardId | src/modules/accounts/accounts.service.ts:895 | the empty patch leaves creditCardId unchanged on any non-LOAN account, so the card stays referenced |
| LegacyAccounts.CalculateLoanAmounts | src/accounts/accounts.service.ts:783-810 | in exact arithmetic the payment times the count is the principal, the interest is 0 and the rate 0.01 (the service computes in doubles) |
| LegacyAccounts.CreatePeriod | src/accounts/accounts.service.ts:49-51 | each reference field falls back to the start date on its own |
| LegacyAccounts.PeriodsAgree | src/accounts/accounts.service.ts:49-51 | the two copies agree when both fields or neither are given (no closing rule); with only the month given they differ |
| LegacyAccounts.CreateTotal | src/accounts/accounts.service.ts:53-73 | rejected iff a LOAN with installments has neither total nor installment amount; a LOAN with only the amount stores amount·count; otherwise the given total |
| LegacyAccounts.EvenSchedule | src/accounts/accounts.service.ts:93-107 | the even split runs iff count and total are set; rows numbered 1..n for the account, unpaid, summing to the total |
| LegacyAccounts.RowsSum | src/accounts/accounts.service.ts:93-107 | the stored rows add up as their plan does |
| LegacyAccounts.EvenScheduleIsGenerated | src/accounts/accounts.service.ts:93-107 | the older create's schedule is the newer generator run without an installment amount |
| LegacyAccounts.Create | src/accounts/accounts.service.ts:44-120 | a rejected total changes nothing; otherwise the row and the even schedule are written (the summary call is rejected and swallowed) and the view is returned |
| LegacyAccounts.FindAppended | src/accounts/accounts.service.ts:119 | a just-appended account is found by the full lookup |
| LegacyAccounts.UpdatedTotal | src/accounts/accounts.service.ts:139-168 | in exact arithmetic the stored total is the patch's or else the existing one: the loan recomputation writes back the total it started from |
| LegacyAccounts.ApplyPatch | src/accounts/accounts.service.ts:132-168 | id and owner kept, total as above, and an empty patch changes nothing |
| LegacyAccounts.WritePatch | src/accounts/accounts.service.ts:177-181 | the row with the id is replaced by the patched row |
| LegacyAccounts.AppendSchedule | src/accounts/accounts.service.ts:183-204 | when a schedule field changed, an even schedule is appended after the existing rows; nothing is removed |
| LegacyAccounts.UpdateFound | src/accounts/accounts.service.ts:177-223 | for a found row: the row is patched, the schedule appended as above, and the updated view is returned |
| LegacyAccounts.Update | src/accounts/accounts.service.ts:122-224 | a missing id changes nothing; otherwise the row is patched and, when schedule fields changed, a new even schedule is appended without removing the old one |
| LegacyAccounts.AppendedScheduleRepeatsNumbers | src/accounts/accounts.service.ts:184-201 | after such an update the account has two installments numbered 1 |
| LegacyAccounts.Delete | src/accounts/accounts.service.ts:232-263 | only the account row is removed by the service's single delete call; installments and transactions remain under the assumption that the schema does not cascade |
| LegacyAccounts.MarkAsPaidFull | src/accounts/accounts.service.ts:523-581 | the same checks as the newer copy; installments paid, account settled, and no transaction, since the older payment call is rejected and swallowed |
| Transactions.Create | src/modules/transactions/transactions.service.ts:40-64 | one row is appended under a fresh id and returned |
| Transactions.FindTransaction | src/modules/transactions/transactions.service.ts:66-76 | the found row has the id; TRANSACTION_NOT_FOUND exactly when none has it |
| Transactions.CreatedIsFound | src/modules/transactions/transactions.service.ts:40-76 | a created transaction is found by its id |
| Transactions.ResetInstallment | src/modules/transactions/transactions.service.ts:81-96 | the paid installment of the transaction becomes unpaid without a payment time |
| Transactions.ReopenAccount | src/modules/transactions/transactions.service.ts:98-133 | a paid account of the transaction is reopened when it has no installments or some unpaid one |
| Transactions.Delete | src/modules/transactions/transactions.service.ts:78-148 | a missing id changes nothing; otherwise the installment is reset, the account reopened as above and the row removed |
| Transactions.DeleteRemovesOnlyThatRow | src/modules/transactions/transactions.service.ts:136-138 | exactly the row with the id disappears |
| Transactions.DeleteReopensAccountIff | src/modules/transactions/transactions.service.ts:98-133 | the account stays paid iff it has installments and all are paid; other accounts are unchanged |
| Transactions.DeletingInstallmentPaymentReopens | src/modules/transactions/transactions.service.ts:78-133 | deleting an installment's payment always reopens its account |
| Transactions.CreateInstallmentPayment | src/modules/transactions/transactions.service.ts:346-393 | an existing payment and a missing installment are refused and change nothing; otherwise one payment row is added and the installment is paid at now |
| Transactions.OnePaymentPerInstallment | src/modules/transactions/transactions.service.ts:346-393 | after a payment there is exactly one payment for the installment |
| Transactions.PaymentThenDeleteRestores | src/modules/transactions/transactions.service.ts:78-148 | deleting a fresh installment payment removes it and leaves the installment unpaid, which for an unpaid row is the table before the payment |
| Transactions.AccountPaymentDateIs | src/modules/transactions/transactions.service.ts:410-420 | the payment date is the due day in the reference month when one is set (a reference year 0..99 meaning 1900 + year, rolling over past the month's end) and the start date otherwise |
| Transactions.CreateAccountPayment | src/modules/transactions/transactions.service.ts:395-443 | a missing account fails with ACCOUNT_NOT_FOUND and changes nothing; otherwise one payment row is appended |
| Transactions.EarlyRejectionChangesNothing | src/modules/transactions/transactions.service.ts:493-526 | a missing or paid account or an insufficient payment for the installments is refused before any write |
| Transactions.CoveredInstallmentsEndPaid | src/modules/transactions/transactions.service.ts:511-536 | when the payment covers the unpaid installments they are all marked paid at now and no other row changes |
| Transactions.AcceptedPayment | src/modules/transactions/transactions.service.ts:493-552 | an accepted payment was for an unpaid account, covered the installments and total·100, and the account ends paid iff it has a total |
| Transactions.MarkStep | src/modules/transactions/transactions.service.ts:528-536 | the loop step: marking the next unpaid row extends the marked prefix by one |
| Transactions.MarkEachPaid | src/modules/transactions/transactions.service.ts:528-536 | the loop marks exactly the account's unpaid installments paid at now |
| Transactions.ValidateAccountPayment | src/modules/transactions/transactions.service.ts:493-552 | result and new state are those of the ordered checks, including installments marked paid before the total check can still fail |
| Transactions.CreateExpense | src/modules/transactions/transactions.service.ts:328-344 | a linked expense runs the payment validation first; a refusal keeps its writes but adds no row; otherwise the expense is appended |
| Transactions.CreateIncome | src/modules/transactions/transactions.service.ts:315-326 | the row is stored with type INCOME |
| Transactions.NewestFirstFacts | src/modules/transactions/transactions.service.ts:194-201 | the newest-first order is a permutation and is sorted by date descending |
| Transactions.WindowSorted | src/modules/transactions/transactions.service.ts:194-201 | a window of a sorted list is sorted |
| Transactions.GetAll | src/modules/transactions/transactions.service.ts:150-212 | defaults 10/1, offset (page-1)·limit, total the number of matches, at most limit rows sorted newest first; hasNextPage iff rows remain after the page, and then the page is full; hasPrevPage iff page > 1 |
| Transactions.GetAllPageHoldsNewest | src/modules/transactions/transactions.service.ts:193-201 | the page holds the sorted matches from the offset on: limit of them while they last, only the rest on the last page, none past it |
| Transactions.GetAllShowsEveryMatch | src/modules/transactions/transactions.service.ts:193-201 | every match is listed: the j-th in the sorted order is on page j / l + 1 at position j mod l |
| Transactions.GetAllReturnsMatches | src/modules/transactions/transactions.service.ts:150-212 | every listed row is the user's and passes every given filter |
| Transactions.GetUserBalance | src/modules/transactions/transactions.service.ts:214-313 | income, expense, linked and standalone expenses, balance and the account totals are the month's folds; the period runs from the first to the last day of the month |
| Transactions.SumTransactions | src/modules/transactions/transactions.service.ts:246-262 | the loop computes income, expense and linked expense as the folds |
| Transactions.SumAccounts | src/modules/transactions/transactions.service.ts:268-290 | the loop computes the loan, all and fixed account totals as the folds |
| Transactions.BalanceAgreesWithSummary | src/modules/transactions/transactions.service.ts:214-313 | the balance's income and expense agree with the monthly summary's totals for the month |
| Transactions.StandaloneExpensesAreUnlinked | src/modules/transactions/transactions.service.ts:262-264 | expense minus linked expense is the sum of expenses linked to nothing |
| Transactions.AccountTotalsSplit | src/modules/transactions/transactions.service.ts:268-290 | the all-accounts total is the loan total plus the fixed total plus the rest |
| Transactions.AccountTypeName | src/modules/transactions/transactions.service.ts:662-677 | every type has a non-empty display name, and only OTHER is shown as "Outros" |
| Transactions.AccountTypeNamesDistinct | src/modules/transactions/transactions.service.ts:662-677 | different account types get different display names |
| Transactions.IndexOfKey | src/modules/transactions/transactions.service.ts:600-625 | a found index holds the category; none means no item has it |
| Transactions.GroupKeysUnique | src/modules/transactions/transactions.service.ts:600-625 | the grouping has one item per category |
| Transactions.GroupCoversKeys | src/modules/transactions/transactions.service.ts:600-625 | a category has an item iff some expense falls in it |
| Transactions.CountLast | src/modules/transactions/transactions.service.ts:600-625 | a count over a list is positive iff it is over its prefix or the last element matches |
| Transactions.AddExpenseCovers | src/modules/transactions/transactions.service.ts:600-625 | adding an expense keeps old categories and adds its own |
| Transactions.GroupValues | src/modules/transactions/transactions.service.ts:600-625 | each item's value is the sum of the expenses in its category |
| Transactions.GroupTotal | src/modules/transactions/transactions.service.ts:600-625 | the items add up to all the expenses |
| Transactions.AddExpenseTotal | src/modules/transactions/transactions.service.ts:600-625 | adding an expense adds its value to the grand total |
| Transactions.NewItemColour | src/modules/transactions/transactions.service.ts:606-641 | a new entry's colour is the table colour `GetCategoryColor` picks unless its key is a member name of `Object.prototype`, which only a free-text category can be |
| Transactions.InheritedCategoryColour | src/modules/transactions/transactions.service.ts:614-641 | an unlinked expense with category "constructor" gets the inherited member, not a colour |
| Transactions.GroupExpenses | src/modules/transactions/transactions.service.ts:600-625 | the loop builds exactly the grouping |
| Transactions.GetExpensesByCategory | src/modules/transactions/transactions.service.ts:554-660 | the grouped expenses of the range, as a permutation sorted by value descending; each entry's colour is `getCategoryColor`'s lookup as written |
| CreditCardItems.CheckCard | src/modules/credit-card-items/credit-card-items.service.ts:28-43 | accepted iff the id exists and is a credit card; a missing card fails with not found |
| CreditCardItems.IsAccountLinkedToCreditCard | src/modules/credit-card-items/credit-card-items.service.ts:192-206 | true iff the pair is in the table |
| CreditCardItems.LinkCheck | src/modules/credit-card-items/credit-card-items.service.ts:24-83 | the ordered checks: card missing, not a card, account missing, already linked; a success is for the new pair |
| CreditCardItems.LinkAccountToCreditCard | src/modules/credit-card-items/credit-card-items.service.ts:24-83 | the pair is appended exactly when the checks pass |
| CreditCardItems.LinkedAfterLink | src/modules/credit-card-items/credit-card-items.service.ts:24-83 | after a link the pair is linked, exactly once |
| CreditCardItems.UnlinkAccountFromCreditCard | src/modules/credit-card-items/credit-card-items.service.ts:88-114 | a missing pair fails and changes nothing; otherwise the pair is removed |
| CreditCardItems.UnlinkRemovesOnlyThePair | src/modules/credit-card-items/credit-card-items.service.ts:88-114 | the unlink removes exactly one row, the pair, and keeps all others |
| CreditCardItems.DeleteAllByCreditCard | src/modules/credit-card-items/credit-card-items.service.ts:211-217 | all the card's links go, and the count returned is how many went |
| CreditCardItems.DeleteAllByAccount | src/modules/credit-card-items/credit-card-items.service.ts:222-228 | all the account's links go, and the count returned is how many went |
| CreditCardItems.DeleteAllKeepsTheRest | src/modules/credit-card-items/credit-card-items.service.ts:211-228 | a link survives iff it is not of that card (or account) |
| CreditCardItems.GetCreditCardLinkedAccounts | src/modules/credit-card-items/credit-card-items.service.ts:119-155 | the card checks come first; the linked account ids are exactly the card's links, their count, the i-th being the i-th link from the end of the table |
| CreditCardItems.LinkedNewestFirst | src/modules/credit-card-items/credit-card-items.service.ts:140-148 | newest link first: of two listed ids, the earlier one's link was stored after the later one's |
| CreditCardItems.LinkedIds | src/modules/credit-card-items/credit-card-items.service.ts:139-146 | an account is listed iff it is linked to the card |
| CategoryColors.OwnColour | src/shared/utils/category-colors.ts:2-12 | the table has an entry exactly for its own keys |
| CategoryColors.GetCategoryColorAsWritten | src/shared/utils/category-colors.ts:1-15 | the lookup as written: a colour, one of the table's, exactly when the key is not a member name of `Object.prototype`; for those names the inherited member |
| CategoryColors.InheritedKeyIsNotAColour | src/shared/utils/category-colors.ts:14 | as written, the key "constructor" yields something that is not a colour |
| CategoryColors.GetCategoryColor | src/shared/utils/category-colors.ts:1-15 | always one of the table's colours: a key's own colour for its keys and the default colour otherwise |
| CategoryColors.CorrectedAgreesAsWritten | src/shared/utils/category-colors.ts:1-15 | for every key outside the prototype's names the corrected lookup agrees with the code as written |
| CategoryColors.OtherIsDefault | src/shared/utils/category-colors.ts:9-14 | an unknown key gets the same colour as OTHER and default |
| Users.ToSafeUser | src/modules/users/users.service.ts:29-33 | the projection drops only the hash: given the hash back it rebuilds the user |
| Users.SafeUserRoundTrip | src/modules/users/users.service.ts:29-33 | the safe projection plus the hash gives the user back, and the other way round |
| Users.SafeUserForgetsOnlyThePassword | src/modules/users/users.service.ts:29-33 | two users have the same projection iff they differ at most in the hash; the older copy at src/users/users.service.ts:29-33 is the same |
| Users.FindById | src/modules/users/users.service.ts:67-76 | fails with USER_NOT_FOUND iff no live user has the id; otherwise the projection of that user |
| Users.CreateCheck | src/modules/users/users.service.ts:35-50 | accepted iff a hash is given and no live user has the CPF or the email; the errors in that order |
| Users.NewUser | src/modules/users/users.service.ts:52-63 | the new user is live with the given CPF and email, currency BRL and language pt_BR unless given, and the given Pluggy item |
| Users.ProfileTouchesOnlyGivenFields | src/modules/users/users.service.ts:195-237 | only name, email, currency and language change, only when given; an empty input changes nothing |
| Users.SoftDeletedIsGone | src/modules/users/users.service.ts:310-326 | after a soft delete the id is not found, so a second soft delete fails with USER_NOT_FOUND |
| Users.SameIdentity | src/modules/users/users.service.ts:195-326 | edits that keep ids and CPFs and never revive a user keep the table's invariant |
| Users.SafeRows | src/modules/users/users.service.ts:163 | one projection per row, in order |
| Users.ListDocs | src/modules/users/users.service.ts:150-163 | at most take rows, a full page when more matches follow, each the projection of a live matching user |
| Users.List | src/modules/users/users.service.ts:109-174 | defaults 10/1; a negative skip (page < 1 with limit > 0) is refused as the database client refuses it; otherwise skip (page-1)·limit, total the matches, hasNextPage iff skip + limit < total, hasPrevPage iff page > 1, only live matching users; the older copy at src/users/users.service.ts:91-167 is the same |
| Users.ListRefusedIff | src/modules/users/users.service.ts:109-126 | the list is refused exactly when page < 1 and limit > 0, so limit 0 and every page ≥ 1 are served |
| Users.ListDocsHoldsNewest | src/modules/users/users.service.ts:153-163 | the rows cut by skip/take are the projections of the matches newest first from the skip-th on: take of them while they last, none past them |
| Users.ListDocsShowsEveryMatch | src/modules/users/users.service.ts:153-163 | every match is listed: the projection of the j-th newest is on the page of size l that skips (j / l)·l rows, at position j mod l |
| Users.ListHoldsNewest | src/modules/users/users.service.ts:109-174 | a page List serves holds the projected matches newest first from (page-1)·limit on |
| Users.WindowShowsMatches | src/modules/users/users.service.ts:109-174 | every row of the window is a matching user of the table |
| Users.UserStore.Create | src/modules/users/users.service.ts:35-65 | a failed check changes nothing; otherwise the new user is appended and its projection returned; email uniqueness is kept |
| Users.UserStore.UpdateProfile | src/modules/users/users.service.ts:195-237 | a missing user fails with USER_NOT_FOUND; otherwise the profile fields given are written |
| Users.UserStore.UpdateStatus | src/modules/users/users.service.ts:261-283 | a missing user fails; otherwise isActive and emailVerified are written when given and kept when omitted |
| Users.UserStore.SoftDelete | src/modules/users/users.service.ts:310-326 | a missing user fails; otherwise deletedAt is set and isActive cleared, after which the user is not found |
| AuthGuard.Split | src/shared/guards/jwt-auth.guard.ts:58 | `split(' ')` yields at least one field and no field contains a space |
| AuthGuard.JoinSplit | src/shared/guards/jwt-auth.guard.ts:58 | joining the fields with spaces gives the header back |
| AuthGuard.SplitHead | src/shared/guards/jwt-auth.guard.ts:58 | the first field is the longest space-free prefix, and the rest is the split after its space |
| AuthGuard.ExtractToken | src/shared/guards/jwt-auth.guard.ts:57-60 | a token is returned iff the header starts with "Bearer " (case-sensitive); it is the space-free run that follows |
| AuthGuard.FirstFieldIsPrefix | src/shared/guards/jwt-auth.guard.ts:58-59 | a header starting with "Bearer " has "Bearer" as its first field and a second field |
| AuthGuard.TokenAfterScheme | src/shared/guards/jwt-auth.guard.ts:57-60 | "Bearer " + t + rest gives exactly t when rest is empty or starts with a space |
| AuthGuard.HeaderExamples | src/shared/guards/jwt-auth.guard.ts:57-60 | "bearer x" and a bare "Bearer" give no token; a double space gives the empty token |
| AuthGuard.CanActivate | src/shared/guards/jwt-auth.guard.ts:26-55 | no or empty token: 'Token não fornecido'; no secret or a failed verification: 'Token inválido ou expirado'; both leave the request alone; otherwise request.user is the payload and the result is true |
| Response.Wrap | src/shared/interceptors/transform-response.interceptor.ts:53 | the envelope has exactly one key, data, holding the value |
| Response.Transform | src/shared/interceptors/transform-response.interceptor.ts:32-54 | outside HTTP, null, undefined and objects with a data key pass through; anything else is wrapped |
| Response.TransformKeepsValue | src/shared/interceptors/transform-response.interceptor.ts:32-54 | the result is the value or an envelope whose data is the value |
| Response.HttpAlwaysEnveloped | src/shared/interceptors/transform-response.interceptor.ts:36-54 | over HTTP every non-null result has a data key |
| Response.TransformIdempotent | src/shared/interceptors/transform-response.interceptor.ts:43-50 | transforming twice equals transforming once |
| Response.WrapsOtherObjects | src/shared/interceptors/transform-response.interceptor.ts:52-53 | objects without data and arrays are wrapped into a new envelope |
| Pagination.Window | src/modules/transactions/transactions.service.ts:194-201 | skip/take: at most take rows, the exact count available, element i is row offset + i; more rows follow iff offset + limit < length |
| Pagination.PageOf | src/modules/accounts/accounts.service.ts:542-548 | page p of size l holds at most l rows, exactly l while rows remain past it, all taken from the input |
| Pagination.PageOfRow | src/modules/accounts/accounts.service.ts:542 | row j lies on page j / l + 1: that page skips at most j rows and ends after it |
| Pagination.WindowHolds | src/modules/transactions/transactions.service.ts:197-198 | skip/take keeps the rows from offset on, take of them while they last |
| Pagination.WindowNewest | src/modules/users/users.service.ts:157-160 | skip/take over the newest-first order keeps the rows counted from the end |
| Pagination.NewestPage | src/modules/accounts/accounts.service.ts:542-549 | page p of the newest-first order holds the rows counted from the end from (p-1)·l on |
| Pagination.PagesJoin | src/modules/accounts/accounts.service.ts:542-559 | pages 1 to totalPages, joined, are the whole ordered result, each row once and in order |
| Pagination.TotalPagesIsCeiling | src/modules/accounts/accounts.service.ts:559 | the page count is the ceiling of total / limit |
| Pagination.PageBeforeLastIff | src/modules/installments/installments.service.ts:543 | page < ceil(total / limit) iff page·limit < total |
| Pagination.NextPageRulesAgree | src/modules/installments/installments.service.ts:543 | the two next-page rules in the code agree |
| Calendar.DaysInMonth | src/modules/installments/installments.service.ts:519 | month lengths 28..31, with 29 exactly for February of a leap year |
| Calendar.RollDay | src/modules/installments/installments.service.ts:519 | day overflow normalises to a valid date |
| Calendar.DateUtc | src/modules/installments/installments.service.ts:519 | `Date.UTC(y, m, d)` as a calendar day is always a valid date |
| Calendar.DateUtcIsMakeDay | src/modules/installments/installments.service.ts:519 | its day number is ECMA-262 MakeDay of the arguments, the year 0..99 read as 1900 + year |
| Calendar.DateUtcOfValid | src/modules/installments/installments.service.ts:488 | a valid date given as year, month, day maps to itself, with a year 0..99 read as 1900 + year |
| Calendar.DateUtcOfDate | src/modules/installments/installments.service.ts:491-496 | rebuilding a valid date from its parts keeps it outside years 0..99; inside them it moves to 1900 + year, and 29 February of year 0 becomes 1 March 1900 |
| Calendar.DateUtcTwoDigitYears | src/modules/installments/installments.service.ts:519 | year 50 is 1950 and year 0 is 1900, while years 100 and -1 stay as they are |
| Calendar.DateUtcRollsOver | src/modules/installments/installments.service.ts:519 | a day past the month's end rolls into the next month |
| Calendar.DateUtcExamples | src/modules/installments/installments.service.ts:519 | Feb 31 2025 is Mar 3; Feb 31 2024 is Mar 2; month 12 is January of the next year; day 0 is the last day of the previous month |
| Calendar.InMonthWindowIff | src/modules/monthly-summary/monthly-summary.service.ts:124-125 | a day lies in the month window iff it is in that month of that year, a year 0..99 meaning 1900 + year |
| Calendar.MonthsInOrder | src/modules/monthly-summary/monthly-summary.service.ts:124-125 | a later month starts no earlier than the day after an earlier month ends, so month windows do not overlap |
| Store.Db.NewId | src/modules/transactions/transactions.service.ts:40-64 | a fresh id is the counter, which then advances by one |

## Left out

- Prisma, HTTP transport, DTO parsing and logging are not modelled. The request validators' ranges are preconditions (`ValidCreateInput`, `ValidPatch`, and page and limit ≥ 1 for the account and transaction lists, whose DTOs validate them).
- Time zones are one zone. The time-of-day parts of month windows are approximated by day-number arithmetic.
- Ordering by `createdAt` is insertion order. "createdAt desc" is the reversed table.
- The floating-point Newton–Raphson loan solver is not modelled. Its result is a parameter `solved` of `Accounts.CalculateMonthlyInterestRate`, and only its exact zero-interest guard is modelled.
- Accounts.CalculateLoanAmounts: models the integer parts only; the total-with-interest and the rate are not stored by the service.
- The breakdown added to installments and the credit-card recalculation are no-ops here. They only decorate the read results.
- Accounts.Update: a `deleteMany` failure during the schedule rebuild is not split from the generator failure. Both leave the old rows removed and no new rows.
- The older accounts service calls `createInstallments`, `findByAccountSimple` and `markAllUnpaidAsPaid` on an installments service that does not define them. The model gives these calls the newer service's behaviour.
- The older `createAccountPayment` and the older summary generation always reject. Their callers swallow the rejection, so they write nothing.
- The older `getByIdFull` and `getPeriodStatisticsTyped` are the same code as the newer ones. They are modelled once, as `Accounts.GetByIdFull` and `Accounts.GetPeriodStatisticsTyped`.
- Users: the schema defaults are assumed to be `isActive = true` and `emailVerified = false`.
- LegacyAccounts.CalculateLoanAmounts / LegacyAccounts.UpdatedTotal: computed in exact arithmetic; the source's double arithmetic can leave a last-bit interest and total drift.
- CreditCardItems.GetCreditCardLinkedAccounts: returns the linked account ids and the card; the service returns the linked accounts' records, which are the accounts with those ids.
- LegacyInstallments.FindById: returns the installment row only; the `include: { account }` join the service adds is not modelled.
- Users.List: the search is a case-sensitive substring test; Prisma's `mode: 'insensitive'` folding is not modelled.
- Users.List: a negative limit (the database client's backwards take) and non-integer page or limit values (`Number` giving NaN) are not modelled; the limit is a whole number ≥ 0.
- Calendar.DateUtc: TimeClip is not modelled; a time value beyond ±8.64e15 ms, which JavaScript turns into an invalid date, is still a calendar day here.
- Users.UserStore.UpdateProfile: does not keep email uniqueness among live users, because the service performs no duplicate check there; only the database's unique index would, and it is not modelled.
- Transactions.GetExpensesByCategory: the `percentage` field is not modelled. It is each value as a floating-point percentage of the total, left at 0 unless the total is positive. The entries carry the values it is computed from.
- LegacyAccounts.Delete: the prisma schema is not part of this model. Its foreign keys are assumed not to cascade from accounts. With cascades, `account.delete` would also remove the account's installments and transactions, and with restricting keys it would fail while such rows exist.
- Avatars, `createWithHash`, `markEmailVerified`, `updateLastLogin`, `updatePassword`, `updateLastLogout`, `getProfile` and the Pluggy calls are outside the modelled core.
- Verification of the token signature is a parameter `verify` of `AuthGuard.CanActivate`. JWT decoding and expiry are the library's business.
- Response: a JavaScript value is a small datatype. Class instances with an inherited `data` property are not modelled.

## Findings

| source | as written | input that shows it | evidently intended | confidence | as-written member | corrected member |
|---|---|---|---|---|---|---|
| src/shared/utils/category-colors.ts:14 | `map[key] ?? map.default` reads inherited properties of the object literal | key "constructor" returns a function, not a colour | unknown keys get the default colour | not executed | CategoryColors.InheritedKeyIsNotAColour | CategoryColors.GetCategoryColor |
| src/modules/accounts/accounts.service.ts:895 | the disassociation updates the account with `{ creditCardId: undefined }`, and update skips undefined fields | a non-LOAN account whose creditCardId is card c, disassociated from c | the account no longer references the card | not executed | Accounts.DisassociateAccountFromCreditCardFull | Accounts.DisassociateAccountFromCreditCardCorrected |
