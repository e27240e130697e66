# lcm-backend bookkeeping core in Dafny

This project models the money and loan bookkeeping of the `lcm-backend`
service, a wallet and loan-management REST API. It has four parts:

- **Repayment schedules** (`src/utils/loan.utils.ts`).
  `calculateRepaymentSchedule` steps a date from the start date to the end
  date by one day, one week or one calendar month. For every date it
  pushes an equal installment of the total divided by a period count. The
  day, week and month counters compute that divisor.
  - Modelled by `RepaymentSchedule.CalculateRepaymentSchedule`, a method
    whose `while` loop is proved against the function `Schedule`.
  - Dates are calendar dates (`Calendar`). They are compared by their day
    number, as JavaScript compares `Date` objects.
- **Wallet ledger** (`src/modules/wallet/wallet.controller.ts`).
  The class `WalletLedger.WalletStore` holds the user, wallet, bank-account
  and transaction tables.
  - Its methods perform `createWallet`, `topUpWallet`, `transferToUser`,
    `withdrawToBank` and `addBankAccount`.
  - Each method checks its conditions in the handler's order and fails
    without writing anything.
  - Otherwise it makes the handler's writes in order. A top-up or a
    withdrawal creates a pending transaction, then marks it successful and
    moves the balance. A transfer creates a pending transaction, moves both
    balances, then marks it successful.
  - `Statement` is the pure listing of `getStatement`.
- **Loan lifecycle** (`src/modules/loan/loan.controller.ts`).
  The class `LoanLifecycle.LoanBook` holds the loan and repayment tables.
  - Its methods perform `applyForLoan`, `makeRepayment`, `approveLoan` and
    `rejectLoan`.
  - `LimitFactorsOf` is the pure `limitFactors` aggregation of
    `getUserLoans`.
- **Transaction queries** (`src/modules/transaction/transaction.controller.ts`).
  `TransactionQuery` holds pure functions for `getTransactionHistory`: the
  wallet-scoped filter, the page window and the per-type summary. It also
  holds `getTransactionById`.

Shared modules:
- Results: `Option` and `Result`.
- Sequences: first match and filter over a table.
- Numbers: `Math.ceil` of a quotient.
- Records: the wallet, bank-account and transaction rows and their lookups.

Each table is a sequence and row ids are positions in it. The store
classes keep an invariant `Valid()`. Each of its parts is a predicate
with lemmas showing that every write preserves it:
- wallets: one per user, distinct account numbers, no negative balance;
- bank accounts: at most one default account per wallet;
- transactions: settled and positive;
- loans: a remaining amount equal to the total less the repayments, and
  a status consistent with that amount.

What the code does with the divisor and the loop bound:
- A schedule does not always have as many installments as its divisor:
  - Daily mode has one installment more than its divisor on every range of
    at least one day (`DailyScheduleHasOneExtraInstallment`). Its amounts
    therefore add up to the total plus one daily share
    (`DailyScheduleOverrepays`), which is more than the total whenever the
    total is positive.
  - Weekly mode has one installment more exactly when the range is a whole
    number of weeks (`WeeklyScheduleCount`). Such a schedule adds up to the
    total plus one weekly share (`WeeklyScheduleOverrepays`), again more
    than the total only when the total is positive. Any other weekly range
    of at least one day adds up to exactly the total
    (`WeeklyScheduleRepaysTotal`).
  - Monthly mode has one installment fewer when the end's day of the month
    comes before the start's (`MonthlyScheduleCount`). Otherwise it adds up
    to exactly the total (`MonthlyScheduleRepaysTotal`).
- The loop never pushes a due date after the end date (`DueDatesShape`).
- Nothing guards the division:
  - The divisor is zero exactly when a daily or weekly schedule starts and
    ends on the same day (`ScheduleFailsExactlyOnSameDayRange`).
  - The model returns `Err(ZeroPeriodCount)` where JavaScript would store
    `Infinity`/`NaN` amounts.

## Model

| member | source | states |
|---|---|---|
| Numbers.CeilDiv | src/utils/loan.utils.ts:69-71 | the result is the least integer not below `a / b`, the value of `Math.ceil` |
| Calendar.NextDay | src/utils/loan.utils.ts:33 | `setDate(getDate() + 1)` lands on the next day number |
| Calendar.AddDays | src/utils/loan.utils.ts:45 | `setDate(getDate() + 7)` lands exactly `n` day numbers later |
| Calendar.AddMonth | src/utils/loan.utils.ts:57 | `setMonth(getMonth() + 1)` keeps the day of the month, moves to the next month and advances by that month's length |
| Calendar.MonthOrder | src/utils/loan.utils.ts:50 | for a start day that exists in every month, `currentDate <= endDateTime` holds iff the month comes earlier, or is the same month with a day not later |
| RepaymentSchedule.DaysBetween | src/utils/loan.utils.ts:65-67 | `getDaysBetween` is the signed number of days from start to end: stepping that many days from the earlier date reaches the later one |
| RepaymentSchedule.WeeksBetween | src/utils/loan.utils.ts:69-71 | `getWeeksBetween` is the day count divided by 7 rounded up, and at least 1 when the end is after the start |
| RepaymentSchedule.MonthsBetween | src/utils/loan.utils.ts:73-76 | `getMonthsBetween` counts the calendar months from the start's month to the end's inclusive, at least 1 when the start is not after the end |
| RepaymentSchedule.Step | src/utils/loan.utils.ts:33-57 | each loop advances by exactly 1 day, 7 days, or 1 month on the same day of the month |
| RepaymentSchedule.Schedule | src/utils/loan.utils.ts:10-63 | an unrecognised mode gives no installments; a failure happens only for a recognised mode whose divisor is zero; otherwise there is one installment per due date the loop visits |
| RepaymentSchedule.CalculateRepaymentSchedule | src/utils/loan.utils.ts:10-63 | the generator returns the schedule of `totalAmount = principal × (1 + rate)` over the due dates of the mode; an unrecognised mode gives an empty schedule |
| RepaymentSchedule.PushInstallments | src/utils/loan.utils.ts:26-58 | the `while` loop pushes one installment of total, principal and interest divided by the period count for every date it visits, and fails only when it would divide by zero |
| RepaymentSchedule.DueDatesShape | src/utils/loan.utils.ts:21-58 | the due dates start at the start date, all lie between start and end, follow one another by one step, and are empty exactly when the start is after the end |
| RepaymentSchedule.DailyDueDates | src/utils/loan.utils.ts:25-34 | daily mode visits `days + 1` dates, the `k`-th one `k` days after the start |
| RepaymentSchedule.WeeklyDueDates | src/utils/loan.utils.ts:37-46 | weekly mode visits `floor(days / 7) + 1` dates, the `k`-th one `7k` days after the start |
| RepaymentSchedule.MonthlyDueDates | src/utils/loan.utils.ts:49-58 | monthly mode visits the start's day of every month from the start month, up to the end month inclusive only if the end's day is not before the start's |
| RepaymentSchedule.DailyScheduleHasOneExtraInstallment | src/utils/loan.utils.ts:26-31 | on a range of at least one day, a daily schedule has one installment more than the `getDaysBetween` divisor |
| RepaymentSchedule.WeeklyScheduleCount | src/utils/loan.utils.ts:38-43 | a weekly schedule has `getWeeksBetween` installments, plus one when the range is a whole number of weeks |
| RepaymentSchedule.MonthlyScheduleCount | src/utils/loan.utils.ts:73-75 | the `getMonthsBetween` divisor is at least 1 for start ≤ end and equals the installment count unless the end's day of the month is before the start's |
| RepaymentSchedule.ScheduleFailsExactlyOnSameDayRange | src/utils/loan.utils.ts:29-31 | the divisor is zero for a non-empty schedule exactly when a daily or weekly schedule starts and ends on the same day |
| RepaymentSchedule.ScheduleEmptyExactly | src/utils/loan.utils.ts:24-60 | the schedule is empty exactly when the mode is none of the three or the start is after the end |
| RepaymentSchedule.ScheduleDueDates | src/utils/loan.utils.ts:26-57 | the installments of a schedule are due on the visited dates: the first on the start date, each one step after the previous, none after the end |
| RepaymentSchedule.ScheduleFiguresAreFlat | src/utils/loan.utils.ts:18-31 | all installments carry the same amount, principal and interest, and each amount is its principal plus its interest |
| RepaymentSchedule.MonthlyScheduleRepaysTotal | src/utils/loan.utils.ts:49-58 | a monthly schedule whose end day is not before its start day adds up to exactly the total, the principal and the interest |
| RepaymentSchedule.DailyScheduleOverrepays | src/utils/loan.utils.ts:25-34 | a daily schedule adds up to the total plus one further daily share of it |
| RepaymentSchedule.WeeklyScheduleRepaysTotal | src/utils/loan.utils.ts:37-46 | a weekly schedule whose range is not a whole number of weeks adds up to exactly the total, the principal and the interest |
| RepaymentSchedule.WeeklyScheduleOverrepays | src/utils/loan.utils.ts:37-46 | a weekly schedule over a whole number of weeks adds up to the total plus one further weekly share of it |
| Records.WalletOfUser | src/modules/wallet/wallet.controller.ts:142-144 | `findUnique({ userId })` finds a wallet of that user, and nothing exactly when the user has none |
| Records.WalletWithAccountNumber | src/modules/wallet/wallet.controller.ts:221-223 | `findFirst({ accountNumber })` finds a wallet with that number, and nothing exactly when there is none |
| Records.CreditMovesTotal | src/modules/wallet/wallet.controller.ts:174-177 | moving one balance by `delta` moves the sum of all balances by `delta` |
| WalletLedger.ValidAmount | src/modules/wallet/wallet.controller.ts:138 | the guard on `!amount` or `amount <= 0` lets an amount through exactly when it is present and positive, an absent amount being refused like 0 |
| WalletLedger.WithoutDefault | src/modules/wallet/wallet.controller.ts:435-438 | the `updateMany` turns off the default flag of exactly the accounts of that wallet and changes nothing else |
| WalletLedger.WithoutDefaultKeepsValid | src/modules/wallet/wallet.controller.ts:434-439 | after clearing, the wallet has no default account and no wallet has two |
| WalletLedger.AddingKeepsAccountsValid | src/modules/wallet/wallet.controller.ts:434-449 | adding an account, after clearing its wallet's defaults when it is the default, keeps at most one default per wallet |
| WalletLedger.CreditKeepsWalletsValid | src/modules/wallet/wallet.controller.ts:245-262 | a balance change that leaves the balance non-negative keeps the wallet table valid |
| WalletLedger.SettleKeepsTransactionsValid | src/modules/wallet/wallet.controller.ts:151-173 | creating the pending row and then updating it leaves exactly the settled row appended |
| WalletLedger.TransferConservesTotal | src/modules/wallet/wallet.controller.ts:244-262 | the decrement and the increment leave the sum of all balances unchanged, and a transfer to oneself leaves every balance unchanged |
| WalletLedger.WalletStore.CreateWallet | src/modules/wallet/wallet.controller.ts:62-86 | an unknown or unverified user gets the BVN error, a user with a wallet gets "already exists", otherwise one wallet with balance 0 named after the user is added |
| WalletLedger.WalletStore.TopUpWallet | src/modules/wallet/wallet.controller.ts:138-185 | a missing or non-positive amount, then a missing wallet, fail with no write; otherwise the balance rises by the amount, a successful TOPUP row is added, and the reply shows the pending row and the old balance plus the amount |
| WalletLedger.WalletStore.SettleMovement | src/modules/wallet/wallet.controller.ts:164-178 | the pending row is replaced by its settled form while one balance moves, and the store stays valid |
| WalletLedger.WalletStore.TransferToUser | src/modules/wallet/wallet.controller.ts:208-270 | no wallet, then too little funds, then no recipient, each fail with no write; once all three checks pass the transfer succeeds, and a success moves sender −amount, recipient +amount, a successful TRANSFER row, and no balance goes negative |
| WalletLedger.WalletStore.SettleTransfer | src/modules/wallet/wallet.controller.ts:233-270 | the four writes of a transfer leave the pending row settled and both balances moved, with the store valid |
| WalletLedger.WalletStore.WithdrawToBank | src/modules/wallet/wallet.controller.ts:289-343 | invalid amount, no wallet, too little balance, then no such account of that wallet, each fail with no write; once all checks pass the withdrawal succeeds, and a success lowers the balance by the amount and keeps it non-negative, with a successful WITHDRAWAL row |
| WalletLedger.WalletStore.ClearDefaults | src/modules/wallet/wallet.controller.ts:435-438 | the loop over the accounts leaves exactly `WithoutDefault` of the old table |
| WalletLedger.WalletStore.AddBankAccount | src/modules/wallet/wallet.controller.ts:425-449 | with no wallet nothing changes; otherwise the wallet's defaults are cleared when the new account is the default, then the account is appended |
| WalletLedger.WalletStore.InsertBankAccount | src/modules/wallet/wallet.controller.ts:433-449 | the `updateMany` (for a default) then the `create`, keeping at most one default per wallet |
| WalletLedger.WalletStore.Statement | src/modules/wallet/wallet.controller.ts:362-402 | fails exactly when the caller has no wallet; otherwise it shows at most `limit` of the wallet's matching transactions, the same page the history query shows, with `total` counting all matches and `(pages − 1) × limit < total ≤ pages × limit` |
| TransactionQuery.Matching | src/modules/transaction/transaction.controller.ts:33-43 | the `where` keeps exactly the rows of the caller's wallet that pass the given filters, so never a row of another wallet |
| TransactionQuery.MatchingKeepsOrder | src/modules/transaction/transaction.controller.ts:46-52 | the matches of two stretches of the table are those of the first followed by those of the second, so the page window sees the rows in table order |
| TransactionQuery.MatchingCounts | src/modules/transaction/transaction.controller.ts:33-52 | a matching row appears among the matches exactly as often as in the table, a non-matching one never |
| TransactionQuery.MatchingIsScoped | src/modules/transaction/transaction.controller.ts:33-43 | only transactions of the caller's wallet match, and with no filters every one of them does |
| TransactionQuery.LoneDateBoundIgnored | src/modules/transaction/transaction.controller.ts:35-40 | a start or end date given without the other does not narrow the result |
| TransactionQuery.OmittedFiltersWiden | src/modules/transaction/transaction.controller.ts:41-42 | dropping the type or the status filter never loses a match |
| TransactionQuery.Page | src/modules/transaction/transaction.controller.ts:51-52 | the window holds at most `limit` entries, entry `k` being match `(page − 1) × limit + k` |
| TransactionQuery.Pages | src/modules/transaction/transaction.controller.ts:90 | `Math.ceil(total / limit)` is the fewest pages of `limit` entries holding `total`, and 0 exactly when there are no matches |
| TransactionQuery.PagesCoverAll | src/modules/transaction/transaction.controller.ts:86-91 | pages 1 to `ceil(total / limit)` show every match at its place, and every later page is empty |
| TransactionQuery.Summary | src/modules/transaction/transaction.controller.ts:66-85 | every entry of the summary counts at least one transaction, and the summary is empty exactly when there are no matches |
| TransactionQuery.SummaryGroupsByType | src/modules/transaction/transaction.controller.ts:66-85 | the summary has an entry exactly for the types that occur, holding their count and the sum of their amounts |
| TransactionQuery.SummaryCountsAddUp | src/modules/transaction/transaction.controller.ts:66-85 | the summary counts add up to the number of matches |
| TransactionQuery.TransactionHistory | src/modules/transaction/transaction.controller.ts:25-63 | fails with wallet-not-found exactly when the caller has no wallet; every transaction shown belongs to the caller's wallet |
| TransactionQuery.HistorySummaryMatchesTotal | src/modules/transaction/transaction.controller.ts:62-87 | the summary of a history response counts exactly its `total` |
| TransactionQuery.TransactionById | src/modules/transaction/transaction.controller.ts:108-133 | wallet-not-found without a wallet; with one, found exactly when the caller's wallet holds a transaction with that id, and then the first such row in table order, otherwise not-found |
| LoanLifecycle.AfterRepayment | src/modules/loan/loan.controller.ts:202-207 | the remaining amount falls by the repayment without clamping, the status is completed iff nothing remains and disbursed otherwise, and nothing else changes |
| LoanLifecycle.AfterApproval | src/modules/loan/loan.controller.ts:288-296 | approval is a lifecycle step from pending that records the approver and the time, clears the rejection reason and changes nothing else |
| LoanLifecycle.AfterRejection | src/modules/loan/loan.controller.ts:335-341 | rejection is a lifecycle step from pending into the closed declined status that stores the reason and changes nothing else, the approval fields included |
| LoanLifecycle.RunFollowsLifecycle | src/modules/loan/loan.controller.ts:185-341 | over any run of handler calls that each follow the lifecycle, a completed or declined loan stays exactly as it was and a loan that left pending never returns to it |
| LoanLifecycle.ReplaySettles | src/modules/loan/loan.controller.ts:185-207 | over successive positive repayments each call is accepted exactly while something remained, the remaining amount is the start less the sum repaid, and completed means nothing remains |
| LoanLifecycle.ClosedLoanRejectsRepayments | src/modules/loan/loan.controller.ts:185-187 | a completed or declined loan rejects every further repayment |
| LoanLifecycle.LimitFactorsOf | src/modules/loan/loan.controller.ts:139-150 | `walletBalance` is 0 without a wallet; `totalLoans` counts all loans; the four status counts with the declined loans make up `totalLoans`; `totalLoanAmount` splits by status; `outstandingAmount` is not negative while no approved or disbursed loan has a negative remaining amount |
| LoanLifecycle.StatusCountsAddUp | src/modules/loan/loan.controller.ts:141-145 | the approved-or-disbursed, pending, completed and defaulted filters together with the declined loans make up all loans |
| LoanLifecycle.LoanAmountsPartition | src/modules/loan/loan.controller.ts:146-149 | `totalLoanAmount` is the sum of the amounts of the loans of each status, the outstanding group included |
| LoanLifecycle.OutstandingNonNegative | src/modules/loan/loan.controller.ts:147-149 | the outstanding amount is not negative when no approved or disbursed loan has a negative remaining amount |
| LoanLifecycle.UnpaidLoanOwesTotal | src/modules/loan/loan.controller.ts:31-41 | a loan never repaid still has its whole total `amount × 1.005` remaining |
| LoanLifecycle.ApplicationKeepsValid | src/modules/loan/loan.controller.ts:35-56 | appending a new pending loan keeps the loan and repayment tables valid |
| LoanLifecycle.RepaymentKeepsValid | src/modules/loan/loan.controller.ts:192-207 | recording a repayment and updating its loan keep remaining = total − repaid for every loan |
| LoanLifecycle.ReviewKeepsValid | src/modules/loan/loan.controller.ts:288-341 | approving or declining a pending loan keeps both tables valid |
| LoanLifecycle.LoanBook.ApplyForLoan | src/modules/loan/loan.controller.ts:31-56 | appends one new pending loan of the caller at rate 0.005, total and remaining `amount × 1.005`, carrying the application's mode, dates, guarantors and personal information and the repayment schedule of its amount, mode and dates, with no review fields; existing loans are untouched |
| LoanLifecycle.LoanBook.MakeRepayment | src/modules/loan/loan.controller.ts:174-207 | not-found unless the loan exists and is the caller's, then not-repayable unless approved or disbursed, both with no write; an existing loan of the caller that is approved or disbursed is always repaid: exactly one repayment is appended and the loan is updated by `AfterRepayment`; every loan follows the lifecycle |
| LoanLifecycle.LoanBook.ApproveLoan | src/modules/loan/loan.controller.ts:276-296 | not-found, then not-pending (so a second approval fails); an existing pending loan is always approved: it becomes approved with approver and time set and the rejection reason cleared; every loan follows the lifecycle |
| LoanLifecycle.LoanBook.RejectLoan | src/modules/loan/loan.controller.ts:319-341 | a missing or empty reason fails before the lookup, then not-found, then not-pending; with a non-empty reason an existing pending loan is always declined: it becomes declined with the reason stored; every loan follows the lifecycle |
| LoanLifecycle.LoanBook.UserLimitFactors | src/modules/loan/loan.controller.ts:139-150 | the limit factors of exactly the caller's loans, in table order (`LimitFactorsOf` of the `userId` filter), with the caller's wallet balance, or 0 without a wallet; `totalLoans` is 0 exactly when no loan is the caller's |
| LoanLifecycle.LoanBook.OutstandingIsNonNegative | src/modules/loan/loan.controller.ts:147-149 | in a valid store, with non-negative loan amounts, no user's outstanding amount is negative |

## Left out

- `calculateUserLoanLimit` is not defined in `src/utils/loan.utils.ts`, so the `loanLimit` of `getUserLoans` is not modelled. Only `limitFactors` is.
- The request schemas (`LoanApplicationSchema`, `RepaymentSchema`, `LoanApprovalSchema`, `TransferSchema`, `BankAccountSchema`) are not defined in `src/services/validate.service.ts`. Their checks are not modelled.
  - The transfer amount is taken as positive (`requires amount > 0.0`).
  - Other schema-validated fields are taken as given.
- Generated values become caller-supplied parameters: account numbers, references (`generateReference`, the `REP-` reference) and the clock (`new Date()`). A new account number is required not to be in use.
- Database, HTTP and auth plumbing is not modelled:
  - the 401 branches for a missing user;
  - the 500 catch-all;
  - the JSON shapes of the replies;
  - transaction descriptions, payment metadata and the joined wallet fields of listings.
- `getWalletDetails`, `verifyBVN`, `getLoanStatus` and `getAllLoans` are plain reads or a mocked check. They are not modelled.
- Listings keep table order. Ordering by `createdAt` or by `sortBy` is not modelled.
  - `page` and `limit` are required to be at least 1. The handlers do not check this.
  - `page` and `limit` are required parameters. The defaults `page = 1` and `limit = 10` that the handlers apply to a missing query value are not modelled.
- An amount read from an unvalidated request body is an `Option<real>`. A non-numeric value, which passes `!amount || amount <= 0` and is then stored as `Number(amount)` = `NaN`, is not modelled. This concerns the top-up and withdrawal amounts, whose handlers use no schema.
- Concurrency and partial failure are not modelled. Each handler is one sequential step, so races between transfers and crash states between the separate writes of `transferToUser` are out of scope.
- Money is an exact `real`, not a JavaScript float.
- Dates are whole calendar days, with no time of day, time zone or daylight-saving shift.
- RepaymentSchedule.Schedule: a monthly schedule is modelled only from a start day of at most 28, so the `setMonth` day overflow (31 January + 1 month) is not modelled.
- RepaymentSchedule.Schedule: a zero divisor yields `Err(ZeroPeriodCount)`, where the source stores `Infinity`/`NaN` amounts.
- WalletLedger.WalletStore.WithdrawToBank: the bank account id is a `nat`, so an absent `bankAccountId` is an id no account has.
- WalletLedger.WalletStore.TransferToUser: conservation of the sum of balances is a separate lemma (`TransferConservesTotal`) about the new wallet table, not a clause of the method.
- LoanLifecycle.LoanBook.MakeRepayment: the repayment amount is not constrained, because `RepaymentSchema` is not available.
- Row ids are table positions instead of generated unique ids.
