# SmartFinance backend core in Dafny

This project models the core of the SmartFinance personal-finance backend. Users keep **accounts**. They record income and expense **transactions** against those accounts. They set monthly **budgets** per expense category and track **debts** they have given or taken. The model covers:

- **Ledger** (`ledger.dfy`): the account and transaction controllers.
  - The state is a `LedgerStore` class with maps of accounts and transactions.
  - Creating, updating and deleting a transaction moves the balance of the affected account(s) by the transaction's signed effect.
  - The class invariant says:
    - every balance equals the account's opening balance plus the net effect of the transactions now pointing at it;
    - every transaction refers to an existing account of the same user;
    - stored records satisfy their schemas.
- **Queries** (`queries.dfy`): the transaction list with its filters and limit clamp, the income/expense totals, and the calendar-month window used by budgets.
- **Analytics** (`analytics.dfy`): the default reporting window per period, the trend and category tallies (loops that fill dictionaries), and the date-based views (today, week, month, year).
- **Budgets** (`budgets.dfy`): the budget store with its one-budget-per-category-per-month rule, and the spent/remaining/exceeded projection.
- **Debts** (`debts.dfy`): the debt store, the type filter and the field-by-field partial update.
- **Supporting modules:**
  - `models.dfy`: the four schemas;
  - `inputs.dfy`: request values that may be undefined, null or not a number;
  - `text.dfy`: `String.prototype.trim`;
  - `calendar.dfy`: the proleptic Gregorian calendar behind JavaScript `Date`.

**Modelling choices:**

- **Amounts:** integers, in cents.
- **Request fields:** a request field is `Undefined`, `Null` or `Given(v)`. A number read from a request is `NotANumber` or `Finite(v)`.
- **Dates:**
  - A date is a `Moment(year, month, day, ms)`, where `ms` is the millisecond of the day, in a single time zone.
  - Parsing a date string is outside the model, so a date parameter arrives already parsed; a missing or falsy date is `None`.
  - "Now" is a parameter.
  - `new Date(y, monthIndex, ...)` reads a year from 0 to 99 as 1900 + y, as JavaScript does. So the windows built from a year (a budget's month, the "month" and "year" views, the "monthly" and "yearly" default starts) lie in 1900 + y for such a year, and the contracts say so.
- **Failures:** every HTTP error answer is a `Failure` value:
  - 400 for missing fields, an invalid amount or an invalid view;
  - 404 for an unknown or foreign id;
  - 400 for a duplicate budget or an account that still has transactions;
  - 500 for a schema rejection at save time.
- **Atomicity:** each request is atomic. On any failure, nothing in the store changes.

## Model

| member | source | states |
|---|---|---|
| `Text.TrimSpec` | backend/controllers/transactionController.js:30 | The trimmed string has no leading or trailing whitespace. It is the infix of the input left after removing an all-whitespace prefix and suffix. |
| `Text.TrimStartSpec` | backend/models/Account.js:12 | Removing leading whitespace leaves a suffix of the input. That suffix starts with a non-space character or is empty. Everything removed is whitespace. |
| `Text.TrimEndSpec` | backend/models/Account.js:12 | Removing trailing whitespace leaves a prefix of the input. That prefix ends with a non-space character or is empty. Everything removed is whitespace. |
| `Text.TrimIdempotent` | backend/models/Debt.js:12 | Trimming twice equals trimming once. This is why the controller's explicit `trim()` followed by the schema's `trim: true` stores the same string as a single trim. |
| `Text.TrimOfTrimmed` | backend/models/Debt.js:29 | A string with no surrounding whitespace is unchanged by trimming. |
| `Text.TrimEmptyIffAllSpace` | backend/models/Transaction.js:24-28 | A string trims to the empty string exactly when it is all whitespace, which is when a required trimmed field fails validation. |
| `Text.AllSpaceTrimStart` | backend/models/Transaction.js:27 | An all-whitespace string loses every character to the leading trim. |
| `Calendar.DaysInMonth` | backend/controllers/analyticsController.js:148 | Month lengths lie between 28 and 31. The length is 29 exactly for February of a leap year. |
| `Calendar.Weekday` | backend/controllers/analyticsController.js:140 | `getDay()` is a weekday number from 0 (Sunday) to 6. |
| `Calendar.NextDay` | backend/controllers/analyticsController.js:143 | Stepping one day forward keeps the time of day and adds exactly one to the absolute day number, across month and year ends. |
| `Calendar.PrevDay` | backend/controllers/analyticsController.js:23 | Stepping one day back keeps the time of day and subtracts exactly one from the absolute day number. |
| `Calendar.AddDays` | backend/controllers/analyticsController.js:23 | Adding n days keeps the time of day and moves the absolute day number by exactly n; negative n is allowed. |
| `Calendar.SetDate` | backend/controllers/analyticsController.js:140 | `setDate(n)` with an out-of-range n rolls over into neighbouring months. The day number moves by `n - day`, and the time is kept. |
| `Calendar.SetTime` | backend/controllers/analyticsController.js:19 | `setHours(h, m, s, ms)` keeps the calendar day and sets the time of day. |
| `Calendar.MakeDate` | backend/controllers/analyticsController.js:148 | `new Date(y, monthIndex, d, ...)` reads a year from 0 to 99 as 1900 + y. It normalises an out-of-range month index and day, and lands `d - 1` days after the first of the normalised month of that full year. |
| `Calendar.TwoDigitYearIsNineteenHundreds` | backend/controllers/analyticsController.js:26 | `new Date(24, 2, 1)` is March 1st 1924, while `new Date(100, 2, 1)` is March 1st of year 100. |
| `Calendar.FirstOfMonth` | backend/controllers/analyticsController.js:26 | `new Date(y, m - 1, 1)` is midnight of the first of month m of the full year (1900 + y for y in 0..99, y otherwise). |
| `Calendar.FirstOfYear` | backend/controllers/analyticsController.js:29 | `new Date(y, 0, 1)` is midnight of January 1st of the full year. |
| `Calendar.LastOfYear` | backend/controllers/analyticsController.js:152 | `new Date(y, 11, 31, ...)` is December 31st of the full year. |
| `Calendar.DayZeroIsLastDay` | backend/controllers/analyticsController.js:148 | Day 0 of the next month index is the last day of the month, in the full year. |
| `Calendar.EpochOrder` | backend/controllers/analyticsController.js:160 | Comparing two dates by epoch milliseconds orders them by day number first, then by time of day. |
| `Calendar.DayNumberOrder` | backend/controllers/analyticsController.js:160 | The day number ranks calendar days: equal day numbers mean the same day, and smaller means earlier in the calendar. |
| `Calendar.CalendarOrder` | backend/controllers/analyticsController.js:160 | A date on an earlier calendar day, or on the same day at a time no later, is no later in epoch order. |
| `Calendar.WeekStartIsSunday` | backend/controllers/analyticsController.js:140 | The date that lies `getDay()` days before a date is always a Sunday. |
| `Calendar.LeapDayStep` | backend/controllers/analyticsController.js:140 | Counting leap days from 1970: one more year adds one exactly when that year has 366 days. |
| `Calendar.DaysBeforeYearFrom1970` | backend/controllers/analyticsController.js:140 | From 1970 on, the days before a year are 365 per year plus the leap days since 1970. |
| `Calendar.WeekdayAnchors` | backend/controllers/analyticsController.js:140 | `getDay()` is 4 (Thursday) for January 1st 1970 and 0 (Sunday) for January 7th 2024. |
| `Models.MakeTransaction` | backend/models/Transaction.js:3-41 | A built transaction carries the given fields with category and note trimmed, so they have no surrounding whitespace. It satisfies the schema exactly when the amount is non-negative and the trimmed category is non-empty. |
| `Models.ResaveTransaction` | backend/models/Transaction.js:24-33 | Building a transaction again from the fields of a conforming one gives the same transaction: the trim setters change nothing on a second save. |
| `Models.ParseAccountType` | backend/models/Account.js:14-18 | An account type is accepted exactly when it is one of the four enum strings, and it maps back to the same string. |
| `Models.AccountTypeRoundTrip` | backend/models/Account.js:17 | Every account type's name parses back to that type. |
| `Models.MakeAccount` | backend/models/Account.js:3-26 | A built account has the trimmed name, with no surrounding whitespace. It satisfies the schema exactly when that name is non-empty. |
| `Models.ResaveAccount` | backend/models/Account.js:8-13 | Building an account again from the fields of a conforming one gives the same account. |
| `Models.MakeBudget` | backend/models/Budget.js:3-31 | A built budget has the trimmed category, with no surrounding whitespace. It satisfies the schema exactly when the category is non-empty, the amount is non-negative and the month is in 1..12. |
| `Models.ResaveBudget` | backend/models/Budget.js:8-13 | Building a budget again from the fields of a conforming one gives the same budget. |
| `Models.InsertKeepsUnique` | backend/models/Budget.js:34 | Adding a budget whose (user, category, month, year) key is not yet present keeps the keys unique. |
| `Models.ParseDebtType` | backend/models/Debt.js:19-23 | A debt type is accepted exactly when it is "give" or "take", and it maps back to the same string. |
| `Models.MakeDebt` | backend/models/Debt.js:3-34 | A built debt has a person name and notes without surrounding whitespace. It satisfies the schema exactly when the name is non-empty and the amount is non-negative. |
| `Models.ResaveDebt` | backend/models/Debt.js:8-31 | Building a debt again from the fields of a conforming one gives the same debt. |
| `Ledger.NetEffectInsert` | backend/controllers/transactionController.js:35-42 | Adding a transaction adds its signed contribution to the net effect on an account. |
| `Ledger.NetEffectReplace` | backend/controllers/transactionController.js:128-165 | Replacing a transaction removes the old contribution and adds the new one, per account. |
| `Ledger.NetEffectRemove` | backend/controllers/transactionController.js:192-201 | Removing a transaction subtracts its contribution from the net effect. |
| `Ledger.NetEffectUnreferenced` | backend/controllers/accountController.js:95-102 | An account that no transaction points at has net effect zero. |
| `Ledger.PatchTransaction` | backend/controllers/transactionController.js:158-163 | Each field of the updated transaction, separately: the amount and type are new or kept; category is kept when nullish and trimmed otherwise; a falsy date is kept; a null note becomes "null"; the account is new or kept. The result satisfies the schema exactly when the amount is non-negative and the category is not blank. |
| `Ledger.Shift` | backend/controllers/transactionController.js:37-41 | Moving an account's balance by a delta changes that balance by exactly the delta. The account keeps its owner, name and type, every other account is unchanged, and the set of accounts is kept. |
| `Ledger.ShiftShiftSame` | backend/controllers/transactionController.js:128-140 | Reverting and reapplying on the same account in one step equals one shift by the sum of the deltas. |
| `Ledger.InsertTransactionKeeps` | backend/controllers/transactionController.js:25-42 | Recording a valid transaction under a fresh id and shifting its account by its effect preserves the ledger invariant. |
| `Ledger.ReplaceTransactionBalanced` | backend/controllers/transactionController.js:125-156 | Reverting the old effect on the old account and applying the new effect on the new account keeps every balance equal to its opening balance plus its net effect. |
| `Ledger.ReplaceTransactionKeeps` | backend/controllers/transactionController.js:125-165 | The same update keeps the whole ledger invariant, including references and schema conformance. |
| `Ledger.RemoveTransactionKeeps` | backend/controllers/transactionController.js:188-201 | Reverting a transaction's effect and removing it preserves the ledger invariant. |
| `Ledger.AddAccountKeeps` | backend/controllers/accountController.js:14-21 | Opening a valid account under a fresh id preserves the ledger invariant, with its balance as its opening balance. |
| `Ledger.ReplaceAccountKeeps` | backend/controllers/accountController.js:70-73 | Renaming or retyping an account without touching its balance preserves the invariant. |
| `Ledger.RemoveAccountKeeps` | backend/controllers/accountController.js:95-102 | Removing an account that no transaction references preserves the invariant. |
| `Ledger.ShiftKeepsShape` | backend/controllers/transactionController.js:37-42 | A balance shift keeps ids, references and account schema conformance. |
| `Ledger.StoreKeepsShape` | backend/controllers/transactionController.js:158-165 | Storing a valid transaction at an issued id, pointing at an account of its owner, keeps ids, references and conformance. |
| `Ledger.UpdateAsWrittenUnbalances` | backend/controllers/transactionController.js:128-165 | The update as written moves balances before the record's save can fail. A wallet with one income of 10, updated to amount 20 with category " ", ends with balance 20 while its only transaction still says 10. |
| `Ledger.UpdateAsWritten` | backend/controllers/transactionController.js:128-165 | As written, the update moves the old account back by the old effect and the new account forward by the new effect whatever the record holds. The stored transaction is replaced only when the rewritten record conforms, and is left as it was otherwise. |
| `Ledger.LedgerStore.constructor` | backend/models/Account.js:3-26 | An empty ledger satisfies the invariant. |
| `Ledger.LedgerStore.GetAccountById` | backend/controllers/accountController.js:43-57 | An account is found exactly when it exists and belongs to the caller; otherwise the result is not-found. |
| `Ledger.LedgerStore.GetTransactionById` | backend/controllers/transactionController.js:80-98 | A transaction is found exactly when it exists and belongs to the caller. |
| `Ledger.LedgerStore.Post` | backend/controllers/transactionController.js:35-42 | Posting stores the transaction under a fresh id and shifts its account by its effect. It returns the new balance and keeps the invariant. |
| `Ledger.LedgerStore.Repost` | backend/controllers/transactionController.js:125-165 | Replacing a transaction reverts its old effect on the old account and applies the new effect on the new account. It keeps the invariant. |
| `Ledger.LedgerStore.Unpost` | backend/controllers/transactionController.js:188-201 | Removing a transaction reverts its effect on its account and keeps the invariant. |
| `Ledger.LedgerStore.Open` | backend/controllers/accountController.js:14-21 | Opening stores the account under a fresh id, records its opening balance and keeps the invariant. |
| `Ledger.LedgerStore.CreateTransaction` | backend/controllers/transactionController.js:7-52 | The checks run in order: missing fields, then invalid amount (NaN or negative), then an account that is absent or foreign, then a blank category rejected by the schema. Success is exactly when all four pass. The stored transaction has trimmed category and note, the date defaults to now, and only its account's balance moves, by +amount for income and -amount for expense. Any failure changes nothing. |
| `Ledger.LedgerStore.UpdateTransaction` | backend/controllers/transactionController.js:100-176 | Failures: not-found for a foreign transaction or target account, invalid amount for NaN or negative, and a schema rejection for a blank category. Any failure changes nothing. Otherwise the patched transaction replaces the old one, the old effect is reverted and the new one applied, and the target account's balance is returned. The invariant is kept. |
| `Ledger.LedgerStore.DeleteTransaction` | backend/controllers/transactionController.js:178-207 | Delete fails exactly for an unknown or foreign id. Otherwise the transaction is removed and its effect reverted on its account. |
| `Ledger.LedgerStore.CreateAccount` | backend/controllers/accountController.js:4-30 | Missing name or type is reported first. An unknown type or a blank name is a schema rejection. Otherwise a fresh account gets the trimmed name and the finite balance, or 0. Transactions never change. |
| `Ledger.LedgerStore.UpdateAccount` | backend/controllers/accountController.js:59-82 | Only a truthy name or type is overwritten, and balance and owner are kept. The update fails for a foreign id, an unknown type or a blank name. |
| `Ledger.LedgerStore.DeleteAccount` | backend/controllers/accountController.js:84-108 | Not-found for a foreign id. An account still referenced by any transaction, whoever owns it, is refused. Otherwise exactly that account is removed. |
| `Queries.Where` | backend/controllers/analyticsController.js:53-59 | `filter` keeps exactly the rows satisfying the predicate and never lengthens the list. |
| `Queries.WhereAppend` | backend/controllers/analyticsController.js:53-59 | Filtering distributes over concatenation. |
| `Queries.SumAmountsAppend` | backend/controllers/analyticsController.js:55 | The `reduce` sum distributes over concatenation. |
| `Queries.SumAmountsNonNegative` | backend/models/Transaction.js:14-18 | The sum of schema-valid amounts is non-negative. |
| `Queries.KindTotalsPartition` | backend/controllers/analyticsController.js:53-61 | Income total plus expense total is the sum of all amounts in the window. |
| `Queries.TotalsOf` | backend/controllers/analyticsController.js:53-61 | Net savings is income minus expense, and the two totals add up to the sum of all amounts. |
| `Queries.TotalsBounds` | backend/controllers/analyticsController.js:53-61 | Over valid transactions both totals are non-negative and net savings never exceeds income. |
| `Queries.Select` | backend/controllers/analyticsController.js:47-50 | The query returns exactly the caller's transactions dated inside the inclusive window. |
| `Queries.CalendarMonth` | backend/controllers/budgetController.js:63-64 | A budget's window runs from midnight of the first of the month to 23:59:59.000 of its last day, in the full year: a budget year from 0 to 99 is read as 1900 + year. |
| `Queries.CalendarMonthMissesLastMoments` | backend/controllers/budgetController.js:64 | A transaction in the final 999 ms of a month's last day falls outside that month's budget window. |
| `Queries.CalendarMonthContains` | backend/controllers/budgetController.js:63-70 | A date is in a month's window exactly when its year is the full year of the budget year, its month is the month, and it is not later than 23:59:59.000 on the last day. |
| `Queries.TwoDigitMonthMissesItsYear` | backend/controllers/budgetController.js:63-64 | A date in a year from 0 to 99 is never inside the window built from its own year and month, which lies in 1900 + year. |
| `Queries.Matching` | backend/controllers/transactionController.js:59-66 | The list query returns exactly the caller's transactions passing each given filter: account, type, and start and end dates, both inclusive. |
| `Queries.ClampLimit` | backend/controllers/transactionController.js:68 | The page size is always in 1..200. A missing, NaN or zero limit gives 50. A negative limit gives 1, and anything above 200 gives 200. |
| `Queries.ListTransactions` | backend/controllers/transactionController.js:54-78 | The page is a prefix of the matching rows, no longer than the limit. It is all of them when fewer match. |
| `Queries.ListIsCompleteUnderLimit` | backend/controllers/transactionController.js:68-72 | When no more rows match than the limit, every matching row is returned. |
| `Analytics.PeriodStartUnique` | backend/controllers/analyticsController.js:16-33 | The default start for a period is uniquely determined by the end date. |
| `Analytics.DailyStart` | backend/controllers/analyticsController.js:17-20 | "daily" starts at midnight of the end date's day. |
| `Analytics.WeeklyStart` | backend/controllers/analyticsController.js:21-24 | "weekly" starts seven calendar days before the end, at the same time of day. |
| `Analytics.YearlyStart` | backend/controllers/analyticsController.js:28-30 | "yearly" starts at January 1st of the end's full year. That start is at or before the end exactly when the end's year is not in 0..99. |
| `Analytics.MonthlyStart` | backend/controllers/analyticsController.js:25-33 | "monthly" and every unknown period start at the first of the end's month in the end's full year, at or before the end exactly when the year is not in 0..99. |
| `Analytics.StartInReadYear` | backend/controllers/analyticsController.js:25-30 | A midnight start in 1900 + year, on a day of the year no later than the end's, is at or before the end exactly when the end's year is not in 0..99. |
| `Analytics.PeriodStart` | backend/controllers/analyticsController.js:16-33 | The computed start is the period's start. It is at or before the end exactly when the period is "daily" or "weekly" or the end's year is not in 0..99. |
| `Analytics.ResolveWindow` | backend/controllers/analyticsController.js:12-44 | A given start or end is used as is. The end defaults to now. A missing start comes from the period, "monthly" by default, and is not after the end unless the period reads the end's year and that year is in 0..99. |
| `Analytics.Find` | backend/controllers/analyticsController.js:70 | A key lookup in the tally finds the key's bucket, or reports that no bucket has the key. |
| `Analytics.BucketSumUpdate` | backend/controllers/analyticsController.js:70-72 | Overwriting one bucket changes the grand total by the difference. |
| `Analytics.Bump` | backend/controllers/analyticsController.js:70 | `obj[k] = (obj[k] \|\| 0) + amount` either adds to the existing bucket or appends a new one at the end, in insertion order, for a key that is neither an array index nor an inherited property name. Keys stay distinct and the grand total grows by exactly the amount. |
| `Analytics.HasKeyMeans` | backend/controllers/analyticsController.js:67-74 | A key appears in a tally exactly when some row of that type has that key. |
| `Analytics.GroupTotalWithoutKey` | backend/controllers/analyticsController.js:88-94 | A key that no row of the type has totals zero. |
| `Analytics.GroupTotalSnoc` | backend/controllers/analyticsController.js:67-74 | One more row adds its amount to its key's total only. |
| `Analytics.TallyAdd` | backend/controllers/analyticsController.js:69-72 | Bumping the current row's key extends a correct tally by that row. |
| `Analytics.TallySkip` | backend/controllers/analyticsController.js:69-73 | A row of the other type leaves a correct tally correct. |
| `Analytics.Trends` | backend/controllers/analyticsController.js:64-85 | The income and expense trend entries are exactly the day keys present. Each entry's amount is the total of that type for that day, and keys are distinct. The entries sum to the type's total. |
| `Analytics.CategoryBreakdown` | backend/controllers/analyticsController.js:88-99 | Corrected: category entries are exactly the expense categories present, each with its total expense, keys distinct, with every category string usable as a key. |
| `Analytics.GetAnalytics` | backend/controllers/analyticsController.js:3-117 | The period defaults to "monthly", and the window is as ResolveWindow states. Totals, trends and categories are computed over exactly the caller's transactions inside the window. |
| `Analytics.BreakdownsAgree` | backend/controllers/analyticsController.js:53-99 | The expense trend, the category breakdown and the expense total agree. The income trend sums to the income total, and trend minus categories is net savings. |
| `Analytics.CategoriesAsWritten` | backend/controllers/analyticsController.js:87-94 | As written, the plain-object tally never has a "__proto__" entry, since that assignment goes to the prototype setter. |
| `Analytics.ProtoCategoryDropped` | backend/controllers/analyticsController.js:87-99 | One expense of 50 in category "__proto__" gives no category entries while the expense total is 50. |
| `Analytics.TodayWindow` | backend/controllers/analyticsController.js:132-137 | "today" spans midnight to 23:59:59.999 of the selected day and contains the selected date. |
| `Analytics.WeekWindow` | backend/controllers/analyticsController.js:138-145 | "week" spans Sunday 00:00 to Saturday 23:59:59.999 of the selected date's week and contains it. |
| `Analytics.MonthWindow` | backend/controllers/analyticsController.js:146-149 | "month" is the same window as a budget's calendar month. The selected date is inside it exactly when its year is not in 0..99 and it is not in the last 999 ms of the month. |
| `Analytics.YearWindow` | backend/controllers/analyticsController.js:150-153 | "year" spans January 1st 00:00 to December 31st 23:59:59.000 of the full year. The selected date is inside it exactly when its year is not in 0..99 and it is not in the last 999 ms of the year. |
| `Analytics.CalendarYear` | backend/controllers/analyticsController.js:151-152 | The year window starts at midnight of January 1st and ends at 23:59:59.000 on December 31st of the full year. |
| `Analytics.CalendarYearContains` | backend/controllers/analyticsController.js:151-152 | A date is in the year window exactly when its year is the full year and it is not in the last 999 ms of December 31st. |
| `Analytics.ViewWindow` | backend/controllers/analyticsController.js:131-156 | Exactly the four view names have a window, each as above, and any other view is refused. The selected date lies in the "today" and "week" windows, and in the "month" and "year" windows exactly when its year is not in 0..99 and it is not in the last 999 ms of the period. |
| `Analytics.GetDateBasedView` | backend/controllers/analyticsController.js:119-186 | A missing view or date is reported first, then an unknown view. Otherwise the response lists exactly the caller's transactions in the view window, with totals over them. |
| `Budgets.Project` | backend/controllers/budgetController.js:73-75 | spent + remaining equals the budget amount. exceeded holds exactly when remaining is negative, that is when spent exceeds the amount. |
| `Budgets.SpentSnoc` | backend/controllers/budgetController.js:66-73 | One more transaction adds its amount to spent exactly when it is an expense of the caller in the budget's category and month. |
| `Budgets.SpentIsCategoryTotal` | backend/controllers/budgetController.js:63-73 | A budget's spent equals that category's row in the analytics category breakdown over the budget's calendar month. |
| `Budgets.SpentNonNegative` | backend/controllers/budgetController.js:73-74 | Over valid transactions spent is non-negative, so remaining never exceeds the budget amount. |
| `Budgets.ReplaceKeepsUnique` | backend/models/Budget.js:34 | Changing a budget's amount keeps its key, so keys stay unique. |
| `Budgets.BudgetStore.constructor` | backend/models/Budget.js:34 | An empty store satisfies the uniqueness invariant. |
| `Budgets.BudgetStore.CreateBudget` | backend/controllers/budgetController.js:4-47 | The checks run in order: missing fields (month and year must be truthy numbers), then invalid amount, month or year, then a duplicate key, then a blank category rejected by the schema. Otherwise a fresh budget with the trimmed category is stored and keys stay unique. |
| `Budgets.BudgetStore.GetBudgets` | backend/controllers/budgetController.js:49-90 | A NaN month or year filter is an error. Otherwise the result holds exactly the caller's budgets matching the given filters, each with its projection. |
| `Budgets.BudgetStore.UpdateBudget` | backend/controllers/budgetController.js:92-114 | Not-found for a foreign id. Otherwise only the amount changes, when given; a null, NaN or negative amount is refused without change. |
| `Budgets.BudgetStore.DeleteBudget` | backend/controllers/budgetController.js:116-132 | Delete succeeds exactly for the caller's own budget and removes only it. |
| `Debts.PatchDebt` | backend/controllers/debtController.js:79-85 | A patch either fails schema validation or yields a valid debt with the same owner. |
| `Debts.PatchDebtFields` | backend/controllers/debtController.js:79-83 | Field by field:<br>• a truthy name replaces the name, trimmed;<br>• a defined amount replaces the amount;<br>• a truthy type replaces the type;<br>• a defined due date replaces the due date, and a falsy one clears it;<br>• defined notes replace the notes.<br>A null or NaN amount, or an unknown type, is rejected. |
| `Debts.AssignFields` | backend/controllers/debtController.js:79-85 | The in-place sequence of conditional field writes followed by save computes exactly PatchDebt. |
| `Debts.EmptyPatchKeepsDebt` | backend/controllers/debtController.js:79-85 | An update with no fields saves a valid debt unchanged. |
| `Debts.PatchDebtIdempotent` | backend/controllers/debtController.js:68-94 | Applying the same update twice gives the same debt as applying it once. |
| `Debts.PatchDebtSucceeds` | backend/controllers/debtController.js:79-85 | On a valid debt, an update succeeds exactly when:<br>• a truthy name does not trim to empty;<br>• the amount is absent or a non-negative number;<br>• a truthy type is "give" or "take". |
| `Debts.DebtStore.constructor` | backend/models/Debt.js:3-34 | An empty store conforms to the schema. |
| `Debts.DebtStore.GetDebtById` | backend/controllers/debtController.js:52-66 | A debt is found exactly when it exists and belongs to the caller; otherwise the result is not-found. |
| `Debts.DebtStore.GetDebts` | backend/controllers/debtController.js:36-50 | The result holds exactly the caller's debts, restricted to the given type when a non-empty type is given. |
| `Debts.DebtStore.CreateDebt` | backend/controllers/debtController.js:3-34 | The checks run in order: missing name, amount or type, then an invalid amount, then an unknown type or blank name rejected by the schema. Otherwise a fresh debt is stored with the trimmed name, the amount, the due date and trimmed notes (default ""). It can then be fetched by id. |
| `Debts.DebtStore.UpdateDebt` | backend/controllers/debtController.js:68-94 | Not-found for a foreign id. Otherwise the result is PatchDebt of the stored debt: on success it replaces the stored debt, and on failure nothing changes. |
| `Debts.DebtStore.DeleteDebt` | backend/controllers/debtController.js:96-112 | Delete succeeds exactly for the caller's own debt and removes only it. |
| `Debts.DebtsSplitByType` | backend/controllers/debtController.js:41-44 | The "give" and "take" listings are disjoint, and together they are the unfiltered listing. |
| `Debts.UnknownTypeFindsNothing` | backend/controllers/debtController.js:42 | Filtering by a type outside the enum finds no debts. |

## Left out

- **Outside the core.** Authentication, the one-time-password flow, routing, middleware, the server bootstrap, the frontend and `getAccounts` are not part of this model.
- **Ordering.**
  - Sort orders (`sort({ date: -1 })`, `sort({ createdAt: -1 })`) and `populate` are not modelled.
  - Lists are taken in the order of the `seq` snapshot given to the query, and stores are maps.
- **Identifiers.**
  - Ids are natural numbers.
  - A malformed ObjectId (a cast error answered with 500) cannot be expressed. This includes an account-id filter on the list query that is not an ObjectId.
- **Dates and time.**
  - Date strings are not parsed. A date parameter is already a valid calendar instant, and a falsy date is `None`.
  - An unparsable date string is not modelled. In the source, `new Date("garbage")` is an Invalid Date: the query or the save then fails with 500. In `updateTransaction` that failure comes at `transaction.save()`, after the balances are saved, so it is a second input for the finding below. The model has no invalid instant: a create without a date uses now, and an update without a date keeps the stored one.
- **Calendar.MakeDate:** the `Date` range of ±8.64e15 ms (about year ±275760) is not modelled; beyond it the source builds an Invalid Date, and the model keeps counting days.
- **Budgets.BudgetStore.GetBudgets:** a budget year outside the `Date` range makes the source's `Transaction.find` fail with 500; the model computes spent over the unbounded calendar instead.
  - Time zones are not modelled: the calendar is a single zone.
  - The ISO day key used by the trends is an abstract function parameter `dayKey`, because `toISOString` depends on UTC conversion.
- **Numbers.**
  - Amounts are integers, so floating-point rounding is not modelled.
  - `Number("Infinity")` passes `validNum` in the transaction controller; the model has no infinite values.
  - Parsing (`Number`, `parseInt`) happens before the model: a numeric request value arrives as `NotANumber` or `Finite(v)`.
- **Transaction types.** `type` is `Option<TxType>`, so an unknown transaction type string is not expressible. In the source such a type is applied as an expense, then rejected by the schema at save.
- **Atomicity.**
  - Each request is modelled as atomic.
  - The source's separate saves, and interleaving between concurrent requests, are not modelled.
  - See the finding below for the one place where this changes an outcome.
- **Inputs.TruthyNumber:** truthiness of a month or year is decided on the parsed number. A string such as "0" would be truthy in JavaScript but is read here as the number 0.
- **Transaction notes.** A note sent as JSON `null` becomes the string "null" in an update (`String(null)`). In a create it becomes "", as the source does.
- **Debts.DebtStore.UpdateDebt:** notes sent as `null` are stored as "". Mongoose would store `null`, and the model has no null strings.
- **Debts.DebtStore.UpdateDebt:** Mongoose's cast of an empty-string amount to `null` is modelled as the `Null` case, which fails validation.
- **Ledger.LedgerStore.DeleteTransaction:** the source skips the balance change when the transaction's account is gone (`if (account)`, transactionController.js:192). Under the ledger invariant every transaction points at an existing account of its user, so that branch is unreachable in the model and is not modelled separately.
- **Analytics.CategoryBreakdown:** the corrected tally treats every category string as an ordinary key. In the source's plain object, inherited names such as "constructor", "toString", "valueOf" or "hasOwnProperty" start from the inherited function, so `(obj[k] || 0) + amount` stores a string; integer-like category names are listed first by `Object.entries`. Neither is modelled; "__proto__" is the finding below.
- **Analytics.BreakdownsAgree:** states the agreement for the corrected breakdown, which does not hold as written for "__proto__" (see the finding below) or for the inherited names above.
- **Analytics.GetAnalytics:** its categories are the corrected breakdown, with the same limits as `Analytics.CategoryBreakdown`.
- **Budgets.SpentIsCategoryTotal:** relates spent to the corrected breakdown, with the same limits as `Analytics.CategoryBreakdown`.
- **Budget windows.** A budget window and the "month" and "year" views end at 23:59:59.000, so the last 999 ms of the period are outside the window. This is the source's behaviour and is kept: see `Queries.CalendarMonthMissesLastMoments`.

## Findings

| source | as written | input that shows it | evidently intended | confidence | as-written member | corrected member |
|---|---|---|---|---|---|---|
| backend/controllers/transactionController.js:128-165 | The update saves the adjusted account balances (lines 140, 148, 155) before `transaction.save()` (line 165), which can still fail schema validation. | A wallet with opening balance 0 and one income of 10, updated with amount 20 and category " ". The category trims to "" and fails `required`, so the transaction keeps amount 10 while the wallet balance becomes 20. A date string that does not parse fails the same save (with 500) after the same balance writes; the model has no invalid date, so only the blank category is exhibited. | Validate the patched transaction before moving any balance, so that a rejected update changes nothing and every balance stays opening balance plus net effect. | not executed | `Ledger.UpdateAsWrittenUnbalances` | `Ledger.LedgerStore.UpdateTransaction` |
| backend/controllers/analyticsController.js:87-99 | The category tally is a plain object `{}`. The assignment `categoryBreakdown["__proto__"] = ...` goes to the prototype setter and adds no entry, so that category is dropped from `Object.entries`. | One expense of 50 in category "__proto__": the categories are `[]` while totalExpense is 50. | Every expense category appears with its total, so the breakdown sums to the expense total (a dictionary without a prototype, or a `Map`). | not executed | `Analytics.ProtoCategoryDropped` | `Analytics.CategoryBreakdown` |
