# FinanceTracker core in Dafny

This project models the bookkeeping core of FinanceTracker, a personal-finance
tracker. The backend stores expenses and keeps a per-month summary table, with
income, expense, savings, savings rate, expense ratio and anomaly count, in
step with them. The other backend services read these two tables: month
queries, finance metrics, category breakdowns, a rule-based score, the
anomaly-scan result and the recommendation payload. The ML service turns a
model score into an anomaly verdict using fixed thresholds. The frontend
helpers aggregate transactions for the dashboard, the insights page and the
CSV export.

Layout, one module per file:

- **Shared values.** `Values` holds JSON values and sums. `Text` holds digits,
  number and string conversion, and upper-casing. `Dates` holds `YYYY-MM-DD`
  strings and month keys. `Groups` holds the insertion-ordered maps the
  sources build as JS objects. `Sorting` orders rows by a numeric key, largest first. `Rounding` holds
  `toFixed(2)`, `Math.round` and Python `round`. `Tables` holds the rows of
  the two store tables. `Transactions` holds the records the frontend reads.
- **Backend services.**
  - `ExpenseService`, `IncomeService`, `FinanceRules`,
    `MonthlySummaryService`, `FutureRecommendationService`,
    `MonthlyAnomalyService`, `AnalyzeService` and `MlClient`, one per service
    file.
  - `Store` holds the two tables as the class `Store.FinanceStore`: a
    sequence of expenses and a map from month key to summary row. Its
    methods `InsertExpenses` and `InsertIncome` are the read-modify-write of
    the two insert services.
  - The invariant `Store.ValidTables` holds in every reachable state. It says
    that every row was normalised and that every summary row is consistent,
    meaning savings is income minus expense, and the rates are 0 while there
    is no income and are the percentages otherwise. It also says that every
    expense's month has a summary row whose total expense is exactly the sum
    of that month's stored expenses, and that every stored date and month
    key is one the store's `date` columns accept (`Dates.IsStoreDate`).
- **ML service.** `AnomalyPredictor` holds the rule part of
  `detect_anomaly`. The model score, the category statistics and the set of
  known categories are inputs.
- **Frontend.** `MonthlyTransactions`, `DashboardHelper`, `CurrencyUtils`,
  `MonthlyInsights` and `Dashboard`.

Amounts and rates are exact `real`s. JavaScript's `toFixed(2)` on rates is
modelled as `Rounding.Round2`: round to the nearest hundredth, half away from
zero. Python's `round(x, n)` is modelled as `Rounding.RoundTo`, which rounds
half to even at the n-th decimal. The store, the ML endpoints and the clock
are parameters: a table given as a value, a function from payload to
response, and a year and month index.

The store's `date` columns accept exactly the `YYYY-MM-DD` strings that name
a day of the calendar from year 1 on (`Dates.IsStoreDate`). A query bound or
an inserted value of that shape that names no such day, such as
"2026-02-31" or "2026-13-01", is an error of the store, and the model gives
each service's reaction to it.

The services take different paths in three places. The model follows each
path as written:

- The expense side leaves its derived columns unrounded
  (`expenseService.js:24-38`). The income side and `computeFinanceMetrics`
  round the rates with `toFixed(2)`.
- The two `computeDerived` variants disagree when income ≤ 0. The expense
  side keeps `savings = income - expense`, which can be negative. The income
  side returns all three columns as 0 (`IncomeService.DerivedVariantsDisagree`).
  The income path only writes a positive total income, so every stored row
  still has savings equal to income minus expense (`Store.ValidSavings`).
- `insertIncome`, `getMonthlySummaryByMonth` and `analyzeRecommendations`
  check month keys with the loose `\d{4}-\d{2}-01`, and only
  `getExpensesByMonth` uses the strict `\d{4}-(0[1-9]|1[0-2])-01`
  (`IncomeService.LooseMonthCheck`).

## Model

| member | source | states |
|---|---|---|
| ExpenseService.InferDiscretionary | Backend/src/services/expenseService.js:10-16 | a category is discretionary exactly when it is FOOD, SHOPPING or ENTERTAINMENT, and every discretionary category is a valid one |
| ExpenseService.ExpenseDerived | Backend/src/services/expenseService.js:24-38 | savings is income minus expense even when income ≤ 0; both rates are 0 when income ≤ 0 and are otherwise the exact percentages of savings and of expense in income |
| ExpenseService.ExpenseRatesComplement | Backend/src/services/expenseService.js:27-31 | with positive income, the unrounded savings rate and expense ratio add up to exactly 100 |
| ExpenseService.ValidateEntry | Backend/src/services/expenseService.js:49-76 | an entry is accepted exactly when it is an object whose amount is a positive number, whose description is a non-blank string, whose category is a valid code and whose date has the `YYYY-MM-DD` shape; each rejection carries its own message; an accepted row copies the fields, derives the discretionary flag from the category and has source "manual" |
| ExpenseService.CallerFlagIgnored | Backend/src/services/expenseService.js:68-75 | an `is_discretionary` supplied by the caller does not change the validated row |
| ExpenseService.ValidateEntries | Backend/src/services/expenseService.js:49-76 | the batch is accepted exactly when every entry is, and then yields each entry's row in order |
| ExpenseService.FirstInvalidEntry | Backend/src/services/expenseService.js:49-76 | a rejected batch fails with the message of its first invalid entry, and every entry before that one is valid |
| ExpenseService.ValidateBatch | Backend/src/services/expenseService.js:44-76 | a non-array or an empty array is rejected before any entry is examined; an accepted batch is non-empty and every row is dated |
| ExpenseService.WrappedBatchRejected | Backend/src/tests/test-expense-service.js:5-20 | passing an object that wraps the array, as the test script does, is rejected as "not a non-empty array" |
| ExpenseService.InvalidEntryRejectsBatch | Backend/src/services/expenseService.js:49-66 | one invalid entry anywhere rejects the whole batch |
| ExpenseService.FetchAllExpenses | Backend/src/services/expenseService.js:166-178 | every stored expense is returned once, most recent date first |
| ExpenseService.InMonth | Backend/src/services/expenseService.js:188-196 | exactly the stored rows dated on or after the month start and before the next month's start, each as many times as it is stored |
| ExpenseService.GetExpensesByMonth | Backend/src/services/expenseService.js:179-205 | a key failing `YYYY-(01..12)-01` is rejected with the format message; otherwise exactly the stored rows dated within the month's range, latest first |
| ExpenseService.MonthQueryMatchesMonthKey | Backend/src/services/expenseService.js:186-197 | for a calendar date, being in the month query's range is the same as having that month as its month start; December rolls over to January of the next year |
| Dates.MonthStart | Backend/src/services/expenseService.js:18-22 | the month key keeps the date's year and month and has day 01; the month key of a date the store accepts is one the store accepts |
| Dates.SameMonthIff | Backend/src/services/expenseService.js:18-22 | a date's month start is a key exactly when year and month agree |
| Dates.MonthStartIdempotent | Backend/src/services/expenseService.js:18-22 | taking the month start of a month key gives the same key |
| Dates.StrictMonthKeyIff | Backend/src/services/expenseService.js:181 | a loose month key passes the strict check exactly when its month is between 1 and 12 |
| Dates.InMonthRangeIffMonthStart | Backend/src/services/expenseService.js:186-196 | the half-open range `[start, next month start)` holds exactly the dates whose month start is the key |
| Dates.CalendarWindow | Backend/src/services/expenseService.js:188-190 | every day of a month ranks at or after its month's start and before the next month's start |
| Dates.DateStringOrder | Backend/src/services/expenseService.js:170 | on `YYYY-MM-DD` strings, text order and calendar order agree |
| Dates.LexLeDigits | Backend/src/services/futureRecommendationService.js:25-26 | digit strings of equal length compare as text exactly as their values compare |
| Dates.FormatMonthKeyRoundTrip | Frontend/src/features/insights/MonthlyInsights.jsx:60-66 | a formatted four-digit year and month give a strict month key that reads back as that year and month |
| Dates.MonthKeyStoreDateIff | Backend/src/services/monthlySummaryService.js:29-42 | a key of the loose form is a date the store accepts exactly when its month is 01 to 12 and its year is not 0000 |
| Store.Grown | Backend/src/services/expenseService.js:133-156 | an existing month's expense grows by the delta, and its derived columns are recomputed from the kept income and the new expense; income, anomaly count and key are unchanged |
| Store.Fresh | Backend/src/services/expenseService.js:109-131 | a new month has income 0, expense equal to the delta, anomaly count 0, savings equal to minus the delta and both rates 0 |
| Store.ApplyExpenseDeltasEffect | Backend/src/services/expenseService.js:97-156 | folding distinct per-month deltas grows each month already present, creates each month that is absent, and leaves every other month as it was |
| Store.BatchDeltas | Backend/src/services/expenseService.js:89-161 | a month has a delta exactly when some row of the batch falls in it; each delta is that month's sum; the deltas add up to the batch total; their number is the number of distinct month keys |
| Store.GrownConsistent | Backend/src/services/expenseService.js:133-156 | growing a consistent summary keeps it consistent |
| Store.EffectConsistent | Backend/src/services/expenseService.js:97-156 | the summary update keeps every row keyed by its month and consistent |
| Store.EffectExpenseAt | Backend/src/services/expenseService.js:109-156 | after the update, a month's expense is its old expense, its old expense plus the delta, or the delta alone, according to whether it had a delta and a row |
| Store.EffectTotalAt | Backend/src/services/expenseService.js:89-156 | if a month's expense was the sum of the old rows, after the update it is the sum of old and new rows for that month |
| Store.EffectTotalFrom | Backend/src/services/expenseService.js:89-156 | with every stored month covered and summed, a month's new expense is the sum over all stored and inserted rows of that month |
| Store.EffectTotals | Backend/src/services/expenseService.js:89-156 | after the update, every summary's expense is the sum of all expenses ever inserted in its month |
| Store.EffectCovers | Backend/src/services/expenseService.js:89-156 | after the update, every stored expense, old or new, has a summary row for its month |
| Store.RowCovered | Backend/src/services/expenseService.js:89-156 | each single row, old or new, is dated and has its month's summary after the update |
| Store.DeltaKeys | Backend/src/services/expenseService.js:89-94 | the monthly map has a key exactly for the months some row falls in |
| Store.DeltaAmounts | Backend/src/services/expenseService.js:92-93 | the monthly map's value at a key is the sum of that key's amounts |
| Store.InsertExpensesKeepsValid | Backend/src/services/expenseService.js:42-162 | a successful batch insert preserves the table invariant: rows normalised, summaries consistent, every month covered and summed |
| Store.NextTables | Backend/src/services/expenseService.js:78-156 | the tables after appending the numbered rows and folding the batch's month deltas satisfy the invariant |
| Store.IncomeMonthUpdate | Backend/src/services/incomeService.js:37-64 | only the given month changes; an absent month gets income equal to the amount, expense 0 and anomaly count 0; a present month's income grows by the amount while its expense and anomaly count are kept; the derived columns follow the income-side rule |
| Store.IncomeConsistent | Backend/src/services/incomeService.js:43-63 | adding a positive income amount keeps every summary row consistent |
| Store.IncomeRowConsistent | Backend/src/services/incomeService.js:8-25 | a row with positive income whose derived columns follow the income-side rule is consistent |
| Store.IncomeTotals | Backend/src/services/incomeService.js:53-63 | adding income leaves every month's expense equal to the sum of its stored expenses |
| Store.InsertIncomeKeepsValid | Backend/src/services/incomeService.js:27-67 | an income insert preserves the table invariant |
| Store.NextIncomeTable | Backend/src/services/incomeService.js:37-64 | the table after one income update satisfies the invariant |
| Store.IncomeAccumulates | Backend/src/services/incomeService.js:53-63 | two income inserts for one month add up rather than overwrite |
| Store.ValidSavings | Backend/src/services/expenseService.js:111 | in every valid state, each summary's savings is income minus expense and both rates are 0 while income is not positive |
| Store.Numbered | Backend/src/services/expenseService.js:79-81 | the inserted rows keep their order and get consecutive identifiers after the stored ones |
| Store.NumberedRowsStored | Backend/src/services/expenseService.js:79-81 | appending normalised, consecutively numbered rows keeps every stored row normalised and numbered in order |
| Store.FinanceStore.constructor | Backend/src/services/expenseService.js:42-162 | the store starts with both tables empty, and the invariant holds |
| Store.FinanceStore.InsertExpenses | Backend/src/services/expenseService.js:42-162 | a rejected batch changes neither table and returns the validation message; a valid batch holding a date the `transaction_date` column rejects fails with "Failed to insert expenses" and changes nothing; an accepted one appends the normalised rows, folds the per-month deltas into the summaries, returns the row count and the number of distinct months, and keeps the invariant |
| Store.BatchRowsStored | Backend/src/services/expenseService.js:49-86 | a validated batch whose dates the store accepts consists of normalised rows as the store holds them |
| Store.FinanceStore.InsertRows | Backend/src/services/expenseService.js:78-161 | appends the rows, folds their month deltas into the summaries and reports the counts, keeping the invariant |
| Store.FinanceStore.FoldDeltas | Backend/src/services/expenseService.js:97-156 | the update loop leaves the expenses alone and brings the summaries to the monthly fold of the deltas, in order |
| Store.FinanceStore.InsertIncome | Backend/src/services/incomeService.js:27-67 | an invalid amount or month changes nothing and returns the message; a loose key the `month` column rejects leaves the table as it was and still answers "success"; otherwise it applies the month's income update and answers "success"; expenses never change and the invariant holds |
| Store.FinanceStore.AddIncome | Backend/src/services/incomeService.js:37-64 | for a key the store accepts, the month's row is created with the income or its income grows, through the income-side update, keeping the invariant and the expenses |
| Store.FinanceStore.IncomeRowOf | Backend/src/services/incomeService.js:37-64 | the row the income upsert writes is the update's row for the month: new with the income alone, or the existing row with its income grown |
| Tables.CategoryGroups | Backend/src/services/financeRules.js:24-36 | the category map has one entry per distinct code of the rows, in order of first occurrence, each holding its category's sum, and the entries add up to the sum of all amounts |
| Tables.CategoryCodesOccur | Backend/src/services/financeRules.js:27-30 | a code is a key of the category map exactly when some row has it |
| Tables.MonthTotalAppend | Backend/src/services/expenseService.js:89-94 | appending rows adds their per-month sums to the existing month totals |
| Tables.MonthTotalStep | Backend/src/services/expenseService.js:90-93 | one more row adds its amount to its own month's total and to no other |
| Tables.MonthTotalEmpty | Backend/src/services/expenseService.js:89-94 | a month no row falls in has total 0 |
| Tables.TotalConcat | Backend/src/services/expenseService.js:89-94 | a key's total over two lists of entries is the sum of its totals over each |
| Tables.TotalAbsent | Backend/src/services/expenseService.js:92-93 | a key that never occurs has total 0 |
| IncomeService.LooseMonthCheck | Backend/src/services/incomeService.js:4-6 | the income month check accepts "2026-13-01", which the strict expense-side check rejects |
| IncomeService.IncomeDerived | Backend/src/services/incomeService.js:8-25 | with income ≤ 0 all three columns are 0; otherwise savings is income minus expense and the rates are the percentages rounded to two decimals |
| IncomeService.DerivedVariantsDisagree | Backend/src/services/incomeService.js:10-16 | when income ≤ 0 and expense differs from income, the income-side savings differ from the expense-side savings |
| IncomeService.DerivedVariantsAgree | Backend/src/services/incomeService.js:18-24 | with positive income, both variants give the same savings, and their rates differ by at most the half-hundredth of display rounding |
| IncomeService.ValidateIncome | Backend/src/services/incomeService.js:27-35 | rejects a body whose amount is not a positive number, then one whose month fails the loose check, each with its own message; otherwise yields the amount and the month |
| FinanceRules.ComputeFinanceMetrics | Backend/src/services/financeRules.js:1-22 | total income echoes the income; total expense is the sum of amounts; savings is income minus total expense; the rates are 0 when income ≤ 0 and otherwise within a half-hundredth of the exact percentages |
| FinanceRules.MetricsMatchIncomeDerived | Backend/src/services/financeRules.js:7-13 | with positive income, the metrics equal the income side's derived columns for the same totals |
| FinanceRules.MetricsMatchExpenseDerivedWithoutIncome | Backend/src/services/financeRules.js:7-13 | with income ≤ 0, the metrics equal the expense side's derived columns |
| FinanceRules.ComputeCategoryBreakdown | Backend/src/services/financeRules.js:24-36 | the breakdown has one entry per distinct category code, in order of first occurrence, each holding its category's sum, and the entries add up to the metrics' total expense |
| Groups.GroupSum | Backend/src/services/financeRules.js:27-30 | the accumulation loop yields distinct keys, exactly the keys of the items, each with its total, adding up to the sum of the items |
| Groups.DedupOrder | Backend/src/services/financeRules.js:32-35 | the keys of a grouped map appear in order of their first occurrence in the items |
| Groups.GroupedFacts | Backend/src/services/financeRules.js:27-35 | a grouped map has distinct keys, the same key set as its items, each key's total, and the same overall sum |
| MonthlySummaryService.Bounded | Backend/src/services/monthlySummaryService.js:10-16 | keeps exactly the rows within the applied bounds and drops nothing else; with no row outside the bounds, nothing is dropped |
| MonthlySummaryService.GetMonthlySummary | Backend/src/services/monthlySummaryService.js:3-26 | an applied bound that is not a date the store accepts (such as 2026-02-31) makes the query fail with the fetch message, and nothing else does; otherwise the result holds exactly the rows within the applied bounds, earliest month first |
| MonthlySummaryService.UnboundedReturnsAll | Backend/src/services/monthlySummaryService.js:10-16 | with no bound applied, every stored row is returned |
| MonthlySummaryService.GetMonthlySummaryByMonth | Backend/src/services/monthlySummaryService.js:28-45 | a key failing `\d{4}-\d{2}-01` is rejected before any read; a key that passes but that the store rejects (month 00 or 13 to 99, or year 0000) fails with the fetch message; otherwise the month's row is returned, or none when there is no row |
| MonthlySummaryService.DateRankInjective | Backend/src/services/monthlySummaryService.js:8 | two dates of the same rank are the same text, so the month order is total |
| MonthlySummaryService.OneMonthBounds | Backend/src/services/monthlySummaryService.js:10-16 | bounds `from = to = m` admit exactly the row of month `m` |
| MonthlySummaryService.ByMonthIsOneMonthRange | Backend/src/services/monthlySummaryService.js:28-45 | the by-month lookup returns the same row as the range query with both bounds at that month |
| FutureRecommendationService.WindowRows | Backend/src/services/futureRecommendationService.js:22-26 | exactly the rows whose date text lies between the month key and `YYYY-MM-31`, each as often as stored |
| FutureRecommendationService.WindowEndParts | Backend/src/services/futureRecommendationService.js:26 | the upper bound is a `YYYY-MM-DD` string with the key's year and month and day 31 |
| FutureRecommendationService.WindowRejectedIff | Backend/src/services/futureRecommendationService.js:22-26 | for a key the store accepts, the expense query fails exactly when the month has fewer than 31 days |
| FutureRecommendationService.FebruaryWindowRejected | Backend/src/services/futureRecommendationService.js:22-30 | the key 2026-02-01 passes the month check and the lookup, and its expense query fails |
| FutureRecommendationService.WindowIsMonth | Backend/src/services/futureRecommendationService.js:25-26 | for `YYYY-MM-DD` dates, the text window holds exactly the days 01..31 of the key's month |
| FutureRecommendationService.AnalyzeRecommendations | Backend/src/services/futureRecommendationService.js:4-54 | a bad month key fails with its message, and a key the store rejects or without a summary fails as a missing summary, both without any ML call; when the bound `YYYY-MM-31` is rejected, the loop over the null result fails with a TypeError and nothing is sent; otherwise the payload carries the key's first seven characters, the summary's income and the category map of the window's rows; a non-ok response is an error, otherwise its body is returned unchanged |
| FutureRecommendationService.PostCategoryMap | Backend/src/services/futureRecommendationService.js:28-54 | the payload holds the key's first seven characters, the summary's income and the category map of the rows: each code once, exactly the codes that occur, each with its rows' sum; the answer is the response body when ok and the ML error otherwise |
| FutureRecommendationService.MonthLastDay | Backend/src/services/futureRecommendationService.js:26 | the corrected upper bound has the key's year and month and the month's number of days, and the store accepts it whenever it accepts the key |
| FutureRecommendationService.MonthWindowIsMonth | Backend/src/services/futureRecommendationService.js:25-26 | a calendar date lies in the corrected window exactly when its month key is the requested month |
| FutureRecommendationService.MonthWindowRows | Backend/src/services/futureRecommendationService.js:22-26 | the corrected query returns exactly the rows dated within the corrected window |
| FutureRecommendationService.MonthWindowRowsAreMonth | Backend/src/services/futureRecommendationService.js:22-26 | over calendar-dated rows, the corrected query returns exactly the rows of the requested month |
| FutureRecommendationService.AnalyzeMonthRecommendations | Backend/src/services/futureRecommendationService.js:4-54 | the service with the corrected window: the same month and summary failures, no expense-query failure, and a payload over the month's rows |
| MonthlyAnomalyService.ToPayloadEntry | Backend/src/services/monthlyAnomalyService.js:8-14 | the identifier becomes its decimal text, which reads back as the identifier; the discretionary flag is 1 when set and 0 otherwise; amount, category and date are copied |
| MonthlyAnomalyService.Payload | Backend/src/services/monthlyAnomalyService.js:8-14 | one payload entry per fetched expense, in the same order |
| MonthlyAnomalyService.PayloadIdsDistinct | Backend/src/services/monthlyAnomalyService.js:9 | distinct expense identifiers give distinct payload identifiers |
| MonthlyAnomalyService.BatchResults | Backend/src/services/monthlyAnomalyService.js:17-25 | a failed batch call yields no results; a returned one yields its `results` |
| MonthlyAnomalyService.Suspicious | Backend/src/services/monthlyAnomalyService.js:28 | keeps exactly the results whose `suspicious` is truthy, in order; a null or undefined result makes the filter throw the error of the first such result |
| MonthlyAnomalyService.SuspiciousConcat | Backend/src/services/monthlyAnomalyService.js:28 | filtering two lists one after the other is filtering their concatenation |
| MonthlyAnomalyService.SuspiciousCons | Backend/src/services/monthlyAnomalyService.js:28 | a suspicious first result is kept at the head and any other is dropped |
| MonthlyAnomalyService.Anomalies | Backend/src/services/monthlyAnomalyService.js:21-28 | results that are not an array make the filter throw; otherwise the suspicious filter applies |
| MonthlyAnomalyService.DetectMonthlyAnomalies | Backend/src/services/monthlyAnomalyService.js:4-36 | a bad month propagates the expense query's error; otherwise the month is echoed, total is the number of fetched expenses and the count is the number of anomalies kept |
| MonthlyAnomalyService.FailedBatchReportsNothing | Backend/src/services/monthlyAnomalyService.js:17-25 | a failed batch call gives a successful scan with no anomalies and the month's expense count |
| AnalyzeService.ScoreOf | Backend/src/services/analyzeService.js:38-42 | the score is 0 exactly when the raw score 100 − 0.4·ratio − 5·anomalies is below 0.5, and otherwise lies within half a point of the raw score, the value `Math.round` gives |
| AnalyzeService.ScoreAntitoneInAnomalies | Backend/src/services/analyzeService.js:40 | for a fixed ratio, more anomalies never raise the score |
| AnalyzeService.ScoreAntitoneInRatio | Backend/src/services/analyzeService.js:39 | for a fixed anomaly count, a higher expense ratio never raises the score |
| AnalyzeService.ScoreAtMostHundred | Backend/src/services/analyzeService.js:38-42 | with a non-negative ratio, the score is at most 100 |
| AnalyzeService.RiskBand | Backend/src/services/analyzeService.js:44-49 | LOW exactly when the score is at least 70, MODERATE exactly when it is 40 to 69, HIGH exactly below 40 |
| AnalyzeService.Recommendations | Backend/src/services/analyzeService.js:52-64 | the savings advice appears exactly when the savings rate is below 20, the review advice exactly when there are anomalies, there is one entry per condition that holds and nothing else, and the savings advice comes first |
| AnalyzeService.RuleScore | Backend/src/services/analyzeService.js:38-49 | the step-by-step score and its risk band are those of the score rule |
| AnalyzeService.Advise | Backend/src/services/analyzeService.js:52-64 | the pushed list is the recommendation rule's list |
| AnalyzeService.AnalyzeData | Backend/src/services/analyzeService.js:11-78 | no expenses is an error; otherwise it bundles the metrics at the fixed income, the category breakdown, the flagged anomalies, the forecast, the score, its band and the recommendations, with the score's reasons equal to the recommendations |
| MlClient.Flag | Backend/src/services/mlClient.js:5-9 | description and amount are copied and the category comes from the category code |
| MlClient.DetectAnomalies | Backend/src/services/mlClient.js:1-10 | exactly the rows with amount above 2000 are flagged, and the output is never longer than the input |
| MlClient.DetectAnomaliesConcat | Backend/src/services/mlClient.js:3-9 | the flagged lists of two batches concatenate, so the input order is kept |
| MlClient.DetectAnomaliesSingle | Backend/src/services/mlClient.js:4 | one row is flagged exactly when its amount is above 2000 |
| MlClient.ForecastSavings | Backend/src/services/mlClient.js:12-17 | the placeholder forecast is 42000 for six months and 68000 for twelve |
| AnomalyPredictor.MlRisk | ml_service/app/anomaly_predictor.py:38 | the model risk is never negative: it is 0 or 0.5 minus the model score, whichever is larger |
| AnomalyPredictor.Denominator | ml_service/app/anomaly_predictor.py:52 | the ratio denominator is at least 1 and at least the median, so the division is defined |
| AnomalyPredictor.PercentilePoints | ml_service/app/anomaly_predictor.py:45-50 | 0.6 exactly above p95, 0.4 exactly above p90 but not p95, 0 otherwise; the branches are exclusive |
| AnomalyPredictor.RatioPoints | ml_service/app/anomaly_predictor.py:54-59 | 0.6 exactly for a ratio above 3, 0.4 exactly for a ratio above 2 but not 3, 0 otherwise |
| AnomalyPredictor.Deviation | ml_service/app/anomaly_predictor.py:42-61 | the capped deviation risk lies in [0, 1] and is 0 exactly when neither rule scores |
| AnomalyPredictor.FinalScore | ml_service/app/anomaly_predictor.py:64 | the final score is never negative |
| AnomalyPredictor.CollectedReasons | ml_service/app/anomaly_predictor.py:43-59 | at most two reasons are collected, and none exactly when the deviation risk is 0 |
| AnomalyPredictor.FinalReasons | ml_service/app/anomaly_predictor.py:67-68 | a score at or above 0.5 always has a reason, and collected reasons are kept as they are |
| AnomalyPredictor.SuspiciousWithoutReasons | ml_service/app/anomaly_predictor.py:64-68 | with no statistical reason, the verdict is suspicious exactly when the model score is at most -0.75 |
| AnomalyPredictor.DeviationRisk | ml_service/app/anomaly_predictor.py:42-61 | the accumulation over the branches yields the capped deviation and the collected reasons |
| AnomalyPredictor.DetectAnomaly | ml_service/app/anomaly_predictor.py:11-75 | an unknown category gives the fixed unsuspicious verdict; for a known one a transaction date `pd.to_datetime` cannot parse raises, and then missing statistics raise a key error; otherwise suspicious holds exactly when 0.4 times the model risk plus 0.6 times the deviation is at least 0.5, the scores are rounded to 3 and 4 places, and the reason is "within normal behavior" or the reasons joined with " & " |
| Rounding.Round2 | Backend/src/services/incomeService.js:22-23 | the two-decimal rounding moves a value by at most a half-hundredth and keeps its sign |
| Rounding.Round2Idempotent | Backend/src/services/incomeService.js:22-23 | rounding an already rounded rate changes nothing |
| Rounding.JsRound | Backend/src/services/analyzeService.js:42 | `Math.round` gives the integer within a half of the value, rounding halves up |
| Rounding.JsRoundMonotone | Backend/src/services/analyzeService.js:42 | `Math.round` never reverses the order of two values |
| Rounding.RoundHalfEven | ml_service/app/anomaly_predictor.py:72-73 | nearest integer, with exact halves going to the even neighbour |
| Rounding.RoundTo | ml_service/app/anomaly_predictor.py:72-73 | rounding to n places moves a value by at most half a unit in the n-th place |
| Rounding.OneDecimal | ml_service/app/anomaly_predictor.py:56 | the ratio text ends in a point and one digit |
| Rounding.OneDecimalValue | ml_service/app/anomaly_predictor.py:56 | the ratio text carries a minus sign exactly when the ratio is negative, and its digits and single decimal read back as the ten-fold magnitude rounded half to even |
| Text.NatToStringRoundTrip | Backend/src/services/monthlyAnomalyService.js:9 | the decimal text of a number reads back as that number |
| Text.NumberText | Frontend/src/features/expenseHistory/MonthlyTransactions.jsx:94 | a number's text uses only digits, point, `e` and signs; for zero and for magnitudes from 10^-6 up to 10^21 it has no exponent; from 10^21 up it is in exponent form |
| Text.NumberTextSmallPower | Frontend/src/features/expenseHistory/MonthlyTransactions.jsx:94 | 10^-k reads "1e-k" for every k from 7 to 400 (an amount of 0.0000001 is exported as "1e-7") |
| Text.NumberTextLargePower | Frontend/src/features/dashboard/utils/DashboardHelper.jsx:95 | 10^k reads "1e+k" for every k from 21 on |
| MonthlyTransactions.NumberTextReadsBack | Frontend/src/features/expenseHistory/MonthlyTransactions.jsx:94 | for zero and every magnitude from 10^-6 below 10^21 whose decimal expansion ends within 20 places, `Number(String(x))` is `x`: an exported amount reads back as itself |
| Text.ToUpper | Frontend/src/features/dashboard/utils/currencyUtils.js:4 | upper-casing keeps the length and maps each character |
| Transactions.CodeKey | Frontend/src/features/expenseHistory/MonthlyTransactions.jsx:139 | the counted code is the record's `category_code` when that is truthy and "OTHER" otherwise, so it is always truthy |
| Transactions.DateOf | Frontend/src/features/dashboard/utils/DashboardHelper.jsx:22-23 | `null` and booleans read as January 1970; a calendar `YYYY-MM-DD` string reads as its year and zero-based month index; an absent date does not parse; every parsed month index lies in 0..11 |
| Sorting.SortDescCorrect | Frontend/src/features/insights/MonthlyInsights.jsx:116 | the sort by a key, largest first, is a permutation of its input and is ordered |
| MonthlyTransactions.EscapeCsv | Frontend/src/features/expenseHistory/MonthlyTransactions.jsx:92-97 | null and undefined become the empty field; text holding a quote, comma or newline is wrapped in quotes with each quote doubled, as rules 6-7 of section 2 of RFC 4180 require; any other text is unchanged |
| MonthlyTransactions.QuotedRoundTrip | Frontend/src/features/expenseHistory/MonthlyTransactions.jsx:95 | a doubled-quote body followed by the closing quote reads back as the original text |
| MonthlyTransactions.PlainRoundTrip | Frontend/src/features/expenseHistory/MonthlyTransactions.jsx:96 | text needing no quotes reads back as itself up to the next separator |
| MonthlyTransactions.FieldRoundTrip | Frontend/src/features/expenseHistory/MonthlyTransactions.jsx:92-97 | reading an escaped field by section 2 of RFC 4180 recovers the value's text and leaves the rest of the line |
| MonthlyTransactions.TextRoundTrip | Frontend/src/features/expenseHistory/MonthlyTransactions.jsx:94-96 | any string escaped and read back is the same string |
| MonthlyTransactions.RecordRoundTrip | Frontend/src/features/expenseHistory/MonthlyTransactions.jsx:115-116 | a line of escaped values joined by commas reads back as the values' texts |
| MonthlyTransactions.TextRecordRoundTrip | Frontend/src/features/expenseHistory/MonthlyTransactions.jsx:115-116 | a line of escaped strings reads back as those strings |
| MonthlyTransactions.DocumentRoundTrip | Frontend/src/features/expenseHistory/MonthlyTransactions.jsx:114-117 | lines of escaped records joined by newlines read back as the records' texts |
| MonthlyTransactions.TextDocumentRoundTrip | Frontend/src/features/expenseHistory/MonthlyTransactions.jsx:114-117 | any non-empty table of strings, encoded and read back, is the same table |
| MonthlyTransactions.StrCellsTexts | Frontend/src/features/expenseHistory/MonthlyTransactions.jsx:102-115 | the header strings are their own cell texts |
| MonthlyTransactions.CategoryLabel | Frontend/src/features/expenseHistory/MonthlyTransactions.jsx:17-25 | a code without a map entry, and OTHER itself, get the Misc label |
| MonthlyTransactions.IsoDate | Frontend/src/features/expenseHistory/MonthlyTransactions.jsx:105 | a calendar `YYYY-MM-DD` string is its own ISO date; null is the first day of 1970; undefined has no ISO date |
| MonthlyTransactions.RowCells | Frontend/src/features/expenseHistory/MonthlyTransactions.jsx:104-112 | every row has seven cells |
| MonthlyTransactions.RowCellsTexts | Frontend/src/features/expenseHistory/MonthlyTransactions.jsx:104-112 | the texts of a row's cells are the row's column texts |
| MonthlyTransactions.RowTextsColumns | Frontend/src/features/expenseHistory/MonthlyTransactions.jsx:104-112 | a row has seven columns; a missing description reads General Transaction; an unknown category gets the OTHER label |
| MonthlyTransactions.Rows | Frontend/src/features/expenseHistory/MonthlyTransactions.jsx:104-112 | the rows are built exactly when every transaction's date converts, one row per transaction in order; otherwise the conversion throws "Invalid time value" |
| MonthlyTransactions.DownloadCsv | Frontend/src/features/expenseHistory/MonthlyTransactions.jsx:99-117 | nothing is produced while loading or without transactions; otherwise a document is produced exactly when every date converts |
| MonthlyTransactions.CsvLayout | Frontend/src/features/expenseHistory/MonthlyTransactions.jsx:102-117 | the document reads back as the header line followed by exactly one seven-column line per transaction, in order |
| MonthlyTransactions.CsvRecords | Frontend/src/features/expenseHistory/MonthlyTransactions.jsx:114-117 | the document reads back as the texts of the header and of every row |
| MonthlyTransactions.LineLayout | Frontend/src/features/expenseHistory/MonthlyTransactions.jsx:104-116 | line i + 1 of the document holds transaction i's column texts |
| MonthlyTransactions.OccurrencesTotal | Frontend/src/features/expenseHistory/MonthlyTransactions.jsx:138-141 | a code's counter is the number of transactions counted under it, positive exactly when one is |
| MonthlyTransactions.FrequenciesCount | Frontend/src/features/expenseHistory/MonthlyTransactions.jsx:137-141 | the frequency map has one entry per distinct code, in order of first occurrence, holding its positive count, and is non-empty when there are transactions |
| MonthlyTransactions.FrequencyKeys | Frontend/src/features/expenseHistory/MonthlyTransactions.jsx:137-141 | the frequency map's keys are distinct and are exactly the counted codes |
| MonthlyTransactions.FrequencyCounts | Frontend/src/features/expenseHistory/MonthlyTransactions.jsx:140 | every entry's count is its code's number of occurrences, and it is positive |
| MonthlyTransactions.FrequencyEntry | Frontend/src/features/expenseHistory/MonthlyTransactions.jsx:140 | a single entry holds its code's positive count |
| MonthlyTransactions.BestKey | Frontend/src/features/expenseHistory/MonthlyTransactions.jsx:142-149 | with no positive count the key stays OTHER; otherwise it is a key with the largest count, and every earlier key has a strictly smaller count |
| MonthlyTransactions.MainCategoryLabel | Frontend/src/features/expenseHistory/MonthlyTransactions.jsx:135-151 | N/A without transactions; otherwise the label of a most frequent code, with ties going to the code seen first |
| MonthlyTransactions.NumeralCounts | Frontend/src/features/expenseHistory/MonthlyTransactions.jsx:69 | an amount sent as a decimal numeral counts as its value |
| MonthlyTransactions.TotalSpentOfNumbers | Frontend/src/features/expenseHistory/MonthlyTransactions.jsx:68-71 | with numeric amounts, the total is the sum of the amounts |
| MonthlyTransactions.TotalSpentConcat | Frontend/src/features/expenseHistory/MonthlyTransactions.jsx:68-71 | the total of two lists is the sum of their totals |
| MonthlyTransactions.NonNumericCountsZero | Frontend/src/features/expenseHistory/MonthlyTransactions.jsx:69 | a transaction whose amount is not a number adds nothing |
| MonthlyTransactions.YearList | Frontend/src/features/expenseHistory/MonthlyTransactions.jsx:62-66 | the years run strictly downwards from the current year to 2000 inclusive, each once |
| DashboardHelper.IndexOf | Frontend/src/features/dashboard/utils/DashboardHelper.jsx:16 | -1 exactly for a name that is not a month; otherwise the first position of the name |
| DashboardHelper.YearTxns | Frontend/src/features/dashboard/utils/DashboardHelper.jsx:21-24 | exactly the transactions dated in the selected year, each as often as in the input |
| DashboardHelper.MonthTxns | Frontend/src/features/dashboard/utils/DashboardHelper.jsx:27-30 | exactly the transactions dated in the given month index, each as often as in the input |
| DashboardHelper.SpendingSnoc | Frontend/src/features/dashboard/utils/DashboardHelper.jsx:35 | one more transaction adds its amount to the spending |
| DashboardHelper.ConfigLabel | Frontend/src/features/dashboard/utils/DashboardHelper.jsx:7-13 | a code without a config entry gets the Others label |
| DashboardHelper.History | Frontend/src/features/dashboard/utils/DashboardHelper.jsx:39-48 | twelve points, Jan to Dec, each with income 50000 and that month's spending within the year |
| DashboardHelper.CategoryItems | Frontend/src/features/dashboard/utils/DashboardHelper.jsx:52-55 | one item per transaction, under its code or OTHER, with its amount |
| DashboardHelper.Shares | Frontend/src/features/dashboard/utils/DashboardHelper.jsx:58-67 | one category per map entry, in order, labelled by its config and holding its sum |
| DashboardHelper.Assets | Frontend/src/features/dashboard/utils/DashboardHelper.jsx:71-75 | one asset per category, in order, with the same name and value |
| DashboardHelper.ProcessDashboardData | Frontend/src/features/dashboard/utils/DashboardHelper.jsx:14-98 | the currency is the first transaction's or 'IR'; a currency the symbol lookup cannot upper-case throws; otherwise the monthly spending is that month's sum, equal to its history point and to the sum of the categories, an unknown month name gives 0 and no categories, the assets mirror the categories and the notification quotes symbol, spending and month |
| DashboardHelper.MonthlySelection | Frontend/src/features/dashboard/utils/DashboardHelper.jsx:15-30 | the monthly transactions are exactly those of the selected year in the named month |
| DashboardHelper.UnknownMonthEmpty | Frontend/src/features/dashboard/utils/DashboardHelper.jsx:16-30 | an index outside 0..11, such as -1 for an unknown name, selects nothing |
| DashboardHelper.CategoriesAddUp | Frontend/src/features/dashboard/utils/DashboardHelper.jsx:51-67 | the category map has one entry per distinct code, in order of first occurrence, each with its sum, and the categories add up to the monthly spending |
| DashboardHelper.UnconfiguredCodesStaySeparate | Frontend/src/features/dashboard/utils/DashboardHelper.jsx:51-67 | ENTERTAINMENT and OTHER both get the Others label but stay two separate entries |
| DashboardHelper.SeparateGroups | Frontend/src/features/dashboard/utils/DashboardHelper.jsx:51-67 | two different codes give two different category entries, even under one label |
| DashboardHelper.MonthSpendingIsTotal | Frontend/src/features/dashboard/utils/DashboardHelper.jsx:40-41 | a month's spending is the total of the amounts under that month index |
| DashboardHelper.KeysPartition | Frontend/src/features/dashboard/utils/DashboardHelper.jsx:39-48 | when every key lies in 0..n-1, the totals of those keys add up to the sum of all amounts |
| DashboardHelper.MonthsPartition | Frontend/src/features/dashboard/utils/DashboardHelper.jsx:39-48 | for dated transactions, the twelve month totals add up to the spending |
| DashboardHelper.PrefixIsRangeTotal | Frontend/src/features/dashboard/utils/DashboardHelper.jsx:39-48 | a list whose k-th value is key k's total sums to the total of the keys 0..n-1 |
| DashboardHelper.HistoryCoversYear | Frontend/src/features/dashboard/utils/DashboardHelper.jsx:21-48 | the twelve history expenses add up to the year's spending |
| CurrencyUtils.GetCurrencySymbol | Frontend/src/features/dashboard/utils/currencyUtils.js:1-10 | a falsy code gives '$'; a truthy non-string throws on upper-casing; INR, EUR and GBP, in any case, give their own symbols, each exactly for its code; every answer is one of the four symbols |
| CurrencyUtils.ToUpperIdempotent | Frontend/src/features/dashboard/utils/currencyUtils.js:4 | upper-casing twice is upper-casing once |
| CurrencyUtils.CaseInsensitive | Frontend/src/features/dashboard/utils/currencyUtils.js:4 | a code and its upper-cased form give the same symbol |
| CurrencyUtils.OtherCodesAreDollar | Frontend/src/features/dashboard/utils/currencyUtils.js:8 | every other non-empty code, USD included, gives '$' |
| CurrencyUtils.LowerCaseCodes | Frontend/src/features/dashboard/utils/currencyUtils.js:4-8 | "inr" gives the rupee sign, "Eur" the euro sign and "usd" the dollar sign |
| MonthlyInsights.ConvertCurrency | Frontend/src/features/insights/MonthlyInsights.jsx:46-49 | a non-number or a currency without a rate gives 0; INR is the identity; USD multiplies by 0.012 |
| MonthlyInsights.ConvertAdditive | Frontend/src/features/insights/MonthlyInsights.jsx:46-49 | converting a sum is the sum of the conversions |
| MonthlyInsights.ConvertBounded | Frontend/src/features/insights/MonthlyInsights.jsx:20 | a non-negative amount converts to between 0 and itself |
| MonthlyInsights.Percentage | Frontend/src/features/insights/MonthlyInsights.jsx:114 | 0 when the total is 0; otherwise the share times the total is the amount times 100; a part of a positive total lies in [0, 100] |
| MonthlyInsights.Stats | Frontend/src/features/insights/MonthlyInsights.jsx:110-115 | one row per entry, in order, with its category, amount and percentage |
| MonthlyInsights.CategoryStats | Frontend/src/features/insights/MonthlyInsights.jsx:108-117 | the rows are a permutation of the entries' rows, sorted by amount, largest first |
| MonthlyInsights.CategoryStatsRows | Frontend/src/features/insights/MonthlyInsights.jsx:108-117 | there are as many rows as entries; a row appears exactly when it is some entry's row; each percentage is its amount's share of the total |
| MonthlyInsights.TopCategoryIsLargest | Frontend/src/features/insights/MonthlyInsights.jsx:116-119 | there is a top category exactly when there are entries, and it is an entry with the largest amount |
| MonthlyInsights.OneRowPerCategory | Frontend/src/features/insights/MonthlyInsights.jsx:109-115 | each key of the category object has exactly one row |
| MonthlyInsights.PermutedRowsDistinct | Frontend/src/features/insights/MonthlyInsights.jsx:110-116 | reordering the rows of distinct keys keeps the categories distinct |
| MonthlyInsights.PermutedRowsCover | Frontend/src/features/insights/MonthlyInsights.jsx:110-116 | the reordered rows' categories are exactly the entries' keys |
| MonthlyInsights.GetCurrentMonth | Frontend/src/features/insights/MonthlyInsights.jsx:60-66 | ends in "-01", and for a four-digit year it is the strict month key of that year and the zero-padded month |
| Dashboard.ValidYears | Frontend/src/features/dashboard/Dashboard.jsx:49-51 | exactly the years of the transactions whose date parses |
| Dashboard.MaxOf | Frontend/src/features/dashboard/Dashboard.jsx:57 | an element that no other exceeds |
| Dashboard.MinOf | Frontend/src/features/dashboard/Dashboard.jsx:56 | an element that exceeds no other |
| Dashboard.AvailableYears | Frontend/src/features/dashboard/Dashboard.jsx:45-66 | no valid year gives [current year]; otherwise every year from the maximum down to the minimum, so max − min + 1 of them; the list is strictly descending and holds every valid year |
| Dashboard.DashboardState.constructor | Frontend/src/features/dashboard/Dashboard.jsx:41 | the selected year starts at the current year |
| Dashboard.DashboardState.SyncSelectedYear | Frontend/src/features/dashboard/Dashboard.jsx:70-74 | a selected year outside a non-empty list is reset to its first entry; otherwise it is kept |

## Left out

- Concurrency: each call is one step on one store, so the lost update between two inserts that read the same summary row at once is not modelled.
- Store failures: a date the store's `date` columns reject is modelled on both write paths: the expense insert fails with "Failed to insert expenses" and writes nothing, and the income upsert leaves the table unchanged while answering "success". Other insert, read and write errors of `insertExpenses` and `insertIncome` (lost connections, constraint violations) are not modelled, so neither is the non-atomicity they cause (raw rows kept when a summary update fails).
- Store.FinanceStore.InsertExpenses: its `ensures` gives the new summary table through the fold `ApplyExpenseDeltas`. The month-by-month reading (which months grow, which are created, that nothing else changes, and each month's sum) is stated by the lemmas `Store.BatchDeltas` and `Store.ApplyExpenseDeltasEffect`, which hold for every table and every batch.
- Database identifiers: the store numbers rows consecutively from 0. The real identifiers are generated by the database and may have gaps.
- Postgres date casts: a query bound or a month key is accepted when it is a `YYYY-MM-DD` date of the calendar from year 1 on (`Dates.IsStoreDate`), and every other string is modelled as the store's error. Other formats that Postgres accepts as dates are not modelled. Once accepted, bounds are compared as dates everywhere. The string window of `analyzeRecommendations` gives the same order on such dates (`Dates.DateStringOrder`).
- ExpenseService.GetExpensesByMonth: the query is modelled as the calendar month of every strict key. The source builds the bounds from numbers, so for a year below 1000 the start bound is unpadded (such as "999-12-01"), for the years 0 to 99 `new Date(year, mon, 1)` lands in 1900 to 1999, and for December 9999 the end bound is "+010000-01". What the store answers for those bounds is not modelled.
- Timezones: `new Date(year, mon, 1).toISOString()` at `expenseService.js:189-190`, and `getFullYear`/`getMonth` in `DashboardHelper.jsx` and `Dashboard.jsx`, are read with the intended calendar meaning. The off-by-one day those calls can give is not modelled: `toISOString` of a local midnight gives the day before in timezones ahead of UTC, and `getFullYear`/`getMonth` of a UTC-midnight date give the day before in timezones behind UTC.
- Transactions.DateOf: recognises only calendar `YYYY-MM-DD` strings, plus `null` and booleans, which read as 1970. Other formats that the JavaScript date parser accepts read as invalid dates here, and a year from a bare number is not modelled.
- MonthlyTransactions.IsoDate: date formats other than `YYYY-MM-DD` and numbers are left to a `parseOther` parameter that stands for the engine's date parser.
- MonthlyTransactions.JsNumber: reads decimal literals with a sign and surrounding white space. Hexadecimal, octal, binary, exponent and `Infinity` literals are not modelled and read as NaN.
- Floating point: amounts are exact reals, so IEEE rounding of sums and quotients, NaN and Infinity are not modelled. JSON cannot carry NaN or Infinity anyway.
- Display rounding: `toFixed(2)` is modelled by `Rounding.Round2` on exact reals. The floating-point value it rounds in the source may sit on the other side of a half.
- Object keys: JavaScript objects used as maps are insertion-ordered lists. Integer-like keys, which JavaScript enumerates first, and inherited prototype keys such as `constructor` are not modelled.
- `Map` keys in `mainCategoryLabel` are compared by value. JavaScript compares objects by identity, which matters only for non-string codes.
- DashboardHelper.ProcessDashboardData: requires numeric amounts (`NumericAmounts`). The source's `+` would concatenate strings, and that case is not modelled.
- Inputs to the frontend helpers are arrays of objects. A `transactions` value of any other type is not modelled.
- `parseInt(selectedYear)`: the selected year is an integer here, so parsing a string year is not modelled.
- `Math.min(...years)` and `Math.max(...years)`: the engine's limit on the number of spread arguments is not modelled.
- Text.NumberText: the digits are those of the exact real, at most 20 after the point in the plain form and the first 400 decimal places in the small exponent form; `String(x)` writes the shortest digits that identify the double, which the exact-real model has no counterpart for.
- MonthlyInsights.CategoryStats: stated as a permutation that is sorted by amount. Which of two equal amounts comes first (the sort is stable) is not part of its contract.
- Sorting.SortDesc: its lemmas prove a permutation in key order. The order of rows with equal keys is not stated.
- `Intl.NumberFormat`, `toLocaleString` and `formatPct` display formatting are not modelled.
- MonthlyTransactions.DocumentRoundTrip: the CSV round trips are proved against a reader that takes a carriage return inside an unquoted field as field text. Section 2 of RFC 4180 requires such a field to be quoted, and `escapeCsv` does not quote it.
- The mock constants of `processDashboardData` (user, balance, net worth, income goal, income sources) are not modelled. They do not depend on the input.
- JSX rendering, DOM download, `Blob`, `URL.createObjectURL` and `localStorage` are not modelled.
- The ML model: `log1p`, the label encoder, `decision_function`, and the loading of statistics and known categories are outside the model. The model score, the statistics, the set of known categories and whether `pd.to_datetime` accepts the transaction date are inputs; the exact wording of pandas' parse error is taken as one fixed message. The HTTP calls to the ML service, with their timeouts (`anomalyService.js`), are functions passed in.
- Express routing (`server.js`) and the axios wrappers are not part of this model.
- The category enumeration file (`Backend/src/constants/enums.js`) is not part of this model. The valid categories are the constant FOOD, TRANSPORT, SHOPPING, UTILITIES, ENTERTAINMENT and OTHER, the set the add-expense form uses (`Frontend/src/features/addExpense/AddExpenseModal.jsx:23-30`).

## Findings

| source | as written | input that shows it | evidently intended | confidence | as-written member | corrected member |
|---|---|---|---|---|---|---|
| Backend/src/services/futureRecommendationService.js:22-30 | the expense query's upper bound is day 31 of the key's month; the store rejects it for February and the 30-day months, the query's error is not read, and `for (const e of expenses)` over the null result throws a TypeError | month "2026-02-01" with a stored summary: the bound "2026-02-31" is no date | the window ends on the month's last day, so every month with a summary gets its payload | high; not executed | FutureRecommendationService.FebruaryWindowRejected | FutureRecommendationService.MonthWindowIsMonth |
