# Expense ledger: a verified model

This project models the core of a personal expense tracker. The core is the
ledger object `ExpenseDatabase`. It owns two tables:

- `expenses`: rows of id, date, category, description, amount and `created_at`;
- `budgets`: one amount per (category, period), where the period is weekly,
  monthly or yearly.

The project also models the computations behind three reports: the budget
status table, the CSV export and the daily trend series.

The model does not use SQL. Each table is the sequence of its rows in
insertion order, with the next AUTOINCREMENT id beside it. The ledger
invariant (`Store.ExpenseDatabase.Valid`) combines the schema's constraints
with what `add_expense`, `update_expense` and `set_budget` check before they
write (the schema itself only makes `date` and `amount` NOT NULL):

- ids strictly increase and are never reused (AUTOINCREMENT);
- amounts are not negative and dates are real calendar dates (the methods' checks);
- there is one budget per (category, period) (UNIQUE).

Each statement that changes a table is a method of the class
`Store.ExpenseDatabase`. Its contract gives the new table as a function of the
old one (`Expenses.Revised`, `Expenses.Removed`, `Budgets.Upserted`), and
lemmas next to that function say what the change means.

Each read query is a function of the rows (module `Queries`):

- `ORDER BY` is a sort, specified only by "ordered and a permutation", so the
  order of ties stays open as it does in SQL;
- `GROUP BY` with `SUM` is a per-key total (module `Grouping`);
- `BETWEEN` on date text is text comparison.

Dates are `(year, month, day)` triples of the proleptic Gregorian calendar,
from 0001-01-01 to 9999-12-31 (module `Calendar`). Their stored text is the
zero-padded `YYYY-MM-DD` form (module `IsoDate`). `IsoDate.FormatDateOrder`
proves that text order and date order agree on that form, which is what makes
the SQL text comparisons mean date comparisons.

The period calculator `_get_period_range` (module `Periods`) is proved to
return a window that holds its reference date:

- weekly runs from Monday to Sunday;
- monthly runs from the 1st to the last day of the month, leap years included;
- yearly runs from 1 January to 31 December.

Amounts are integer cents. The percentage in the budget status is a Dafny
`real`. Wall-clock readings are parameters:

- `today` for `date.today()`;
- `now` for `CURRENT_TIMESTAMP`;
- the day and time of day for `datetime.now()`.

## Model

| member | source | states |
|---|---|---|
| Store.ExpenseDatabase.constructor | database.py:34-60 | a new ledger has both tables empty and satisfies the schema invariant (AUTOINCREMENT ids, CHECK on the period, UNIQUE(category, period)) |
| Store.ExpenseDatabase.AddExpense | database.py:64-99 | a negative amount is refused first, then a date `strptime` refuses, and neither changes anything; the call succeeds exactly when the amount is not negative (0 included) and the date is read; then the row is appended under a fresh id larger than every id issued so far, the id is returned, looking it up gives exactly the supplied fields, and every other lookup is unchanged |
| Store.ExpenseDatabase.UpdateExpense | database.py:147-196 | with no field given the answer is False and nothing changes; a bad date raises before a negative amount, these are the only errors, and both leave the table untouched; otherwise the row with the id takes the supplied fields, and the answer is whether such a row exists |
| Store.SetList | database.py:174-189 | the SET list, built one supplied field at a time, has one item per supplied field and, applied to any row, makes exactly the requested change |
| Store.ApplySetList | database.py:191-194 | running `UPDATE … SET <list> WHERE id = ?` with a SET list that makes a change gives the table with that change applied to the row with the id and every other row as it was |
| Store.RevisedNothing | database.py:162-163 | an update with no field to set would leave every row as it was, so answering False at once loses nothing |
| Store.ExpenseDatabase.DeleteExpense | database.py:198-216 | the answer is whether the id existed; the id is then gone, one row fewer, nothing changes for a missing id, and other lookups are unchanged |
| Store.ExpenseDatabase.SetBudget | database.py:236-255 | the lowercased period must be weekly/monthly/yearly, then the amount must not be negative, both before any write; the call succeeds exactly when neither check fails, and then the (category, period) budget is inserted or its amount replaced, the AUTOINCREMENT counter moves on by one on both paths, and every other budget reads as before |
| Store.ExpenseDatabase.Upsert | database.py:245-255 | the upsert statement: the table becomes the upserted one, the key holds the new amount, the counter moves on by one, every other key and the expenses table are untouched, and the schema invariant holds |
| Store.ExpenseDatabase.GetExpensesByCategory | database.py:218-234 | the loop over the full listing yields the categories in first-seen order and, for each, exactly the rows of that category in listing order |
| Store.GroupsKeepListingOrder | database.py:225-232 | each category group keeps the listing's newest-first order |
| Expenses.FindById | database.py:124-145 | the lookup finds a row exactly when one with that id exists, and what it finds has that id |
| Expenses.FindByIdUnique | database.py:42 | in a well-formed table every row is the one its id finds |
| Expenses.InsertedRow | database.py:42 | appending a row under the next id keeps the table well formed, the new id exceeds all earlier ids, and other lookups are unchanged |
| Expenses.Removed | database.py:208-216 | the DELETE: the rows left are exactly those with another id (what this means for the table is stated by Expenses.RemovedRow) |
| Expenses.RemovedRow | database.py:208-216 | the DELETE keeps the table well formed, removes the id, leaves other ids and a missing id untouched, and drops one row when the id existed |
| Expenses.RemovedLength | database.py:211-213 | deleting an existing id removes exactly one row |
| Expenses.Revised | database.py:191-196 | the UPDATE: the table keeps its length, and each row with the id is patched (what this means is stated by Expenses.RevisedRow) |
| Expenses.RevisedRow | database.py:191-196 | the UPDATE keeps the table well formed; a missing id changes nothing; otherwise the row keeps its id and `created_at`, takes every supplied field and keeps every other one; other rows are unchanged |
| Expenses.AssignAllSnoc | database.py:174-189 | appending an item to the SET list applies it after the earlier ones |
| Budgets.FindBudget | database.py:257-266 | the lookup finds a budget exactly when one with that category and period exists |
| Budgets.KeyIsUnique | database.py:58 | two budgets with the same (category, period) are the same row |
| Budgets.Upserted | database.py:246-254 | the INSERT … ON CONFLICT DO UPDATE: an existing key's row takes the amount, else a row is appended under the next id (stated by Budgets.UpsertedRow) |
| Budgets.UpsertedRow | database.py:246-254 | after the upsert, exactly one row has the key and it holds the latest amount, keeps its id (or takes the next id when new), the table stays well formed under a counter one higher (SQLite draws the rowid before the conflict check), and other keys read as before |
| Budgets.UpsertIdempotent | database.py:246-254 | repeating the same upsert leaves the rows as they are; only the counter moves on |
| Budgets.GetBudget | database.py:257-266 | the budget found has the category as given and the lowercased period, and one is found exactly when such a row exists |
| Budgets.AllBudgets | database.py:268-281 | with a non-empty period, the budgets of that lowercased period ordered by category; otherwise all budgets ordered by period name, then category |
| Budgets.AllBudgetsMembers | database.py:268-281 | a budget is listed exactly when it is stored and, when a period is given, of that period |
| Budgets.AllBudgetsStrict | database.py:274-275 | within one period the listing is strictly ordered by category, so it is fully determined |
| Periods.ParsePeriod | database.py:289-308 | a period name is accepted exactly when its lowercased form is weekly, monthly or yearly, and reads as the period of that name |
| Periods.ParsePeriodName | database.py:240-242 | a text selects a period exactly when its lowercase form is that period's name, whatever its letter case, so every other text is refused; every stored name reads back as its period |
| Periods.WeekStart | database.py:295 | the week start lies `weekday` days before the reference date |
| Periods.PeriodWindow | database.py:294-308 | the weekly, monthly and yearly window of a parsed period around a valid date, and the error past 9999-12-31 (stated by Periods.WeeklyWindow, MonthlyWindow, YearlyWindow) |
| Periods.PeriodRange | database.py:283-309 | a returned window's ends are real dates and the window holds the reference date (the given one, or today when it is missing or empty) |
| Periods.PeriodRangeErrors | database.py:289-308 | an unreadable reference date raises before the period name is checked; then an unknown period raises; without a reference date the window is the one around today |
| Periods.WindowContainsReference | database.py:294-306 | each of the three windows holds its reference date |
| Periods.WeeklyWindow | database.py:295-296 | the weekly window starts on a Monday, ends on the Sunday six days later, and fails only past 9999-12-31 |
| Periods.WeeklyMembership | database.py:295-296 | a date lies in the weekly window exactly when it falls in the same Monday-to-Sunday week |
| Periods.MonthlyWindow | database.py:298-303 | the monthly window runs from the 1st to the last day of the month, and fails only for December 9999 |
| Periods.MonthlyMembership | database.py:298-303 | a date lies in the monthly window exactly when it has the same year and month |
| Periods.YearlyWindow | database.py:305-306 | the yearly window is 1 January to 31 December, and a date lies in it exactly when it has the same year |
| Periods.MonthlyLeapExample | database.py:298-303 | the window of February 2024 ends on the 29th |
| Periods.MonthlyCommonExample | database.py:298-303 | the window of February 2023 ends on the 28th |
| Periods.WeeklyExample | database.py:295-296 | the week of Wednesday 2024-01-17 runs from the 15th to the 21st |
| Calendar.FirstDateIsMonday | database.py:295 | 0001-01-01 is a Monday, so no week start falls before the first date |
| Calendar.DayNumberOrder | database.py:295-303 | date order is day-number order, so stepping by days moves through the calendar |
| IsoDate.ParseFormatRoundTrip | database.py:309 | the text of a date reads back as that date |
| IsoDate.FormatParseRoundTrip | database.py:309 | a canonical date text is the text of the date it reads as |
| IsoDate.FormatDateOrder | database.py:320 | two date texts compare as text exactly as their dates compare |
| IsoDate.MonthTextOrder | database.py:381-384 | month keys compare as text exactly as their (year, month) pairs |
| IsoDate.StrptimeParse | database.py:85 | `strptime(date, "%Y-%m-%d")`: four digits, a hyphen, a one- or two-digit month, a hyphen, a one- or two-digit day; only real calendar dates are returned |
| IsoDate.StrptimeAcceptsCanonical | database.py:85 | `strptime` accepts every canonical text as the same date |
| IsoDate.MonthThirteenRejected | database.py:84-87 | a 13th month is refused |
| IsoDate.FebruaryThirtiethRejected | database.py:84-87 | 30 February is refused |
| IsoDate.RealDateAccepted | database.py:84-87 | a real date is accepted |
| IsoDate.UnpaddedDateMissesItsMonth | database.py:85 | as written, the unpadded "2024-1-5" is accepted but sorts outside the January window as text |
| IsoDate.CanonicalTextWindowIsDateWindow | database.py:320 | once the accepted date is stored canonically, its text lies in a window exactly when its date does; "2024-1-5" is read as 5 January 2024, whose canonical text lies inside the January 2024 window |
| Queries.AllExpenses | database.py:101-122 | every row exactly once, ordered newest date first and, within a date, latest `created_at` first |
| Queries.CategoryTotals | database.py:351-368 | each category that occurs, once, with the sum of its amounts, ordered by total descending; the totals add up to the sum of all amounts |
| Queries.MonthlyTotals | database.py:370-387 | each month that has expenses, once, with the sum of its amounts, ordered by month descending; the totals add up to the sum of all amounts |
| Queries.MonthlyTotalsChronological | database.py:384 | in the monthly totals a later calendar month comes before an earlier one |
| Queries.InMonth | database.py:405-407 | the `strftime` month filter on the stored text (its meaning is stated by Queries.InMonthMeaning) |
| Queries.InMonthMeaning | database.py:405-407 | the month filter selects the expenses of that year and month; as the year text is not zero-padded, years before 1000 never match |
| Queries.ExpensesForMonth | database.py:389-415 | the expenses passing the month filter, latest date first |
| Queries.ExpensesForMonthMembers | database.py:389-415 | the month listing holds each expense of that year and month exactly once, and no other |
| Queries.Stats | database.py:438-464 | the row count, the amount sum (0 for no rows) and the distinct-category count (stated by Queries.StatsAgreeWithTotals) |
| Queries.StatsAgreeWithTotals | database.py:438-464 | the total amount equals the sum of the category totals and of the monthly totals; there is one category total per distinct category; an empty table gives 0, 0, 0 |
| Queries.CategoryCount | database.py:456-457 | the distinct-category count is the number of category totals |
| Queries.InWindowIsDateWindow | database.py:320 | a stored date lies between the window's text bounds exactly when it lies between its dates |
| Queries.SpentForPeriod | database.py:311-334 | the period's window, then the sum over the text window with the optional category (stated by Queries.SpentForPeriodMeaning) |
| Queries.SpentForPeriodMeaning | database.py:311-334 | the spending of a period is the sum of the amounts dated inside the window, of the given category when a non-empty one is given |
| Queries.SpentByCategoryForPeriod | database.py:336-349 | the period's window, then the category totals over it as a dictionary (stated by Queries.SpentByCategoryMeaning) |
| Queries.SpentByCategoryMeaning | database.py:336-349 | the spending dictionary has a key exactly for the categories with spending in the window; for every category, "" included, `get(k, 0)` is the sum over the window's expenses of that category; for a non-empty category that is what the per-category period query gives |
| Grouping.TotalsKeys | database.py:362-365 | the groups of a GROUP BY come in first-seen order, each key once |
| Grouping.TotalsValue | database.py:362-365 | the total of a key is the sum over its rows (0 for a key with none) |
| Grouping.TotalsPermuted | database.py:362-366 | any reordering of the group totals lists each key once with its sum, and the totals add up to the sum over all rows |
| Grouping.ToMap | database.py:349 | the dictionary built from the totals has exactly their keys, with their values |
| Text.IntTextFourDigits | database.py:410 | `str(year)` equals a four-digit year field exactly when the year is that number and at least 1000 |
| Text.Padded2TextMonth | database.py:410 | `f"{month:02d}"` equals a two-digit month field exactly when the month is that number |
| Reports.BudgetLine | reports.py:139-148 | spent defaults to 0; remaining is budget minus spent; the percentage times the budget is 100 times spent when the budget is positive, else it is 0; OVER exactly when spent exceeds the budget |
| Reports.BudgetStatus | reports.py:123-149 | an unknown period prints the error; with no budgets for the period, the "no budgets" message; an unreadable reference date raises; otherwise one line per listed budget, in listing order, against the spending of the period |
| Reports.StatusLines | reports.py:139-148 | the loop gives one line per budget, in order |
| Reports.CaseInsensitive | reports.py:125-133 | the lowercased period name selects the same period, window and spending as the name given |
| Reports.StatusLineSpent | reports.py:142-147 | each line's spent is the sum over the window's expenses of exactly the budget's category, "" included, and OVER is set exactly when that exceeds the budget; for a non-empty category this equals what the per-category period query gives, while for the category "" that query sums every category and the two differ |
| Reports.StatusCoversPeriod | reports.py:129-139 | the table has one line for every budget of the period and no other, in strictly ascending category order |
| Reports.ExpenseRecord | database.py:118-120 | the dictionary of a listed row: its six columns keyed by name, the date as its `YYYY-MM-DD` text; there is no `currency` key (what the export makes of it is stated by Reports.ExportedRowColumns) |
| Reports.ExportedRowColumns | reports.py:60-67 | an expense's exported row is id, date text, category, description, amount, an empty `currency` cell and `created_at`, in `fieldnames` order |
| Reports.CsvRowRoundTrip | reports.py:60-67 | an exported row reads back as its expense, and its `currency` cell is empty |
| Reports.ExportRows | reports.py:44-67 | no expenses raise; otherwise the header and one row per expense in listing order, each reading back as its expense |
| Reports.WriteCsv | reports.py:60-67 | the writer emits the header, then one row per listed expense in order, each the expense's record in column order |
| Reports.RowsReadBack | reports.py:60-67 | rows written from expenses with real dates read back as those expenses |
| Reports.ListingEmpty | reports.py:44-46 | the listing is empty exactly when the table is, so the export refuses exactly an empty table |
| Reports.MonthsAscending | reports.py:165-167 | the monthly totals re-sorted with months strictly ascending, same entries |
| Reports.SortedItemsStrict | reports.py:165 | sorting a dictionary's items lists each key once, strictly ascending |
| Reports.InTrendDays | reports.py:245-255 | after midnight the trend window holds the last `days` days up to today, the day `days` days ago being cut off by the time of day; at exactly midnight it also holds that day |
| Reports.TrendExpenses | reports.py:251-255 | the filtering loop keeps exactly the expenses inside the trend window, in listing order |
| Reports.DailyTotals | reports.py:262-267 | the `daily_totals` loop gives the per-day totals of the kept expenses |
| Reports.TrendSeries | reports.py:236-272 | no expense in the window prints the message; otherwise each day with expenses, once, with the sum of its amounts, days strictly ascending, and the sums add up to the total of the kept expenses |
| Reports.DayKeysChronological | reports.py:270 | ascending day keys are ascending dates |

## Left out

- SQLite itself is not modelled: connections, commits, `row_factory`, directory creation and the CREATE TABLE statements. Only the schema's constraints are kept, as part of the invariant.
- Floating point is not modelled. Amounts are integer cents, so the REAL columns, float sums and float rounding of the percentage are not captured.
- Wall-clock time is not modelled. `date.today()`, `datetime.now()` and `CURRENT_TIMESTAMP` are parameters. `created_at` is a number, so rows that tie on date and `created_at` are in no promised order.
- Printing and charts are not modelled: the output formats of `print_budget_status` (column widths, `.2f`), matplotlib and `plt.show()`. The reports return the rows they would print, write or plot.
- File output is not modelled: the CSV file path, timestamped name and writing in `export_to_csv` are I/O. The model gives the rows, with numbers as `Number` cells.
- The charts' own text handling is not modelled. `generate_monthly_chart` and `generate_trend_chart` re-read the date text with `strptime`; the model keeps the date.
- Reports.MonthsAscending: the "no data" early return of `generate_monthly_chart` is not a separate case; an empty table gives the empty series.
- Reports.InTrendDays: `datetime.now() - timedelta(days)` raises before year 1 or past year 9999. The model compares microsecond counts, so no such error exists.
- Periods.PeriodRange: instead of a precondition on the year, stepping past 9999-12-31 is `Err(DateOutOfRange)`. That is the OverflowError or ValueError Python raises there.
- Text.Lower: only ASCII letters are folded. Python's `str.lower` also folds other alphabets, and a few non-ASCII letters fold to ASCII ones: U+212A KELVIN SIGN lowers to "k", so "WEEKLY" written with that sign in place of the K is a valid period for the source and refused by the model.
- IsoDate.FormatDate: the year is always four digits. On glibc, Python before 3.12.5 writes `strftime('%Y')` unpadded for years below 1000, so the window text of database.py:309 differs from the model for years 1-999.
- IsoDate.StrptimeParse: only ASCII digits are read. Python's `%Y`, `%m` and `%d` match any Unicode decimal digit, so "٢٠٢٤-01-15" (Arabic-Indic digits) and "2024-01-1٥" are dates for the source and refused by the model. The `%d` directive's leading-space form (" 5") is not accepted either. The one- and two-digit ASCII forms are.
- `add_sample_data` (demo data) is not modelled, and neither are `main.py` (the interactive menu) or `test_app.py` (a demonstration script).
- The other charts and summaries of `reports.py` are presentation only: `generate_category_chart`, `generate_pie_chart`, `print_category_summary`, `print_monthly_summary` and `print_detailed_report`.

## Findings

| source | as written | input that shows it | evidently intended | confidence | as-written member | corrected member |
|---|---|---|---|---|---|---|
| database.py:85 | `add_expense` checks the date with `strptime`, which also accepts a one-digit month or day, and then stores the text as given | "2024-1-5" is accepted; as text it sorts after "2024-01-31", so the January window `BETWEEN '2024-01-01' AND '2024-01-31'` (database.py:320) and `strftime` month keys miss it | the stored date text is the canonical `YYYY-MM-DD`, so text windows are date windows | high (reasoned from the code, not executed) | IsoDate.UnpaddedDateMissesItsMonth | IsoDate.CanonicalTextWindowIsDateWindow |

The ledger model follows the corrected reading. `Store.ExpenseDatabase.AddExpense`
and `UpdateExpense` accept what `strptime` accepts on ASCII digits (see `IsoDate.StrptimeParse` under "## Left out"). They store the
date itself, and the date's text is always the canonical form.
