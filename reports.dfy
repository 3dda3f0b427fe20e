/** The computations behind the reports: the budget status table, the CSV
    export rows, and the data series of the monthly and the daily trend
    charts. Printing, files and drawing are not modelled; each report yields
    the rows it would print, write or plot. */
module Reports {
  import opened Wrappers
  import opened Text
  import opened Calendar
  import opened IsoDate
  import opened Periods
  import opened Collections
  import opened Grouping
  import opened Expenses
  import opened Budgets
  import opened Queries

  // ---------------------------------------------------------------------
  // print_budget_status
  // ---------------------------------------------------------------------

  /** One printed line: category, budget, spent, remaining, used percentage
      and the OVER mark. */
  datatype StatusLine = StatusLine(category: string, budget: int, spent: int, remain: int, usedPct: real, over: bool)

  /** What the report prints: the period error, the "no budgets" message, or
      the table for a period. */
  datatype StatusReport = PeriodRejected | NoBudgets(period: string) | Status(period: string, lines: seq<StatusLine>)

  /** The line of one budget, given what was spent per category. */
  function BudgetLine(b: Budget, spent: map<string, int>): (l: StatusLine)
    ensures l.category == b.category && l.budget == b.amount
    ensures l.spent == (if b.category in spent then spent[b.category] else 0)
    ensures l.remain == l.budget - l.spent
    ensures l.over <==> l.spent > l.budget
    ensures l.budget > 0 ==> l.usedPct * (l.budget as real) == (l.spent as real) * 100.0
    ensures l.budget <= 0 ==> l.usedPct == 0.0
  {
    var s := if b.category in spent then spent[b.category] else 0;
    var remain := b.amount - s;
    var pct := if b.amount > 0 then (s as real) / (b.amount as real) * 100.0 else 0.0;
    StatusLine(b.category, b.amount, s, remain, pct, remain < 0)
  }

  /** `print_budget_status(period, reference_date)`: the lowercased period
      must be one of the three; the budgets of that period are listed by
      category, each with what was spent in the period's window. A reference
      date that cannot be read, or a window past 9999-12-31, raises. */
  method BudgetStatus(budgets: seq<Budget>, expenses: seq<Expense>, periodText: string,
                      reference: Option<string>, today: Date)
    returns (r: Result<StatusReport, Error>)
    requires ValidDate(today)
    ensures r == Ok(PeriodRejected) <==> ParsePeriod(periodText).None?
    ensures r.Ok? && r.value.NoBudgets? <==>
              ParsePeriod(periodText).Some? && AllBudgets(budgets, Some(Lower(periodText))) == []
    ensures r.Err? <==>
              && ParsePeriod(periodText).Some? && AllBudgets(budgets, Some(Lower(periodText))) != []
              && PeriodRange(periodText, reference, today).Err?
    ensures r.Err? ==> r == Err(PeriodRange(periodText, reference, today).error)
    ensures r.Ok? && r.value.Status? ==>
              var listed := AllBudgets(budgets, Some(Lower(periodText)));
              var spent := SpentByCategoryForPeriod(expenses, periodText, reference, today).value;
              && r.value.period == Lower(periodText)
              && |r.value.lines| == |listed|
              && forall i :: 0 <= i < |listed| ==> r.value.lines[i] == BudgetLine(listed[i], spent)
  {
    var period := Lower(periodText);
    CaseInsensitive(expenses, periodText, reference, today);
    if ParsePeriod(period).None? {
      return Ok(PeriodRejected);
    }
    var listed := AllBudgets(budgets, Some(period));
    if listed == [] {
      return Ok(NoBudgets(period));
    }
    var spentOrError := SpentByCategoryForPeriod(expenses, period, reference, today);
    if spentOrError.Err? {
      return Err(spentOrError.error);
    }
    var lines := StatusLines(listed, spentOrError.value);
    r := Ok(Status(period, lines));
  }

  /** The loop over the listed budgets, one line each. */
  method StatusLines(listed: seq<Budget>, spent: map<string, int>) returns (lines: seq<StatusLine>)
    ensures |lines| == |listed|
    ensures forall i :: 0 <= i < |listed| ==> lines[i] == BudgetLine(listed[i], spent)
  {
    lines := [];
    var i := 0;
    while i < |listed|
      invariant 0 <= i <= |listed|
      invariant |lines| == i
      invariant forall j :: 0 <= j < i ==> lines[j] == BudgetLine(listed[j], spent)
    {
      lines := lines + [BudgetLine(listed[i], spent)];
      i := i + 1;
    }
  }

  /** The lowercased period name selects the same period, window and
      spending as the name as given. */
  lemma CaseInsensitive(expenses: seq<Expense>, periodText: string, reference: Option<string>, today: Date)
    requires ValidDate(today)
    ensures ParsePeriod(Lower(periodText)) == ParsePeriod(periodText)
    ensures PeriodRange(Lower(periodText), reference, today) == PeriodRange(periodText, reference, today)
    ensures SpentByCategoryForPeriod(expenses, Lower(periodText), reference, today) ==
              SpentByCategoryForPeriod(expenses, periodText, reference, today)
  {
    LowerIdempotent(periodText);
  }

  /** Every line of the status table reports, as spent, the sum over the
      window's expenses of exactly the budget's category, and is marked OVER
      exactly when that exceeds the budget. For a non-empty category this is
      what `get_spent_for_period` gives; for the category "" it is not, as
      that query then sums every category. */
  lemma StatusLineSpent(budgets: seq<Budget>, expenses: seq<Expense>, periodText: string,
                        reference: Option<string>, today: Date, b: Budget)
    requires ValidDate(today)
    requires SpentByCategoryForPeriod(expenses, periodText, reference, today).Ok?
    ensures var (start, end) := PeriodRange(periodText, reference, today).value;
            var l := BudgetLine(b, SpentByCategoryForPeriod(expenses, periodText, reference, today).value);
            && l.spent == SumOf(WithKey(Filter(expenses, InWindow(FormatDate(start), FormatDate(end))), Category, b.category), Amount)
            && (l.over <==> l.spent > b.amount)
            && (b.category != "" ==>
                  && Ok(l.spent) == SpentForPeriod(expenses, periodText, Some(b.category), reference, today)
                  && (l.over <==> SpentForPeriod(expenses, periodText, Some(b.category), reference, today).value > b.amount))
  {
    SpentByCategoryMeaning(expenses, periodText, reference, today, b.category);
  }

  /** Every budget of the period gets exactly one line, in category order. */
  lemma StatusCoversPeriod(budgets: seq<Budget>, nextId: nat, periodText: string, b: Budget)
    requires WellFormedBudgets(budgets, nextId) && ParsePeriod(periodText).Some?
    ensures var listed := AllBudgets(budgets, Some(Lower(periodText)));
            && (b in listed <==> b in budgets && b.period == ParsePeriod(periodText).value)
            && forall i, j :: 0 <= i < j < |listed| ==> LexLe(listed[i].category, listed[j].category) && listed[i].category != listed[j].category
  {
    var period := Lower(periodText);
    LowerIdempotent(periodText);
    AllBudgetsMembers(budgets, Some(period), b);
    AllBudgetsStrict(budgets, nextId, period);
    ParsePeriodName(b.period);
  }

  // ---------------------------------------------------------------------
  // export_to_csv
  // ---------------------------------------------------------------------

  /** The CSV columns, in order. */
  const FieldNames: seq<string> := ["id", "date", "category", "description", "amount", "currency", "created_at"]

  /** A cell: a number, or text. */
  datatype Field = Number(n: int) | Text(s: string)

  /** The dictionary `get_all_expenses` gives for a row: its six columns
      (there is no `currency` column). */
  function ExpenseRecord(e: Expense): map<string, Field> {
    map["id" := Number(e.id), "date" := Text(DayOf(e)), "category" := Text(e.category),
        "description" := Text(e.description), "amount" := Number(e.amount), "created_at" := Number(e.createdAt)]
  }

  /** `{key: exp.get(key, "") for key in fieldnames}`, in column order. */
  function CsvRow(record: map<string, Field>): (row: seq<Field>) {
    seq(|FieldNames|, i requires 0 <= i < |FieldNames| =>
      if FieldNames[i] in record then record[FieldNames[i]] else Text(""))
  }

  function Header(): seq<Field> {
    seq(|FieldNames|, i requires 0 <= i < |FieldNames| => Text(FieldNames[i]))
  }

  /** The exported row of an expense, column by column: its six fields in
      `fieldnames` order, with the missing `currency` column as an empty cell. */
  lemma ExportedRowColumns(e: Expense)
    ensures CsvRow(ExpenseRecord(e)) ==
              [Number(e.id), Text(DayOf(e)), Text(e.category), Text(e.description), Number(e.amount), Text(""), Number(e.createdAt)]
  {
    assert FieldNames[0] == "id" && FieldNames[1] == "date" && FieldNames[2] == "category";
    assert FieldNames[3] == "description" && FieldNames[4] == "amount" && FieldNames[5] == "currency";
    assert FieldNames[6] == "created_at";
  }

  /** Reading an exported row back into an expense. */
  function ReadCsvRow(row: seq<Field>): Option<Expense> {
    if |row| != 7 then None
    else match (row[0], row[1], row[2], row[3], row[4], row[6])
      case (Number(id), Text(date), Text(category), Text(description), Number(amount), Number(created)) =>
        if id >= 0 && created >= 0 && ParseDate(date).Some? then
          Some(Expense(id, ParseDate(date).value, category, description, amount, created))
        else None
      case _ => None
  }

  /** An exported row holds every column of its expense: reading it back
      gives the expense, and its `currency` cell is empty. */
  lemma CsvRowRoundTrip(e: Expense)
    requires ValidDate(e.date)
    ensures ReadCsvRow(CsvRow(ExpenseRecord(e))) == Some(e)
    ensures CsvRow(ExpenseRecord(e))[5] == Text("")
  {
    ParseFormatRoundTrip(e.date);
    var row := CsvRow(ExpenseRecord(e));
    assert FieldNames[0] == "id" && FieldNames[1] == "date" && FieldNames[2] == "category";
    assert FieldNames[3] == "description" && FieldNames[4] == "amount" && FieldNames[5] == "currency";
    assert FieldNames[6] == "created_at";
    assert row[0] == Number(e.id) && row[1] == Text(FormatDate(e.date)) && row[6] == Number(e.createdAt);
  }

  /** `export_to_csv`: no expenses raise; otherwise the header and one row per
      expense, in the order of `get_all_expenses`, each of which reads back as
      its expense. */
  method ExportRows(expenses: seq<Expense>, nextId: nat) returns (r: Result<seq<seq<Field>>, Error>)
    requires WellFormed(expenses, nextId)
    ensures r.Err? <==> expenses == []
    ensures r.Err? ==> r.error == NothingToExport
    ensures r.Ok? ==>
              var listing := AllExpenses(expenses);
              && |r.value| == |listing| + 1
              && r.value[0] == Header()
              && (forall i :: 0 <= i < |listing| ==> r.value[i + 1] == CsvRow(ExpenseRecord(listing[i])))
              && (forall i :: 0 <= i < |listing| ==> ReadCsvRow(r.value[i + 1]) == Some(listing[i]))
  {
    var listing := AllExpenses(expenses);
    ListingEmpty(expenses);
    if listing == [] {
      return Err(NothingToExport);
    }
    ListingDates(expenses, nextId);
    var rows := WriteCsv(listing);
    RowsReadBack(listing, rows);
    r := Ok(rows);
  }

  /** The writer: the header, then one CSV row per expense, in order. */
  method WriteCsv(listing: seq<Expense>) returns (rows: seq<seq<Field>>)
    ensures |rows| == |listing| + 1 && rows[0] == Header()
    ensures forall i :: 0 <= i < |listing| ==> rows[i + 1] == CsvRow(ExpenseRecord(listing[i]))
  {
    rows := [Header()];
    var i := 0;
    while i < |listing|
      invariant 0 <= i <= |listing| && |rows| == i + 1 && rows[0] == Header()
      invariant forall j :: 0 <= j < i ==> rows[j + 1] == CsvRow(ExpenseRecord(listing[j]))
    {
      rows := rows + [CsvRow(ExpenseRecord(listing[i]))];
      i := i + 1;
    }
  }

  /** Rows written from expenses with real dates read back as those
      expenses. */
  lemma RowsReadBack(listing: seq<Expense>, rows: seq<seq<Field>>)
    requires forall e :: e in listing ==> ValidDate(e.date)
    requires |rows| == |listing| + 1
    requires forall i :: 0 <= i < |listing| ==> rows[i + 1] == CsvRow(ExpenseRecord(listing[i]))
    ensures forall i :: 0 <= i < |listing| ==> ReadCsvRow(rows[i + 1]) == Some(listing[i])
  {
    forall i | 0 <= i < |listing| ensures ReadCsvRow(rows[i + 1]) == Some(listing[i]) {
      CsvRowRoundTrip(listing[i]);
    }
  }

  /** The listing is empty exactly when the table is. */
  lemma ListingEmpty(expenses: seq<Expense>)
    ensures AllExpenses(expenses) == [] <==> expenses == []
  {
    assert |multiset(AllExpenses(expenses))| == |multiset(expenses)|;
  }

  /** Every row of the listing has a real date. */
  lemma ListingDates(expenses: seq<Expense>, nextId: nat)
    requires WellFormed(expenses, nextId)
    ensures forall e :: e in AllExpenses(expenses) ==> ValidDate(e.date)
  {
    forall e | e in AllExpenses(expenses) ensures ValidDate(e.date) {
      assert e in multiset(AllExpenses(expenses));
    }
  }

  // ---------------------------------------------------------------------
  // generate_monthly_chart, generate_trend_chart
  // ---------------------------------------------------------------------

  /** `sorted(d.items())` on a dictionary: by key, ascending. */
  predicate KeyAscLe(p: (string, int), q: (string, int)) {
    LexLe(p.0, q.0)
  }

  lemma KeyAscOrder()
    ensures TotalPreorder(KeyAscLe)
  {
    forall p, q ensures KeyAscLe(p, q) || KeyAscLe(q, p) {
      LexLeTotal(p.0, q.0);
    }
    forall p, q, u | KeyAscLe(p, q) && KeyAscLe(q, u) ensures KeyAscLe(p, u) {
      LexLeTransitive(p.0, q.0, u.0);
    }
  }

  /** Sorting a dictionary's items lists each key once, in strictly
      ascending order. */
  lemma SortedItemsStrict(ps: seq<(string, int)>, r: seq<(string, int)>)
    requires NoDups(Keys(ps)) && multiset(r) == multiset(ps) && SortedBy(r, KeyAscLe)
    ensures NoDups(Keys(r))
    ensures forall i, j :: 0 <= i < j < |r| ==> LexLe(r[i].0, r[j].0) && r[i].0 != r[j].0
  {
    forall i, j | 0 <= i < j < |r| ensures r[i].0 != r[j].0 {
      assert r[i] in multiset(ps) && r[j] in multiset(ps);
      var a :| 0 <= a < |ps| && ps[a] == r[i];
      var b :| 0 <= b < |ps| && ps[b] == r[j];
      KeysAt(ps, a);
      KeysAt(ps, b);
      if a == b {
        assert multiset(r)[r[i]] == multiset(ps)[r[i]];
        KeysUniqueCount(ps, a);
        RepeatCount(r, i, j);
      }
    }
    forall i, j | 0 <= i < j < |r| ensures Keys(r)[i] != Keys(r)[j] {
      KeysAt(r, i);
      KeysAt(r, j);
    }
  }

  /** With distinct keys, each pair occurs once. */
  lemma KeysUniqueCount(ps: seq<(string, int)>, a: nat)
    requires NoDups(Keys(ps)) && a < |ps|
    ensures multiset(ps)[ps[a]] == 1
  {
    PairsDistinct(ps);
    NoDupsMultiplicity(ps, ps[a]);
    assert ps[a] in multiset(ps);
  }

  lemma PairsDistinct(ps: seq<(string, int)>)
    requires NoDups(Keys(ps))
    ensures NoDups(ps)
  {
    forall i, j | 0 <= i < j < |ps| ensures ps[i] != ps[j] {
      KeysAt(ps, i);
      KeysAt(ps, j);
    }
  }

  /** `sorted(monthly_totals.items())`: the monthly totals, earliest month
      first. */
  function MonthsAscending(rows: seq<Expense>): (r: seq<(string, int)>)
    ensures multiset(r) == multiset(MonthlyTotals(rows))
    ensures forall i, j :: 0 <= i < j < |r| ==> LexLe(r[i].0, r[j].0) && r[i].0 != r[j].0
  {
    KeyAscOrder();
    var r := SortBy(MonthlyTotals(rows), KeyAscLe);
    SortedItemsStrict(MonthlyTotals(rows), r);
    r
  }

  /** Microseconds in a day: the resolution of `datetime`. */
  const MicrosPerDay: int := 86_400_000_000

  /** `start_date <= datetime.strptime(date) <= end_date`, with `end_date` the
      clock reading (a day and a time of day) and `start_date` the same time
      `days` days earlier; the expense's date is taken at midnight. */
  predicate InTrendWindow(today: Date, timeOfDay: nat, days: int, d: Date)
    requires IsCalendarDate(today)
  {
    && IsCalendarDate(d)
    && DayNumber(today) * MicrosPerDay + timeOfDay - days * MicrosPerDay <= DayNumber(d) * MicrosPerDay
    && DayNumber(d) * MicrosPerDay <= DayNumber(today) * MicrosPerDay + timeOfDay
  }

  function InTrend(today: Date, timeOfDay: nat, days: int): Expense -> bool
    requires IsCalendarDate(today)
  {
    (e: Expense) => InTrendWindow(today, timeOfDay, days, e.date)
  }

  /** The trend window in days: after midnight it holds the last `days` days
      up to today (the day `days` days ago is cut off by the time of day); at
      exactly midnight it also holds that first day. */
  lemma InTrendDays(today: Date, timeOfDay: nat, days: int, e: Expense)
    requires IsCalendarDate(today) && IsCalendarDate(e.date) && timeOfDay < MicrosPerDay
    ensures InTrend(today, timeOfDay, days)(e) <==>
              && DayNumber(e.date) <= DayNumber(today)
              && (if timeOfDay == 0 then DayNumber(today) - days <= DayNumber(e.date)
                  else DayNumber(today) - days < DayNumber(e.date))
  {
    var k := DayNumber(e.date) - DayNumber(today);
    MultipleBelow(k, timeOfDay);
    MultipleAbove(k + days, timeOfDay);
  }

  lemma MultipleBelow(k: int, u: int)
    requires 0 <= u < MicrosPerDay
    ensures k * MicrosPerDay <= u <==> k <= 0
  {
    if k >= 1 {
      assert k * MicrosPerDay >= MicrosPerDay;
    }
  }

  lemma MultipleAbove(k: int, u: int)
    requires 0 <= u < MicrosPerDay
    ensures u <= k * MicrosPerDay <==> (if u == 0 then k >= 0 else k >= 1)
  {
    if k <= -1 {
      assert k * MicrosPerDay <= -MicrosPerDay;
    } else if k >= 1 {
      assert k * MicrosPerDay >= MicrosPerDay;
    }
  }

  /** The key of a day in `daily_totals`: the stored date text. */
  function DayOf(e: Expense): string {
    if ValidDate(e.date) then FormatDate(e.date) else ""
  }

  /** `generate_trend_chart(days)`: the listing is filtered to the trend
      window; nothing left prints a message (None). Otherwise the amounts are
      summed per day and the days sorted ascending. */
  method TrendSeries(expenses: seq<Expense>, today: Date, timeOfDay: nat, days: int)
    returns (r: Option<seq<(string, int)>>)
    requires IsCalendarDate(today)
    ensures var chosen := Filter(AllExpenses(expenses), InTrend(today, timeOfDay, days));
            && (r.None? <==> chosen == [])
            && (r.Some? ==>
                  && multiset(r.value) == multiset(Totals(chosen, DayOf, Amount))
                  && (forall p :: p in r.value <==>
                        (exists e :: e in chosen && DayOf(e) == p.0) && p.1 == SumOf(WithKey(chosen, DayOf, p.0), Amount))
                  && SumOf(r.value, PairValue) == SumOf(chosen, Amount)
                  && forall i, j :: 0 <= i < j < |r.value| ==> LexLe(r.value[i].0, r.value[j].0) && r.value[i].0 != r.value[j].0)
  {
    var chosen := TrendExpenses(AllExpenses(expenses), today, timeOfDay, days);
    if chosen == [] {
      return None;
    }
    var daily := DailyTotals(chosen);
    KeyAscOrder();
    var sorted := SortBy(daily, KeyAscLe);
    TrendFacts(chosen, daily, sorted);
    r := Some(sorted);
  }

  /** The loop that keeps the expenses inside the trend window. */
  method TrendExpenses(listing: seq<Expense>, today: Date, timeOfDay: nat, days: int) returns (chosen: seq<Expense>)
    requires IsCalendarDate(today)
    ensures chosen == Filter(listing, InTrend(today, timeOfDay, days))
  {
    var inWindow := InTrend(today, timeOfDay, days);
    chosen := [];
    var i := 0;
    while i < |listing|
      invariant 0 <= i <= |listing|
      invariant chosen == Filter(listing[..i], inWindow)
    {
      assert listing[..i + 1] == listing[..i] + [listing[i]];
      FilterSnoc(listing[..i], listing[i], inWindow);
      if InTrendWindow(today, timeOfDay, days, listing[i].date) {
        chosen := chosen + [listing[i]];
      }
      i := i + 1;
    }
    assert listing[..i] == listing;
  }

  /** The `daily_totals[date] += amount` loop. */
  method DailyTotals(chosen: seq<Expense>) returns (daily: seq<(string, int)>)
    ensures daily == Totals(chosen, DayOf, Amount)
  {
    daily := [];
    var i := 0;
    while i < |chosen|
      invariant 0 <= i <= |chosen|
      invariant daily == Totals(chosen[..i], DayOf, Amount)
    {
      assert chosen[..i + 1][..i] == chosen[..i];
      daily := AddTo(daily, DayOf(chosen[i]), Amount(chosen[i]));
      i := i + 1;
    }
    assert chosen[..i] == chosen;
  }

  lemma TrendFacts(chosen: seq<Expense>, daily: seq<(string, int)>, sorted: seq<(string, int)>)
    requires daily == Totals(chosen, DayOf, Amount)
    requires multiset(sorted) == multiset(daily) && SortedBy(sorted, KeyAscLe)
    ensures forall p :: p in sorted <==>
              (exists e :: e in chosen && DayOf(e) == p.0) && p.1 == SumOf(WithKey(chosen, DayOf, p.0), Amount)
    ensures SumOf(sorted, PairValue) == SumOf(chosen, Amount)
    ensures forall i, j :: 0 <= i < j < |sorted| ==> LexLe(sorted[i].0, sorted[j].0) && sorted[i].0 != sorted[j].0
  {
    TotalsPermuted(chosen, DayOf, Amount, sorted);
    TotalsPermuted(chosen, DayOf, Amount, daily);
    SortedItemsStrict(daily, sorted);
  }

  /** The day keys of the trend are in calendar order. */
  lemma DayKeysChronological(a: Expense, b: Expense)
    requires ValidDate(a.date) && ValidDate(b.date)
    ensures LexLe(DayOf(a), DayOf(b)) && DayOf(a) != DayOf(b) <==> DateLt(a.date, b.date)
  {
    FormatDateOrder(a.date, b.date);
    if a.date != b.date {
      ParseFormatRoundTrip(a.date);
      ParseFormatRoundTrip(b.date);
    }
  }
}
