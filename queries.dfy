/** The read queries of the ledger, as functions of the expense rows: the
    ordered listing, the per-category and per-month totals, the month
    listing, the statistics, and the spending within a budget period. */
module Queries {
  import opened Wrappers
  import opened Text
  import opened Calendar
  import opened IsoDate
  import opened Periods
  import opened Collections
  import opened Grouping
  import opened Expenses

  // ---------------------------------------------------------------------
  // get_all_expenses
  // ---------------------------------------------------------------------

  /** `ORDER BY date DESC, created_at DESC`: `a` may be listed before `b`.
      Comparing the stored date texts is comparing the dates
      (`IsoDate.FormatDateOrder`). */
  predicate RecencyLe(a: Expense, b: Expense) {
    DateLt(b.date, a.date) || (a.date == b.date && a.createdAt >= b.createdAt)
  }

  lemma RecencyOrder()
    ensures TotalPreorder(RecencyLe)
  {
  }

  /** Every row exactly once, newest date first and, within a date, the
      latest `created_at` first; rows that tie on both are in no promised
      order. */
  function AllExpenses(rows: seq<Expense>): (r: seq<Expense>)
    ensures multiset(r) == multiset(rows)
    ensures SortedBy(r, RecencyLe)
  {
    RecencyOrder();
    SortBy(rows, RecencyLe)
  }

  // ---------------------------------------------------------------------
  // get_category_totals, get_monthly_totals
  // ---------------------------------------------------------------------

  /** `ORDER BY total DESC`. */
  predicate TotalDescLe(p: (string, int), q: (string, int)) {
    p.1 >= q.1
  }

  /** `SELECT category, SUM(amount) … GROUP BY category ORDER BY total DESC`:
      each category that occurs, once, with the sum of its amounts, largest
      first; the totals add up to the sum of all amounts. */
  function CategoryTotals(rows: seq<Expense>): (r: seq<(string, int)>)
    ensures SortedBy(r, TotalDescLe)
    ensures forall p :: p in r <==>
              (exists e :: e in rows && e.category == p.0) && p.1 == SumOf(WithKey(rows, Category, p.0), Amount)
    ensures NoDups(Keys(r))
    ensures SumOf(r, PairValue) == SumOf(rows, Amount)
  {
    var r := SortBy(Totals(rows, Category, Amount), TotalDescLe);
    TotalsPermuted(rows, Category, Amount, r);
    r
  }

  /** `strftime('%Y-%m', date)`; every stored date is valid, so the empty
      text is never used. */
  function MonthOf(e: Expense): string {
    if ValidDate(e.date) then MonthText(e.date) else ""
  }

  /** `ORDER BY month DESC`. */
  predicate MonthDescLe(p: (string, int), q: (string, int)) {
    LexLe(q.0, p.0)
  }

  lemma MonthDescOrder()
    ensures TotalPreorder(MonthDescLe)
  {
    forall p, q ensures MonthDescLe(p, q) || MonthDescLe(q, p) {
      LexLeTotal(p.0, q.0);
    }
    forall p, q, u | MonthDescLe(p, q) && MonthDescLe(q, u) ensures MonthDescLe(p, u) {
      LexLeTransitive(u.0, q.0, p.0);
    }
  }

  /** `SELECT strftime('%Y-%m', date) AS month, SUM(amount) … GROUP BY month
      ORDER BY month DESC`: each month that has expenses, once, with the sum
      of its amounts, latest month first; the totals add up to the sum of all
      amounts. */
  function MonthlyTotals(rows: seq<Expense>): (r: seq<(string, int)>)
    ensures SortedBy(r, MonthDescLe)
    ensures forall p :: p in r <==>
              (exists e :: e in rows && MonthOf(e) == p.0) && p.1 == SumOf(WithKey(rows, MonthOf, p.0), Amount)
    ensures NoDups(Keys(r))
    ensures SumOf(r, PairValue) == SumOf(rows, Amount)
  {
    MonthDescOrder();
    var r := SortBy(Totals(rows, MonthOf, Amount), MonthDescLe);
    TotalsPermuted(rows, MonthOf, Amount, r);
    r
  }

  /** In the monthly totals of a well-formed table a later month is listed
      before an earlier one. */
  lemma MonthlyTotalsChronological(rows: seq<Expense>, nextId: nat, i: nat, j: nat)
    requires WellFormed(rows, nextId) && i < j < |MonthlyTotals(rows)|
    ensures var r := MonthlyTotals(rows);
            exists a, b :: a in rows && b in rows && MonthOf(a) == r[i].0 && MonthOf(b) == r[j].0
                           && (b.date.year < a.date.year || (b.date.year == a.date.year && b.date.month < a.date.month))
  {
    var r := MonthlyTotals(rows);
    assert r[i] in r && r[j] in r;
    var a :| a in rows && MonthOf(a) == r[i].0;
    var b :| b in rows && MonthOf(b) == r[j].0;
    KeysAt(r, i);
    KeysAt(r, j);
    assert r[i].0 != r[j].0;
    assert MonthDescLe(r[i], r[j]);
    MonthTextOrder(b.date, a.date);
  }

  // ---------------------------------------------------------------------
  // get_expenses_by_month
  // ---------------------------------------------------------------------

  /** `strftime('%Y', date) = str(year) AND strftime('%m', date) =
      f"{month:02d}"`, the fields being slices of the stored date text. */
  function InMonth(year: int, month: int): Expense -> bool {
    (e: Expense) =>
      ValidDate(e.date) && FormatDate(e.date)[..4] == IntText(year) && FormatDate(e.date)[5..7] == Padded2Text(month)
  }

  /** The month filter selects the expenses of that year and month; as
      `str(year)` is not zero-padded, no year before 1000 is ever matched. */
  lemma InMonthMeaning(year: int, month: int, e: Expense)
    requires ValidDate(e.date)
    ensures InMonth(year, month)(e) <==> 1000 <= year && e.date.year == year && e.date.month == month
  {
    FormatDateParts(e.date);
    IntTextFourDigits(e.date.year, year);
    Padded2TextMonth(e.date.month, month);
  }

  /** `ORDER BY date DESC`. */
  predicate DateDescLe(a: Expense, b: Expense) {
    DateLe(b.date, a.date)
  }

  function ExpensesForMonth(rows: seq<Expense>, year: int, month: int): (r: seq<Expense>)
    ensures multiset(r) == multiset(Filter(rows, InMonth(year, month)))
    ensures SortedBy(r, DateDescLe)
  {
    SortBy(Filter(rows, InMonth(year, month)), DateDescLe)
  }

  /** `get_expenses_by_month(year, month)` lists exactly the expenses of that
      month (of a year from 1000 on), each once, latest date first. */
  lemma ExpensesForMonthMembers(rows: seq<Expense>, nextId: nat, year: int, month: int, e: Expense)
    requires WellFormed(rows, nextId)
    ensures e in ExpensesForMonth(rows, year, month) <==>
              e in rows && 1000 <= year && e.date.year == year && e.date.month == month
    ensures multiset(ExpensesForMonth(rows, year, month))[e] == (if e in ExpensesForMonth(rows, year, month) then 1 else 0)
  {
    var r := ExpensesForMonth(rows, year, month);
    assert e in r <==> e in multiset(r);
    if e in rows {
      InMonthMeaning(year, month, e);
    }
    assert NoDups(rows) by {
      forall i, j | 0 <= i < j < |rows| ensures rows[i] != rows[j] {
        assert IdBefore(rows[i], rows[j]);
      }
    }
    FilterNoDups(rows, InMonth(year, month));
    PermutationKeepsNoDups(Filter(rows, InMonth(year, month)), r);
    NoDupsMultiplicity(r, e);
  }

  // ---------------------------------------------------------------------
  // get_database_stats
  // ---------------------------------------------------------------------

  datatype DatabaseStats = DatabaseStats(totalExpenses: nat, totalAmount: int, totalCategories: nat)

  /** `COUNT(*)`, `SUM(amount)` (0 for no rows) and `COUNT(DISTINCT
      category)`. */
  function Stats(rows: seq<Expense>): DatabaseStats {
    DatabaseStats(|rows|, SumOf(rows, Amount), |set e | e in rows :: e.category|)
  }

  /** The statistics agree with the totals: the category and the monthly
      totals both add up to the total amount, there is one category total per
      distinct category, and an empty table has all three figures 0. */
  lemma StatsAgreeWithTotals(rows: seq<Expense>)
    ensures Stats(rows).totalAmount == SumOf(CategoryTotals(rows), PairValue)
    ensures Stats(rows).totalAmount == SumOf(MonthlyTotals(rows), PairValue)
    ensures Stats(rows).totalCategories == |CategoryTotals(rows)|
    ensures rows == [] ==> Stats(rows) == DatabaseStats(0, 0, 0)
  {
    CategoryCount(rows);
  }

  /** One category total per distinct category. */
  lemma CategoryCount(rows: seq<Expense>)
    ensures |set e | e in rows :: e.category| == |CategoryTotals(rows)|
  {
    var ks := FirstSeenKeys(rows, Category);
    CategoryTotalsLength(rows);
    DistinctCount(ks);
    CategorySet(rows);
  }

  lemma CategoryTotalsLength(rows: seq<Expense>)
    ensures |CategoryTotals(rows)| == |FirstSeenKeys(rows, Category)|
  {
    TotalsKeys(rows, Category, Amount);
    assert |Keys(Totals(rows, Category, Amount))| == |Totals(rows, Category, Amount)|;
  }

  lemma CategorySet(rows: seq<Expense>)
    ensures (set k | k in FirstSeenKeys(rows, Category)) == (set e | e in rows :: e.category)
  {
    var ks := FirstSeenKeys(rows, Category);
    forall k ensures k in ks <==> exists e :: e in rows && e.category == k {
    }
  }

  // ---------------------------------------------------------------------
  // get_spent_for_period, get_spent_by_category_for_period
  // ---------------------------------------------------------------------

  /** `date BETWEEN lo AND hi`, comparing the stored date text. */
  function InWindow(lo: string, hi: string): Expense -> bool {
    (e: Expense) => ValidDate(e.date) && LexLe(lo, FormatDate(e.date)) && LexLe(FormatDate(e.date), hi)
  }

  /** The rows summed by `get_spent_for_period`: those in the window and, when
      the category is given and not empty, of that category. */
  function Spending(lo: string, hi: string, category: Option<string>): Expense -> bool {
    (e: Expense) => InWindow(lo, hi)(e) && (category.None? || category.value == "" || e.category == category.value)
  }

  function SpentInWindow(rows: seq<Expense>, lo: string, hi: string, category: Option<string>): int {
    SumOf(Filter(rows, Spending(lo, hi, category)), Amount)
  }

  /** `get_spent_for_period(period, category, reference_date)`. */
  function SpentForPeriod(rows: seq<Expense>, periodText: string, category: Option<string>,
                          reference: Option<string>, today: Date): Result<int, Error>
    requires ValidDate(today)
  {
    match PeriodRange(periodText, reference, today)
    case Err(e) => Err(e)
    case Ok((start, end)) => Ok(SpentInWindow(rows, FormatDate(start), FormatDate(end), category))
  }

  /** `get_spent_by_category_for_period(period, reference_date)`: the
      category totals of the rows in the window, as a dictionary. */
  function SpentByCategoryForPeriod(rows: seq<Expense>, periodText: string,
                                    reference: Option<string>, today: Date): Result<map<string, int>, Error>
    requires ValidDate(today)
  {
    match PeriodRange(periodText, reference, today)
    case Err(e) => Err(e)
    case Ok((start, end)) =>
      Ok(ToMap(Totals(Filter(rows, InWindow(FormatDate(start), FormatDate(end))), Category, Amount)))
  }

  /** A stored date lies in the text window of two dates exactly when it lies
      between them. */
  lemma InWindowIsDateWindow(start: Date, end: Date, e: Expense)
    requires ValidDate(start) && ValidDate(end) && ValidDate(e.date)
    ensures InWindow(FormatDate(start), FormatDate(end))(e) <==> DateLe(start, e.date) && DateLe(e.date, end)
  {
    FormatDateOrder(start, e.date);
    FormatDateOrder(e.date, end);
  }

  /** `get_spent_for_period` sums the amounts of the expenses dated within the
      period's window (of the category, when one is given). */
  lemma SpentForPeriodMeaning(rows: seq<Expense>, nextId: nat, periodText: string, category: Option<string>,
                              reference: Option<string>, today: Date)
    requires WellFormed(rows, nextId) && ValidDate(today)
    requires PeriodRange(periodText, reference, today).Ok?
    ensures var (start, end) := PeriodRange(periodText, reference, today).value;
            SpentForPeriod(rows, periodText, category, reference, today) ==
              Ok(SumOf(Filter(rows, DatedSpending(start, end, category)), Amount))
  {
    var (start, end) := PeriodRange(periodText, reference, today).value;
    forall e | e in rows
      ensures Spending(FormatDate(start), FormatDate(end), category)(e) == DatedSpending(start, end, category)(e)
    {
      InWindowIsDateWindow(start, end, e);
    }
    FilterCongruent(rows, Spending(FormatDate(start), FormatDate(end), category), DatedSpending(start, end, category));
  }

  /** The same selection stated on dates. */
  function DatedSpending(start: Date, end: Date, category: Option<string>): Expense -> bool {
    (e: Expense) => DateLe(start, e.date) && DateLe(e.date, end)
                    && (category.None? || category.value == "" || e.category == category.value)
  }

  /** The spending dictionary has a key for exactly the categories with an
      expense in the window; for every category `k`, "" included, `get(k, 0)`
      is the sum over the window's expenses of category `k`, and for a
      non-empty `k` that is what `get_spent_for_period` reports for `k`. */
  lemma SpentByCategoryMeaning(rows: seq<Expense>, periodText: string, reference: Option<string>, today: Date, k: string)
    requires ValidDate(today)
    requires SpentByCategoryForPeriod(rows, periodText, reference, today).Ok?
    ensures var (start, end) := PeriodRange(periodText, reference, today).value;
            var m := SpentByCategoryForPeriod(rows, periodText, reference, today).value;
            && (k in m <==> exists e :: e in rows && InWindow(FormatDate(start), FormatDate(end))(e) && e.category == k)
            && (if k in m then m[k] else 0) ==
                 SumOf(WithKey(Filter(rows, InWindow(FormatDate(start), FormatDate(end))), Category, k), Amount)
            && (k != "" ==> SpentForPeriod(rows, periodText, Some(k), reference, today) == Ok(if k in m then m[k] else 0))
  {
    var (start, end) := PeriodRange(periodText, reference, today).value;
    SpentByCategoryKeys(rows, FormatDate(start), FormatDate(end), k);
    SpentByCategoryGet(rows, FormatDate(start), FormatDate(end), k);
    if k != "" {
      SpentByCategoryValue(rows, FormatDate(start), FormatDate(end), k);
    }
  }

  lemma SpentByCategoryKeys(rows: seq<Expense>, lo: string, hi: string, k: string)
    ensures var m := ToMap(Totals(Filter(rows, InWindow(lo, hi)), Category, Amount));
            k in m <==> exists e :: e in rows && InWindow(lo, hi)(e) && e.category == k
  {
    TotalsKeys(Filter(rows, InWindow(lo, hi)), Category, Amount);
  }

  lemma SpentByCategoryGet(rows: seq<Expense>, lo: string, hi: string, k: string)
    ensures var w := Filter(rows, InWindow(lo, hi));
            var m := ToMap(Totals(w, Category, Amount));
            (if k in m then m[k] else 0) == SumOf(WithKey(w, Category, k), Amount)
  {
    var w := Filter(rows, InWindow(lo, hi));
    TotalsValue(w, Category, Amount, k);
    ValueOfAbsent(Totals(w, Category, Amount), k);
  }

  lemma SpentByCategoryValue(rows: seq<Expense>, lo: string, hi: string, k: string)
    requires k != ""
    ensures var m := ToMap(Totals(Filter(rows, InWindow(lo, hi)), Category, Amount));
            SpentInWindow(rows, lo, hi, Some(k)) == if k in m then m[k] else 0
  {
    var w := Filter(rows, InWindow(lo, hi));
    var ps := Totals(w, Category, Amount);
    TotalsValue(w, Category, Amount, k);
    FilterFilter(rows, InWindow(lo, hi), HasKey(Category, k), Spending(lo, hi, Some(k)));
    ValueOfAbsent(ps, k);
  }
}
