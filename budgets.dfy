/** The `budgets` table: one amount per (category, period), written by an
    upsert and read by key or as an ordered list. */
module Budgets {
  import opened Wrappers
  import opened Text
  import opened Collections
  import opened Periods

  /** One row: `id, category, period, amount`; the amount is in cents and the
      period is one of the three the CHECK constraint admits. */
  datatype Budget = Budget(id: nat, category: string, period: Period, amount: int)

  predicate BudgetIdBefore(a: Budget, b: Budget) {
    a.id < b.id
  }

  predicate SameKey(a: Budget, b: Budget) {
    a.category == b.category && a.period == b.period
  }

  /** The table invariants: increasing AUTOINCREMENT ids below the next one,
      `UNIQUE(category, period)`, and non-negative amounts. */
  predicate WellFormedBudgets(rows: seq<Budget>, nextId: nat) {
    && SortedBy(rows, BudgetIdBefore)
    && (forall i, j :: 0 <= i < j < |rows| ==> !SameKey(rows[i], rows[j]))
    && (forall b :: b in rows ==> 1 <= b.id < nextId && b.amount >= 0)
  }

  /** The row with key (category, period), if any. */
  function FindBudget(rows: seq<Budget>, category: string, period: Period): (r: Option<Budget>)
    ensures r.Some? <==> exists b :: b in rows && b.category == category && b.period == period
    ensures r.Some? ==> r.value in rows && r.value.category == category && r.value.period == period
  {
    if |rows| == 0 then None
    else if rows[0].category == category && rows[0].period == period then Some(rows[0])
    else
      assert forall b :: b in rows <==> b == rows[0] || b in rows[1..] by {
        assert rows == [rows[0]] + rows[1..];
      }
      FindBudget(rows[1..], category, period)
  }

  /** In a well-formed table each key names at most one row. */
  lemma KeyIsUnique(rows: seq<Budget>, nextId: nat, i: nat, j: nat)
    requires WellFormedBudgets(rows, nextId) && i < |rows| && j < |rows| && SameKey(rows[i], rows[j])
    ensures i == j
  {
  }

  // ---------------------------------------------------------------------
  // INSERT … ON CONFLICT(category, period) DO UPDATE SET amount = excluded.amount
  // ---------------------------------------------------------------------

  /** The table after the upsert. */
  function Upserted(rows: seq<Budget>, nextId: nat, category: string, period: Period, amount: int): seq<Budget> {
    if FindBudget(rows, category, period).Some? then
      seq(|rows|, i requires 0 <= i < |rows| =>
        if rows[i].category == category && rows[i].period == period then rows[i].(amount := amount) else rows[i])
    else
      rows + [Budget(nextId, category, period, amount)]
  }

  /** After the upsert exactly one row has the key and it holds the latest
      amount (keeping its id when it already existed); the table stays well
      formed and every other key reads as before. SQLite draws the new rowid,
      and raises the AUTOINCREMENT counter, before the UNIQUE conflict turns
      the INSERT into an UPDATE, so the next id is one higher on both paths. */
  lemma UpsertedRow(rows: seq<Budget>, nextId: nat, category: string, period: Period, amount: int)
    requires WellFormedBudgets(rows, nextId) && nextId >= 1 && amount >= 0
    ensures var r := Upserted(rows, nextId, category, period, amount);
            && WellFormedBudgets(r, nextId + 1)
            && FindBudget(r, category, period).Some?
            && FindBudget(r, category, period).value.amount == amount
            && FindBudget(r, category, period).value.id ==
                 (if FindBudget(rows, category, period).Some? then FindBudget(rows, category, period).value.id else nextId)
            && (forall i, j ::
                  (0 <= i < |r| && 0 <= j < |r| && r[i].category == category && r[i].period == period
                   && r[j].category == category && r[j].period == period) ==> i == j)
            && (forall c, p :: c != category || p != period ==> FindBudget(r, c, p) == FindBudget(rows, c, p))
  {
    var r := Upserted(rows, nextId, category, period, amount);
    var n := nextId + 1;
    if FindBudget(rows, category, period).Some? {
      UpdatedRow(rows, nextId, category, period, amount);
    } else {
      InsertedBudget(rows, nextId, category, period, amount);
    }
    forall i, j | 0 <= i < |r| && 0 <= j < |r| && r[i].category == category && r[i].period == period
                  && r[j].category == category && r[j].period == period
      ensures i == j
    {
      KeyIsUnique(r, n, i, j);
    }
  }

  lemma UpdatedRow(rows: seq<Budget>, nextId: nat, category: string, period: Period, amount: int)
    requires WellFormedBudgets(rows, nextId) && amount >= 0
    requires FindBudget(rows, category, period).Some?
    ensures var r := Upserted(rows, nextId, category, period, amount);
            && WellFormedBudgets(r, nextId)
            && FindBudget(r, category, period) == Some(FindBudget(rows, category, period).value.(amount := amount))
            && (forall c, p :: c != category || p != period ==> FindBudget(r, c, p) == FindBudget(rows, c, p))
  {
    var r := Upserted(rows, nextId, category, period, amount);
    var old_ := FindBudget(rows, category, period).value;
    var k :| 0 <= k < |rows| && rows[k] == old_;
    UpdatedWellFormed(rows, nextId, category, period, amount);
    assert r[k] == old_.(amount := amount);
    FindBudgetAt(r, nextId, k);
    forall c, p | c != category || p != period ensures FindBudget(r, c, p) == FindBudget(rows, c, p) {
      UpdatedOther(rows, nextId, category, period, amount, c, p);
    }
  }

  lemma UpdatedWellFormed(rows: seq<Budget>, nextId: nat, category: string, period: Period, amount: int)
    requires WellFormedBudgets(rows, nextId) && amount >= 0
    requires FindBudget(rows, category, period).Some?
    ensures WellFormedBudgets(Upserted(rows, nextId, category, period, amount), nextId)
  {
    var r := Upserted(rows, nextId, category, period, amount);
    assert forall i :: 0 <= i < |rows| ==> SameKey(r[i], rows[i]) && r[i].id == rows[i].id;
    forall b | b in r ensures 1 <= b.id < nextId && b.amount >= 0 {
      var i :| 0 <= i < |r| && r[i] == b;
      assert rows[i] in rows;
    }
  }

  lemma UpdatedOther(rows: seq<Budget>, nextId: nat, category: string, period: Period, amount: int, c: string, p: Period)
    requires WellFormedBudgets(rows, nextId) && amount >= 0
    requires FindBudget(rows, category, period).Some? && (c != category || p != period)
    ensures FindBudget(Upserted(rows, nextId, category, period, amount), c, p) == FindBudget(rows, c, p)
  {
    var r := Upserted(rows, nextId, category, period, amount);
    UpdatedWellFormed(rows, nextId, category, period, amount);
    UpdatedKeepsOthers(rows, nextId, category, period, amount, c, p);
    if FindBudget(rows, c, p).Some? {
      var i :| 0 <= i < |rows| && rows[i] == FindBudget(rows, c, p).value;
      assert r[i] == rows[i];
      FindBudgetAt(r, nextId, i);
    }
  }

  /** Rows of another key come through the update untouched. */
  lemma UpdatedKeepsOthers(rows: seq<Budget>, nextId: nat, category: string, period: Period, amount: int, c: string, p: Period)
    requires FindBudget(rows, category, period).Some? && (c != category || p != period)
    ensures forall b :: b in Upserted(rows, nextId, category, period, amount) && b.category == c && b.period == p ==> b in rows
  {
    var r := Upserted(rows, nextId, category, period, amount);
    forall b | b in r && b.category == c && b.period == p ensures b in rows {
      var i :| 0 <= i < |r| && r[i] == b;
      assert r[i] == rows[i];
    }
  }

  lemma InsertedBudget(rows: seq<Budget>, nextId: nat, category: string, period: Period, amount: int)
    requires WellFormedBudgets(rows, nextId) && nextId >= 1 && amount >= 0
    requires FindBudget(rows, category, period).None?
    ensures var r := Upserted(rows, nextId, category, period, amount);
            && WellFormedBudgets(r, nextId + 1)
            && FindBudget(r, category, period) == Some(Budget(nextId, category, period, amount))
            && (forall c, p :: c != category || p != period ==> FindBudget(r, c, p) == FindBudget(rows, c, p))
  {
    var b := Budget(nextId, category, period, amount);
    var r := rows + [b];
    InsertedWellFormed(rows, nextId, b);
    FindBudgetAt(r, nextId + 1, |rows|);
    forall c, p | c != category || p != period ensures FindBudget(r, c, p) == FindBudget(rows, c, p) {
      InsertedOther(rows, nextId, b, c, p);
    }
  }

  lemma InsertedOther(rows: seq<Budget>, nextId: nat, b: Budget, c: string, p: Period)
    requires WellFormedBudgets(rows, nextId) && WellFormedBudgets(rows + [b], nextId + 1)
    requires c != b.category || p != b.period
    ensures FindBudget(rows + [b], c, p) == FindBudget(rows, c, p)
  {
    var r := rows + [b];
    if FindBudget(rows, c, p).Some? {
      var i :| 0 <= i < |rows| && rows[i] == FindBudget(rows, c, p).value;
      assert r[i] == rows[i];
      FindBudgetAt(r, nextId + 1, i);
      FindBudgetAt(rows, nextId, i);
    }
  }

  lemma InsertedWellFormed(rows: seq<Budget>, nextId: nat, b: Budget)
    requires WellFormedBudgets(rows, nextId) && b.id == nextId && nextId >= 1 && b.amount >= 0
    requires FindBudget(rows, b.category, b.period).None?
    ensures WellFormedBudgets(rows + [b], nextId + 1)
  {
    var r := rows + [b];
    forall i, j | 0 <= i < j < |r| ensures BudgetIdBefore(r[i], r[j]) && !SameKey(r[i], r[j]) {
      assert r[i] == rows[i] && rows[i] in rows;
      if j < |rows| {
        assert r[j] == rows[j];
      }
    }
    forall x | x in r ensures 1 <= x.id < nextId + 1 && x.amount >= 0 {
      if x != b {
        assert x in rows;
      }
    }
  }

  /** The row at a position is the one its key finds. */
  lemma FindBudgetAt(rows: seq<Budget>, nextId: nat, i: nat)
    requires WellFormedBudgets(rows, nextId) && i < |rows|
    ensures FindBudget(rows, rows[i].category, rows[i].period) == Some(rows[i])
  {
    var f := FindBudget(rows, rows[i].category, rows[i].period).value;
    var j :| 0 <= j < |rows| && rows[j] == f;
    KeyIsUnique(rows, nextId, i, j);
  }

  /** Repeating the same upsert leaves the rows as they are; only the
      AUTOINCREMENT counter moves on. */
  lemma UpsertIdempotent(rows: seq<Budget>, nextId: nat, category: string, period: Period, amount: int)
    requires WellFormedBudgets(rows, nextId) && nextId >= 1 && amount >= 0
    ensures var r := Upserted(rows, nextId, category, period, amount);
            Upserted(r, nextId + 1, category, period, amount) == r
  {
    UpsertedRow(rows, nextId, category, period, amount);
    var r := Upserted(rows, nextId, category, period, amount);
    var n := nextId + 1;
    var r2 := Upserted(r, n, category, period, amount);
    forall i | 0 <= i < |r| ensures r2[i] == r[i] {
      if r[i].category == category && r[i].period == period {
        FindBudgetAt(r, n, i);
      }
    }
  }

  // ---------------------------------------------------------------------
  // Reading budgets
  // ---------------------------------------------------------------------

  /** `get_budget(category, period)`: the category is matched as given, the
      period after lowercasing; a period name outside the three finds no row,
      since the CHECK constraint admits no other. */
  function GetBudget(rows: seq<Budget>, category: string, periodText: string): (r: Option<Budget>)
    ensures r.Some? <==> exists b :: b in rows && b.category == category && PeriodName(b.period) == Lower(periodText)
    ensures r.Some? ==> r.value in rows && r.value.category == category && PeriodName(r.value.period) == Lower(periodText)
  {
    match ParsePeriod(periodText)
    case None => None
    case Some(p) =>
      assert forall q :: PeriodName(q) == Lower(periodText) ==> q == p;
      FindBudget(rows, category, p)
  }

  /** `WHERE period = ?` with the lowercased period text. */
  function InPeriod(periodText: string): Budget -> bool {
    (b: Budget) => PeriodName(b.period) == Lower(periodText)
  }

  predicate CategoryLe(a: Budget, b: Budget) {
    LexLe(a.category, b.category)
  }

  /** `ORDER BY period, category`, the period compared by its stored name. */
  predicate PeriodCategoryLe(a: Budget, b: Budget) {
    var pa, pb := PeriodName(a.period), PeriodName(b.period);
    (pa != pb && LexLe(pa, pb)) || (pa == pb && LexLe(a.category, b.category))
  }

  lemma CategoryOrder()
    ensures TotalPreorder(CategoryLe)
  {
    forall a, b ensures CategoryLe(a, b) || CategoryLe(b, a) {
      LexLeTotal(a.category, b.category);
    }
    forall a, b, c | CategoryLe(a, b) && CategoryLe(b, c) ensures CategoryLe(a, c) {
      LexLeTransitive(a.category, b.category, c.category);
    }
  }

  lemma PeriodCategoryOrder()
    ensures TotalPreorder(PeriodCategoryLe)
  {
    forall a, b ensures PeriodCategoryLe(a, b) || PeriodCategoryLe(b, a) {
      LexLeTotal(a.category, b.category);
      LexLeTotal(PeriodName(a.period), PeriodName(b.period));
    }
    forall a, b, c | PeriodCategoryLe(a, b) && PeriodCategoryLe(b, c) ensures PeriodCategoryLe(a, c) {
      var pa, pb, pc := PeriodName(a.period), PeriodName(b.period), PeriodName(c.period);
      LexLeReflexive(pa);
      LexLeReflexive(pb);
      LexLeTransitive(pa, pb, pc);
      if LexLe(a.category, b.category) && LexLe(b.category, c.category) {
        LexLeTransitive(a.category, b.category, c.category);
      }
      if pa == pc && pa != pb {
        LexLeAntisymmetric(pa, pb);
      }
    }
  }

  /** `get_all_budgets(period)`: with a non-empty period, the budgets of that
      (lowercased) period by category; otherwise all budgets by period name,
      then category. Ties are left to the engine. */
  function AllBudgets(rows: seq<Budget>, period: Option<string>): (r: seq<Budget>)
    ensures period.Some? && period.value != "" ==>
              && multiset(r) == multiset(Filter(rows, InPeriod(period.value)))
              && SortedBy(r, CategoryLe)
    ensures period.None? || period.value == "" ==>
              multiset(r) == multiset(rows) && SortedBy(r, PeriodCategoryLe)
  {
    if period.Some? && period.value != "" then
      CategoryOrder();
      SortBy(Filter(rows, InPeriod(period.value)), CategoryLe)
    else
      PeriodCategoryOrder();
      SortBy(rows, PeriodCategoryLe)
  }

  /** Which budgets are listed: with a period, exactly those of that period;
      without, all of them. */
  lemma AllBudgetsMembers(rows: seq<Budget>, period: Option<string>, b: Budget)
    ensures b in AllBudgets(rows, period) <==>
              b in rows && (period.Some? && period.value != "" ==> PeriodName(b.period) == Lower(period.value))
  {
    var r := AllBudgets(rows, period);
    assert b in r <==> b in multiset(r);
  }

  /** Within one period every category has one budget, so the listing for a
      period is strictly ordered by category and fully determined. */
  lemma AllBudgetsStrict(rows: seq<Budget>, nextId: nat, period: string)
    requires WellFormedBudgets(rows, nextId) && period != ""
    ensures var r := AllBudgets(rows, Some(period));
            forall i, j :: 0 <= i < j < |r| ==> LexLe(r[i].category, r[j].category) && r[i].category != r[j].category
  {
    var r := AllBudgets(rows, Some(period));
    var sel := Filter(rows, InPeriod(period));
    BudgetRowsDistinct(rows, nextId);
    FilterNoDups(rows, InPeriod(period));
    PermutationKeepsNoDups(sel, r);
    forall i, j | 0 <= i < j < |r| ensures LexLe(r[i].category, r[j].category) && r[i].category != r[j].category {
      assert CategoryLe(r[i], r[j]);
      assert r[i] in multiset(r) && r[j] in multiset(r);
      assert r[i] in sel && r[j] in sel;
      OtherCategoryInPeriod(rows, nextId, r[i], r[j]);
    }
  }

  lemma BudgetRowsDistinct(rows: seq<Budget>, nextId: nat)
    requires WellFormedBudgets(rows, nextId)
    ensures NoDups(rows)
  {
    forall i, j | 0 <= i < j < |rows| ensures rows[i] != rows[j] {
      assert !SameKey(rows[i], rows[j]);
    }
  }

  /** Two different budgets of one period are for different categories. */
  lemma OtherCategoryInPeriod(rows: seq<Budget>, nextId: nat, x: Budget, y: Budget)
    requires WellFormedBudgets(rows, nextId) && x in rows && y in rows && x != y
    requires PeriodName(x.period) == PeriodName(y.period)
    ensures x.category != y.category
  {
    var a :| 0 <= a < |rows| && rows[a] == x;
    var b :| 0 <= b < |rows| && rows[b] == y;
    assert a != b;
    if a < b {
      assert !SameKey(rows[a], rows[b]);
    } else {
      assert !SameKey(rows[b], rows[a]);
    }
    assert x.period == y.period;
  }
}
