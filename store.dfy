/** The ledger object: the `expenses` and `budgets` tables it owns, the
    statements that change them, and the grouping of the expense listing by
    category. Each table is the sequence of its rows in insertion order with
    the next AUTOINCREMENT id beside it. */
module Store {
  import opened Wrappers
  import opened Calendar
  import opened IsoDate
  import opened Periods
  import opened Collections
  import opened Expenses
  import opened Budgets
  import opened Queries

  class ExpenseDatabase {
    var expenses: seq<Expense>
    var nextExpenseId: nat
    var budgets: seq<Budget>
    var nextBudgetId: nat

    /** The ledger invariant: the schema's constraints (AUTOINCREMENT ids, one
        budget per (category, period)) together with what `add_expense`,
        `update_expense` and `set_budget` check before they write
        (non-negative amounts, real calendar dates). */
    ghost predicate Valid()
      reads this
    {
      && nextExpenseId >= 1 && nextBudgetId >= 1
      && WellFormed(expenses, nextExpenseId)
      && WellFormedBudgets(budgets, nextBudgetId)
    }

    /** `_init_database` on a new file: both tables empty. */
    constructor ()
      ensures Valid()
      ensures expenses == [] && budgets == [] && nextExpenseId == 1 && nextBudgetId == 1
    {
      expenses := [];
      nextExpenseId := 1;
      budgets := [];
      nextBudgetId := 1;
    }

    /** `add_expense`: a negative amount is refused first, then a date text
        `strptime` does not accept; otherwise the row is appended under the
        next id, which is returned. `now` is the `created_at` clock reading. */
    method AddExpense(dateText: string, category: string, description: string, amount: int, now: nat)
      returns (r: Result<nat, Error>)
      requires Valid()
      modifies this
      ensures Valid()
      ensures amount < 0 ==> r == Err(NegativeAmount)
      ensures amount >= 0 && StrptimeParse(dateText).None? ==> r == Err(BadDate)
      ensures r.Ok? <==> amount >= 0 && StrptimeParse(dateText).Some?
      ensures r.Err? ==> unchanged(this)
      ensures r.Ok? ==>
                var e := Expense(old(nextExpenseId), StrptimeParse(dateText).value, category, description, amount, now);
                && amount >= 0
                && r.value == old(nextExpenseId)
                && expenses == old(expenses) + [e]
                && nextExpenseId == old(nextExpenseId) + 1
                && budgets == old(budgets) && nextBudgetId == old(nextBudgetId)
                && (forall x :: x in old(expenses) ==> x.id < r.value)
                && FindById(expenses, r.value) == Some(e)
                && (forall id :: id != r.value ==> FindById(expenses, id) == FindById(old(expenses), id))
    {
      if amount < 0 {
        return Err(NegativeAmount);
      }
      var date := StrptimeParse(dateText);
      if date.None? {
        return Err(BadDate);
      }
      var e := Expense(nextExpenseId, date.value, category, description, amount, now);
      InsertedRow(expenses, nextExpenseId, e);
      expenses := expenses + [e];
      nextExpenseId := nextExpenseId + 1;
      r := Ok(e.id);
    }

    /** `update_expense`: nothing to change answers `false` at once; a date
        text `strptime` refuses and then a negative amount raise; otherwise the
        SET list is built field by field and applied to the row with the id,
        and the answer is whether such a row exists. */
    method UpdateExpense(id: int, date: Option<string>, category: Option<string>,
                         description: Option<string>, amount: Option<int>)
      returns (r: Result<bool, Error>)
      requires Valid()
      modifies this
      ensures Valid()
      ensures date.None? && category.None? && description.None? && amount.None? ==> r == Ok(false)
      ensures r == Err(BadDate) <==> date.Some? && StrptimeParse(date.value).None?
      ensures r == Err(NegativeAmount) <==>
                (date.Some? ==> StrptimeParse(date.value).Some?) && amount.Some? && amount.value < 0
      ensures r.Err? ==> r == Err(BadDate) || r == Err(NegativeAmount)
      ensures r.Ok? && (date.Some? || category.Some? || description.Some? || amount.Some?) ==>
                r.value == FindById(old(expenses), id).Some?
      ensures r.Ok? ==>
                expenses == Revised(old(expenses), id,
                                    Change(if date.Some? then StrptimeParse(date.value) else None, category, description, amount))
      ensures r.Err? ==> expenses == old(expenses)
      ensures nextExpenseId == old(nextExpenseId) && budgets == old(budgets) && nextBudgetId == old(nextBudgetId)
    {
      var c := Change(if date.Some? then StrptimeParse(date.value) else None, category, description, amount);
      if date.None? && category.None? && description.None? && amount.None? {
        RevisedNothing(expenses, id);
        return Ok(false);
      }
      if date.Some? && StrptimeParse(date.value).None? {
        return Err(BadDate);
      }
      if amount.Some? && amount.value < 0 {
        return Err(NegativeAmount);
      }
      var fields := SetList(c);
      var rows := expenses;
      var updated := FindById(rows, id).Some?;
      RevisedRow(rows, nextExpenseId, id, c);
      expenses := ApplySetList(rows, id, fields, c);
      r := Ok(updated);
    }

    /** `delete_expense`: the row with the id is removed; the answer is whether
        there was one. */
    method DeleteExpense(id: int) returns (deleted: bool)
      requires Valid()
      modifies this
      ensures Valid()
      ensures deleted == FindById(old(expenses), id).Some?
      ensures expenses == Removed(old(expenses), id)
      ensures FindById(expenses, id) == None
      ensures deleted ==> |expenses| == |old(expenses)| - 1
      ensures !deleted ==> expenses == old(expenses)
      ensures nextExpenseId == old(nextExpenseId) && budgets == old(budgets) && nextBudgetId == old(nextBudgetId)
    {
      deleted := FindById(expenses, id).Some?;
      RemovedRow(expenses, nextExpenseId, id);
      expenses := Removed(expenses, id);
    }

    /** `set_budget`: the lowercased period name must be one of the three,
        then the amount must not be negative; otherwise the budget of the
        (category, period) pair is inserted or its amount replaced, and on
        either path the AUTOINCREMENT counter moves on by one. */
    method SetBudget(category: string, periodText: string, amount: int) returns (r: Result<(), Error>)
      requires Valid()
      modifies this
      ensures Valid()
      ensures ParsePeriod(periodText).None? ==> r == Err(BadPeriod)
      ensures ParsePeriod(periodText).Some? && amount < 0 ==> r == Err(NegativeAmount)
      ensures r.Ok? <==> ParsePeriod(periodText).Some? && amount >= 0
      ensures r.Err? ==> unchanged(this)
      ensures r.Ok? ==>
                var p := ParsePeriod(periodText).value;
                && budgets == Upserted(old(budgets), old(nextBudgetId), category, p, amount)
                && nextBudgetId == old(nextBudgetId) + 1
                && FindBudget(budgets, category, p).Some?
                && FindBudget(budgets, category, p).value.amount == amount
                && (forall c, q :: c != category || q != p ==> FindBudget(budgets, c, q) == FindBudget(old(budgets), c, q))
      ensures expenses == old(expenses) && nextExpenseId == old(nextExpenseId)
    {
      var p := ParsePeriod(periodText);
      if p.None? {
        return Err(BadPeriod);
      }
      if amount < 0 {
        return Err(NegativeAmount);
      }
      Upsert(category, p.value, amount);
      r := Ok(());
    }

    /** The INSERT … ON CONFLICT DO UPDATE statement of `set_budget`, run once
        the period and the amount have passed their checks. */
    method Upsert(category: string, p: Period, amount: int)
      requires Valid() && amount >= 0
      modifies this
      ensures Valid()
      ensures budgets == Upserted(old(budgets), old(nextBudgetId), category, p, amount)
      ensures nextBudgetId == old(nextBudgetId) + 1
      ensures FindBudget(budgets, category, p).Some? && FindBudget(budgets, category, p).value.amount == amount
      ensures forall c, q :: c != category || q != p ==> FindBudget(budgets, c, q) == FindBudget(old(budgets), c, q)
      ensures expenses == old(expenses) && nextExpenseId == old(nextExpenseId)
    {
      var rows := Upserted(budgets, nextBudgetId, category, p, amount);
      UpsertedRow(budgets, nextBudgetId, category, p, amount);
      budgets, nextBudgetId := rows, nextBudgetId + 1;
    }

    /** `get_expenses_by_category`: the listing of `get_all_expenses` walked
        once, each row appended to the list of its category. The categories
        come in the order they are first met and each list keeps the listing's
        order. */
    method GetExpensesByCategory() returns (keys: seq<string>, groups: map<string, seq<Expense>>)
      ensures Grouped(AllExpenses(expenses), keys, groups)
    {
      var listing := AllExpenses(expenses);
      keys, groups := [], map[];
      var i := 0;
      while i < |listing|
        invariant 0 <= i <= |listing|
        invariant Grouped(listing[..i], keys, groups)
      {
        var e := listing[i];
        assert listing[..i + 1] == listing[..i] + [e];
        GroupedSnoc(listing[..i], e, keys, groups);
        if e.category !in groups {
          keys := keys + [e.category];
          groups := groups[e.category := []];
        }
        groups := groups[e.category := groups[e.category] + [e]];
        i := i + 1;
      }
      assert listing[..i] == listing;
    }
  }

  /** `keys` are the categories of `s` in first-seen order, and `groups` maps
      each of them, and nothing else, to the rows of `s` in that category. */
  ghost predicate Grouped(s: seq<Expense>, keys: seq<string>, groups: map<string, seq<Expense>>) {
    && keys == FirstSeenKeys(s, Category)
    && (forall k :: k in groups <==> k in keys)
    && (forall k :: k in groups ==> groups[k] == WithKey(s, Category, k))
  }

  /** One step of the grouping loop. */
  lemma GroupedSnoc(s: seq<Expense>, e: Expense, keys: seq<string>, groups: map<string, seq<Expense>>)
    requires Grouped(s, keys, groups)
    ensures var ks := if e.category in groups then keys else keys + [e.category];
            var gs := if e.category in groups then groups else groups[e.category := []];
            Grouped(s + [e], ks, gs[e.category := gs[e.category] + [e]])
  {
    var ks := if e.category in groups then keys else keys + [e.category];
    var gs := if e.category in groups then groups else groups[e.category := []];
    KeysSnoc(s, e);
    GroupsSnoc(s, e, groups);
  }

  /** The categories after one more row: a new category goes last. */
  lemma KeysSnoc(s: seq<Expense>, e: Expense)
    ensures FirstSeenKeys(s + [e], Category) ==
              var keys := FirstSeenKeys(s, Category);
              if e.category in keys then keys else keys + [e.category]
  {
    assert (s + [e])[..|s + [e]| - 1] == s;
  }

  /** The groups after one more row: the row joins its category's list. */
  lemma GroupsSnoc(s: seq<Expense>, e: Expense, groups: map<string, seq<Expense>>)
    requires forall k :: k in groups <==> k in FirstSeenKeys(s, Category)
    requires forall k :: k in groups ==> groups[k] == WithKey(s, Category, k)
    ensures var gs := if e.category in groups then groups else groups[e.category := []];
            var gs' := gs[e.category := gs[e.category] + [e]];
            forall k :: k in gs' ==> gs'[k] == WithKey(s + [e], Category, k)
  {
    var gs := if e.category in groups then groups else groups[e.category := []];
    var gs' := gs[e.category := gs[e.category] + [e]];
    forall k | k in gs' ensures gs'[k] == WithKey(s + [e], Category, k) {
      GroupSnoc(s, e, k);
      if k !in groups {
        NoGroup(s, k);
      }
    }
  }

  /** The rows of a category after one more row. */
  lemma GroupSnoc(s: seq<Expense>, e: Expense, k: string)
    ensures WithKey(s + [e], Category, k) == WithKey(s, Category, k) + (if e.category == k then [e] else [])
  {
    FilterSnoc(s, e, HasKey(Category, k));
  }

  /** A category no row has selects no rows. */
  lemma NoGroup(s: seq<Expense>, k: string)
    requires k !in FirstSeenKeys(s, Category)
    ensures WithKey(s, Category, k) == []
  {
  }

  /** The SET list of `update_expense`, built one supplied field at a time in
      the order date, category, description, amount; applied to a row it
      makes exactly the requested change. */
  method SetList(c: Change) returns (fields: seq<Assignment>)
    ensures |fields| == (if c.date.Some? then 1 else 0) + (if c.category.Some? then 1 else 0)
                        + (if c.description.Some? then 1 else 0) + (if c.amount.Some? then 1 else 0)
    ensures forall e :: AssignAll(e, fields) == Patched(e, c)
  {
    fields := [];
    assert forall e :: AssignAll(e, fields) == e;
    if c.date.Some? {
      AssignAllSnocEach(fields, SetDate(c.date.value));
      fields := fields + [SetDate(c.date.value)];
    }
    if c.category.Some? {
      AssignAllSnocEach(fields, SetCategory(c.category.value));
      fields := fields + [SetCategory(c.category.value)];
    }
    if c.description.Some? {
      AssignAllSnocEach(fields, SetDescription(c.description.value));
      fields := fields + [SetDescription(c.description.value)];
    }
    if c.amount.Some? {
      AssignAllSnocEach(fields, SetAmount(c.amount.value));
      fields := fields + [SetAmount(c.amount.value)];
    }
  }

  /** An update with nothing to set leaves every row as it was. */
  lemma RevisedNothing(rows: seq<Expense>, id: int)
    ensures Revised(rows, id, Change(None, None, None, None)) == rows
  {
    assert forall i :: 0 <= i < |rows| ==> Patched(rows[i], Change(None, None, None, None)) == rows[i];
  }

  /** The statement run with a SET list: each row with the id gets the list
      applied, every other row stays. */
  method ApplySetList(rows: seq<Expense>, id: int, fields: seq<Assignment>, ghost c: Change) returns (r: seq<Expense>)
    requires forall e :: AssignAll(e, fields) == Patched(e, c)
    ensures r == Revised(rows, id, c)
  {
    r := seq(|rows|, i requires 0 <= i < |rows| => if rows[i].id == id then AssignAll(rows[i], fields) else rows[i]);
  }

  /** Appending one item to the SET list applies it after the others, for
      every row. */
  lemma AssignAllSnocEach(asg: seq<Assignment>, a: Assignment)
    ensures forall e :: AssignAll(e, asg + [a]) == Assign(AssignAll(e, asg), a)
  {
    forall e ensures AssignAll(e, asg + [a]) == Assign(AssignAll(e, asg), a) {
      AssignAllSnoc(e, asg, a);
    }
  }

  /** Each category's list is ordered like the listing: newest date first. */
  lemma GroupsKeepListingOrder(rows: seq<Expense>, k: string)
    ensures SortedBy(WithKey(AllExpenses(rows), Category, k), RecencyLe)
  {
    FilterKeepsSorted(AllExpenses(rows), HasKey(Category, k), RecencyLe);
  }
}
