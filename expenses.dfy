/** The `expenses` table: its rows, the constraints of its schema, and the
    effect of each statement that changes it, as functions of the rows. */
module Expenses {
  import opened Wrappers
  import opened Calendar
  import opened Collections

  /** One row: `id, date, category, description, amount, created_at`. The
      amount is in cents; `createdAt` is the clock reading, in seconds, that
      `CURRENT_TIMESTAMP` supplied when the row was inserted. */
  datatype Expense = Expense(id: nat, date: Date, category: string, description: string, amount: int, createdAt: nat)

  function Amount(e: Expense): int {
    e.amount
  }

  function Category(e: Expense): string {
    e.category
  }

  /** Row order of the table: increasing `id`. */
  predicate IdBefore(a: Expense, b: Expense) {
    a.id < b.id
  }

  /** The table invariants: AUTOINCREMENT ids are positive, increase in row
      order and stay below the next id to be issued; every stored amount is
      non-negative and every stored date is a real date. */
  predicate WellFormed(rows: seq<Expense>, nextId: nat) {
    && SortedBy(rows, IdBefore)
    && (forall e :: e in rows ==> 1 <= e.id < nextId && e.amount >= 0 && ValidDate(e.date))
  }

  /** `SELECT … WHERE id = ?`, one row or none. */
  function FindById(rows: seq<Expense>, id: int): (r: Option<Expense>)
    ensures r.Some? <==> exists e :: e in rows && e.id == id
    ensures r.Some? ==> r.value in rows && r.value.id == id
  {
    if |rows| == 0 then None
    else if rows[0].id == id then Some(rows[0])
    else
      assert forall e :: e in rows <==> e == rows[0] || e in rows[1..] by {
        assert rows == [rows[0]] + rows[1..];
      }
      FindById(rows[1..], id)
  }

  /** Ids are unique in a well-formed table, so the row found by its id is
      the row. */
  lemma FindByIdUnique(rows: seq<Expense>, nextId: nat, e: Expense)
    requires WellFormed(rows, nextId) && e in rows
    ensures FindById(rows, e.id) == Some(e)
  {
    var f := FindById(rows, e.id).value;
    var i :| 0 <= i < |rows| && rows[i] == e;
    var j :| 0 <= j < |rows| && rows[j] == f;
    assert forall a, b :: 0 <= a < |rows| && 0 <= b < |rows| && a != b ==> rows[a].id != rows[b].id by {
      forall a, b | 0 <= a < |rows| && 0 <= b < |rows| && a != b ensures rows[a].id != rows[b].id {
        if a < b {
          assert IdBefore(rows[a], rows[b]);
        } else {
          assert IdBefore(rows[b], rows[a]);
        }
      }
    }
  }

  /** Two well-formed tables with the same rows answer every lookup alike. */
  lemma FindByIdSameRows(a: seq<Expense>, b: seq<Expense>, n: nat, m: nat, id: int)
    requires WellFormed(a, n) && WellFormed(b, m)
    requires forall e: Expense :: e.id == id ==> (e in a <==> e in b)
    ensures FindById(a, id) == FindById(b, id)
  {
    if FindById(a, id).Some? {
      FindByIdUnique(a, n, FindById(a, id).value);
      FindByIdUnique(b, m, FindById(a, id).value);
    }
  }

  // ---------------------------------------------------------------------
  // INSERT
  // ---------------------------------------------------------------------

  /** An insert with the next AUTOINCREMENT id keeps the table well formed;
      the new id is above every id in the table, the new row is found by it,
      and every other lookup is unchanged. */
  lemma InsertedRow(rows: seq<Expense>, nextId: nat, e: Expense)
    requires WellFormed(rows, nextId) && e.id == nextId && nextId >= 1
    requires e.amount >= 0 && ValidDate(e.date)
    ensures WellFormed(rows + [e], nextId + 1)
    ensures forall x :: x in rows ==> x.id < e.id
    ensures FindById(rows + [e], e.id) == Some(e)
    ensures forall id :: id != e.id ==> FindById(rows + [e], id) == FindById(rows, id)
  {
    var r := rows + [e];
    assert forall x :: x in r <==> x in rows || x == e;
    assert forall i :: 0 <= i < |rows| ==> r[i] == rows[i];
    FindByIdUnique(r, nextId + 1, e);
    forall id | id != e.id ensures FindById(r, id) == FindById(rows, id) {
      FindByIdSameRows(r, rows, nextId + 1, nextId, id);
    }
  }

  // ---------------------------------------------------------------------
  // DELETE
  // ---------------------------------------------------------------------

  /** The rows a `WHERE id = ?` clause does not select. */
  function NotId(id: int): Expense -> bool {
    (e: Expense) => e.id != id
  }

  /** `DELETE FROM expenses WHERE id = ?`: the rows left are exactly those
      with another id. */
  function Removed(rows: seq<Expense>, id: int): (r: seq<Expense>)
    ensures forall e :: e in r <==> e in rows && e.id != id
  {
    Filter(rows, NotId(id))
  }

  /** Deleting keeps the table well formed, removes exactly the row with that
      id, and leaves the table as it was when no row has it. */
  lemma RemovedRow(rows: seq<Expense>, nextId: nat, id: int)
    requires WellFormed(rows, nextId)
    ensures WellFormed(Removed(rows, id), nextId)
    ensures FindById(Removed(rows, id), id) == None
    ensures forall j :: j != id ==> FindById(Removed(rows, id), j) == FindById(rows, j)
    ensures FindById(rows, id).None? ==> Removed(rows, id) == rows
    ensures FindById(rows, id).Some? ==> |Removed(rows, id)| == |rows| - 1
  {
    var r := Removed(rows, id);
    FilterKeepsSorted(rows, NotId(id), IdBefore);
    forall j | j != id ensures FindById(r, j) == FindById(rows, j) {
      FindByIdSameRows(r, rows, nextId, nextId, j);
    }
    if FindById(rows, id).None? {
      FilterAllKept(rows, NotId(id));
    } else {
      var e := FindById(rows, id).value;
      var i :| 0 <= i < |rows| && rows[i] == e;
      RemovedLength(rows, nextId, i);
    }
  }

  /** Filtering with a condition every element meets changes nothing. */
  lemma {:induction false} FilterAllKept(s: seq<Expense>, p: Expense -> bool)
    requires forall x :: x in s ==> p(x)
    ensures Filter(s, p) == s
  {
    if |s| > 0 {
      var init, x := s[..|s| - 1], s[|s| - 1];
      assert s == init + [x];
      FilterAllKept(init, p);
      FilterSnoc(init, x, p);
    }
  }

  /** Deleting an id that occurs once shortens the table by one row. */
  lemma {:induction false} RemovedLength(rows: seq<Expense>, nextId: nat, i: nat)
    requires WellFormed(rows, nextId) && i < |rows|
    ensures |Removed(rows, rows[i].id)| == |rows| - 1
  {
    var id := rows[i].id;
    var init, x := rows[..|rows| - 1], rows[|rows| - 1];
    assert rows == init + [x];
    FilterSnoc(init, x, NotId(id));
    LastIdLargest(rows, nextId);
    if i == |rows| - 1 {
      FilterAllKept(init, NotId(id));
    } else {
      assert init[i] == rows[i];
      RemovedLength(init, nextId, i);
    }
  }

  /** Dropping the last row keeps the table well formed, and the last row's
      id is above every other. */
  lemma LastIdLargest(rows: seq<Expense>, nextId: nat)
    requires WellFormed(rows, nextId) && |rows| > 0
    ensures WellFormed(rows[..|rows| - 1], nextId)
    ensures forall e :: e in rows[..|rows| - 1] ==> e.id < rows[|rows| - 1].id
  {
    var init := rows[..|rows| - 1];
    forall e | e in init ensures e in rows && e.id < rows[|rows| - 1].id {
      var k :| 0 <= k < |init| && init[k] == e;
      assert IdBefore(rows[k], rows[|rows| - 1]);
    }
  }

  // ---------------------------------------------------------------------
  // UPDATE
  // ---------------------------------------------------------------------

  /** The supplied fields of an update; `None` leaves a field alone. */
  datatype Change = Change(date: Option<Date>, category: Option<string>, description: Option<string>, amount: Option<int>)

  /** The row after the update: each supplied field takes the new value;
      `id`, `created_at` and every field not supplied keep theirs. */
  function Patched(e: Expense, c: Change): Expense {
    Expense(
      e.id,
      if c.date.Some? then c.date.value else e.date,
      if c.category.Some? then c.category.value else e.category,
      if c.description.Some? then c.description.value else e.description,
      if c.amount.Some? then c.amount.value else e.amount,
      e.createdAt)
  }

  /** One `column = ?` item of the SET clause. */
  datatype Assignment = SetDate(date: Date) | SetCategory(category: string) | SetDescription(description: string) | SetAmount(amount: int)

  function Assign(e: Expense, a: Assignment): Expense {
    match a
    case SetDate(d) => e.(date := d)
    case SetCategory(c) => e.(category := c)
    case SetDescription(d) => e.(description := d)
    case SetAmount(n) => e.(amount := n)
  }

  /** `SET a1, a2, …`: the items applied left to right. */
  function AssignAll(e: Expense, asg: seq<Assignment>): Expense
    decreases |asg|
  {
    if |asg| == 0 then e else AssignAll(Assign(e, asg[0]), asg[1..])
  }

  lemma {:induction false} AssignAllSnoc(e: Expense, asg: seq<Assignment>, a: Assignment)
    ensures AssignAll(e, asg + [a]) == Assign(AssignAll(e, asg), a)
    decreases |asg|
  {
    if |asg| > 0 {
      assert (asg + [a])[1..] == asg[1..] + [a];
      AssignAllSnoc(Assign(e, asg[0]), asg[1..], a);
    }
  }

  /** `UPDATE expenses SET … WHERE id = ?`. */
  function Revised(rows: seq<Expense>, id: int, c: Change): (r: seq<Expense>)
    ensures |r| == |rows|
  {
    seq(|rows|, i requires 0 <= i < |rows| => if rows[i].id == id then Patched(rows[i], c) else rows[i])
  }

  /** An update with valid values keeps the table well formed; the row with
      that id, if any, takes the supplied fields and keeps the others, its id
      and its `created_at`; every other row is unchanged. */
  lemma RevisedRow(rows: seq<Expense>, nextId: nat, id: int, c: Change)
    requires WellFormed(rows, nextId)
    requires c.date.Some? ==> ValidDate(c.date.value)
    requires c.amount.Some? ==> c.amount.value >= 0
    ensures WellFormed(Revised(rows, id, c), nextId)
    ensures FindById(rows, id).None? ==> Revised(rows, id, c) == rows
    ensures FindById(rows, id).Some? ==>
              var old_ := FindById(rows, id).value;
              var new_ := FindById(Revised(rows, id, c), id);
              && new_.Some?
              && new_.value.id == id && new_.value.createdAt == old_.createdAt
              && new_.value.date == (if c.date.Some? then c.date.value else old_.date)
              && new_.value.category == (if c.category.Some? then c.category.value else old_.category)
              && new_.value.description == (if c.description.Some? then c.description.value else old_.description)
              && new_.value.amount == (if c.amount.Some? then c.amount.value else old_.amount)
    ensures forall j :: j != id ==> FindById(Revised(rows, id, c), j) == FindById(rows, j)
  {
    var r := Revised(rows, id, c);
    RevisedWellFormed(rows, nextId, id, c);
    forall j | j != id ensures FindById(r, j) == FindById(rows, j) {
      RevisedOther(rows, nextId, id, c, j);
    }
    if FindById(rows, id).None? {
      assert forall i :: 0 <= i < |rows| ==> rows[i] in rows && r[i] == rows[i];
    } else {
      var e := FindById(rows, id).value;
      var i :| 0 <= i < |rows| && rows[i] == e;
      assert r[i] == Patched(e, c) && r[i] in r;
      FindByIdUnique(r, nextId, r[i]);
    }
  }

  lemma RevisedWellFormed(rows: seq<Expense>, nextId: nat, id: int, c: Change)
    requires WellFormed(rows, nextId)
    requires c.date.Some? ==> ValidDate(c.date.value)
    requires c.amount.Some? ==> c.amount.value >= 0
    ensures WellFormed(Revised(rows, id, c), nextId)
  {
    var r := Revised(rows, id, c);
    assert forall i :: 0 <= i < |rows| ==> r[i].id == rows[i].id;
    forall e | e in r ensures 1 <= e.id < nextId && e.amount >= 0 && ValidDate(e.date) {
      var i :| 0 <= i < |r| && r[i] == e;
      assert rows[i] in rows;
    }
  }

  lemma RevisedOther(rows: seq<Expense>, nextId: nat, id: int, c: Change, j: int)
    requires WellFormed(rows, nextId) && WellFormed(Revised(rows, id, c), nextId) && j != id
    ensures FindById(Revised(rows, id, c), j) == FindById(rows, j)
  {
    var r := Revised(rows, id, c);
    forall e: Expense | e.id == j ensures e in r <==> e in rows {
      if e in rows {
        var i :| 0 <= i < |rows| && rows[i] == e;
        assert r[i] == e;
      }
      if e in r {
        var i :| 0 <= i < |r| && r[i] == e;
        assert rows[i].id == j;
        assert r[i] == rows[i];
      }
    }
    FindByIdSameRows(r, rows, nextId, nextId, j);
  }
}
