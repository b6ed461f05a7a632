/**
 * The expense store of main.py: the `expenses` table as one object, its five
 * tools as the object's operations. The SQLite file becomes the fields
 * `rows` (id to row) and `nextId` (the AUTOINCREMENT counter); the clock
 * readings the tools take become parameters.
 */
module Store {
  import opened Wrappers
  import opened Text
  import opened Records
  import opened Queries

  /** The largest rowid SQLite hands out: 2^63 - 1. */
  const MaxRowId: int := 0x7FFF_FFFF_FFFF_FFFF

  /** SQLITE_FULL: AUTOINCREMENT has used up the largest rowid. */
  datatype StoreError = DatabaseFull

  /** The reply of `add_expense`: the new id and the caller's arguments as given. */
  datatype AddReply = AddReply(expenseId: int, amount: real, category: string, subCategory: string, date: string)

  datatype ListReply = ListReply(count: nat, expenses: seq<Expense>)

  /** `updated_fields` holds the `column = ?` texts of the statement that was run. */
  datatype UpdateReply =
    | Updated(updatedFields: seq<string>)
    | UpdateError(message: string)

  datatype DeleteReply = Deleted(deletedId: int)

  datatype SummaryReply = SummaryReply(startDate: string, endDate: string, totalExpense: real)

  /**
   * The texts `update_expense` reports for a field list: one per field, and
   * two reported texts are equal exactly when they name the same field.
   */
  function Clauses(cols: seq<Column>): (r: seq<string>)
    ensures |r| == |cols|
    ensures forall i, j :: 0 <= i < |cols| && 0 <= j < |cols| ==> (r[i] == r[j] <==> cols[i] == cols[j])
    ensures forall c :: SetClause(c) in r <==> c in cols
  {
    seq(|cols|, i requires 0 <= i < |cols| => SetClause(cols[i]))
  }

  /**
   * The first half of `update_expense`: one `column = ?` and its value per
   * supplied argument, appended in the order the arguments are checked.
   */
  method CollectAssignments(p: Patch) returns (assignments: seq<Assignment>)
    ensures Columns(assignments) == SuppliedFields(p)
    ensures |assignments| == NumSupplied(p)
    ensures forall e :: ApplySet(e, assignments) == Patched(e, p)
  {
    assignments := [];
    if p.amount.Some? {
      assignments := assignments + [SetAmount(p.amount.value)];
    }
    if p.category.Some? {
      assignments := assignments + [SetCategory(Lower(p.category.value))];
    }
    if p.subCategory.Some? {
      assignments := assignments + [SetSubCategory(Lower(p.subCategory.value))];
    }
    if p.expenseDate.Some? {
      assignments := assignments + [SetExpenseDate(p.expenseDate.value)];
    }
    assert assignments == Assignments(p);
    AssignmentsCount(p);
    forall e ensures ApplySet(e, assignments) == Patched(e, p) {
      ApplySetIsPatched(e, p);
    }
  }

  class ExpenseTable {
    var rows: map<int, Expense>
    var nextId: int
    /** Every id AUTOINCREMENT has handed out so far, deleted rows' ids included. */
    ghost var issued: set<int>

    ghost predicate Valid()
      reads this
    {
      && WellFormed(rows, nextId)
      && rows.Keys <= issued
      && forall k :: k in issued ==> 1 <= k < nextId
    }

    /** `CREATE TABLE IF NOT EXISTS expenses`, on a fresh database. */
    constructor ()
      ensures Valid() && rows == map[] && nextId == 1 && issued == {}
    {
      rows := map[];
      nextId := 1;
      issued := {};
    }

    /**
     * `add_expense`: insert one row under a fresh id. Category and
     * sub-category are stored lowercased; an omitted date is `today`; the
     * creation time is `now`. The reply echoes the arguments as given.
     */
    method AddExpense(today: string, now: string, amount: real, category: string,
                      expenseDate: Option<string> := None, subCategory: string := "")
      returns (r: Result<AddReply, StoreError>)
      requires Valid()
      modifies this
      ensures Valid()
      ensures old(nextId) > MaxRowId ==>
        r == Failure(DatabaseFull) && rows == old(rows) && nextId == old(nextId) && issued == old(issued)
      ensures old(nextId) <= MaxRowId ==>
        var id := old(nextId);
        var date := expenseDate.GetOr(today);
        && r == Success(AddReply(id, amount, category, subCategory, date))
        && id !in old(issued)
        && (forall k :: k in old(issued) ==> k < id)
        && rows == old(rows)[id := Expense(id, amount, Lower(category), Lower(subCategory), date, now)]
        && issued == old(issued) + {id}
        && nextId == id + 1
    {
      if nextId > MaxRowId {
        return Failure(DatabaseFull);
      }
      var date := if expenseDate.Some? then expenseDate.value else today;
      var id := nextId;
      rows := rows[id := Expense(id, amount, Lower(category), Lower(subCategory), date, now)];
      issued := issued + {id};
      nextId := id + 1;
      r := Success(AddReply(id, amount, category, subCategory, date));
    }

    /** `list_expenses`: every row, latest date first. */
    function ListExpenses(): (r: ListReply)
      reads this
      requires Valid()
      ensures r.count == |r.expenses| == |rows|
      ensures forall e :: e in r.expenses <==> e in rows.Values
      ensures forall k :: k in rows ==> multiset(r.expenses)[rows[k]] == 1
      ensures DateDescending(r.expenses)
    {
      ListRowsContents(rows, nextId);
      var s := ListRows(rows, nextId);
      ListReply(|s|, s)
    }

    /**
     * `update_expense`: collect one `column = ?` per supplied argument, in
     * a fixed order; refuse when there is none; otherwise run the UPDATE,
     * which changes the row with `expenseId` if there is one and nothing
     * otherwise, and report success either way.
     */
    method UpdateExpense(expenseId: int, amount: Option<real> := None, category: Option<string> := None,
                         subCategory: Option<string> := None, expenseDate: Option<string> := None)
      returns (r: UpdateReply)
      requires Valid()
      modifies this
      ensures Valid() && nextId == old(nextId) && issued == old(issued)
      ensures var p := Patch(amount, category, subCategory, expenseDate);
        if NoneSupplied(p) then
          r == UpdateError("No fields to update") && rows == old(rows)
        else
          && r == Updated(Clauses(SuppliedFields(p)))
          && rows == if expenseId in old(rows) then old(rows)[expenseId := Patched(old(rows)[expenseId], p)] else old(rows)
    {
      var p := Patch(amount, category, subCategory, expenseDate);
      var assignments := CollectAssignments(p);
      if assignments == [] {
        return UpdateError("No fields to update");
      }
      if expenseId in rows {
        rows := rows[expenseId := ApplySet(rows[expenseId], assignments)];
      }
      r := Updated(Clauses(Columns(assignments)));
    }

    /** `delete_expense`: remove the row with `expenseId`, if any; report success either way. */
    method DeleteExpense(expenseId: int) returns (r: DeleteReply)
      requires Valid()
      modifies this
      ensures Valid() && nextId == old(nextId) && issued == old(issued)
      ensures r == Deleted(expenseId)
      ensures rows == old(rows) - {expenseId}
    {
      rows := rows - {expenseId};
      r := Deleted(expenseId);
    }

    /**
     * `summarize_expenses`: the total amount of the rows dated within
     * [startDate, endDate], both ends included, dates compared as text; zero
     * when no row is in range. It agrees with adding up what
     * `list_expenses` shows.
     */
    function SummarizeExpenses(startDate: string, endDate: string): (r: SummaryReply)
      reads this
      requires Valid()
      ensures r.startDate == startDate && r.endDate == endDate
      ensures r.totalExpense == RangeTotal(ListExpenses().expenses, startDate, endDate)
      ensures (forall k :: k in rows ==> !Between(rows[k].expenseDate, startDate, endDate)) ==> r.totalExpense == 0.0
    {
      SumMatchesList(rows, nextId, startDate, endDate);
      assert (forall k :: k in rows ==> !Between(rows[k].expenseDate, startDate, endDate))
        ==> SumBetween(rows, nextId, startDate, endDate) == 0.0 by {
        if forall k :: k in rows ==> !Between(rows[k].expenseDate, startDate, endDate) {
          SumNoMatch(rows, nextId, startDate, endDate);
        }
      }
      SummaryReply(startDate, endDate, SumBetween(rows, nextId, startDate, endDate))
    }
  }
}
