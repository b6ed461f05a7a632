/**
 * One row of the `expenses` table (main.py:24-33) and what an
 * `UPDATE expenses SET ... WHERE id = ?` statement does to it.
 */
module Records {
  import opened Wrappers
  import opened Text

  /** A stored expense. Amounts are exact reals, not IEEE doubles. */
  datatype Expense = Expense(
    id: int,
    amount: real,
    category: string,
    subCategory: string,
    expenseDate: string,
    createdAt: string)

  /** The columns `update_expense` may set, declared in the order it checks them. */
  datatype Column = AmountCol | CategoryCol | SubCategoryCol | ExpenseDateCol

  /** Position of a column in that fixed order. */
  function Rank(c: Column): nat
  {
    match c
    case AmountCol => 0
    case CategoryCol => 1
    case SubCategoryCol => 2
    case ExpenseDateCol => 3
  }

  /** The text `update_expense` puts in its field list (and its reply) for a column. */
  function SetClause(c: Column): string
  {
    match c
    case AmountCol => "amount = ?"
    case CategoryCol => "category = ?"
    case SubCategoryCol => "sub_category = ?"
    case ExpenseDateCol => "expense_date = ?"
  }

  /**
   * One `column = ?` of an UPDATE statement together with the value bound to
   * its `?`: the pair formed by an entry of the source's `fields` list and
   * the entry of its `values` list at the same position.
   */
  datatype Assignment =
    | SetAmount(amount: real)
    | SetCategory(category: string)
    | SetSubCategory(subCategory: string)
    | SetExpenseDate(expenseDate: string)

  function ColumnOf(a: Assignment): Column
  {
    match a
    case SetAmount(_) => AmountCol
    case SetCategory(_) => CategoryCol
    case SetSubCategory(_) => SubCategoryCol
    case SetExpenseDate(_) => ExpenseDateCol
  }

  /** The field list of a statement: its assignments' columns, in order. */
  function Columns(s: seq<Assignment>): (r: seq<Column>)
    ensures |r| == |s| && forall i :: 0 <= i < |s| ==> r[i] == ColumnOf(s[i])
  {
    seq(|s|, i requires 0 <= i < |s| => ColumnOf(s[i]))
  }

  /** `SET c = v` on one row. */
  function Assign(e: Expense, a: Assignment): Expense
  {
    match a
    case SetAmount(x) => e.(amount := x)
    case SetCategory(x) => e.(category := x)
    case SetSubCategory(x) => e.(subCategory := x)
    case SetExpenseDate(x) => e.(expenseDate := x)
  }

  /**
   * `SET c0 = v0, c1 = v1, ...` on one row, the assignments taken left to
   * right. No assignment reaches `id` or `created_at`.
   */
  function ApplySet(e: Expense, s: seq<Assignment>): (r: Expense)
    decreases |s|
    ensures r.id == e.id && r.createdAt == e.createdAt
  {
    if s == [] then e else Assign(ApplySet(e, s[..|s| - 1]), s[|s| - 1])
  }

  /** `list.append` when the argument is present, nothing when it is absent. */
  function AppendIfPresent<T>(acc: seq<T>, o: Option<T>): seq<T>
  {
    match o
    case None => acc
    case Some(x) => acc + [x]
  }

  /** The optional arguments of `update_expense`: absent means "leave as is". */
  datatype Patch = Patch(
    amount: Option<real>,
    category: Option<string>,
    subCategory: Option<string>,
    expenseDate: Option<string>)

  /** Whether the argument for column `c` was supplied. */
  predicate Supplied(p: Patch, c: Column)
  {
    match c
    case AmountCol => p.amount.Some?
    case CategoryCol => p.category.Some?
    case SubCategoryCol => p.subCategory.Some?
    case ExpenseDateCol => p.expenseDate.Some?
  }

  predicate NoneSupplied(p: Patch)
  {
    p.amount.None? && p.category.None? && p.subCategory.None? && p.expenseDate.None?
  }

  function Count(b: bool): nat { if b then 1 else 0 }

  function NumSupplied(p: Patch): nat
  {
    Count(p.amount.Some?) + Count(p.category.Some?) + Count(p.subCategory.Some?) + Count(p.expenseDate.Some?)
  }

  /** The assignment each argument contributes when present; text is lowercased as stored. */
  function AmountPart(p: Patch): Option<Assignment>
  {
    if p.amount.Some? then Some(SetAmount(p.amount.value)) else None
  }

  function CategoryPart(p: Patch): Option<Assignment>
  {
    if p.category.Some? then Some(SetCategory(Lower(p.category.value))) else None
  }

  function SubCategoryPart(p: Patch): Option<Assignment>
  {
    if p.subCategory.Some? then Some(SetSubCategory(Lower(p.subCategory.value))) else None
  }

  function ExpenseDatePart(p: Patch): Option<Assignment>
  {
    if p.expenseDate.Some? then Some(SetExpenseDate(p.expenseDate.value)) else None
  }

  /** The assignments `update_expense` collects, appended in its fixed order. */
  function Assignments(p: Patch): seq<Assignment>
  {
    AppendIfPresent(AppendIfPresent(AppendIfPresent(AppendIfPresent(
      [], AmountPart(p)), CategoryPart(p)), SubCategoryPart(p)), ExpenseDatePart(p))
  }

  /** Column ranks strictly increase along the list, all below `bound`. */
  predicate RanksBelow(s: seq<Assignment>, bound: nat)
  {
    (forall i :: 0 <= i < |s| ==> Rank(ColumnOf(s[i])) < bound)
    && (forall i, j :: 0 <= i < j < |s| ==> Rank(ColumnOf(s[i])) < Rank(ColumnOf(s[j])))
  }

  lemma AppendKeepsRanks(acc: seq<Assignment>, o: Option<Assignment>, bound: nat)
    requires RanksBelow(acc, bound)
    requires o.Some? ==> Rank(ColumnOf(o.value)) == bound
    ensures RanksBelow(AppendIfPresent(acc, o), bound + 1)
  {
  }

  lemma AppendMembers<T>(acc: seq<T>, o: Option<T>)
    ensures forall a :: a in AppendIfPresent(acc, o) <==> a in acc || o == Some(a)
  {
  }

  /** The collected assignments come in strictly increasing column order. */
  lemma AssignmentsRanks(p: Patch)
    ensures RanksBelow(Assignments(p), 4)
  {
    var s0: seq<Assignment> := [];
    var s1 := AppendIfPresent(s0, AmountPart(p));
    var s2 := AppendIfPresent(s1, CategoryPart(p));
    var s3 := AppendIfPresent(s2, SubCategoryPart(p));
    AppendKeepsRanks(s0, AmountPart(p), 0);
    AppendKeepsRanks(s1, CategoryPart(p), 1);
    AppendKeepsRanks(s2, SubCategoryPart(p), 2);
    AppendKeepsRanks(s3, ExpenseDatePart(p), 3);
  }

  /** One assignment is collected per supplied argument. */
  lemma AssignmentsCount(p: Patch)
    ensures |Assignments(p)| == NumSupplied(p)
  {
  }

  /** The part of the patch that would set column `c`. */
  function PartFor(p: Patch, c: Column): Option<Assignment>
  {
    match c
    case AmountCol => AmountPart(p)
    case CategoryCol => CategoryPart(p)
    case SubCategoryCol => SubCategoryPart(p)
    case ExpenseDateCol => ExpenseDatePart(p)
  }

  /** The collected assignments are exactly the parts of the supplied arguments. */
  lemma AssignmentsMembers(p: Patch)
    ensures forall a :: a in Assignments(p) <==> PartFor(p, ColumnOf(a)) == Some(a)
  {
    var s0: seq<Assignment> := [];
    var s1 := AppendIfPresent(s0, AmountPart(p));
    var s2 := AppendIfPresent(s1, CategoryPart(p));
    var s3 := AppendIfPresent(s2, SubCategoryPart(p));
    AppendMembers(s0, AmountPart(p));
    AppendMembers(s1, CategoryPart(p));
    AppendMembers(s2, SubCategoryPart(p));
    AppendMembers(s3, ExpenseDatePart(p));
  }

  /** A column appears in the field list exactly when its argument was supplied. */
  lemma ColumnSupplied(p: Patch, c: Column)
    ensures c in Columns(Assignments(p)) <==> Supplied(p, c)
  {
    assert Supplied(p, c) <==> PartFor(p, c).Some?;
    var s := Assignments(p);
    var r := Columns(s);
    AssignmentsMembers(p);
    if c in r {
      var i :| 0 <= i < |r| && r[i] == c;
      assert s[i] in s;
    }
    if PartFor(p, c).Some? {
      var a := PartFor(p, c).value;
      assert ColumnOf(a) == c;
      var i :| 0 <= i < |s| && s[i] == a;
      assert r[i] == c;
    }
  }

  /**
   * The field list `update_expense` builds: one entry per supplied argument,
   * in the order amount, category, sub_category, expense_date; empty exactly
   * when nothing was supplied.
   */
  function SuppliedFields(p: Patch): (r: seq<Column>)
    ensures |r| == NumSupplied(p)
    ensures r == [] <==> NoneSupplied(p)
    ensures forall i, j :: 0 <= i < j < |r| ==> Rank(r[i]) < Rank(r[j])
    ensures forall c :: c in r <==> Supplied(p, c)
  {
    var s := Assignments(p);
    var r := Columns(s);
    AssignmentsCount(p);
    assert |r| == NumSupplied(p);
    AssignmentsRanks(p);
    assert forall i :: 0 <= i < |r| ==> Rank(r[i]) == Rank(ColumnOf(s[i]));
    forall c ensures c in r <==> Supplied(p, c) {
      ColumnSupplied(p, c);
    }
    r
  }

  /**
   * Reference meaning of an update, field by field: each supplied field is
   * overwritten (text lowercased as stored), every other field is kept.
   */
  function Patched(e: Expense, p: Patch): Expense
  {
    Expense(
      e.id,
      p.amount.GetOr(e.amount),
      if p.category.Some? then Lower(p.category.value) else e.category,
      if p.subCategory.Some? then Lower(p.subCategory.value) else e.subCategory,
      p.expenseDate.GetOr(e.expenseDate),
      e.createdAt)
  }

  /** Appending an assignment to a `SET` list performs it after the others. */
  lemma ApplySetAppend(e: Expense, acc: seq<Assignment>, o: Option<Assignment>)
    ensures ApplySet(e, AppendIfPresent(acc, o)) ==
      if o.Some? then Assign(ApplySet(e, acc), o.value) else ApplySet(e, acc)
  {
    if o.Some? {
      assert (acc + [o.value])[..|acc|] == acc;
    }
  }

  /**
   * Running the `SET` list `update_expense` builds on a row gives exactly the
   * reference update: the statement means what the arguments say.
   */
  lemma {:induction false} ApplySetIsPatched(e: Expense, p: Patch)
    ensures ApplySet(e, Assignments(p)) == Patched(e, p)
  {
    var s0: seq<Assignment> := [];
    var s1 := AppendIfPresent(s0, AmountPart(p));
    var s2 := AppendIfPresent(s1, CategoryPart(p));
    var s3 := AppendIfPresent(s2, SubCategoryPart(p));
    ApplySetAppend(e, s0, AmountPart(p));
    ApplySetAppend(e, s1, CategoryPart(p));
    ApplySetAppend(e, s2, SubCategoryPart(p));
    ApplySetAppend(e, s3, ExpenseDatePart(p));
  }
}
