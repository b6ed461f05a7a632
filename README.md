# Expense store — a Dafny model

This project models the expense-tracking service in `main.py`. It keeps one
SQLite table, `expenses`, and exposes five tools over it: `add_expense`,
`list_expenses`, `update_expense`, `delete_expense` and `summarize_expenses`.

The database file is replaced by an in-memory table. `Store.ExpenseTable` is a
class with a map from id to row (`rows`) and the counter that SQLite's
`AUTOINCREMENT` keeps (`nextId`). It also has a ghost set of every id handed
out so far (`issued`). The tools that change the table are methods with
`modifies this`. The two read-only tools are functions over the table's state.

Modules, one per concern of the source:

- `Wrappers`: `Option` (for the optional tool arguments) and `Result`.
- `Text`: how SQLite compares TEXT values under its default BINARY
  collation (`StrLe`, `Between`), and lowercasing (`Lower`).
- `Records`: a row (`Expense`), the columns `update_expense` may set, and
  what an `UPDATE ... SET` list does to a row (`ApplySet`). Beside it sits a
  reference definition of an update, field by field (`Patched`).
- `Queries`: the table walked in rowid order (`Scan`),
  `ORDER BY expense_date DESC` (`SortByDate`), and the
  `SUM(amount) ... WHERE expense_date BETWEEN ? AND ?` query (`SumBetween`).
  It also holds the lemmas that tie the summary to the other operations.
- `Store`: the table class and the five tools.

Three behaviours of the code that the model keeps:

- `update_expense` and `delete_expense` do not check that the id exists. On a
  missing id they change nothing and still report success.
- `add_expense` stores category and sub-category lowercased. Its reply echoes
  the caller's strings as given.
- `add_expense` replaces an omitted date with today's date.

Dates are compared as text, exactly as SQLite compares them. Nothing checks
that they are well-formed `YYYY-MM-DD` strings.

## Model

| member | source | states |
|---|---|---|
| `Text.StrLeTotal` | main.py:87 | any two dates are comparable under the text order used by `ORDER BY` and `BETWEEN` |
| `Text.StrLeTransitive` | main.py:87 | the text order is transitive, so sorting by it is well defined |
| `Text.StrLeAntisymmetric` | main.py:168 | two strings that are each `<=` the other are equal |
| `Text.StrLeReflexive` | main.py:168 | every string is `<=` itself, so both ends of `BETWEEN` are inclusive |
| `Text.BetweenPoint` | main.py:168 | `s BETWEEN d AND d` holds exactly when `s == d` |
| `Text.Lower` | main.py:61-62 | lowercasing keeps the length and leaves no upper-case letter |
| `Text.LowerIdempotent` | main.py:126-129 | lowercasing an already lowercased category again changes nothing |
| `Text.LowerKeepsLowercase` | main.py:61-62 | a string with no upper-case letter is stored unchanged |
| `Records.AssignmentsRanks` | main.py:121-132 | the collected assignments come in strictly increasing column order: amount, category, sub_category, expense_date |
| `Records.AssignmentsMembers` | main.py:121-132 | an assignment is collected exactly when it is the one its column's argument contributes (text lowercased) |
| `Records.ColumnSupplied` | main.py:121-132 | a column appears in the field list exactly when its argument was supplied |
| `Records.SuppliedFields` | main.py:118-135 | the field list has one entry per supplied argument, in the order amount, category, sub_category, expense_date; it is empty exactly when nothing was supplied |
| `Records.ApplySet` | main.py:141 | an `UPDATE ... SET` list never changes a row's id or created_at |
| `Records.ApplySetIsPatched` | main.py:121-143 | running the built `SET` list on a row overwrites exactly the supplied fields (category and sub-category lowercased) and keeps id, created_at and every other field |
| `Queries.ScanContents` | main.py:84-89 | a table walk yields exactly the stored rows with ids in range, each once, in increasing id order |
| `Queries.ScanCount` | main.py:89-92 | a table walk yields as many rows as there are ids in range |
| `Queries.InsertByDate` | main.py:87 | inserting a row into a date-descending list keeps it date-descending and adds exactly that row |
| `Queries.SortByDate` | main.py:87 | `ORDER BY expense_date DESC` gives a permutation of its input in which dates never increase |
| `Queries.OccursOnce` | main.py:89 | a row of a table walk occurs in it exactly once |
| `Queries.Where` | main.py:168 | the filter keeps exactly the rows whose date lies in `[start, end]`, each as many times as it occurs in the input, and drops every other row |
| `Queries.SqlSum` | main.py:166 | SQL `SUM` is NULL exactly when no row matches |
| `Queries.RangeTotalAppend` | main.py:166-168 | the total over two lists of rows is the sum of their totals |
| `Queries.RangeTotalPermutation` | main.py:166-168 | the total does not depend on the order of the rows |
| `Queries.RangeTotalRemove` | main.py:166-168 | removing one row from a walk takes exactly that row's contribution off the total |
| `Queries.ListRowsContents` | main.py:84-104 | the listing has every row exactly once and nothing else, `|rows|` entries, with dates never increasing |
| `Queries.SumBetweenIsRangeTotal` | main.py:165-170 | coalescing the NULL of an empty match to 0.0 equals the plain sum over the matching rows |
| `Queries.SumAfterInsert` | main.py:55-67 | after an insert under a fresh id, every summary grows by the new row's amount if its date is in range, else stays |
| `Queries.SumAfterRemove` | main.py:153-155 | after a delete, every summary shrinks by the deleted row's amount if its date was in range |
| `Queries.SumAfterReplace` | main.py:139-143 | after an update, every summary swaps the row's old contribution for its new one |
| `Queries.SumNoMatch` | main.py:170 | a range that no row's date falls in summarizes to 0.0, not an error |
| `Queries.SumSingleMatch` | main.py:165-170 | a range that exactly one row falls in summarizes to that row's amount |
| `Queries.SumOnDay` | main.py:165-170 | summarizing `[d, d]` with exactly one row dated `d` gives that row's amount |
| `Queries.SumMatchesList` | main.py:84-104 | the summary equals the sum of the in-range rows that `list_expenses` shows |
| `Store.CollectAssignments` | main.py:118-132 | the list built by the four `if ... append` steps has one entry per supplied argument, yields the field list `SuppliedFields`, and as a `SET` list performs exactly the reference update `Patched` on any row |
| `Store.Clauses` | main.py:146 | `updated_fields` holds one `column = ?` text per field of the statement; two texts are equal exactly when they name the same field, and a field's text is reported exactly when the field is in the statement |
| `Store.ExpenseTable.constructor` | main.py:24-33 | a new table is empty, its counter starts at 1, and no id has been issued |
| `Store.ExpenseTable.AddExpense` | main.py:45-76 | adds exactly one row under an id above every id ever issued, deleted ones included, and leaves the other rows alone; stores category and sub-category lowercased, today's date when none is given, and `now` as created_at; echoes the unlowercased arguments and the new id; fails with the table unchanged once the largest rowid has been used |
| `Store.ExpenseTable.ListExpenses` | main.py:81-104 | returns every row exactly once, `count` equal to the number of rows, ordered so that `expense_date` never increases |
| `Store.ExpenseTable.UpdateExpense` | main.py:109-146 | with no field supplied, returns "No fields to update" and changes nothing; otherwise overwrites exactly the supplied fields of the row with that id and no other row, and reports the supplied fields in fixed order; a missing id changes nothing but still reports success |
| `Store.ExpenseTable.DeleteExpense` | main.py:151-157 | removes the row with that id and no other row, never changes the counter, and always reports success with the given id |
| `Store.ExpenseTable.SummarizeExpenses` | main.py:162-176 | echoes both dates; the total is the sum of the amounts of the listed rows dated within `[start, end]`, both ends inclusive, and 0.0 when no row is in range |

## Left out

- The FastMCP server: tool registration and the HTTP transport on 0.0.0.0:8000 (main.py:10, main.py:181-186). This is I/O plumbing.
- The aiosqlite connections, `async`/`await`, the WAL pragma, the start-up `asyncio.run` and the log line to stderr (main.py:21-40). The model has one table and runs one operation at a time, so it says nothing about concurrent callers.
- Floating point: `amount` is a Dafny `real`, so sums are exact. IEEE rounding of `REAL` values and of `SUM` is not modelled.
- The clock: `date.today()` and `datetime.utcnow()` are the parameters `today` and `now` of `AddExpense`. Nothing checks their format.
- Text.Lower: models `str.lower()` on ASCII letters only. Other Unicode case mappings are not modelled.
- The SQL text: the statement string `', '.join(fields)` is not built. The field list is a sequence of `Assignment` values, each pairing a column with its bound value. This one sequence stands for the source's two parallel `fields` and `values` lists.
- Store.ExpenseTable.ListExpenses: the order of rows with equal dates is not stated. The model breaks ties in its own way, and the source leaves this to SQLite.
- Ids outside SQLite's 64-bit range passed to update or delete: Python raises an overflow error while binding them. The model treats them as ids that are not in the table.
- SQLite's dynamic typing: a non-number amount or non-text category cannot reach the model, because its arguments are typed.
- Storage-engine failures other than an exhausted AUTOINCREMENT counter (disk full, corruption, lock timeouts) are not modelled.
