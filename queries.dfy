/**
 * The read side of the expense store: how the `expenses` table is walked,
 * ordered (`ORDER BY expense_date DESC`, main.py:84-88) and aggregated
 * (`SUM(amount) ... WHERE expense_date BETWEEN ? AND ?`, main.py:165-170).
 * A table is a map from id to row plus the next id AUTOINCREMENT would hand out.
 */
module Queries {
  import opened Wrappers
  import opened Text
  import opened Records

  /** Every row is stored under its own id, and every id lies in [1, nextId). */
  ghost predicate WellFormed(rows: map<int, Expense>, nextId: int)
  {
    1 <= nextId && Keyed(rows) && forall k :: k in rows ==> 1 <= k < nextId
  }

  /** Every row is stored under its own id. */
  ghost predicate Keyed(rows: map<int, Expense>)
  {
    forall k :: k in rows ==> rows[k].id == k
  }

  predicate IdsIncreasing(s: seq<Expense>)
  {
    forall i, j :: 0 <= i < j < |s| ==> s[i].id < s[j].id
  }

  /**
   * The rows whose ids lie in [lo, hi), in increasing id order: the order in
   * which SQLite walks a rowid table.
   */
  function Scan(rows: map<int, Expense>, lo: int, hi: int): seq<Expense>
    decreases hi - lo
  {
    if lo >= hi then []
    else (if lo in rows then [rows[lo]] else []) + Scan(rows, lo + 1, hi)
  }

  /**
   * A scan holds exactly the table's rows with ids in range, each taken as
   * stored, in strictly increasing id order.
   */
  lemma {:induction false} ScanContents(rows: map<int, Expense>, lo: int, hi: int)
    requires Keyed(rows)
    decreases hi - lo
    ensures forall e :: e in Scan(rows, lo, hi) ==> e.id in rows && rows[e.id] == e && lo <= e.id < hi
    ensures forall k :: k in rows && lo <= k < hi ==> rows[k] in Scan(rows, lo, hi)
    ensures IdsIncreasing(Scan(rows, lo, hi))
  {
    if lo < hi {
      ScanContents(rows, lo + 1, hi);
      var head := if lo in rows then [rows[lo]] else [];
      var s := Scan(rows, lo, hi);
      assert s == head + Scan(rows, lo + 1, hi);
      forall e | e in s ensures e.id in rows && rows[e.id] == e && lo <= e.id < hi {
        if e !in head {
          assert e in Scan(rows, lo + 1, hi);
        }
      }
    }
  }

  function KeysIn(rows: map<int, Expense>, lo: int, hi: int): set<int>
  {
    set k | k in rows && lo <= k < hi
  }

  /** A scan yields one row per key in range, no more and no fewer. */
  lemma {:induction false} ScanCount(rows: map<int, Expense>, lo: int, hi: int)
    decreases hi - lo
    ensures |Scan(rows, lo, hi)| == |KeysIn(rows, lo, hi)|
  {
    if lo >= hi {
      assert KeysIn(rows, lo, hi) == {};
    } else {
      ScanCount(rows, lo + 1, hi);
      if lo in rows {
        assert KeysIn(rows, lo, hi) == {lo} + KeysIn(rows, lo + 1, hi);
      } else {
        assert KeysIn(rows, lo, hi) == KeysIn(rows, lo + 1, hi);
      }
    }
  }

  /** A scan only looks at the keys in its range. */
  lemma {:induction false} ScanFrame(rows: map<int, Expense>, rows': map<int, Expense>, lo: int, hi: int)
    requires forall k :: lo <= k < hi ==> (k in rows <==> k in rows')
    requires forall k :: lo <= k < hi && k in rows ==> rows[k] == rows'[k]
    decreases hi - lo
    ensures Scan(rows, lo, hi) == Scan(rows', lo, hi)
  {
    if lo < hi {
      ScanFrame(rows, rows', lo + 1, hi);
    }
  }

  /** Widening a scan by one id appends that id's row, if any. */
  lemma {:induction false} ScanExtend(rows: map<int, Expense>, lo: int, hi: int)
    requires lo <= hi
    decreases hi - lo
    ensures Scan(rows, lo, hi + 1) == Scan(rows, lo, hi) + (if hi in rows then [rows[hi]] else [])
  {
    if lo < hi {
      ScanExtend(rows, lo + 1, hi);
    }
  }

  // ---------------------------------------------------------------- ORDER BY

  /** `expense_date` never increases along the sequence. */
  predicate DateDescending(s: seq<Expense>)
  {
    forall i, j :: 0 <= i < j < |s| ==> StrLe(s[j].expenseDate, s[i].expenseDate)
  }

  /** A row dated no earlier than everything in a date-descending list can go in front. */
  lemma {:induction false} ConsKeepsOrder(x: Expense, t: seq<Expense>)
    requires DateDescending(t)
    requires forall y :: y in t ==> StrLe(y.expenseDate, x.expenseDate)
    ensures DateDescending([x] + t)
  {
    var r := [x] + t;
    forall i, j | 0 <= i < j < |r| ensures StrLe(r[j].expenseDate, r[i].expenseDate) {
      assert r[j] == t[j - 1];
      if i > 0 {
        assert r[i] == t[i - 1];
      } else {
        assert t[j - 1] in t;
      }
    }
  }

  /** In a date-descending list the first row is dated no earlier than any other. */
  lemma HeadIsLatest(s: seq<Expense>, y: Expense)
    requires DateDescending(s) && y in s
    ensures StrLe(y.expenseDate, s[0].expenseDate)
  {
    var j :| 0 <= j < |s| && s[j] == y;
    if j == 0 {
      StrLeReflexive(y.expenseDate);
    }
  }

  /** Puts `e` in front of the first row whose date is not later than its own. */
  function InsertByDate(e: Expense, s: seq<Expense>): (r: seq<Expense>)
    requires DateDescending(s)
    ensures DateDescending(r)
    ensures multiset(r) == multiset(s) + multiset{e}
  {
    if s == [] then [e]
    else if StrLe(s[0].expenseDate, e.expenseDate) then
      assert forall y :: y in s ==> StrLe(y.expenseDate, e.expenseDate) by {
        forall y | y in s ensures StrLe(y.expenseDate, e.expenseDate) {
          HeadIsLatest(s, y);
          StrLeTransitive(y.expenseDate, s[0].expenseDate, e.expenseDate);
        }
      }
      ConsKeepsOrder(e, s);
      [e] + s
    else
      var t := InsertByDate(e, s[1..]);
      assert s == [s[0]] + s[1..];
      assert forall y :: y in t ==> StrLe(y.expenseDate, s[0].expenseDate) by {
        forall y | y in t ensures StrLe(y.expenseDate, s[0].expenseDate) {
          assert y in multiset(t);
          if y == e {
            StrLeTotal(s[0].expenseDate, e.expenseDate);
          } else {
            assert y in multiset(s[1..]);
            assert y in s;
            HeadIsLatest(s, y);
          }
        }
      }
      ConsKeepsOrder(s[0], t);
      [s[0]] + t
  }

  /** The rows of `s` rearranged so that dates never increase (insertion sort). */
  function SortByDate(s: seq<Expense>): (r: seq<Expense>)
    ensures DateDescending(r)
    ensures multiset(r) == multiset(s)
  {
    if s == [] then []
    else
      assert s == [s[0]] + s[1..];
      InsertByDate(s[0], SortByDate(s[1..]))
  }

  /** A row whose id occurs once in a scan occurs exactly once. */
  lemma {:induction false} OccursOnce(s: seq<Expense>, x: Expense)
    requires IdsIncreasing(s) && x in s
    ensures multiset(s)[x] == 1
  {
    assert s == [s[0]] + s[1..];
    if s[0] == x {
      assert x !in s[1..];
    } else {
      OccursOnce(s[1..], x);
    }
  }

  // ---------------------------------------------------------------- SUM

  /** The rows whose `expense_date` lies in [lo, hi], in the order given. */
  function Where(s: seq<Expense>, lo: string, hi: string): (r: seq<Expense>)
    ensures forall e :: e in r <==> e in s && Between(e.expenseDate, lo, hi)
    ensures forall e :: multiset(r)[e] == if Between(e.expenseDate, lo, hi) then multiset(s)[e] else 0
  {
    assert s != [] ==> s == [s[0]] + s[1..];
    if s == [] then []
    else (if Between(s[0].expenseDate, lo, hi) then [s[0]] else []) + Where(s[1..], lo, hi)
  }

  function Amounts(s: seq<Expense>): real
  {
    if s == [] then 0.0 else s[0].amount + Amounts(s[1..])
  }

  /** SQL `SUM(amount)`: NULL over no rows, otherwise the total. */
  function SqlSum(s: seq<Expense>): (r: Option<real>)
    ensures r.None? <==> s == []
  {
    if s == [] then None else Some(Amounts(s))
  }

  /** What one row adds to a `[lo, hi]` summary. */
  function Contribution(e: Expense, lo: string, hi: string): real
  {
    if Between(e.expenseDate, lo, hi) then e.amount else 0.0
  }

  /** The sum of the amounts of the rows of `s` dated within [lo, hi]. */
  function RangeTotal(s: seq<Expense>, lo: string, hi: string): real
  {
    Amounts(Where(s, lo, hi))
  }

  lemma {:induction false} WhereAppend(a: seq<Expense>, b: seq<Expense>, lo: string, hi: string)
    ensures Where(a + b, lo, hi) == Where(a, lo, hi) + Where(b, lo, hi)
  {
    if a == [] {
      assert a + b == b;
    } else {
      assert (a + b)[0] == a[0];
      assert (a + b)[1..] == a[1..] + b;
      WhereAppend(a[1..], b, lo, hi);
    }
  }

  lemma {:induction false} AmountsAppend(a: seq<Expense>, b: seq<Expense>)
    ensures Amounts(a + b) == Amounts(a) + Amounts(b)
  {
    if a == [] {
      assert a + b == b;
    } else {
      assert (a + b)[0] == a[0];
      assert (a + b)[1..] == a[1..] + b;
      AmountsAppend(a[1..], b);
    }
  }

  lemma RangeTotalAppend(a: seq<Expense>, b: seq<Expense>, lo: string, hi: string)
    ensures RangeTotal(a + b, lo, hi) == RangeTotal(a, lo, hi) + RangeTotal(b, lo, hi)
  {
    WhereAppend(a, b, lo, hi);
    AmountsAppend(Where(a, lo, hi), Where(b, lo, hi));
  }

  lemma RangeTotalSingle(e: Expense, lo: string, hi: string)
    ensures RangeTotal([e], lo, hi) == Contribution(e, lo, hi)
  {
    assert [e][1..] == [];
    var w := Where([e], lo, hi);
    assert w == (if Between(e.expenseDate, lo, hi) then [e] else []) + Where([], lo, hi);
    if Between(e.expenseDate, lo, hi) {
      assert w == [e];
      assert Amounts(w) == e.amount + Amounts([]);
    } else {
      assert w == [];
    }
  }

  /** The order of the rows does not change the total. */
  lemma {:induction false} RangeTotalPermutation(s: seq<Expense>, t: seq<Expense>, lo: string, hi: string)
    requires multiset(s) == multiset(t)
    decreases |s|
    ensures RangeTotal(s, lo, hi) == RangeTotal(t, lo, hi)
  {
    if s == [] {
      assert |t| == |multiset(t)| == 0;
    } else {
      var x := s[0];
      assert x in multiset(t);
      var i :| 0 <= i < |t| && t[i] == x;
      var rest := t[..i] + t[i + 1..];
      assert t == t[..i] + [x] + t[i + 1..];
      assert s == [x] + s[1..];
      assert multiset(t) == multiset(t[..i]) + multiset{x} + multiset(t[i + 1..]);
      assert multiset(s) == multiset{x} + multiset(s[1..]);
      assert multiset(rest) == multiset(t[..i]) + multiset(t[i + 1..]);
      assert multiset(s[1..]) == multiset(s) - multiset{x};
      assert multiset(rest) == multiset(t) - multiset{x};
      RangeTotalPermutation(s[1..], rest, lo, hi);
      RangeTotalAppend([x], s[1..], lo, hi);
      RangeTotalAppend(t[..i] + [x], t[i + 1..], lo, hi);
      RangeTotalAppend(t[..i], [x], lo, hi);
      RangeTotalAppend(t[..i], t[i + 1..], lo, hi);
      RangeTotalSingle(x, lo, hi);
    }
  }

  // ---------------------------------------------------------------- the two queries

  /** `SELECT ... FROM expenses ORDER BY expense_date DESC`. */
  function ListRows(rows: map<int, Expense>, nextId: int): seq<Expense>
    requires WellFormed(rows, nextId)
  {
    SortByDate(Scan(rows, 1, nextId))
  }

  /**
   * The listing holds every row of the table exactly once, and nothing else,
   * with dates never increasing.
   */
  lemma ListRowsContents(rows: map<int, Expense>, nextId: int)
    requires WellFormed(rows, nextId)
    ensures |ListRows(rows, nextId)| == |rows|
    ensures forall e :: e in ListRows(rows, nextId) <==> e in rows.Values
    ensures forall k :: k in rows ==> multiset(ListRows(rows, nextId))[rows[k]] == 1
    ensures DateDescending(ListRows(rows, nextId))
  {
    var s := Scan(rows, 1, nextId);
    var sorted := ListRows(rows, nextId);
    ScanContents(rows, 1, nextId);
    ScanCount(rows, 1, nextId);
    assert KeysIn(rows, 1, nextId) == rows.Keys;
    assert |sorted| == |multiset(sorted)| == |multiset(s)| == |s|;
    ScanHoldsValues(rows, nextId);
    forall e ensures e in sorted <==> e in s {
      assert e in sorted <==> e in multiset(s);
    }
    forall k | k in rows ensures multiset(sorted)[rows[k]] == 1 {
      OccursOnce(s, rows[k]);
    }
  }

  /** The full walk holds exactly the stored rows. */
  lemma ScanHoldsValues(rows: map<int, Expense>, nextId: int)
    requires WellFormed(rows, nextId)
    ensures forall e :: e in Scan(rows, 1, nextId) <==> e in rows.Values
  {
    var s := Scan(rows, 1, nextId);
    ScanContents(rows, 1, nextId);
    forall k | k in rows ensures rows[k] in s {
      assert 1 <= k < nextId;
    }
  }

  /**
   * `SELECT SUM(amount) FROM expenses WHERE expense_date BETWEEN ? AND ?`,
   * with `or 0.0` turning the NULL of an empty match into zero.
   */
  function SumBetween(rows: map<int, Expense>, nextId: int, lo: string, hi: string): real
    requires WellFormed(rows, nextId)
  {
    match SqlSum(Where(Scan(rows, 1, nextId), lo, hi))
    case None => 0.0
    case Some(t) => t
  }

  /** Coalescing NULL to zero is the plain sum of the matching rows. */
  lemma SumBetweenIsRangeTotal(rows: map<int, Expense>, nextId: int, lo: string, hi: string)
    requires WellFormed(rows, nextId)
    ensures SumBetween(rows, nextId, lo, hi) == RangeTotal(Scan(rows, 1, nextId), lo, hi)
  {
  }

  /** Removing the first row of a walk takes exactly its contribution off the total. */
  lemma RangeTotalRemoveFirst(rows: map<int, Expense>, k: int, hi: int, from: string, to: string)
    requires k in rows && k < hi
    ensures RangeTotal(Scan(rows, k, hi), from, to)
         == RangeTotal(Scan(rows - {k}, k, hi), from, to) + Contribution(rows[k], from, to)
  {
    var rest := rows - {k};
    var tail := Scan(rows, k + 1, hi);
    ScanFrame(rows, rest, k + 1, hi);
    assert Scan(rows, k, hi) == [rows[k]] + tail;
    assert k !in rest;
    assert Scan(rest, k, hi) == [] + tail;
    assert [] + tail == tail;
    RangeTotalAppend([rows[k]], tail, from, to);
    RangeTotalSingle(rows[k], from, to);
  }

  /** Removing a row at id `k` leaves the walk's head at any other id `lo` as it was. */
  lemma ScanRemoveStep(rows: map<int, Expense>, k: int, lo: int, hi: int)
    requires lo < hi && lo != k
    ensures Scan(rows, lo, hi) == (if lo in rows then [rows[lo]] else []) + Scan(rows, lo + 1, hi)
    ensures Scan(rows - {k}, lo, hi) == (if lo in rows then [rows[lo]] else []) + Scan(rows - {k}, lo + 1, hi)
  {
    var rest := rows - {k};
    assert lo in rest <==> lo in rows;
    assert lo in rest ==> rest[lo] == rows[lo];
  }

  /** Inside a range, removing a row takes exactly its contribution off the total. */
  lemma {:induction false} RangeTotalRemove(rows: map<int, Expense>, k: int, lo: int, hi: int, from: string, to: string)
    requires k in rows && lo <= k < hi
    decreases hi - lo
    ensures RangeTotal(Scan(rows, lo, hi), from, to)
         == RangeTotal(Scan(rows - {k}, lo, hi), from, to) + Contribution(rows[k], from, to)
  {
    if lo == k {
      RangeTotalRemoveFirst(rows, k, hi, from, to);
    } else {
      RangeTotalRemove(rows, k, lo + 1, hi, from, to);
      ScanRemoveStep(rows, k, lo, hi);
      var head := if lo in rows then [rows[lo]] else [];
      RangeTotalAppend(head, Scan(rows, lo + 1, hi), from, to);
      RangeTotalAppend(head, Scan(rows - {k}, lo + 1, hi), from, to);
    }
  }

  /** Adding a row under a fresh id raises every summary by that row's contribution. */
  lemma SumAfterInsert(rows: map<int, Expense>, nextId: int, e: Expense, lo: string, hi: string)
    requires WellFormed(rows, nextId) && e.id == nextId
    ensures WellFormed(rows[nextId := e], nextId + 1)
    ensures SumBetween(rows[nextId := e], nextId + 1, lo, hi)
         == SumBetween(rows, nextId, lo, hi) + Contribution(e, lo, hi)
  {
    var rows' := rows[nextId := e];
    assert WellFormed(rows', nextId + 1);
    RangeTotalAfterInsert(rows, nextId, e, lo, hi);
    SumBetweenIsRangeTotal(rows, nextId, lo, hi);
    SumBetweenIsRangeTotal(rows', nextId + 1, lo, hi);
  }

  /** The walk over the extended table is the old walk followed by the new row. */
  lemma RangeTotalAfterInsert(rows: map<int, Expense>, nextId: int, e: Expense, lo: string, hi: string)
    requires WellFormed(rows, nextId)
    ensures RangeTotal(Scan(rows[nextId := e], 1, nextId + 1), lo, hi)
         == RangeTotal(Scan(rows, 1, nextId), lo, hi) + Contribution(e, lo, hi)
  {
    var rows' := rows[nextId := e];
    ScanExtend(rows', 1, nextId);
    ScanFrame(rows', rows, 1, nextId);
    RangeTotalAppend(Scan(rows, 1, nextId), [e], lo, hi);
    RangeTotalSingle(e, lo, hi);
  }

  /** Deleting a row lowers every summary by that row's contribution. */
  lemma SumAfterRemove(rows: map<int, Expense>, nextId: int, k: int, lo: string, hi: string)
    requires WellFormed(rows, nextId) && k in rows
    ensures WellFormed(rows - {k}, nextId)
    ensures SumBetween(rows - {k}, nextId, lo, hi)
         == SumBetween(rows, nextId, lo, hi) - Contribution(rows[k], lo, hi)
  {
    RangeTotalRemove(rows, k, 1, nextId, lo, hi);
    SumBetweenIsRangeTotal(rows, nextId, lo, hi);
    SumBetweenIsRangeTotal(rows - {k}, nextId, lo, hi);
  }

  /** Overwriting a row swaps its old contribution for its new one. */
  lemma SumAfterReplace(rows: map<int, Expense>, nextId: int, e: Expense, lo: string, hi: string)
    requires WellFormed(rows, nextId) && e.id in rows
    ensures WellFormed(rows[e.id := e], nextId)
    ensures SumBetween(rows[e.id := e], nextId, lo, hi)
         == SumBetween(rows, nextId, lo, hi) - Contribution(rows[e.id], lo, hi) + Contribution(e, lo, hi)
  {
    var k := e.id;
    var rows' := rows[k := e];
    assert rows' - {k} == rows - {k};
    SumAfterRemove(rows, nextId, k, lo, hi);
    SumAfterRemove(rows', nextId, k, lo, hi);
  }

  lemma {:induction false} NoneBetween(s: seq<Expense>, lo: string, hi: string)
    requires forall e :: e in s ==> !Between(e.expenseDate, lo, hi)
    ensures Where(s, lo, hi) == []
  {
    if s != [] {
      assert s[0] in s;
      assert forall e :: e in s[1..] ==> e in s;
      NoneBetween(s[1..], lo, hi);
    }
  }

  /** A summary over a range no row falls in is zero. */
  lemma SumNoMatch(rows: map<int, Expense>, nextId: int, lo: string, hi: string)
    requires WellFormed(rows, nextId)
    requires forall k :: k in rows ==> !Between(rows[k].expenseDate, lo, hi)
    ensures SumBetween(rows, nextId, lo, hi) == 0.0
  {
    ScanContents(rows, 1, nextId);
    NoneBetween(Scan(rows, 1, nextId), lo, hi);
  }

  /** A summary over a range exactly one row falls in is that row's amount. */
  lemma SumSingleMatch(rows: map<int, Expense>, nextId: int, k: int, lo: string, hi: string)
    requires WellFormed(rows, nextId) && k in rows
    requires Between(rows[k].expenseDate, lo, hi)
    requires forall j :: j in rows && j != k ==> !Between(rows[j].expenseDate, lo, hi)
    ensures SumBetween(rows, nextId, lo, hi) == rows[k].amount
  {
    SumAfterRemove(rows, nextId, k, lo, hi);
    SumNoMatch(rows - {k}, nextId, lo, hi);
  }

  /** Summarizing the single day `[d, d]` when exactly one row is dated `d` gives that row's amount. */
  lemma SumOnDay(rows: map<int, Expense>, nextId: int, k: int, d: string)
    requires WellFormed(rows, nextId) && k in rows && rows[k].expenseDate == d
    requires forall j :: j in rows && j != k ==> rows[j].expenseDate != d
    ensures SumBetween(rows, nextId, d, d) == rows[k].amount
  {
    BetweenPoint(d, d);
    forall j | j in rows && j != k ensures !Between(rows[j].expenseDate, d, d) {
      BetweenPoint(rows[j].expenseDate, d);
    }
    SumSingleMatch(rows, nextId, k, d, d);
  }

  /** What list shows is what summarize adds up: the listed rows in range sum to the summary. */
  lemma SumMatchesList(rows: map<int, Expense>, nextId: int, lo: string, hi: string)
    requires WellFormed(rows, nextId)
    ensures SumBetween(rows, nextId, lo, hi) == RangeTotal(ListRows(rows, nextId), lo, hi)
  {
    SumBetweenIsRangeTotal(rows, nextId, lo, hi);
    RangeTotalPermutation(Scan(rows, 1, nextId), ListRows(rows, nextId), lo, hi);
  }
}
