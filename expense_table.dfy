/** The `expenses` table: its rows, the `ORDER BY date DESC` and `LIMIT`
    queries over it, `SUM(amount)`, the `COUNT(1)` lookup the legacy import
    uses, and the row that an `INSERT` through `addExpense` stores. */
module ExpenseTable {
  import opened Values
  import opened AutoIncrement

  /** One row. `kind` holds the `type` column (`type` is a Dafny keyword).
      It is free text: only the POST route restricts it to `income` or
      `expense`; the legacy import copies whatever the file says. */
  datatype Expense = Expense(
    id: int, title: string, amount: real, kind: string,
    category: Option<string>, note: string, date: string)

  /** The item `addExpense` receives: every column but the id. */
  datatype Draft = Draft(
    title: string, amount: real, kind: string,
    category: Option<string>, note: string, date: string)

  function ExpenseId(e: Expense): int { e.id }

  /** The ids of the table increase in insertion order and stay within the
      table's AUTOINCREMENT counter. */
  ghost predicate NumberedExpenses(rows: seq<Expense>, last: int) {
    Numbered(rows, ExpenseId, last)
  }

  /** The row `addExpense` inserts for `d` under `id`: every field as given,
      except that a falsy category is bound as NULL (utils/db.js:162). */
  function StoredRow(id: int, d: Draft): (e: Expense)
    ensures e.id == id && e.title == d.title && e.amount == d.amount && e.kind == d.kind
    ensures e.note == d.note && e.date == d.date
    ensures e.category == NullIfFalsy(d.category)
  {
    Expense(id, d.title, d.amount, d.kind, NullIfFalsy(d.category), d.note, d.date)
  }

  // ---------------------------------------------------------------------------
  // Date order. The `date` column is TEXT, and SQLite compares TEXT under the
  // BINARY collation: byte by byte, a proper prefix first. On UTF-8 this is
  // the order of code points, i.e. lexicographic order on `seq<char>`.

  predicate DateLe(a: string, b: string)
    decreases |a|
  {
    if a == [] then true
    else if b == [] then false
    else if a[0] != b[0] then a[0] < b[0]
    else DateLe(a[1..], b[1..])
  }

  lemma {:induction false} DateLeTotal(a: string, b: string)
    ensures DateLe(a, b) || DateLe(b, a)
    decreases |a|
  {
    if a != [] && b != [] && a[0] == b[0] {
      DateLeTotal(a[1..], b[1..]);
    }
  }

  lemma {:induction false} DateLeTransitive(a: string, b: string, c: string)
    requires DateLe(a, b) && DateLe(b, c)
    ensures DateLe(a, c)
    decreases |a|
  {
    if a != [] && b != [] && c != [] && a[0] == b[0] && b[0] == c[0] {
      DateLeTransitive(a[1..], b[1..], c[1..]);
    }
  }

  /** `ORDER BY date DESC`: no row is dated later than a row before it. */
  ghost predicate NewestFirst(s: seq<Expense>) {
    forall i, j :: 0 <= i < j < |s| ==> DateLe(s[j].date, s[i].date)
  }

  /** One step of an insertion sort, newest first. Among rows with equal
      dates SQLite promises no order; this one puts the newcomer first. */
  function InsertByDate(e: Expense, s: seq<Expense>): seq<Expense> {
    if s == [] || DateLe(s[0].date, e.date) then [e] + s
    else [s[0]] + InsertByDate(e, s[1..])
  }

  /** The rows of `rows`, newest first. */
  function SortByDate(rows: seq<Expense>): seq<Expense> {
    if rows == [] then [] else InsertByDate(rows[0], SortByDate(rows[1..]))
  }

  lemma TailNewestFirst(s: seq<Expense>)
    requires NewestFirst(s) && s != []
    ensures NewestFirst(s[1..])
  {
  }

  /** A row no older than any row of a newest-first list can head it. */
  lemma ConsNewestFirst(x: Expense, t: seq<Expense>)
    requires NewestFirst(t)
    requires forall y :: y in t ==> DateLe(y.date, x.date)
    ensures NewestFirst([x] + t)
  {
  }

  lemma {:induction false} InsertByDatePermutes(e: Expense, s: seq<Expense>)
    ensures multiset(InsertByDate(e, s)) == multiset(s) + multiset{e}
  {
    if s != [] && !DateLe(s[0].date, e.date) {
      InsertByDatePermutes(e, s[1..]);
      assert s == [s[0]] + s[1..];
    }
  }

  lemma {:induction false} InsertByDateSorted(e: Expense, s: seq<Expense>)
    requires NewestFirst(s)
    ensures NewestFirst(InsertByDate(e, s))
  {
    if s == [] || DateLe(s[0].date, e.date) {
      forall y | y in s ensures DateLe(y.date, e.date) {
        var k :| 0 <= k < |s| && s[k] == y;
        if k > 0 { DateLeTransitive(y.date, s[0].date, e.date); }
      }
      ConsNewestFirst(e, s);
    } else {
      var t := InsertByDate(e, s[1..]);
      TailNewestFirst(s);
      InsertByDateSorted(e, s[1..]);
      InsertByDatePermutes(e, s[1..]);
      DateLeTotal(s[0].date, e.date);
      forall y | y in t ensures DateLe(y.date, s[0].date) {
        assert y in multiset(t);
        if y != e {
          assert y in multiset(s[1..]);
          var k :| 0 <= k < |s[1..]| && s[1..][k] == y;
          assert s[k + 1] == y;
        }
      }
      ConsNewestFirst(s[0], t);
    }
  }

  /** Sorting gives every row, newest first. */
  lemma {:induction false} SortByDateCorrect(rows: seq<Expense>)
    ensures NewestFirst(SortByDate(rows))
    ensures multiset(SortByDate(rows)) == multiset(rows)
  {
    if rows != [] {
      SortByDateCorrect(rows[1..]);
      InsertByDateSorted(rows[0], SortByDate(rows[1..]));
      InsertByDatePermutes(rows[0], SortByDate(rows[1..]));
      assert rows == [rows[0]] + rows[1..];
    }
  }

  /** `LIMIT limit` over `n` rows: a negative limit means no limit in SQLite. */
  function LimitCount(limit: int, n: nat): (k: nat)
    ensures k <= n
    ensures limit < 0 ==> k == n
    ensures 0 <= limit ==> k == if limit < n then limit else n
  {
    if limit < 0 || n <= limit then n else limit
  }

  /** `SELECT * FROM expenses ORDER BY date DESC LIMIT limit`. */
  function NewestByDate(rows: seq<Expense>, limit: int): (r: seq<Expense>)
    ensures |r| == LimitCount(limit, |rows|)
    ensures NewestFirst(r)
    ensures multiset(r) <= multiset(rows)
    ensures forall e, f :: e in r && f in multiset(rows) - multiset(r) ==> DateLe(f.date, e.date)
  {
    SortByDateCorrect(rows);
    var s := SortByDate(rows);
    var n := LimitCount(limit, |rows|);
    assert |s| == |rows| by { assert |multiset(s)| == |multiset(rows)|; }
    TopSplit(s, n);
    s[..n]
  }

  /** Cutting a newest-first list after n rows leaves no row behind that is
      newer than a row kept. */
  lemma TopSplit(s: seq<Expense>, n: nat)
    requires NewestFirst(s) && n <= |s|
    ensures NewestFirst(s[..n])
    ensures multiset(s[..n]) <= multiset(s)
    ensures forall e, f :: e in s[..n] && f in multiset(s) - multiset(s[..n]) ==> DateLe(f.date, e.date)
  {
    assert s == s[..n] + s[n..];
    assert multiset(s) == multiset(s[..n]) + multiset(s[n..]);
    forall e, f | e in s[..n] && f in multiset(s) - multiset(s[..n]) ensures DateLe(f.date, e.date) {
      assert f in multiset(s[n..]);
      var i :| 0 <= i < n && s[..n][i] == e;
      var j :| 0 <= j < |s[n..]| && s[n..][j] == f;
      assert s[i] == e && s[n + j] == f;
    }
  }

  /** `SELECT SUM(amount) FROM expenses`, with the NULL of an empty table
      read as 0 (`row.total || 0`, utils/db.js:156). */
  function SumAmounts(rows: seq<Expense>): real {
    if rows == [] then 0.0 else rows[0].amount + SumAmounts(rows[1..])
  }

  /** The total of a table grown by some rows is the old total plus theirs. */
  lemma {:induction false} SumAmountsAppend(rows: seq<Expense>, more: seq<Expense>)
    ensures SumAmounts(rows + more) == SumAmounts(rows) + SumAmounts(more)
  {
    if rows != [] {
      assert (rows + more)[1..] == rows[1..] + more;
      SumAmountsAppend(rows[1..], more);
    } else {
      assert rows + more == more;
    }
  }

  /** `SELECT COUNT(1) FROM expenses WHERE date = ? AND title = ?`. */
  function MatchCount(rows: seq<Expense>, date: string, title: string): (c: nat)
    ensures c <= |rows|
    ensures c == 0 <==> forall i :: 0 <= i < |rows| ==> !(rows[i].date == date && rows[i].title == title)
  {
    if rows == [] then 0
    else
      var last := rows[|rows| - 1];
      MatchCount(rows[..|rows| - 1], date, title) + (if last.date == date && last.title == title then 1 else 0)
  }
}
