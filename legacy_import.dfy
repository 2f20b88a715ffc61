/** The best-effort import of the legacy `data/expenses.json` file that
    `init` runs once the tables exist (utils/db.js:87-119), stated as a
    function of the table it starts from. The store's `Init` runs the same
    steps as a loop and is proved to end where `Migrate` says. */
module LegacyImport {
  import opened Values
  import opened AutoIncrement
  import opened ExpenseTable

  /** The properties of one object of the legacy array as `JSON.parse`
      gives it. Each string property may be missing; `amount` is already
      `Number(it.amount)`, with `None` for NaN. */
  datatype LegacyRecord = LegacyRecord(
    title: Option<string>, amount: Option<real>, kind: Option<string>,
    category: Option<string>, note: Option<string>, date: Option<string>)

  /** One element of the legacy array. A `null` element makes `it.date`
      throw a TypeError, which ends the import like a store error. */
  datatype LegacyElement = NullElement | Object(fields: LegacyRecord)

  /** What the legacy path holds: nothing, a file that cannot be read or
      parsed, JSON that is not an array, or an array of elements. */
  datatype LegacyFile = Absent | Unreadable | NotAnArray | Records(items: seq<LegacyElement>)

  /** Failures of the store and file system the import meets, given as
      inputs: the index of the element whose statement the store rejects,
      and whether renaming the file to `.bak` fails. */
  datatype Faults = Faults(failingRecord: Option<nat>, renameFails: bool)

  /** How the migration step of `init` went; `AlreadyOpen` is what a call
      on an initialised store reports. An `ImportFailed` is logged. */
  datatype MigrationOutcome = AlreadyOpen | NoLegacyFile | NothingToImport | Imported | ImportFailed

  /** The title the duplicate check compares against: `it.title || ''`. */
  function KeyTitle(it: LegacyRecord): string {
    OrElse(it.title, "")
  }

  /** The row inserted for a dated record: title `Untitled`, amount 0 (for
      NaN or zero), type `expense`, category NULL and note `''` stand in for
      falsy values; the date is copied; type and sign are not normalised. */
  function ImportedRow(id: int, it: LegacyRecord): Expense
    requires Truthy(it.date)
  {
    Expense(id, OrElse(it.title, "Untitled"), NumberOrZero(it.amount), OrElse(it.kind, "expense"),
            NullIfFalsy(it.category), OrElse(it.note, ""), it.date.value)
  }

  /** The table and its counter while the loop runs, and whether a store
      error has ended it. */
  datatype Progress = Progress(rows: seq<Expense>, last: nat, aborted: bool)

  /** An object element with a non-empty date: the only kind the loop
      looks up and may insert. */
  predicate Dated(e: LegacyElement) {
    e.Object? && Truthy(e.fields.date)
  }

  /** One turn of `for (const it of arr)` for the element at `index`. */
  function ImportStep(p: Progress, e: LegacyElement, index: nat, failing: Option<nat>): Progress {
    if p.aborted then p
    else if e.NullElement? then p.(aborted := true)
    else if !Truthy(e.fields.date) then p
    else if failing == Some(index) then p.(aborted := true)
    else if MatchCount(p.rows, e.fields.date.value, KeyTitle(e.fields)) > 0 then p
    else p.(rows := p.rows + [ImportedRow(p.last + 1, e.fields)], last := p.last + 1)
  }

  /** The turns of the loop that insert a row. */
  predicate Inserts(p: Progress, e: LegacyElement, index: nat, failing: Option<nat>) {
    !p.aborted && Dated(e) && failing != Some(index) &&
    MatchCount(p.rows, e.fields.date.value, KeyTitle(e.fields)) == 0
  }

  /** The loop over the whole array, in file order. */
  function ImportAll(p: Progress, items: seq<LegacyElement>, failing: Option<nat>): Progress
    decreases |items|
  {
    if items == [] then p
    else ImportStep(ImportAll(p, items[..|items| - 1], failing), items[|items| - 1], |items| - 1, failing)
  }

  /** The fold over one more record is one more step. */
  lemma ImportAllSnoc(p: Progress, items: seq<LegacyElement>, i: nat, failing: Option<nat>)
    requires i < |items|
    ensures ImportAll(p, items[..i + 1], failing) == ImportStep(ImportAll(p, items[..i], failing), items[i], i, failing)
  {
    assert items[..i + 1][..i] == items[..i];
  }

  /** The effect of the migration step on the table, its counter and the
      file's `.bak` rename. */
  datatype Migration = Migration(rows: seq<Expense>, last: nat, renamed: bool, outcome: MigrationOutcome)

  function Migrate(file: LegacyFile, renamed: bool, rows: seq<Expense>, last: nat, faults: Faults): Migration {
    if file.Absent? || renamed then Migration(rows, last, renamed, NoLegacyFile)
    else if file.Unreadable? then Migration(rows, last, renamed, ImportFailed)
    else if file.NotAnArray? || |file.items| == 0 then Migration(rows, last, renamed, NothingToImport)
    else
      var p := ImportAll(Progress(rows, last, false), file.items, faults.failingRecord);
      if p.aborted then Migration(p.rows, p.last, renamed, ImportFailed)
      else Migration(p.rows, p.last, !faults.renameFails, Imported)
  }

  // ---------------------------------------------------------------------------
  // What the import does to the table.

  /** The import only appends: earlier rows stay as they were, the counter
      moves by the number of rows added, and nothing happens once aborted. */
  lemma {:induction false} ImportAllAppends(p: Progress, items: seq<LegacyElement>, failing: Option<nat>)
    ensures var q := ImportAll(p, items, failing);
      |p.rows| <= |q.rows| && q.rows[..|p.rows|] == p.rows &&
      q.last == p.last + (|q.rows| - |p.rows|) &&
      (p.aborted ==> q == p)
    decreases |items|
  {
    if items != [] {
      ImportAllAppends(p, items[..|items| - 1], failing);
    }
  }

  /** Imported rows take fresh AUTOINCREMENT ids, above every existing one. */
  lemma {:induction false} ImportAllNumbered(p: Progress, items: seq<LegacyElement>, failing: Option<nat>)
    requires NumberedExpenses(p.rows, p.last)
    ensures NumberedExpenses(ImportAll(p, items, failing).rows, ImportAll(p, items, failing).last)
    decreases |items|
  {
    if items != [] {
      var q := ImportAll(p, items[..|items| - 1], failing);
      ImportAllNumbered(p, items[..|items| - 1], failing);
      var it := items[|items| - 1];
      if Inserts(q, it, |items| - 1, failing) {
        NumberedAppend(q.rows, ExpenseId, q.last, ImportedRow(q.last + 1, it.fields));
      }
    }
  }

  /** Every row the import adds is the default-filled copy of some object
      of the file that has a non-empty date; other elements never yield a
      row. */
  lemma {:induction false} ImportedRowsFromRecords(p: Progress, items: seq<LegacyElement>, failing: Option<nat>)
    ensures var q := ImportAll(p, items, failing);
      forall k :: |p.rows| <= k < |q.rows| ==>
        exists j :: 0 <= j < |items| && Dated(items[j]) && q.rows[k] == ImportedRow(q.rows[k].id, items[j].fields)
    decreases |items|
  {
    if items != [] {
      var n := |items| - 1;
      var front := items[..n];
      var it := items[n];
      var q0 := ImportAll(p, front, failing);
      var q := ImportAll(p, items, failing);
      ImportedRowsFromRecords(p, front, failing);
      ImportAllAppends(p, front, failing);
      var inserted := Inserts(q0, it, n, failing);
      assert q.rows == if inserted then q0.rows + [ImportedRow(q0.last + 1, it.fields)] else q0.rows;
      forall k | |p.rows| <= k < |q.rows|
        ensures exists j :: 0 <= j < |items| && Dated(items[j]) && q.rows[k] == ImportedRow(q.rows[k].id, items[j].fields)
      {
        if k < |q0.rows| {
          assert q.rows[k] == q0.rows[k];
          var j :| 0 <= j < |front| && Dated(front[j]) && q0.rows[k] == ImportedRow(q0.rows[k].id, front[j].fields);
          assert items[j] == front[j];
        } else {
          assert inserted && q.rows[k] == ImportedRow(q0.last + 1, it.fields);
          assert Dated(items[n]) && q.rows[k] == ImportedRow(q.rows[k].id, items[n].fields);
        }
      }
    }
  }

  lemma MatchCountAppend(rows: seq<Expense>, r: Expense, date: string, title: string)
    ensures MatchCount(rows + [r], date, title) ==
      MatchCount(rows, date, title) + (if r.date == date && r.title == title then 1 else 0)
  {
  }

  /** One turn adds one to the count of a (date, title) pair when it
      inserts a row with that pair, and leaves the count alone otherwise. */
  lemma StepMatchCount(q: Progress, e: LegacyElement, index: nat, failing: Option<nat>, date: string, title: string)
    ensures MatchCount(ImportStep(q, e, index, failing).rows, date, title) ==
      MatchCount(q.rows, date, title) +
        (if Inserts(q, e, index, failing) && e.fields.date.value == date && OrElse(e.fields.title, "Untitled") == title
         then 1 else 0)
  {
    if Inserts(q, e, index, failing) {
      MatchCountAppend(q.rows, ImportedRow(q.last + 1, e.fields), date, title);
    }
  }

  /** Duplicate check for titled records: for a title other than
      `Untitled`, a (date, title) pair that was absent gets at most one row,
      however often the file repeats it, and one that was present gets
      none. */
  lemma {:induction false} TitledDuplicatesYieldOneRow(
    p: Progress, items: seq<LegacyElement>, failing: Option<nat>, date: string, title: string)
    requires title != "" && title != "Untitled"
    ensures var before := MatchCount(p.rows, date, title);
      var after := MatchCount(ImportAll(p, items, failing).rows, date, title);
      after == before || (before == 0 && after == 1)
    decreases |items|
  {
    if items != [] {
      var n := |items| - 1;
      var it := items[n];
      var q0 := ImportAll(p, items[..n], failing);
      TitledDuplicatesYieldOneRow(p, items[..n], failing, date, title);
      StepMatchCount(q0, it, n, failing, date, title);
      if Inserts(q0, it, n, failing) && it.fields.date.value == date && OrElse(it.fields.title, "Untitled") == title {
        assert KeyTitle(it.fields) == title;
      }
    }
  }

  /** A titled object with a non-empty date leaves a row with its
      (date, title) pair, unless the import aborts: either such a row was
      already there or the loop inserts one. */
  lemma {:induction false} TitledRecordGetsRow(
    p: Progress, items: seq<LegacyElement>, failing: Option<nat>, date: string, title: string, j: nat)
    requires title != "" && date != "" && j < |items| && items[j].Object?
    requires items[j].fields.date == Some(date) && KeyTitle(items[j].fields) == title
    requires !ImportAll(p, items, failing).aborted
    ensures MatchCount(ImportAll(p, items, failing).rows, date, title) >= 1
    decreases |items|
  {
    var n := |items| - 1;
    var it := items[n];
    var q0 := ImportAll(p, items[..n], failing);
    assert !q0.aborted;
    StepMatchCount(q0, it, n, failing, date, title);
    if j < n {
      assert items[..n][j] == items[j];
      TitledRecordGetsRow(p, items[..n], failing, date, title, j);
    } else if MatchCount(q0.rows, date, title) == 0 {
      assert failing != Some(n);
      assert Inserts(q0, it, n, failing);
    }
  }

  /** Titled duplicates within one file yield exactly one row: a
      (date, title) pair absent from the table and carried by some object
      of the file ends with exactly one row, unless the import aborts. */
  lemma TitledRecordYieldsOneRow(
    p: Progress, items: seq<LegacyElement>, failing: Option<nat>, date: string, title: string, j: nat)
    requires title != "" && title != "Untitled" && date != "" && j < |items| && items[j].Object?
    requires items[j].fields.date == Some(date) && KeyTitle(items[j].fields) == title
    requires MatchCount(p.rows, date, title) == 0 && !ImportAll(p, items, failing).aborted
    ensures MatchCount(ImportAll(p, items, failing).rows, date, title) == 1
  {
    TitledDuplicatesYieldOneRow(p, items, failing, date, title);
    TitledRecordGetsRow(p, items, failing, date, title, j);
  }

  /** Number of objects of `items` dated `date` (non-empty) with a falsy title. */
  function UntitledOn(items: seq<LegacyElement>, date: string): nat
    decreases |items|
  {
    if items == [] then 0
    else
      var it := items[|items| - 1];
      UntitledOn(items[..|items| - 1], date) +
        (if date != "" && it.Object? && it.fields.date == Some(date) && !Truthy(it.fields.title) then 1 else 0)
  }

  ghost predicate AllTitled(rows: seq<Expense>) {
    forall i :: 0 <= i < |rows| ==> rows[i].title != ""
  }

  /** Every title the import stores is non-empty. */
  lemma {:induction false} ImportKeepsTitles(p: Progress, items: seq<LegacyElement>, failing: Option<nat>)
    requires AllTitled(p.rows)
    ensures AllTitled(ImportAll(p, items, failing).rows)
    decreases |items|
  {
    if items != [] {
      var n := |items| - 1;
      var it := items[n];
      var q0 := ImportAll(p, items[..n], failing);
      ImportKeepsTitles(p, items[..n], failing);
      var q := ImportAll(p, items, failing);
      if Inserts(q0, it, n, failing) {
        var r := ImportedRow(q0.last + 1, it.fields);
        assert r.title == OrElse(it.fields.title, "Untitled");
        assert q.rows == q0.rows + [r];
        forall i | 0 <= i < |q.rows| ensures q.rows[i].title != "" {
          if i < |q0.rows| { assert q.rows[i] == q0.rows[i]; } else { assert q.rows[i] == r; }
        }
      } else {
        assert q.rows == q0.rows;
      }
    }
  }

  /** Untitled records are stored as `Untitled` but looked up under `''`,
      a title no stored row has: each of them gets its own row, repeats
      included, unless the import aborts. */
  lemma {:induction false} UntitledNeverDeduplicated(
    p: Progress, items: seq<LegacyElement>, failing: Option<nat>, date: string)
    requires AllTitled(p.rows)
    ensures var q := ImportAll(p, items, failing);
      !q.aborted ==>
        MatchCount(q.rows, date, "Untitled") >= MatchCount(p.rows, date, "Untitled") + UntitledOn(items, date)
    decreases |items|
  {
    if items != [] {
      var n := |items| - 1;
      var it := items[n];
      var q0 := ImportAll(p, items[..n], failing);
      var q := ImportAll(p, items, failing);
      if !q.aborted {
        assert !q0.aborted;
        UntitledNeverDeduplicated(p, items[..n], failing, date);
        ImportKeepsTitles(p, items[..n], failing);
        StepMatchCount(q0, it, n, failing, date, "Untitled");
        if date != "" && it.Object? && it.fields.date == Some(date) && !Truthy(it.fields.title) {
          // no stored row is titled '', so the lookup finds nothing
          assert MatchCount(q0.rows, date, KeyTitle(it.fields)) == 0;
          assert Inserts(q0, it, n, failing);
        }
      }
    }
  }

  /** Once the loop has aborted, the rest of the file is not looked at:
      stopping the loop there ends where the whole fold ends. */
  lemma {:induction false} AbortEndsImport(p: Progress, items: seq<LegacyElement>, failing: Option<nat>, i: nat)
    requires i <= |items| && ImportAll(p, items[..i], failing).aborted
    ensures ImportAll(p, items, failing) == ImportAll(p, items[..i], failing)
    decreases |items|
  {
    if i < |items| {
      var front := items[..|items| - 1];
      assert front[..i] == items[..i];
      AbortEndsImport(p, front, failing, i);
    } else {
      assert items[..i] == items;
    }
  }

  // ---------------------------------------------------------------------------
  // What the migration does to the file.

  /** The file is renamed to `.bak` exactly when it was there, parsed to a
      non-empty array, the loop did not abort (no store error, no `null`
      element) and the rename itself did not fail; a renamed file is never
      brought back. */
  lemma RenameOnlyAfterCleanImport(file: LegacyFile, renamed: bool, rows: seq<Expense>, last: nat, faults: Faults)
    ensures var m := Migrate(file, renamed, rows, last, faults);
      (renamed ==> m.renamed) &&
      (m.renamed != renamed <==>
        !renamed && file.Records? && |file.items| > 0 &&
        !ImportAll(Progress(rows, last, false), file.items, faults.failingRecord).aborted &&
        !faults.renameFails)
  {
  }

  /** A missing file, an already renamed one, non-array JSON and an empty
      array leave the table and the file as they were. */
  lemma NoLegacyRecordsIsNoOp(file: LegacyFile, renamed: bool, rows: seq<Expense>, last: nat, faults: Faults)
    requires file.Absent? || renamed || file.NotAnArray? || (file.Records? && |file.items| == 0)
    ensures Migrate(file, renamed, rows, last, faults) ==
      Migration(rows, last, renamed, if file.Absent? || renamed then NoLegacyFile else NothingToImport)
  {
  }

  /** A parse error, a store error or a `null` element is reported (and
      logged) and leaves the file in place; rows inserted before the error
      stay. */
  lemma FailedImportKeepsFile(file: LegacyFile, rows: seq<Expense>, last: nat, faults: Faults)
    ensures var m := Migrate(file, false, rows, last, faults);
      m.outcome == ImportFailed <==>
        (file.Unreadable? ||
         (file.Records? && |file.items| > 0 &&
          ImportAll(Progress(rows, last, false), file.items, faults.failingRecord).aborted))
    ensures Migrate(file, false, rows, last, faults).outcome == ImportFailed ==>
      !Migrate(file, false, rows, last, faults).renamed
  {
  }

  /** The migration only appends rows, with fresh ids. */
  lemma MigrateAppends(file: LegacyFile, renamed: bool, rows: seq<Expense>, last: nat, faults: Faults)
    requires NumberedExpenses(rows, last)
    ensures var m := Migrate(file, renamed, rows, last, faults);
      |rows| <= |m.rows| && m.rows[..|rows|] == rows && last <= m.last &&
      NumberedExpenses(m.rows, m.last)
  {
    if !(file.Absent? || renamed || file.Unreadable? || file.NotAnArray? || |file.items| == 0) {
      ImportAllAppends(Progress(rows, last, false), file.items, faults.failingRecord);
      ImportAllNumbered(Progress(rows, last, false), file.items, faults.failingRecord);
    }
  }
}
