/** The SQLite store of utils/db.js as an in-memory object: the `expenses`
    and `courses` tables with their AUTOINCREMENT counters, the cached
    handle (`dbInstance`, here the `initialized` flag) and the legacy
    `expenses.json` file with its `.bak` rename. */
module Store {
  import opened Values
  import opened AutoIncrement
  import opened CourseCatalog
  import opened ExpenseTable
  import opened LegacyImport

  /** `getDB()` throws `Database not initialized. Call init() first.` */
  datatype StoreError = NotInitialized

  datatype Result<T> = Ok(value: T) | Err(error: StoreError)

  function CourseId(c: Course): int { c.id }

  class Database {
    var initialized: bool
    var expenses: seq<Expense>
    var expenseSeq: nat
    var courses: seq<Course>
    var courseSeq: nat
    var legacy: LegacyFile
    var legacyRenamed: bool

    /** Both tables are numbered by their AUTOINCREMENT counters. */
    ghost predicate Valid()
      reads this
    {
      NumberedExpenses(expenses, expenseSeq) && Numbered(courses, CourseId, courseSeq)
    }

    /** The module as loaded in a new process, over whatever the database
        file and the legacy file already hold; nothing is cached yet. */
    constructor (expenses: seq<Expense>, expenseSeq: nat, courses: seq<Course>, courseSeq: nat, legacy: LegacyFile)
      requires NumberedExpenses(expenses, expenseSeq) && Numbered(courses, CourseId, courseSeq)
      ensures Valid() && !initialized && !legacyRenamed
      ensures this.expenses == expenses && this.expenseSeq == expenseSeq
      ensures this.courses == courses && this.courseSeq == courseSeq && this.legacy == legacy
    {
      initialized := false;
      this.expenses, this.expenseSeq := expenses, expenseSeq;
      this.courses, this.courseSeq := courses, courseSeq;
      this.legacy, legacyRenamed := legacy, false;
    }

    /** `getDB()`: the cached handle, or the error every query raises before
        `init` has completed. */
    function GetDB(): (r: Result<Database>)
      reads this
      ensures r.Ok? <==> initialized
      ensures r.Ok? ==> r.value == this
    {
      if initialized then Ok(this) else Err(NotInitialized)
    }

    /** `init()`: returns at once when the handle is cached; otherwise seeds
        the courses when that table is empty, runs the legacy migration, and
        caches the handle whatever the migration's outcome. */
    method Init(faults: Faults) returns (outcome: MigrationOutcome)
      requires Valid()
      modifies this
      ensures Valid() && initialized && legacy == old(legacy)
      ensures old(initialized) ==> unchanged(this) && outcome == AlreadyOpen
      ensures !old(initialized) ==>
        courses == (if old(courses) == [] then Catalog(old(courseSeq) + 1, CatalogSize) else old(courses)) &&
        courseSeq == (if old(courses) == [] then old(courseSeq) + CatalogSize else old(courseSeq)) &&
        Migration(expenses, expenseSeq, legacyRenamed, outcome) ==
          Migrate(old(legacy), old(legacyRenamed), old(expenses), old(expenseSeq), faults)
    {
      if initialized {
        return AlreadyOpen;
      }
      SeedIfEmpty();
      outcome := MigrateLegacy(faults);
      initialized := true;
    }

    /** `SELECT COUNT(1) FROM courses` and, when it is 0, the seeding loop. */
    method SeedIfEmpty()
      requires Valid()
      modifies this`courses, this`courseSeq
      ensures Valid()
      ensures courses == (if old(courses) == [] then Catalog(old(courseSeq) + 1, CatalogSize) else old(courses))
      ensures courseSeq == (if old(courses) == [] then old(courseSeq) + CatalogSize else old(courseSeq))
    {
      if courses == [] {
        SeedCourses();
        assert courses == [] + Catalog(old(courseSeq) + 1, CatalogSize);
      }
    }

    /** The seeding loop: inserts courses 1..50 of the catalog, numbered on
        from the courses counter. */
    method SeedCourses()
      requires Valid()
      modifies this`courses, this`courseSeq
      ensures Valid()
      ensures courses == old(courses) + Catalog(old(courseSeq) + 1, CatalogSize)
      ensures courseSeq == old(courseSeq) + CatalogSize
    {
      var i := 1;
      while i <= CatalogSize
        invariant 1 <= i <= CatalogSize + 1
        invariant courseSeq == old(courseSeq) + (i - 1)
        invariant courses == old(courses) + Catalog(old(courseSeq) + 1, i - 1)
        invariant Numbered(courses, CourseId, courseSeq)
      {
        var row := Course(courseSeq + 1, CourseTitle(i), CourseDescription(i));
        CatalogGrows(old(courseSeq) + 1, i - 1);
        NumberedAppend(courses, CourseId, courseSeq, row);
        assert courses + [row] == old(courses) + Catalog(old(courseSeq) + 1, i);
        courses := courses + [row];
        courseSeq := courseSeq + 1;
        i := i + 1;
      }
    }

    /** The migration step of `init`: look for the file, parse it, import
        its records, and rename it to `.bak` after a clean import. */
    method MigrateLegacy(faults: Faults) returns (outcome: MigrationOutcome)
      requires Valid()
      modifies this`expenses, this`expenseSeq, this`legacyRenamed
      ensures Valid()
      ensures Migration(expenses, expenseSeq, legacyRenamed, outcome) ==
        Migrate(legacy, old(legacyRenamed), old(expenses), old(expenseSeq), faults)
    {
      if legacy.Absent? || legacyRenamed {
        return NoLegacyFile;
      }
      match legacy
      case Unreadable =>
        outcome := ImportFailed;
      case NotAnArray =>
        outcome := NothingToImport;
      case Records(items) =>
        if |items| == 0 {
          outcome := NothingToImport;
        } else {
          var aborted := ImportRecords(items, faults.failingRecord);
          if aborted {
            outcome := ImportFailed;
          } else {
            if !faults.renameFails {
              legacyRenamed := true;
            }
            outcome := Imported;
          }
        }
    }

    /** One turn of the loop for the element at `index`: a `null` element
        throws, an undated object is skipped, a rejected statement aborts,
        a duplicate is skipped, and anything else is inserted with the next
        id. */
    method ImportElement(e: LegacyElement, index: nat, failing: Option<nat>) returns (abort: bool)
      modifies this`expenses, this`expenseSeq
      ensures Progress(expenses, expenseSeq, abort) ==
        ImportStep(Progress(old(expenses), old(expenseSeq), false), e, index, failing)
    {
      abort := false;
      match e {
        case NullElement =>
          abort := true;
        case Object(it) =>
          if Truthy(it.date) {
            if failing == Some(index) {
              abort := true;
            } else if MatchCount(expenses, it.date.value, KeyTitle(it)) == 0 {
              expenses := expenses + [ImportedRow(expenseSeq + 1, it)];
              expenseSeq := expenseSeq + 1;
            }
          }
      }
    }

    /** The `for (const it of arr)` loop: skips undated records and
        (date, title) duplicates, inserts the rest with defaults, and stops
        at a `null` element or the first statement the store rejects. */
    method ImportRecords(items: seq<LegacyElement>, failing: Option<nat>) returns (aborted: bool)
      requires Valid()
      modifies this`expenses, this`expenseSeq
      ensures Valid()
      ensures Progress(expenses, expenseSeq, aborted) ==
        ImportAll(Progress(old(expenses), old(expenseSeq), false), items, failing)
    {
      ghost var start := Progress(expenses, expenseSeq, false);
      aborted := false;
      var i := 0;
      while i < |items| && !aborted
        invariant 0 <= i <= |items|
        invariant Progress(expenses, expenseSeq, aborted) == ImportAll(start, items[..i], failing)
      {
        ImportAllSnoc(start, items, i, failing);
        aborted := ImportElement(items[i], i, failing);
        i := i + 1;
      }
      if aborted {
        AbortEndsImport(start, items, failing, i);
      } else {
        assert items[..i] == items;
      }
      ImportAllNumbered(start, items, failing);
    }

    /** `getRecentExpenses(limit)`: at most `limit` rows (all of them for a
        negative limit), newest first, and no row left out is newer than a
        row returned. */
    function RecentExpenses(limit: int): (r: Result<seq<Expense>>)
      reads this
      ensures r.Ok? <==> initialized
      ensures r.Ok? ==>
        |r.value| == LimitCount(limit, |expenses|) && NewestFirst(r.value) &&
        multiset(r.value) <= multiset(expenses) &&
        forall e, f :: e in r.value && f in multiset(expenses) - multiset(r.value) ==> DateLe(f.date, e.date)
    {
      match GetDB()
      case Err(e) => Err(e)
      case Ok(_) => Ok(NewestByDate(expenses, limit))
    }

    /** `getAllExpenses()`: every row, newest first. */
    function AllExpenses(): (r: Result<seq<Expense>>)
      reads this
      ensures r.Ok? <==> initialized
      ensures r.Ok? ==> NewestFirst(r.value) && multiset(r.value) == multiset(expenses)
    {
      match GetDB()
      case Err(e) => Err(e)
      case Ok(_) => SortByDateCorrect(expenses); Ok(SortByDate(expenses))
    }

    /** `getTotal()`: the sum of all amounts, 0 (never NULL) on an empty
        table, and equal to the sum over the full listing. */
    function Total(): (r: Result<real>)
      reads this
      ensures r.Ok? <==> initialized
      ensures r.Ok? ==> r.value == SumAmounts(expenses)
      ensures r.Ok? && expenses == [] ==> r.value == 0.0
      ensures r.Ok? ==> r.value == SumAmounts(SortByDate(expenses))
    {
      match GetDB()
      case Err(e) => Err(e)
      case Ok(_) => SumSortByDate(expenses); Ok(SumAmounts(expenses))
    }

    /** `getCourses(perPage)`: the first rows of the courses table in
        insertion order, `LIMIT perPage`. */
    function Courses(perPage: int): (r: Result<seq<Course>>)
      reads this
      ensures r.Ok? <==> initialized
      ensures r.Ok? ==>
        |r.value| == LimitCount(perPage, |courses|) && r.value <= courses
    {
      match GetDB()
      case Err(e) => Err(e)
      case Ok(_) => Ok(courses[..LimitCount(perPage, |courses|)])
    }

    /** `addExpense(item)`: one new row with the next AUTOINCREMENT id,
        greater than every id handed out before; the other rows stay. */
    method AddExpense(d: Draft) returns (r: Result<int>)
      requires Valid()
      modifies this`expenses, this`expenseSeq
      ensures Valid()
      ensures r.Err? <==> !old(initialized)
      ensures r.Err? ==> expenses == old(expenses) && expenseSeq == old(expenseSeq)
      ensures r.Ok? ==>
        r.value == old(expenseSeq) + 1 && expenseSeq == r.value &&
        expenses == old(expenses) + [StoredRow(r.value, d)]
      ensures r.Ok? ==> forall e :: e in old(expenses) ==> e.id < r.value
      ensures r.Ok? ==> SumAmounts(expenses) == SumAmounts(old(expenses)) + d.amount
    {
      match GetDB()
      case Err(e) =>
        return Err(e);
      case Ok(_) =>
        var row := StoredRow(expenseSeq + 1, d);
        NumberedAppend(expenses, ExpenseId, expenseSeq, row);
        SumAmountsAppend(expenses, [row]);
        expenses := expenses + [row];
        expenseSeq := expenseSeq + 1;
        r := Ok(expenseSeq);
    }

    /** `resetAll()`: runs `init` first, deletes every expense and course,
        and reseeds the 50 courses. The counters are not reset, so the new
        course ids continue from the old ones. */
    method ResetAll(faults: Faults)
      requires Valid()
      modifies this
      ensures Valid() && initialized && legacy == old(legacy)
      ensures expenses == []
      ensures courseSeq >= old(courseSeq) + CatalogSize
      ensures courses == Catalog(courseSeq - CatalogSize + 1, CatalogSize)
      ensures expenseSeq >= old(expenseSeq)
      ensures old(initialized) ==>
        expenseSeq == old(expenseSeq) && courseSeq == old(courseSeq) + CatalogSize &&
        legacyRenamed == old(legacyRenamed)
      ensures !old(initialized) ==>
        var m := Migrate(old(legacy), old(legacyRenamed), old(expenses), old(expenseSeq), faults);
        legacyRenamed == m.renamed && expenseSeq == m.last &&
        courseSeq == old(courseSeq) + (if old(courses) == [] then 2 * CatalogSize else CatalogSize)
    {
      var _ := Init(faults);
      if !old(initialized) {
        MigrateAppends(old(legacy), old(legacyRenamed), old(expenses), old(expenseSeq), faults);
      }
      expenses := [];
      courses := [];
      SeedCourses();
    }
  }

  /** The total is the same whichever order the rows are listed in. */
  lemma SumSortByDate(rows: seq<Expense>)
    ensures SumAmounts(SortByDate(rows)) == SumAmounts(rows)
  {
    if rows != [] {
      SumSortByDate(rows[1..]);
      SumInsertByDate(rows[0], SortByDate(rows[1..]));
    }
  }

  lemma {:induction false} SumInsertByDate(e: Expense, s: seq<Expense>)
    ensures SumAmounts(InsertByDate(e, s)) == e.amount + SumAmounts(s)
  {
    if s != [] && !DateLe(s[0].date, e.date) {
      SumInsertByDate(e, s[1..]);
      assert ([s[0]] + InsertByDate(e, s[1..]))[1..] == InsertByDate(e, s[1..]);
    } else {
      assert ([e] + s)[1..] == s;
    }
  }

  /** After a reset, `getCourses(n)` lists the first min(n, 50) catalog
      courses in order (all 50 for a negative n). */
  lemma ListingAfterReset(firstId: int, perPage: int)
    ensures var listed := Catalog(firstId, CatalogSize)[..LimitCount(perPage, CatalogSize)];
      listed == Catalog(firstId, LimitCount(perPage, CatalogSize)) &&
      (0 <= perPage ==> |listed| == if perPage < CatalogSize then perPage else CatalogSize) &&
      forall k :: 0 <= k < |listed| ==> listed[k].title == CourseTitle(k + 1)
  {
  }
}
