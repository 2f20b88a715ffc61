# Expense store and course listing — a Dafny model

This project models the persistence core of a small expense tracker, plus
two pure rules from its route handlers:

- **The store** (`utils/db.js`): a SQLite file with an `expenses` table and a
  `courses` table. Both tables use `INTEGER PRIMARY KEY AUTOINCREMENT` ids.
  `init()` caches one process-wide handle. On its first run it seeds 50
  catalog courses if the courses table is empty. It then does a best-effort
  import of a legacy `data/expenses.json` file: undated records and
  `(date, title)` duplicates are skipped, defaults are filled in, and the
  file is renamed to `.bak` after a clean import. The store also offers the
  read queries `getRecentExpenses`, `getAllExpenses`, `getTotal` and
  `getCourses`, the insert `addExpense`, and the destructive `resetAll`.
- **POST `/expenses`** (`routes/expenses.js`): turns a submitted form into the
  item passed to `addExpense`. This is where the expense type and the sign of
  the amount are made to agree.
- **GET `/api/v1/courses`** (`routes/api.js`): an in-memory list of 50 sample
  courses, paged by a defaulted and clamped `per_page`.

Files and modules:

| file | module | what it holds |
|---|---|---|
| `values.dfy` | `Values` | `Option`, and JavaScript's `x \|\| default` for strings and numbers |
| `autoincrement.dfy` | `AutoIncrement` | the id numbering an AUTOINCREMENT column keeps |
| `catalog.dfy` | `CourseCatalog` | the `Course n` / `Description for course n` template and decimal rendering |
| `expense_table.dfy` | `ExpenseTable` | expense rows, `ORDER BY date DESC`, `LIMIT`, `SUM(amount)`, the `COUNT(1)` lookup |
| `legacy_import.dfy` | `LegacyImport` | the legacy import as a function of the table, with its lemmas |
| `store.dfy` | `Store` | class `Database`: `init`, `getDB`, the queries, `addExpense`, `resetAll` |
| `expense_routes.dfy` | `ExpenseRoutes` | the POST normaliser and the handler that calls `addExpense` |
| `course_api.dfy` | `CourseApi` | the `sampleCourses` loop and the `per_page` handler |

The mutable store is a class. Its tables are `seq` fields, and it keeps both
AUTOINCREMENT counters, which `DELETE` does not reset. An `initialized` flag
stands in for `dbInstance`. The legacy file is a field, with a flag that
records its rename. The loops of the source are methods with loop
invariants: the seeding loop, the import loop, and the `sampleCourses`
loop. Each of these is proved equal to a specification function. The
lemmas about those functions carry the properties.

Inputs the JavaScript gets from outside are parameters of the model:

- `JSON.parse`, `Number`, `parseFloat` and `parseInt` results. `None`
  stands for NaN or a missing property.
- The request timestamp (`new Date().toISOString()`).
- Store and file-system failures during the import (`Faults`): the record
  whose statement the store rejects, and whether the `.bak` rename fails.

The `type` column is named `kind`, because `type` is a Dafny keyword. Dates
are strings compared lexicographically. SQLite's BINARY collation gives the
same order on UTF-8 text.

Behaviour of the code that the model keeps, some of it easy to miss:

- `init` seeds the courses *before* the legacy import, not after it.
- The legacy file is renamed only when every statement of the import loop
  succeeded. A store error aborts the loop, keeps the rows already
  inserted, and leaves the file in place for the next start. A `null`
  element of the array does the same: reading `it.date` on it throws, the
  catch logs the error, and the file is not renamed.
- A record is skipped when its date is falsy, so an empty string is skipped
  as well as a missing date.
- The duplicate check compares `it.title || ''`, but the row stores
  `it.title || 'Untitled'`. As long as no stored row has the empty title,
  untitled records are therefore never de-duplicated, and a re-run after a
  failed import or a failed rename inserts them again. `addExpense` accepts
  any title, so a row titled `''` added directly would make the check match
  untitled records of the same date.
- Only the POST handler makes type and sign agree. `addExpense` stores what
  it is given, and the import copies type and amount unchanged. The
  agreement is therefore proved for the normaliser's output, not as an
  invariant of the store.
- `ensureCategoryColumn` ignores every error, not only the duplicate-column
  error.
- SQLite does not order rows with equal dates. The model's sort picks one
  order, and the contracts state only sortedness and the multiset/top-k
  relation.
- A negative `LIMIT` means "no limit" in SQLite.
- `resetAll` calls `init()` first. It leaves the AUTOINCREMENT counters
  alone, so the reseeded courses get ids that continue from the old ones.

## Model

| member | source | states |
|---|---|---|
| `CourseCatalog.DecimalInjective` | utils/db.js:76 | different course numbers render as different decimal strings |
| `CourseCatalog.CatalogTitlesDistinct` | utils/db.js:73-83 | the seeded titles `Course 1`..`Course 50` are pairwise distinct |
| `AutoIncrement.NumberedAppend` | utils/db.js:52-53 | a row numbered one past the AUTOINCREMENT counter has an id above every earlier id and keeps the ids strictly increasing and within the counter |
| `ExpenseTable.DateLeTotal` | utils/db.js:145 | any two dates are comparable in the TEXT order that `ORDER BY date` uses |
| `ExpenseTable.DateLeTransitive` | utils/db.js:145 | the TEXT order on dates is transitive |
| `ExpenseTable.InsertByDateSorted` | utils/db.js:150 | inserting a row into a newest-first list keeps it newest-first |
| `ExpenseTable.InsertByDatePermutes` | utils/db.js:150 | inserting a row adds exactly that row to the multiset of rows |
| `ExpenseTable.SortByDateCorrect` | utils/db.js:148-151 | `ORDER BY date DESC` returns every row exactly once (same multiset), newest first |
| `ExpenseTable.LimitCount` | utils/db.js:145 | `LIMIT n` returns min(n, rows) rows, and every row when n is negative |
| `ExpenseTable.NewestByDate` | utils/db.js:143-146 | `ORDER BY date DESC LIMIT n`: the right count, newest first, a sub-multiset of the table, and no omitted row newer than a returned one |
| `ExpenseTable.TopSplit` | utils/db.js:145 | cutting a newest-first list after n rows leaves behind no row newer than a kept one |
| `ExpenseTable.SumAmountsAppend` | utils/db.js:153-157 | the SUM of a table grown by some rows is the old SUM plus the SUM of the new rows |
| `ExpenseTable.MatchCount` | utils/db.js:98-99 | the `COUNT(1) WHERE date = ? AND title = ?` is 0 exactly when no row has that date and title |
| `LegacyImport.ImportAllAppends` | utils/db.js:94-107 | the import only appends; the counter moves by the number of rows added; nothing happens after an abort |
| `LegacyImport.ImportAllNumbered` | utils/db.js:106 | imported rows take fresh AUTOINCREMENT ids above all existing ones |
| `LegacyImport.ImportedRowsFromRecords` | utils/db.js:97-106 | every imported row is the default-filled copy (title `Untitled`, amount 0, type `expense`, category NULL, note `''`, date copied, sign untouched) of an object element with a non-empty date |
| `LegacyImport.StepMatchCount` | utils/db.js:97-106 | one turn of the loop raises the count of a (date, title) pair by one exactly when it inserts a row with that pair, and otherwise leaves it |
| `LegacyImport.TitledDuplicatesYieldOneRow` | utils/db.js:95-99 | for a title other than `Untitled`, an absent (date, title) pair gets at most one row however often the file repeats it; a present one gets none |
| `LegacyImport.TitledRecordGetsRow` | utils/db.js:94-106 | a titled object with a non-empty date leaves at least one row with its (date, title) pair unless the import aborts: either one was there or the loop inserts one |
| `LegacyImport.TitledRecordYieldsOneRow` | utils/db.js:94-106 | a (date, title) pair, title other than `Untitled`, absent from the table and carried by some object of the file ends with exactly one row unless the import aborts |
| `LegacyImport.ImportKeepsTitles` | utils/db.js:100 | every title the import stores is non-empty |
| `LegacyImport.UntitledNeverDeduplicated` | utils/db.js:98-100 | when no stored row is titled `''`, untitled dated records are each inserted, repeats included, unless the import aborts |
| `LegacyImport.AbortEndsImport` | utils/db.js:106-119 | once a statement fails or a `null` element throws, the rest of the file is not processed |
| `LegacyImport.RenameOnlyAfterCleanImport` | utils/db.js:90-114 | the file is renamed to `.bak` if and only if it was present, parsed to a non-empty array, the loop ran to its end (no store error, no `null` element) and the rename did not fail; a renamed file stays renamed |
| `LegacyImport.NoLegacyRecordsIsNoOp` | utils/db.js:88-93 | a missing or already renamed file, non-array JSON and an empty array change neither the table nor the file |
| `LegacyImport.FailedImportKeepsFile` | utils/db.js:88-119 | a parse error or an aborted loop (a store error or a `null` element) is reported as a failure (logged) and exactly then, and the file is then not renamed |
| `LegacyImport.MigrateAppends` | utils/db.js:87-119 | the migration step only appends rows, with fresh ids |
| `Store.Database.constructor` | utils/db.js:8 | a fresh process starts with no cached handle over the existing tables and legacy file |
| `Store.Database.GetDB` | utils/db.js:138-141 | `getDB` fails before `init` has completed and returns the cached handle afterwards |
| `Store.Database.Init` | utils/db.js:47-123 | a cached handle is returned with nothing changed; otherwise courses are seeded if empty, the migration runs, and the handle is cached whatever the migration's outcome |
| `Store.Database.SeedIfEmpty` | utils/db.js:68-85 | an empty courses table gets exactly the 50 catalog rows in order; a non-empty one is untouched |
| `Store.Database.SeedCourses` | utils/db.js:71-84 | the seeding loop appends courses 1..50 with ids numbered on from the counter |
| `Store.Database.MigrateLegacy` | utils/db.js:87-119 | the migration step does exactly what `Migrate` describes to the table, its counter and the file |
| `Store.Database.ImportElement` | utils/db.js:94-106 | one turn of the loop does exactly what `ImportStep` says: a `null` element aborts, an undated object is skipped, a rejected statement aborts, a duplicate is skipped, anything else is inserted with the next id |
| `Store.Database.ImportRecords` | utils/db.js:94-107 | the `for (const it of arr)` loop ends where the import fold says, stopping at a `null` element or at the first failing statement |
| `Store.Database.RecentExpenses` | utils/db.js:143-146 | `getRecentExpenses(limit)` fails before `init`; afterwards it returns at most `limit` rows newest first, with no omitted row newer than a returned one |
| `Store.Database.AllExpenses` | utils/db.js:148-151 | `getAllExpenses` fails before `init`; afterwards it returns every row exactly once, newest first |
| `Store.Database.Total` | utils/db.js:153-157 | `getTotal` fails before `init`; afterwards it is the sum of all amounts, 0 on an empty table, and equal to the sum over the full listing |
| `Store.Database.Courses` | utils/db.js:166-169 | `getCourses(n)` fails before `init`; afterwards it is the first `LIMIT n` rows of the courses table in insertion order |
| `Store.Database.AddExpense` | utils/db.js:159-164 | appends exactly one row with the given fields (falsy category as NULL) and an id above every earlier id; other rows unchanged; the total grows by the amount |
| `Store.Database.ResetAll` | utils/db.js:172-182 | after `init`, leaves zero expenses and exactly the 50 catalog courses, numbered on from the course counter; ids are never reused; on an already open store the expense counter and the file flag are unchanged and the course counter moves by 50; on a first open the file flag and expense counter are those of the migration, and the course counter moves by 100 when `init` seeded, else by 50 |
| `Store.SumSortByDate` | utils/db.js:148-157 | the total equals the sum over the newest-first listing |
| `Store.ListingAfterReset` | utils/db.js:166-182 | after a reset, `getCourses(n)` lists the first min(n, 50) catalog courses in order, titled `Course 1`.. |
| `ExpenseRoutes.Normalize` | routes/expenses.js:24-36 | blank title becomes `Untitled`; NaN becomes 0; type is `income` exactly when the form says `income`, else `expense`; income gives amount >= 0 and expense amount <= 0 with the parsed magnitude; falsy category becomes NULL and falsy note `''`; date is the request time |
| `ExpenseRoutes.NormalizeIdempotent` | routes/expenses.js:27-28 | re-normalising a signed amount with the same type keeps it, and a normalised item submitted again comes back unchanged |
| `ExpenseRoutes.PostedRowAgreesInSign` | routes/expenses.js:27-37 | the row stored for a POST has type `income` or `expense` and a sign that agrees with it |
| `ExpenseRoutes.PostExpense` | routes/expenses.js:22-42 | a POST adds exactly one row, the normalised item, through `addExpense`, and moves the expense counter to its id; before `init` it changes nothing; nothing else in the store changes |
| `CourseApi.BuildSampleCourses` | routes/api.js:5-8 | `sampleCourses` has 50 entries; entry k has id k+1, title `Course k+1` and description `Description for course k+1` |
| `CourseApi.EffectivePerPage` | routes/api.js:12-13 | a missing, non-numeric or zero `per_page` gives 10, a negative one gives 1, a positive one is kept; the result is always at least 1 |
| `CourseApi.ListCourses` | routes/api.js:11-16 | the page is the prefix of the list of length min(per_page, total); `total` is the list's length; `per_page` echoes the effective value |
| `CourseApi.SampleListing` | routes/api.js:5-15 | over the sample list the total is always 50 and the page is the first min(per_page, 50) catalog courses, at least one |

## Left out

- SQLite and file-system plumbing (`openDb`, `run`, `all`, `get`, `mkdirSync`) is not modelled. Tables are sequences, and SQL text is not modelled.
- A failure to open the database or to create the tables is not modelled. `Init` always succeeds.
- A failing statement outside the import loop is not modelled: seeding, `addExpense`, the deletes and reseeding of `resetAll`. Failures are modelled only for the import (`Faults`).
- `ensureCategoryColumn` and its unawaited call at module load are not modelled. They are DDL on the engine's schema, and the call races with `init`. The `category` column is always present in the model. Its catch swallows every error, not only the duplicate-column one.
- Asynchronous ordering is not modelled. The seed loop's `setImmediate` chaining is a plain loop. Two `init` calls racing before the handle is cached (both could seed and import) are not modelled: calls run one after another.
- `resetAll` is not atomic in the source. It runs three separate steps, and the model covers only the path where all of them succeed.
- `JSON.parse`, `Number`, `parseFloat`, `parseInt` and the clock are not modelled. Their results are parameters.
- Legacy record properties are modelled as optional strings, and `amount` as an optional number. JSON values of other types (a numeric title, say) are not modelled. An array element is `null` or an object; a number, string or boolean element has no `date` property and is skipped like an object without one, so it is represented as such an object.
- Amounts are `real`. IEEE rounding, infinities and `-0` are not modelled.
- `console.error` logging is not modelled. The `ImportFailed` outcome of `Init` stands for the logged error.
- The JavaScript default arguments (`limit = 5`, `perPage = 10`) are not modelled. The model's queries take an explicit argument, and a non-integer `LIMIT` is not modelled.
- `Store.Database.RecentExpenses`: the order of rows with equal dates is not stated, because SQLite leaves it unspecified.
- `app.js` (Express wiring and 404/error rendering), `utils/storage.js` (JSON file I/O), `routes/index.js` and `routes/admin.js` (glue that calls the store and renders) are not part of this model. Neither are the rendering and redirects of the route handlers.
