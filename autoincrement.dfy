/** The numbering that an `INTEGER PRIMARY KEY AUTOINCREMENT` column keeps.
    SQLite remembers the largest id it ever assigned (in its
    `sqlite_sequence` table, not reset by `DELETE`) and gives every new row
    that number plus one, so ids are never reused. */
module AutoIncrement {

  /** The ids of `rows`, read through `id`, increase strictly in insertion
      order, are positive, and none exceeds the counter `last`. */
  ghost predicate Numbered<R>(rows: seq<R>, id: R -> int, last: int) {
    (forall i, j :: 0 <= i < j < |rows| ==> id(rows[i]) < id(rows[j])) &&
    (forall i :: 0 <= i < |rows| ==> 0 < id(rows[i]) <= last)
  }

  /** A row numbered one past the counter keeps the table numbered once the
      counter moves to it, and its id is greater than every id before it. */
  lemma NumberedAppend<R>(rows: seq<R>, id: R -> int, last: int, r: R)
    requires Numbered(rows, id, last) && id(r) == last + 1 && last >= 0
    ensures Numbered(rows + [r], id, last + 1)
    ensures forall i :: 0 <= i < |rows| ==> id(rows[i]) < id(r)
  {
  }
}
