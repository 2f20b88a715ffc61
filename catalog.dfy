/** The fixed course catalog: course n (counting from 1) is titled
    `Course n` and described as `Description for course n`. The store seeds
    it into its courses table, and the course API builds the same list in
    memory with ids 1..50. */
module CourseCatalog {

  /** Number of courses in the catalog. */
  const CatalogSize: nat := 50

  datatype Course = Course(id: int, title: string, description: string)

  function DigitChar(d: nat): (c: char)
    requires d < 10
    ensures '0' <= c <= '9'
  {
    ['0', '1', '2', '3', '4', '5', '6', '7', '8', '9'][d]
  }

  /** Decimal rendering of a natural number, as a JavaScript template
      literal or string concatenation renders an integer. */
  function Decimal(n: nat): (s: string)
    ensures |s| >= 1
    ensures n >= 10 ==> |s| >= 2
    ensures forall i :: 0 <= i < |s| ==> '0' <= s[i] <= '9'
    decreases n
  {
    if n < 10 then [DigitChar(n)] else Decimal(n / 10) + [DigitChar(n % 10)]
  }

  lemma DigitCharInjective(a: nat, b: nat)
    requires a < 10 && b < 10 && DigitChar(a) == DigitChar(b)
    ensures a == b
  {
  }

  /** Different numbers render differently, so the catalog titles are distinct. */
  lemma {:induction false} DecimalInjective(a: nat, b: nat)
    requires Decimal(a) == Decimal(b)
    ensures a == b
    decreases a
  {
    var s := Decimal(a);
    if a < 10 && b < 10 {
      DigitCharInjective(a, b);
    } else if a >= 10 && b >= 10 {
      assert Decimal(a / 10) == s[..|s| - 1] == Decimal(b / 10);
      DecimalInjective(a / 10, b / 10);
      DigitCharInjective(a % 10, b % 10);
    }
  }

  function CourseTitle(n: nat): string {
    "Course " + Decimal(n)
  }

  function CourseDescription(n: nat): string {
    "Description for course " + Decimal(n)
  }

  /** The rows numbered 1..count, the k-th (0-based) carrying id firstId + k. */
  function Catalog(firstId: int, count: nat): (cs: seq<Course>)
    ensures |cs| == count
    ensures forall k :: 0 <= k < count ==>
      cs[k] == Course(firstId + k, CourseTitle(k + 1), CourseDescription(k + 1))
  {
    seq(count, k requires 0 <= k => Course(firstId + k, CourseTitle(k + 1), CourseDescription(k + 1)))
  }

  /** Appending course n+1 to the first n gives the first n+1: what each
      iteration of a seeding loop establishes. */
  lemma CatalogGrows(firstId: int, n: nat)
    ensures Catalog(firstId, n + 1) ==
      Catalog(firstId, n) + [Course(firstId + n, CourseTitle(n + 1), CourseDescription(n + 1))]
  {
  }

  /** No two catalog rows share a title. */
  lemma CatalogTitlesDistinct(firstId: int, count: nat, i: nat, j: nat)
    requires i < count && j < count && i != j
    ensures Catalog(firstId, count)[i].title != Catalog(firstId, count)[j].title
  {
    if Decimal(i + 1) == Decimal(j + 1) {
      DecimalInjective(i + 1, j + 1);
    }
    assert CourseTitle(i + 1)[7..] == Decimal(i + 1);
    assert CourseTitle(j + 1)[7..] == Decimal(j + 1);
  }
}
