/** The course listing of routes/api.js: a sample list built in memory
    when the module loads, and GET `/api/v1/courses`, which pages through
    it with a `per_page` query parameter. */
module CourseApi {
  import opened Values
  import opened CourseCatalog

  /** `per_page` when the query gives none, or gives 0 or NaN. */
  const DefaultPerPage: int := 10

  /** The loop that fills `sampleCourses`: course i gets id i. */
  method BuildSampleCourses() returns (sample: seq<Course>)
    ensures |sample| == CatalogSize
    ensures forall k :: 0 <= k < |sample| ==>
      sample[k] == Course(k + 1, "Course " + Decimal(k + 1), "Description for course " + Decimal(k + 1))
    ensures sample == Catalog(1, CatalogSize)
  {
    sample := [];
    var i := 1;
    while i <= CatalogSize
      invariant 1 <= i <= CatalogSize + 1
      invariant |sample| == i - 1
      invariant forall k :: 0 <= k < |sample| ==>
        sample[k] == Course(k + 1, "Course " + Decimal(k + 1), "Description for course " + Decimal(k + 1))
    {
      sample := sample + [Course(i, "Course " + Decimal(i), "Description for course " + Decimal(i))];
      i := i + 1;
    }
  }

  /** `parseInt(req.query.per_page, 10) || 10`, then raised to at least 1;
      `parsed` is `None` when the parameter is missing or not a number. */
  function EffectivePerPage(parsed: Option<int>): (p: int)
    ensures p >= 1
    ensures parsed.None? || parsed == Some(0) ==> p == DefaultPerPage
    ensures parsed.Some? && parsed.value < 0 ==> p == 1
    ensures parsed.Some? && parsed.value > 0 ==> p == parsed.value
  {
    var p := if parsed.Some? && parsed.value != 0 then parsed.value else DefaultPerPage;
    if p < 1 then 1 else p
  }

  /** The JSON body of the response. */
  datatype CoursesPage = CoursesPage(data: seq<Course>, total: nat, perPage: int)

  /** GET `/v1/courses`: the first `per_page` courses, the size of the whole
      list, and the `per_page` actually used (not the raw query value). */
  function ListCourses(sample: seq<Course>, parsed: Option<int>): (r: CoursesPage)
    ensures r.perPage == EffectivePerPage(parsed)
    ensures r.total == |sample|
    ensures r.data <= sample
    ensures |r.data| == if r.perPage < |sample| then r.perPage else |sample|
  {
    var perPage := EffectivePerPage(parsed);
    CoursesPage(sample[..if perPage < |sample| then perPage else |sample|], |sample|, perPage)
  }

  /** Over the sample list, a page always reports a total of 50 and holds
      the first min(per_page, 50) courses, at least one. */
  lemma SampleListing(parsed: Option<int>)
    ensures var r := ListCourses(Catalog(1, CatalogSize), parsed);
      r.total == CatalogSize && 1 <= |r.data| &&
      |r.data| == (if r.perPage < CatalogSize then r.perPage else CatalogSize) &&
      r.data == Catalog(1, |r.data|)
  {
  }
}
