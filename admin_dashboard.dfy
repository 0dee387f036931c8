/**
 * The admin dashboard: a gate that admits only a logged-in user whose
 * profile has the role `admin`, and the join that annotates every course
 * with the `taken` count of its row in the `course_counts` view.
 */
module AdminDashboard {
  import opened Web

  /** The `role` column of the caller's profile row. */
  datatype Profile = Profile(role: Value)

  /** A row of `courses` as selected: `id, title, starts_at, price_cents, capacity`. */
  datatype Course = Course(id: Value, title: Value, startsAt: Value, priceCents: Value, capacity: Value)

  /** A row of the `course_counts` view. */
  datatype CourseCount = CourseCount(courseId: Value, taken: Value)

  /** A course spread into a new object with `taken` added. */
  datatype CourseRow = CourseRow(id: Value, title: Value, startsAt: Value, priceCents: Value, capacity: Value,
                                 taken: Value)

  /** What the page renders: one of the two refusals, or the table of its rows. */
  datatype Page = LoginRequired | NoPermission | Table(rows: seq<CourseRow>)

  /** The course fields of a row, without `taken`. */
  function CourseOf(row: CourseRow): Course {
    Course(row.id, row.title, row.startsAt, row.priceCents, row.capacity)
  }

  /** `{...course, taken}`. */
  function WithTaken(course: Course, taken: Value): CourseRow {
    CourseRow(course.id, course.title, course.startsAt, course.priceCents, course.capacity, taken)
  }

  /** Whether `i` is the first position in `counts` whose `course_id` is `id`. */
  ghost predicate FirstMatch(counts: seq<CourseCount>, id: Value, i: int) {
    0 <= i < |counts| && counts[i].courseId == id && forall j :: 0 <= j < i ==> counts[j].courseId != id
  }

  /** `counts.find(c => c.course_id === id)`. */
  function Find(counts: seq<CourseCount>, id: Value): (r: Option<CourseCount>)
    ensures r.None? <==> forall j :: 0 <= j < |counts| ==> counts[j].courseId != id
    ensures forall i :: FirstMatch(counts, id, i) ==> r == Some(counts[i])
  {
    if counts == [] then None
    else if counts[0].courseId == id then Some(counts[0])
    else Find(counts[1..], id)
  }

  /**
   * `courseCounts?.find(...)?.taken || 0`: the `taken` of the first count row
   * for `id`, or 0 when the list is null, no row matches, or that `taken` is
   * falsy.
   */
  function TakenOf(counts: Option<seq<CourseCount>>, id: Value): (t: Value)
    ensures counts.None? ==> t == Num(0)
    ensures counts.Some? && (forall j :: 0 <= j < |counts.value| ==> counts.value[j].courseId != id) ==> t == Num(0)
    ensures counts.Some? ==>
              forall i :: FirstMatch(counts.value, id, i) ==>
                t == if Truthy(counts.value[i].taken) then counts.value[i].taken else Num(0)
    ensures t == Num(0) || Truthy(t)
  {
    match counts
    case None => Num(0)
    case Some(cs) =>
      match Find(cs, id)
      case None => Num(0)
      case Some(c) => Or(c.taken, Num(0))
  }

  /** The `map` over the course list: each course, in order, with its `taken` added. */
  function Annotate(courses: seq<Course>, counts: Option<seq<CourseCount>>): (rows: seq<CourseRow>)
    ensures |rows| == |courses|
    ensures forall i :: 0 <= i < |courses| ==> CourseOf(rows[i]) == courses[i]
    ensures forall i :: 0 <= i < |courses| ==> rows[i].taken == TakenOf(counts, courses[i].id)
  {
    if courses == [] then []
    else [WithTaken(courses[0], TakenOf(counts, courses[0].id))] + Annotate(courses[1..], counts)
  }

  /** `(courses || []).map(...)`: a null course list gives an empty table. */
  function CoursesWithCounts(courses: Option<seq<Course>>, counts: Option<seq<CourseCount>>): (rows: seq<CourseRow>)
    ensures courses.None? ==> rows == []
    ensures courses.Some? ==> |rows| == |courses.value|
    ensures courses.Some? ==>
              forall i :: 0 <= i < |courses.value| ==>
                CourseOf(rows[i]) == courses.value[i] && rows[i].taken == TakenOf(counts, courses.value[i].id)
  {
    Annotate(courses.GetOr([]), counts)
  }

  /** Annotating a list piece by piece gives the same rows as annotating it at once. */
  lemma {:induction false} AnnotateAppend(a: seq<Course>, b: seq<Course>, counts: Option<seq<CourseCount>>)
    ensures Annotate(a + b, counts) == Annotate(a, counts) + Annotate(b, counts)
  {
    if a != [] {
      assert (a + b)[1..] == a[1..] + b;
      AnnotateAppend(a[1..], b, counts);
    }
  }

  /**
   * The page for the session's user (if any), the profile lookup by user id
   * (`.single()`, so `None` for no row) and the two lists read after the gate.
   */
  function Dashboard(user: Option<User>, profileOf: string -> Option<Profile>,
                     courseCounts: Option<seq<CourseCount>>, courses: Option<seq<Course>>): (p: Page)
    ensures user.None? ==> p == LoginRequired
    ensures user.Some? && (profileOf(user.value.id).None? || profileOf(user.value.id).value.role != Str("admin"))
            ==> p == NoPermission
    ensures p.Table? <==> user.Some? && profileOf(user.value.id) == Some(Profile(Str("admin")))
    ensures p.Table? ==> p.rows == CoursesWithCounts(courses, courseCounts)
  {
    if user.None? then LoginRequired
    else
      var profile := profileOf(user.value.id);
      if profile.None? || profile.value.role != Str("admin") then NoPermission
      else Table(CoursesWithCounts(courses, courseCounts))
  }
}
