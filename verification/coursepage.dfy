/**
 * The enrol button of components/CourseDetail.tsx and the follow-up cards of
 * components/NextSteps.tsx shown at the end of a free course.
 */
module CoursePage {
  import opened Wrappers
  import opened Types
  import Seqs

  /** What a click on the enrol button does. */
  datatype Enrollment = StartCourse(course: Course) | OpenLink(url: string) | NoEffect

  /**
   * `handleEnrollClick`: a free course starts in place; any other course
   * opens its checkout link when it has a non-empty one, and otherwise the
   * click does nothing.
   */
  function Enroll(c: Course): (e: Enrollment)
    ensures e.StartCourse? <==> c.kind == Free
    ensures e.StartCourse? ==> e.course == c
    ensures e.OpenLink? <==> c.kind != Free && Truthy(c.gumroadLink)
    ensures e.OpenLink? ==> Some(e.url) == c.gumroadLink
    ensures e.NoEffect? <==> c.kind != Free && !Truthy(c.gumroadLink)
  {
    if c.kind == Free then StartCourse(c)
    else if Truthy(c.gumroadLink) then OpenLink(c.gumroadLink.value)
    else NoEffect
  }

  /** How a template literal prints an optional string: an absent one prints as `undefined`. */
  function Interpolate(o: Option<string>): (r: string)
    ensures o.Some? ==> r == o.value
  {
    match o
    case Some(s) => s
    case None => "undefined"
  }

  const EnrollPrefix: string := "Enroll Now - "

  /**
   * The enrol button's caption: the free caption exactly for a free course,
   * and for any other course the enrol prefix followed by the price.
   */
  function EnrollLabel(c: Course): (r: string)
    ensures c.kind == Free <==> r == "Start Free Course Now"
    ensures c.kind != Free <==> EnrollPrefix <= r
    ensures c.kind != Free && c.price.Some? ==> r[|EnrollPrefix|..] == c.price.value
  {
    if c.kind == Free then
      var r := "Start Free Course Now";
      assert r[0] != EnrollPrefix[0];
      r
    else
      var r := EnrollPrefix + Interpolate(c.price);
      assert r[0] == 'E' && r[..|EnrollPrefix|] == EnrollPrefix;
      assert r[|EnrollPrefix|..] == Interpolate(c.price);
      r
  }

  /** A paid course without a price shows the caption `Enroll Now - undefined`. */
  lemma MissingPriceLabel(c: Course)
    requires c.kind == Paid && c.price.None?
    ensures EnrollLabel(c) == "Enroll Now - undefined"
  {
  }

  /** The course id a finished course recommends, if its `nextSteps` names one. */
  function RecommendedId(current: Course): (r: Option<string>)
    ensures r.Some? <==> current.nextSteps.Some? && current.nextSteps.value.recommendedCourseId.Some?
  {
    match current.nextSteps
    case None => None
    case Some(n) => n.recommendedCourseId
  }

  /**
   * `recommendedCourse`: the first course whose id is the recommended id;
   * none when no id is recommended (comparing an id with `undefined` never
   * succeeds) or when no course has it.
   */
  function Recommended(courses: seq<Course>, current: Course): (r: Option<Course>)
    ensures r.Some? ==> RecommendedId(current).Some? && r.value.id == RecommendedId(current).value && r.value in courses
    ensures r.None? <==> (RecommendedId(current).None?
      || forall i :: 0 <= i < |courses| ==> courses[i].id != RecommendedId(current).value)
    ensures r.Some? ==> exists i ::
      0 <= i < |courses| && courses[i] == r.value && forall j :: 0 <= j < i ==> courses[j].id != r.value.id
  {
    match RecommendedId(current)
    case None => None
    case Some(id) => Seqs.Find((c: Course) => c.id == id, courses)
  }

  /** The follow-up cards: a deeper course when there is one, then the membership and session offers. */
  datatype Card = GoDeeper(course: Course) | InnerCircle | CustomRoadmap

  /** The view each card's button opens. */
  function CardTarget(c: Card): View
  {
    match c
    case GoDeeper(_) => Courses
    case InnerCircle => Services
    case CustomRoadmap => Book
  }

  function Cards(courses: seq<Course>, current: Course): (r: seq<Card>)
    ensures |r| == 2 || |r| == 3
    ensures r[|r| - 2] == InnerCircle && r[|r| - 1] == CustomRoadmap
  {
    match Recommended(courses, current)
    case Some(c) => [GoDeeper(c), InnerCircle, CustomRoadmap]
    case None => [InnerCircle, CustomRoadmap]
  }

  /**
   * The "Go Deeper" card appears exactly when a recommended course exists,
   * and the buttons lead to the courses list, the memberships and the
   * booking page.
   */
  lemma CardsShape(courses: seq<Course>, current: Course)
    ensures (exists i :: 0 <= i < |Cards(courses, current)| && Cards(courses, current)[i].GoDeeper?)
      <==> Recommended(courses, current).Some?
    ensures forall i :: 0 <= i < |Cards(courses, current)| && Cards(courses, current)[i].GoDeeper? ==>
      Some(Cards(courses, current)[i].course) == Recommended(courses, current)
    ensures forall i :: 0 <= i < |Cards(courses, current)| ==>
      CardTarget(Cards(courses, current)[i]) in {Courses, Services, Book}
  {
    var cs := Cards(courses, current);
    if Recommended(courses, current).Some? {
      assert cs[0].GoDeeper?;
    }
  }
}
