/**
 * The list views: the learning hub's category and search filters and its
 * article chart (components/LearningHubSection.tsx), the simpler category
 * filter of components/ContentSection.tsx, and the free/paid filter of
 * components/CoursesSection.tsx.
 */
module Listings {
  import opened Wrappers
  import opened Seqs
  import opened Strings
  import opened Types
  import opened AiService

  /** The category button that switches the category filter off. */
  const AllLabel: string := "All"

  function CategoryOf(c: Content): string
  {
    c.category
  }

  /**
   * The category filter's options: "All" followed by each category of the
   * items once, in order of first occurrence.
   */
  function Categories(items: seq<Content>): (r: seq<string>)
    ensures |r| >= 1 && r[0] == AllLabel
    ensures NoDuplicates(r[1..])
    ensures forall i :: 0 <= i < |items| ==> items[i].category in r[1..]
    ensures forall k :: 1 <= k < |r| ==> exists i :: 0 <= i < |items| && items[i].category == r[k]
    ensures IsSubseq(r[1..], Map(CategoryOf, items))
  {
    var cats := Map(CategoryOf, items);
    var d := Dedup(cats);
    DedupIsSubseq(cats);
    assert (["All"] + d)[1..] == d;
    assert forall k :: 0 <= k < |d| ==> d[k] in cats;
    ["All"] + d
  }

  /** Whether an item belongs to the selected category. */
  function InCategory(category: string): Content -> bool
  {
    (x: Content) => x.category == category
  }

  /** The complement of `InCategory`. */
  function OutsideCategory(category: string): Content -> bool
  {
    (x: Content) => x.category != category
  }

  /** The search test: the lowercased title or description contains `lowered`. */
  function MatchesQuery(lowered: string): Content -> bool
  {
    (x: Content) => Contains(ToLower(x.title), lowered) || Contains(ToLower(x.description), lowered)
  }

  /**
   * Whether the hub lists `x` for the chosen category and search text: any
   * category under "All", and any item when the query is blank; otherwise the
   * lowercased but untrimmed query must occur in the lowercased title or
   * description.
   */
  predicate Listed(category: string, query: string, x: Content)
  {
    (category == AllLabel || x.category == category)
    && (Trim(query) == [] || Contains(ToLower(x.title), ToLower(query)) || Contains(ToLower(x.description), ToLower(query)))
  }

  function ListedTest(category: string, query: string): Content -> bool
  {
    (x: Content) => Listed(category, query, x)
  }

  /** `filteredLearnContent`: the category filter, then the search filter. */
  function HubFilter(items: seq<Content>, category: string, query: string): (r: seq<Content>)
    ensures forall i :: 0 <= i < |r| ==> Listed(category, query, r[i]) && r[i] in items
    ensures forall i :: 0 <= i < |items| && Listed(category, query, items[i]) ==> items[i] in r
    ensures category == AllLabel && Trim(query) == [] ==> r == items
  {
    var byCategory := if category == AllLabel then items else Filter(InCategory(category), items);
    if Trim(query) == [] then byCategory else Filter(MatchesQuery(ToLower(query)), byCategory)
  }

  /**
   * The two filters applied in turn are one filter by `Listed`: the hub
   * lists exactly the listed items, each once per occurrence and in their
   * original order.
   */
  lemma HubFilterIsFilter(items: seq<Content>, category: string, query: string)
    ensures HubFilter(items, category, query) == Filter(ListedTest(category, query), items)
    ensures IsSubseq(HubFilter(items, category, query), items)
  {
    var lowered := ToLower(query);
    if category == AllLabel {
      if Trim(query) != [] {
        FilterExt(MatchesQuery(lowered), ListedTest(category, query), items);
      }
    } else if Trim(query) == [] {
      FilterExt(InCategory(category), ListedTest(category, query), items);
    } else {
      FilterTwice(InCategory(category), MatchesQuery(lowered), items);
      FilterExt(And(InCategory(category), MatchesQuery(lowered)), ListedTest(category, query), items);
    }
    FilterIsSubseq(ListedTest(category, query), items);
  }

  /** `filteredContent` of the content section: the category filter alone. */
  function SectionFilter(items: seq<Content>, category: string): (r: seq<Content>)
    ensures category == AllLabel ==> r == items
    ensures category != AllLabel ==> forall i :: 0 <= i < |r| ==> r[i].category == category
    ensures forall i :: 0 <= i < |r| ==> r[i] in items
    ensures forall i :: 0 <= i < |items| && items[i].category == category ==> items[i] in r
  {
    if category == AllLabel then items else Filter(InCategory(category), items)
  }

  /**
   * With a blank query the hub lists what the content section lists for the
   * same category, and a category filter splits the items: the items of the
   * chosen category and the rest together are all the items.
   */
  lemma SectionAgreesWithHub(items: seq<Content>, category: string, query: string)
    requires Trim(query) == []
    ensures HubFilter(items, category, query) == SectionFilter(items, category)
    ensures category != AllLabel ==>
      multiset(SectionFilter(items, category)) + multiset(Filter(OutsideCategory(category), items)) == multiset(items)
  {
    if category != AllLabel {
      FilterSplit(InCategory(category), OutsideCategory(category), items);
    }
  }

  /** The three course filter buttons. */
  datatype CourseFilter = AllTracks | FreeOnly | PaidOnly

  function OfKind(kind: CourseKind): Course -> bool
  {
    (c: Course) => c.kind == kind
  }

  /** `filteredCourses`: the whole list, or the courses of one type in their original order. */
  function FilterCourses(courses: seq<Course>, f: CourseFilter): (r: seq<Course>)
    ensures f == AllTracks ==> r == courses
    ensures f == FreeOnly ==> forall i :: 0 <= i < |r| ==> r[i].kind == Free
    ensures f == PaidOnly ==> forall i :: 0 <= i < |r| ==> r[i].kind == Paid
    ensures forall i :: 0 <= i < |r| ==> r[i] in courses
    ensures f == FreeOnly ==> forall i :: 0 <= i < |courses| && courses[i].kind == Free ==> courses[i] in r
    ensures f == PaidOnly ==> forall i :: 0 <= i < |courses| && courses[i].kind == Paid ==> courses[i] in r
  {
    match f
    case AllTracks => courses
    case FreeOnly => Filter(OfKind(Free), courses)
    case PaidOnly => Filter(OfKind(Paid), courses)
  }

  /**
   * The free and the paid tracks partition the course list: together they
   * hold every course exactly as often as the list does, so their lengths
   * add up to the whole.
   */
  lemma FreeAndPaidPartition(courses: seq<Course>)
    ensures multiset(FilterCourses(courses, FreeOnly)) + multiset(FilterCourses(courses, PaidOnly)) == multiset(courses)
    ensures |FilterCourses(courses, FreeOnly)| + |FilterCourses(courses, PaidOnly)| == |courses|
    ensures IsSubseq(FilterCourses(courses, FreeOnly), courses) && IsSubseq(FilterCourses(courses, PaidOnly), courses)
  {
    FilterSplit(OfKind(Free), OfKind(Paid), courses);
    FilterIsSubseq(OfKind(Free), courses);
    FilterIsSubseq(OfKind(Paid), courses);
  }

  /** The category of every article, in order (demos are not counted). */
  function ArticleCategories(items: seq<Content>): (r: seq<string>)
    ensures |r| == |Filter(IsArticle, items)|
  {
    Map(CategoryOf, Filter(IsArticle, items))
  }

  /** A bar of the chart: a category and its number of articles. */
  datatype Bar = Bar(name: string, value: nat)

  function BarName(b: Bar): string
  {
    b.name
  }

  /** The sum of the bar values. */
  function Total(bars: seq<Bar>): nat
  {
    if |bars| == 0 then 0 else bars[0].value + Total(bars[1..])
  }

  /** The properties every plain JavaScript object inherits from `Object.prototype`. */
  const PrototypeKeys: seq<string> := [
    "__proto__", "constructor", "hasOwnProperty", "isPrototypeOf", "propertyIsEnumerable",
    "toLocaleString", "toString", "valueOf",
    "__defineGetter__", "__defineSetter__", "__lookupGetter__", "__lookupSetter__"
  ]

  /**
   * A category the counting object of `chartData` treats like a map key kept
   * in insertion order: not an inherited property name (those count wrongly
   * or vanish) and not starting with a digit (integer-like keys are listed
   * first, in numeric order).
   */
  predicate OrdinaryKey(k: string)
  {
    k !in PrototypeKeys && !(|k| > 0 && '0' <= k[0] <= '9')
  }

  /** A category starting with a capital letter is an ordinary key: every inherited name starts with a small letter or `_`. */
  lemma CapitalisedIsOrdinary(k: string)
    requires |k| > 0 && 'A' <= k[0] <= 'Z'
    ensures OrdinaryKey(k)
  {
    forall j | 0 <= j < |PrototypeKeys|
      ensures PrototypeKeys[j] != k
    {
      assert PrototypeKeys[j][0] == '_' || 'a' <= PrototypeKeys[j][0] <= 'z';
    }
  }

  /**
   * `chartData`: one bar per category that has an article, in order of the
   * category's first article, valued by that category's number of articles.
   */
  function ChartData(items: seq<Content>): (r: seq<Bar>)
    ensures NoDuplicates(Map(BarName, r))
    ensures forall k :: 0 <= k < |r| ==> r[k].value == Occurrences(r[k].name, ArticleCategories(items)) && r[k].value > 0
    ensures forall i :: 0 <= i < |items| && items[i].kind == Article ==> items[i].category in Map(BarName, r)
  {
    var cats := ArticleCategories(items);
    var d := Dedup(cats);
    var r := Map(CountBar(cats), d);
    BarNames(cats, d);
    forall i | 0 <= i < |items| && items[i].kind == Article
      ensures items[i].category in d
    {
      ArticleCategoryListed(items, i);
    }
    r
  }

  /** The bar of a category: its name and how often it occurs in `cats`. */
  function CountBar(cats: seq<string>): string -> Bar
  {
    (name: string) => Bar(name, Occurrences(name, cats))
  }

  lemma BarNames(cats: seq<string>, d: seq<string>)
    ensures Map(BarName, Map(CountBar(cats), d)) == d
  {
  }

  /** The category of an article is among the article categories. */
  lemma ArticleCategoryListed(items: seq<Content>, i: nat)
    requires i < |items| && items[i].kind == Article
    ensures items[i].category in ArticleCategories(items)
  {
    var a := Filter(IsArticle, items);
    assert items[i] in a;
    var j :| 0 <= j < |a| && a[j] == items[i];
    assert ArticleCategories(items)[j] == items[i].category;
  }

  /** The bars together count every article exactly once. */
  lemma ChartCountsArticles(items: seq<Content>)
    ensures Total(ChartData(items)) == |Filter(IsArticle, items)|
  {
    var cats := ArticleCategories(items);
    var d := Dedup(cats);
    TotalIsSum(ChartData(items), d, cats);
    SumOccurrencesCovers(d, cats);
  }

  /**
   * The bars run along the axis in order of each category's first article:
   * their names are the article categories with repeats dropped.
   */
  lemma ChartOrder(items: seq<Content>)
    ensures Map(BarName, ChartData(items)) == Dedup(ArticleCategories(items))
  {
    var cats := ArticleCategories(items);
    BarNames(cats, Dedup(cats));
  }

  lemma {:induction false} TotalIsSum(bars: seq<Bar>, d: seq<string>, cats: seq<string>)
    requires |bars| == |d|
    requires forall k :: 0 <= k < |bars| ==> bars[k].value == Occurrences(d[k], cats)
    ensures Total(bars) == SumOccurrences(d, cats)
  {
    if |bars| > 0 {
      TotalIsSum(bars[1..], d[1..], cats);
    }
  }
}
