/**
 * The seed data of constants.ts, as far as the rest of the model relies on
 * it: navigation targets, the learning-hub items, the resources, the
 * membership tiers and the courses. Only identifiers, types, categories,
 * demo components, prices, links and views are transcribed; titles,
 * descriptions, image addresses and article texts are replaced by `Prose`.
 */
module Fixtures {
  import opened Wrappers
  import opened Seqs
  import opened Types
  import Directives
  import AiService
  import CoursePage
  import Hub
  import Listings

  /** Stands for a text of the seed data that is not transcribed. */
  const Prose: string := "..."

  /** A header link: its caption and the view it opens. */
  datatype NavLink = NavLink(name: string, view: View)

  /** `NAV_LINKS`. */
  const NavLinks: seq<NavLink> := [
    NavLink("Home", Home),
    NavLink("Intelligence Core", Hub),
    NavLink("Mastery Tracks", Courses),
    NavLink("Inner Circle", Services),
    NavLink("Strategy Session", Book)
  ]

  function NavView(l: NavLink): View
  {
    l.view
  }

  /**
   * The header links lead, once each, to exactly the views a chat reply may
   * offer as buttons, so every chat button has a header counterpart and
   * the reverse.
   */
  lemma NavMatchesChat()
    ensures NoDuplicates(Map(NavView, NavLinks))
    ensures forall v: View :: v in Map(NavView, NavLinks) <==> Directives.ChatView(v)
  {
    var views := Map(NavView, NavLinks);
    assert views == [Home, Hub, Courses, Services, Book];
  }

  function Article(id: string, category: string): Content
  {
    Content(id, Prose, Prose, category, Prose, Types.Article, None, Some(Prose))
  }

  function DemoItem(id: string, demo: DemoId): Content
  {
    Content(id, Prose, Prose, "Interactive Demos", Prose, Types.Demo, Some(demo), None)
  }

  /** `INITIAL_FREE_CONTENT`. */
  const Learn: seq<Content> := [
    Article("1", "Market Analysis"),
    Article("2", "Core Concepts"),
    Article("3", "Asset Strategy"),
    Article("4", "Financial Systems"),
    Article("5", "Core Concepts"),
    Article("6", "Security & Operations"),
    DemoItem("demo1", MintNFTDemo),
    DemoItem("demo2", DaoVotingDemo),
    DemoItem("demo3", TokenSwapDemo)
  ]

  function ContentId(c: Content): string
  {
    c.id
  }

  /**
   * Every seed demo names the component that runs it, every seed article
   * has a full text for its page, and no two items share an id, so opening
   * a card finds that very card.
   */
  lemma LearnWellFormed()
    ensures forall i :: 0 <= i < |Learn| && Learn[i].kind == Types.Demo ==> Learn[i].demoComponent.Some?
    ensures forall i :: 0 <= i < |Learn| && Learn[i].kind == Types.Article ==> AiService.HasBody(Learn[i])
    ensures Hub.DistinctIds(Learn)
  {
    DistinctLearnIds();
  }

  lemma DistinctLearnIds()
    ensures forall i, j :: 0 <= i < j < |Learn| ==> Learn[i].id != Learn[j].id
  {
    forall i, j | 0 <= i < j < |Learn|
      ensures Learn[i].id != Learn[j].id
    {
      if j < 6 {
        assert |Learn[i].id| == 1 && |Learn[j].id| == 1 && Learn[i].id[0] != Learn[j].id[0];
      } else if i < 6 {
        assert |Learn[i].id| == 1 && |Learn[j].id| == 5;
      } else {
        assert Learn[i].id[4] != Learn[j].id[4];
      }
    }
  }

  /**
   * Every seed category is an ordinary object key, so the hub's chart of the
   * seed items counts exactly as `Listings.ChartData` states.
   */
  lemma SeedCategoriesOrdinary()
    ensures forall i :: 0 <= i < |Learn| ==> Listings.OrdinaryKey(Learn[i].category)
  {
    forall i | 0 <= i < |Learn|
      ensures Listings.OrdinaryKey(Learn[i].category)
    {
      Listings.CapitalisedIsOrdinary(Learn[i].category);
    }
  }

  /** `INITIAL_RESOURCES_CONTENT`. */
  const Resources: seq<Resource> := [
    Resource("ebook01", Prose, Prose, EBook, Prose),
    Resource("res1", Prose, Prose, Checklist, Prose),
    Resource("res3", Prose, Prose, Template, Prose),
    Resource("res4", Prose, Prose, Guide, Prose),
    Resource("res5", Prose, Prose, Template, Prose),
    Resource("res2", Prose, Prose, Guide, Prose)
  ]

  /** The hub's featured card, the first resource, is the E-book; the other five are listed below it. */
  lemma FeaturedIsEBook(s: Hub.HubState, items: seq<Content>)
    ensures Hub.Grid(s, items, Resources).featured == Some(Resources[0])
    ensures Resources[0].kind == EBook
    ensures |Hub.Grid(s, items, Resources).more| == 5
  {
  }

  /** `SERVICE_TIERS`: names, prices, the featured flag and links; the feature lists are not transcribed. */
  const Tiers: seq<ServiceTier> := [
    ServiceTier("Strategist", "$49/mo", Prose, [], false, "https://gumroad.com"),
    ServiceTier("Architect", "$99/mo", Prose, [], true, "https://gumroad.com"),
    ServiceTier("Visionary", "$249/mo", Prose, [], false, "https://gumroad.com")
  ]

  function TierName(t: ServiceTier): string
  {
    t.name
  }

  /** Tier names serve as list keys: they are distinct, and exactly one tier is featured. */
  lemma TiersWellFormed()
    ensures NoDuplicates(Map(TierName, Tiers))
    ensures forall i :: 0 <= i < |Tiers| ==> (Tiers[i].isFeatured <==> i == 1)
  {
    var names := Map(TierName, Tiers);
    assert names == ["Strategist", "Architect", "Visionary"];
    assert names[0][0] == 'S' && names[1][0] == 'A' && names[2][0] == 'V';
  }

  function Modules(n: nat): seq<CourseModule>
  {
    seq(n, i => CourseModule(Prose, Prose))
  }

  function PaidTrack(id: string, price: string, difficulty: Difficulty, audience: Audience, modules: nat): Course
  {
    Course(id, Prose, Prose, Prose, Paid, Some(price), Some("https://gumroad.com"), difficulty, audience, Prose,
      Modules(modules), None)
  }

  function FreeTrack(id: string, recommended: string): Course
  {
    Course(id, Prose, Prose, Prose, Free, None, None, Beginner, NonTechnical, Prose,
      Modules(4), Some(NextStepsInfo(Some(recommended))))
  }

  /** `COURSES_DATA`. */
  const CourseList: seq<Course> := [
    PaidTrack("course-paid-02", "$999", Advanced, NonTechnical, 5),
    PaidTrack("course-paid-01", "$699", Intermediate, Technical, 5),
    FreeTrack("course-free-01", "course-paid-02"),
    FreeTrack("course-free-02", "course-paid-02"),
    FreeTrack("course-free-03", "course-paid-01")
  ]

  /**
   * Course ids are distinct; a paid course has a price and a checkout link,
   * a free course has neither.
   */
  lemma CoursesWellFormed()
    ensures forall i, j :: 0 <= i < j < |CourseList| ==> CourseList[i].id != CourseList[j].id
    ensures forall i :: 0 <= i < |CourseList| && CourseList[i].kind == Paid ==>
      CourseList[i].price.Some? && CourseList[i].gumroadLink.Some?
    ensures forall i :: 0 <= i < |CourseList| && CourseList[i].kind == Free ==>
      CourseList[i].price.None? && CourseList[i].gumroadLink.None?
  {
    forall i, j | 0 <= i < j < |CourseList|
      ensures CourseList[i].id != CourseList[j].id
    {
      var a := CourseList[i].id;
      var b := CourseList[j].id;
      assert |a| == 14 && |b| == 14;
      if i < 2 && 2 <= j {
        assert a[7] == 'p' && b[7] == 'f';
      } else {
        assert a[13] != b[13];
      }
    }
  }

  /**
   * Every free course recommends a course that exists and is paid, so the
   * certificate page always offers the "Go Deeper" card.
   */
  lemma RecommendationsResolve()
    ensures forall i :: 0 <= i < |CourseList| && CourseList[i].kind == Free ==>
      CoursePage.Recommended(CourseList, CourseList[i]).Some?
      && CoursePage.Recommended(CourseList, CourseList[i]).value.kind == Paid
      && CoursePage.Cards(CourseList, CourseList[i])[0].GoDeeper?
  {
    forall i | 0 <= i < |CourseList| && CourseList[i].kind == Free
      ensures CoursePage.Recommended(CourseList, CourseList[i]).Some?
      ensures CoursePage.Recommended(CourseList, CourseList[i]).value.kind == Paid
    {
      var target := if i == 4 then 1 else 0;
      assert CoursePage.RecommendedId(CourseList[i]) == Some(CourseList[target].id);
      var r := CoursePage.Recommended(CourseList, CourseList[i]);
      assert r.Some? by {
        assert CourseList[target].id == CoursePage.RecommendedId(CourseList[i]).value;
      }
      var k :| 0 <= k < |CourseList| && CourseList[k] == r.value
        && forall j :: 0 <= j < k ==> CourseList[j].id != r.value.id;
      assert r.value.id == CourseList[target].id;
      assert k <= target;
      if target == 1 {
        assert CourseList[0].id[13] != CourseList[1].id[13];
      }
    }
  }
}
