/**
 * The entities of the site (types.ts): views, chat messages and their action
 * buttons, learning content, resources, courses, membership tiers and leads.
 * Optional fields are `Option`s; JavaScript's truthiness of an optional
 * string is `Truthy`.
 */
module Types {
  import opened Wrappers

  /** The eight screens the single-page application can show. */
  datatype View = Home | Hub | Services | Book | Admin | Courses | CourseDetail | TakingCourse

  /** The string a view is written as, in the source and in chat directives. */
  function ViewName(v: View): string
  {
    match v
    case Home => "home"
    case Hub => "hub"
    case Services => "services"
    case Book => "book"
    case Admin => "admin"
    case Courses => "courses"
    case CourseDetail => "courseDetail"
    case TakingCourse => "takingCourse"
  }

  /** The view written as `name`, if any. */
  function ViewFromName(name: string): (v: Option<View>)
    ensures v.Some? ==> ViewName(v.value) == name
    ensures v.None? ==> forall w: View :: ViewName(w) != name
  {
    if name == "home" then Some(Home)
    else if name == "hub" then Some(Hub)
    else if name == "services" then Some(Services)
    else if name == "book" then Some(Book)
    else if name == "admin" then Some(Admin)
    else if name == "courses" then Some(Courses)
    else if name == "courseDetail" then Some(CourseDetail)
    else if name == "takingCourse" then Some(TakingCourse)
    else None
  }

  /** Every view's name reads back as that view: names are distinct. */
  lemma ViewNameRoundTrip(v: View)
    ensures ViewFromName(ViewName(v)) == Some(v)
  {
  }

  /** A button in a chat reply: its caption (the source's `label`) and the view it navigates to. */
  datatype Action = Action(caption: string, view: View)

  datatype Sender = User | Ai

  /** A chat message; `actions` is absent on user messages and on the fallback reply. */
  datatype ChatMessage = ChatMessage(sender: Sender, text: string, actions: Option<seq<Action>>)

  datatype ContentKind = Article | Demo

  datatype DemoId = MintNFTDemo | DaoVotingDemo | TokenSwapDemo

  /** An item of the learning hub: an article (with optional full text) or an interactive demo. */
  datatype Content = Content(
    id: string,
    title: string,
    description: string,
    category: string,
    imageUrl: string,
    kind: ContentKind,
    demoComponent: Option<DemoId>,
    fullContent: Option<string>)

  /** A membership tier of the Inner Circle. */
  datatype ServiceTier = ServiceTier(
    name: string,
    price: string,
    description: string,
    features: seq<string>,
    isFeatured: bool,
    gumroadLink: string)

  datatype ResourceKind = Template | EBook | Checklist | Guide

  /** A downloadable resource of the learning hub. */
  datatype Resource = Resource(id: string, title: string, description: string, kind: ResourceKind, imageUrl: string)

  datatype CourseModule = CourseModule(title: string, description: string)

  datatype CourseKind = Free | Paid

  datatype Difficulty = Beginner | Intermediate | Advanced

  datatype Audience = NonTechnical | Technical

  /** The optional `nextSteps` block of a course. */
  datatype NextStepsInfo = NextStepsInfo(recommendedCourseId: Option<string>)

  /** A course; `price` and `gumroadLink` are only meant for paid courses, `nextSteps` only for free ones. */
  datatype Course = Course(
    id: string,
    title: string,
    subtitle: string,
    description: string,
    kind: CourseKind,
    price: Option<string>,
    gumroadLink: Option<string>,
    difficulty: Difficulty,
    audience: Audience,
    imageUrl: string,
    modules: seq<CourseModule>,
    nextSteps: Option<NextStepsInfo>)

  /** A captured lead: what the visitor typed plus a generated id and capture time. */
  datatype Lead = Lead(id: string, name: string, email: string, phone: string, capturedAt: string)

  /** What the gate form collects before a lead is created. */
  datatype LeadInput = LeadInput(name: string, email: string, phone: string)

  /** A post of the LinkedIn feed on the home page. */
  datatype LinkedInPost = LinkedInPost(id: int, content: string, timestamp: string, likes: int, comments: int, shares: int)

  datatype AboutMeData = AboutMeData(headline: string, bio1: string, bio2: string, imageUrl: string)

  datatype EbookPromoData = EbookPromoData(headline: string, description: string, imageUrl: string, cta: string)

  /** The text of a promotional block: the courses and membership promotions and the LinkedIn feed header. */
  datatype PromoData = PromoData(headline: string, description: string, cta: string)

  /** The editable copy of the home page. */
  datatype HomepageData = HomepageData(
    aboutMe: AboutMeData,
    ebookPromo: EbookPromoData,
    coursesPromo: PromoData,
    membershipPromo: PromoData,
    linkedInFeed: PromoData)

  datatype TermsSection = TermsSection(title: string, content: string)

  datatype TermsOfService = TermsOfService(title: string, lastUpdated: string, introduction: string, sections: seq<TermsSection>)

  /** JavaScript truthiness of an optional string: present and not empty. */
  predicate Truthy(o: Option<string>)
  {
    o.Some? && |o.value| > 0
  }
}
