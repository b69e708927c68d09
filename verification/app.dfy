/**
 * The application shell of App.tsx: which screen is shown, the data loaded
 * at start-up, the course selections and the session unlock. Every
 * `setCurrentView` passed down to a child (the header, the hero, the chat,
 * the next-steps cards) is the one `Navigate` event.
 */
module App {
  import opened Wrappers
  import opened Types
  import Gate
  import CoursePage
  import LeadStore

  /** The collections fetched at start-up. */
  datatype Collections = Collections(
    learn: seq<Content>,
    resources: seq<Resource>,
    courses: seq<Course>,
    leads: seq<Lead>,
    tiers: seq<ServiceTier>,
    posts: seq<LinkedInPost>)

  const NoData: Collections := Collections([], [], [], [], [], [])

  datatype AppState = AppState(
    view: View,
    loading: bool,
    data: Collections,
    home: Option<HomepageData>,
    terms: Option<TermsOfService>,
    termsVisible: bool,
    unlocked: bool,
    selected: Option<Course>,
    active: Option<Course>)

  /** The first render: the home view, loading, nothing fetched, nothing unlocked or selected. */
  const Init: AppState := AppState(Home, true, NoData, None, None, false, false, None, None)

  /** The outcomes of the eight start-up fetches; `None` is a rejection. */
  datatype Batch = Batch(
    learn: Option<seq<Content>>,
    resources: Option<seq<Resource>>,
    courses: Option<seq<Course>>,
    leads: Option<seq<Lead>>,
    tiers: Option<seq<ServiceTier>>,
    posts: Option<seq<LinkedInPost>>,
    home: Option<HomepageData>,
    terms: Option<TermsOfService>)

  /** Whether every fetch resolved, so that `Promise.all` resolves. */
  predicate Arrived(b: Batch)
  {
    b.learn.Some? && b.resources.Some? && b.courses.Some? && b.leads.Some?
    && b.tiers.Some? && b.posts.Some? && b.home.Some? && b.terms.Some?
  }

  /**
   * `loadAppData`: all eight results are stored together, or, if any fetch
   * rejects, none is; either way loading ends. Nothing else changes.
   */
  function Load(s: AppState, b: Batch): (r: AppState)
    ensures !r.loading
    ensures Arrived(b) ==> r.data == Collections(b.learn.value, b.resources.value, b.courses.value,
      b.leads.value, b.tiers.value, b.posts.value) && r.home == b.home && r.terms == b.terms
    ensures !Arrived(b) ==> r.data == s.data && r.home == s.home && r.terms == s.terms
    ensures r.view == s.view && r.unlocked == s.unlocked && r.termsVisible == s.termsVisible
    ensures r.selected == s.selected && r.active == s.active
  {
    if Arrived(b) then
      s.(data := Collections(b.learn.value, b.resources.value, b.courses.value, b.leads.value, b.tiers.value, b.posts.value),
         home := b.home, terms := b.terms, loading := false)
    else s.(loading := false)
  }

  /** `handleUnlock`'s outcome: the new state and whether the returned promise rejects. */
  datatype Unlock = Unlock(state: AppState, rejects: bool)

  /**
   * `handleUnlock`, given how `submitLead` settled: a returned lead is put in
   * front of the leads and unlocks the session; a rejection is caught and
   * changes nothing. Either way the handler's own promise resolves.
   */
  function HandleUnlock(s: AppState, submitted: Option<Lead>): (r: Unlock)
    ensures !r.rejects
    ensures submitted.None? ==> r.state == s
    ensures submitted.Some? ==> r.state.unlocked && r.state.data.leads == [submitted.value] + s.data.leads
    ensures submitted.Some? ==>
      (r.state.data.learn == s.data.learn && r.state.data.courses == s.data.courses
       && r.state.view == s.view && r.state.home == s.home && r.state.loading == s.loading
       && r.state.selected == s.selected && r.state.active == s.active)
  {
    match submitted
    case None => Unlock(s, false)
    case Some(lead) => Unlock(s.(data := s.data.(leads := [lead] + s.data.leads), unlocked := true), false)
  }

  datatype Event =
    | Navigate(view: View)
    | SelectCourse(course: Course)
    | StartFreeCourse(course: Course)
    | ExitCourse
    | UnlockSettled(submitted: Option<Lead>)
    | ShowTerms
    | HideTerms

  /** One transition of the shell. */
  function Next(s: AppState, e: Event): (r: AppState)
    ensures r.home == s.home && r.loading == s.loading && r.terms == s.terms
  {
    match e
    case Navigate(v) => s.(view := v)
    case SelectCourse(c) => s.(selected := Some(c), view := CourseDetail)
    case StartFreeCourse(c) => s.(active := Some(c), view := TakingCourse)
    case ExitCourse => s.(selected := None, active := None, view := Courses)
    case UnlockSettled(submitted) => HandleUnlock(s, submitted).state
    case ShowTerms => s.(termsVisible := true)
    case HideTerms => s.(termsVisible := false)
  }

  function Run(s: AppState, es: seq<Event>): AppState
    decreases |es|
  {
    if |es| == 0 then s else Run(Next(s, es[0]), es[1..])
  }

  /** What `renderContent` puts in the main area. */
  datatype Screen =
    | Skeleton
    | HomePage
    | HubPage(unlocked: bool)
    | CoursesPage
    | CourseDetailPage(course: Course)
    | TakingCoursePage(course: Course)
    | ServicesPage
    | BookingPage
    | AdminPage(leads: seq<Lead>)
    | Blank

  /** The data is in: loading is over and the home-page copy is present. */
  predicate Loaded(s: AppState)
  {
    !s.loading && s.home.Some?
  }

  /**
   * `renderContent`: the skeleton whenever loading or the home-page copy is
   * missing, whatever the view; the detail and course views render nothing
   * when their course is missing.
   */
  function Render(s: AppState): (r: Screen)
    ensures r == Skeleton <==> !Loaded(s)
    ensures r == Blank <==>
      (Loaded(s) && ((s.view == CourseDetail && s.selected.None?) || (s.view == TakingCourse && s.active.None?)))
  {
    if !Loaded(s) then Skeleton
    else match s.view
      case Home => HomePage
      case Hub => HubPage(s.unlocked)
      case Courses => CoursesPage
      case CourseDetail => if s.selected.Some? then CourseDetailPage(s.selected.value) else Blank
      case TakingCourse => if s.active.Some? then TakingCoursePage(s.active.value) else Blank
      case Services => ServicesPage
      case Book => BookingPage
      case Admin => AdminPage(s.data.leads)
  }

  /** The terms dialog is shown when asked for and the terms were loaded. */
  function TermsDialog(s: AppState): (r: Option<TermsOfService>)
    ensures r.Some? <==> s.termsVisible && s.terms.Some?
  {
    if s.termsVisible then s.terms else None
  }

  /** `handleSelectCourse`: the detail page of that course, with nothing else changed. */
  lemma SelectShowsDetail(s: AppState, c: Course)
    ensures var r := Next(s, SelectCourse(c));
      (Loaded(s) ==> Render(r) == CourseDetailPage(c))
      && r.active == s.active && r.unlocked == s.unlocked && r.data == s.data && r.termsVisible == s.termsVisible
  {
  }

  /** `handleStartFreeCourse`: the course player for that course; the earlier selection is kept. */
  lemma StartShowsCourse(s: AppState, c: Course)
    ensures var r := Next(s, StartFreeCourse(c));
      (Loaded(s) ==> Render(r) == TakingCoursePage(c))
      && r.selected == s.selected && r.unlocked == s.unlocked && r.data == s.data
  {
  }

  /**
   * `handleExitCourse`: back to the course list with both selections
   * cleared, so navigating to the detail or course view afterwards shows
   * nothing until a course is picked again.
   */
  lemma ExitShowsList(s: AppState)
    requires Loaded(s)
    ensures var r := Next(s, ExitCourse);
      Render(r) == CoursesPage
      && Render(Next(r, Navigate(CourseDetail))) == Blank
      && Render(Next(r, Navigate(TakingCourse))) == Blank
      && r.unlocked == s.unlocked && r.data == s.data
  {
  }

  /**
   * Enrolling from the detail page: for a free course the enrol button leads
   * to the course player for the same course; for any other course the shell
   * is not involved.
   */
  lemma EnrollFromDetail(s: AppState, c: Course)
    requires Loaded(s) && s.view == CourseDetail && s.selected == Some(c)
    ensures CoursePage.Enroll(c).StartCourse? ==>
      Render(Next(s, StartFreeCourse(CoursePage.Enroll(c).course))) == TakingCoursePage(c)
    ensures c.kind == Free <==> CoursePage.Enroll(c).StartCourse?
  {
  }

  /** No event ever locks the session again once it is unlocked. */
  lemma {:induction false} UnlockIsPermanent(s: AppState, es: seq<Event>)
    requires s.unlocked
    ensures Run(s, es).unlocked
    decreases |es|
  {
    if |es| > 0 {
      UnlockIsPermanent(Next(s, es[0]), es[1..]);
    }
  }

  /** No event touches the loading flag or the home-page copy. */
  lemma {:induction false} RunKeepsLoad(s: AppState, es: seq<Event>)
    ensures Run(s, es).home == s.home && Run(s, es).loading == s.loading
    decreases |es|
  {
    if |es| > 0 {
      RunKeepsLoad(Next(s, es[0]), es[1..]);
    }
  }

  /**
   * A failed start-up load leaves every collection empty and the home-page
   * copy missing, so the skeleton shows after any later events: there is no
   * error screen and no retry.
   */
  lemma FailedLoadShowsSkeleton(b: Batch, es: seq<Event>)
    requires !Arrived(b)
    ensures Load(Init, b).data == NoData
    ensures Render(Run(Load(Init, b), es)) == Skeleton
  {
    RunKeepsLoad(Load(Init, b), es);
  }

  /**
   * The gate's retry path cannot be reached through the shell: the unlock
   * handler never rejects, so after a submit the gate's button stays
   * disabled. If the lead was not stored, the session also stays locked,
   * and the hub keeps showing that disabled gate.
   */
  lemma GateStaysDisabled(g: Gate.GateForm, s: AppState, submitted: Option<Lead>)
    requires Gate.CanSubmit(g)
    ensures Gate.Settle(Gate.Submit(g).form, HandleUnlock(s, submitted).rejects).submitting
    ensures submitted.None? ==>
      (HandleUnlock(s, submitted).state.unlocked == s.unlocked && Render(HandleUnlock(s, submitted).state) == Render(s))
  {
  }

  /**
   * The shell's lead list follows the stored log: if they agree before a
   * submission with working storage, they agree after it.
   */
  lemma LeadsFollowStore(s: AppState, store: LeadStore.Store, input: LeadInput, id: string, capturedAt: string)
    requires s.data.leads == LeadStore.GetLeads(store, false)
    ensures var added := LeadStore.AddLead(store, input, id, capturedAt, false, false);
      Next(s, UnlockSettled(Some(added.lead))).data.leads == LeadStore.GetLeads(added.store, false)
  {
  }
}
