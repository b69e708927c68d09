/**
 * The learning hub screen of components/LearningHubSection.tsx with the
 * article page of components/ContentDetail.tsx and the hub's knowledge
 * assistant: which of the gate, an article page or the grid is shown, and
 * the demo overlay.
 */
module Hub {
  import opened Wrappers
  import opened Seqs
  import opened Strings
  import opened Types
  import opened Ask
  import AiService
  import Listings
  import Markup

  /** The interactive component `renderDemo` mounts for each demo id. */
  datatype DemoPanel = MintPanel | DaoPanel | SwapPanel

  /** `renderDemo`: each demo id to its own component, and nothing when no demo is active. */
  function RenderDemo(d: Option<DemoId>): (r: Option<DemoPanel>)
    ensures r.Some? <==> d.Some?
    ensures r == Some(MintPanel) <==> d == Some(MintNFTDemo)
    ensures r == Some(DaoPanel) <==> d == Some(DaoVotingDemo)
    ensures r == Some(SwapPanel) <==> d == Some(TokenSwapDemo)
  {
    match d
    case None => None
    case Some(MintNFTDemo) => Some(MintPanel)
    case Some(DaoVotingDemo) => Some(DaoPanel)
    case Some(TokenSwapDemo) => Some(SwapPanel)
  }

  /** What the article page shows below the title. */
  datatype DetailBody =
    | ArticleBody(html: string)
    | DemoLauncher(demo: Option<DemoId>)
    | NoBody

  /**
   * ContentDetail: an article with a non-empty full text shows it as
   * paragraphs; a demo shows its description and a launch button carrying
   * its demo id; an article without text shows neither.
   */
  function Detail(c: Content): (r: DetailBody)
    ensures r.ArticleBody? <==> c.kind == Article && Truthy(c.fullContent)
    ensures r.ArticleBody? ==> '\n' !in r.html
    ensures r.DemoLauncher? <==> c.kind == Demo
    ensures r.DemoLauncher? ==> r.demo == c.demoComponent
  {
    if c.kind == Article && Truthy(c.fullContent) then ArticleBody(Markup.Paragraphs(c.fullContent.value))
    else if c.kind == Demo then DemoLauncher(c.demoComponent)
    else NoBody
  }

  /** The hub's own state: the active demo, the opened item, the search text and the category. */
  datatype HubState = HubState(demo: Option<DemoId>, openId: Option<string>, query: string, category: string)

  const Init: HubState := HubState(None, None, "", Listings.AllLabel)

  datatype HubEvent =
    | Search(text: string)
    | PickCategory(category: string)
    | OpenCard(id: string)
    | Back
    | Launch(demo: Option<DemoId>)
    | CloseDemo

  function Next(s: HubState, e: HubEvent): (r: HubState)
    ensures e.Back? ==> r.openId.None? && r.demo == s.demo
    ensures e.OpenCard? ==> r.openId == Some(e.id) && r.demo == s.demo
    ensures e.Launch? ==> r.demo == e.demo && r.openId == s.openId
    ensures e.CloseDemo? ==> r.demo.None? && r.openId == s.openId
  {
    match e
    case Search(text) => s.(query := text)
    case PickCategory(c) => s.(category := c)
    case OpenCard(id) => s.(openId := Some(id))
    case Back => s.(openId := None)
    case Launch(d) => s.(demo := d)
    case CloseDemo => s.(demo := None)
  }

  function HasId(id: string): Content -> bool
  {
    (c: Content) => c.id == id
  }

  /** `selectedContent`: the first item with the opened id; none while nothing is opened. */
  function OpenedItem(s: HubState, items: seq<Content>): (r: Option<Content>)
    ensures r.Some? ==> s.openId.Some? && r.value.id == s.openId.value && r.value in items
    ensures s.openId.Some? && (exists i :: 0 <= i < |items| && items[i].id == s.openId.value) ==> r.Some?
  {
    match s.openId
    case None => None
    case Some(id) => Find(HasId(id), items)
  }

  /** What the hub renders. */
  datatype Screen =
    | GateScreen
    | DetailScreen(item: Content, body: DetailBody, overlay: Option<DemoPanel>)
    | GridScreen(overlay: Option<DemoPanel>, featured: Option<Resource>, categories: seq<string>, cards: seq<Content>, more: seq<Resource>)

  /** The grid: the overlay, the featured first resource, the filter buttons, the cards and the other resources. */
  function Grid(s: HubState, items: seq<Content>, resources: seq<Resource>): (r: Screen)
    ensures r.GridScreen?
    ensures r.overlay == RenderDemo(s.demo)
    ensures r.featured.Some? <==> |resources| > 0
    ensures r.featured.Some? ==> r.featured.value == resources[0] && r.more == resources[1..]
    ensures r.featured.None? ==> r.more == []
    ensures r.cards == Listings.HubFilter(items, s.category, s.query)
  {
    GridScreen(
      RenderDemo(s.demo),
      if |resources| > 0 then Some(resources[0]) else None,
      Listings.Categories(items),
      Listings.HubFilter(items, s.category, s.query),
      if |resources| > 0 then resources[1..] else [])
  }

  /**
   * The hub as written: the gate while locked, whatever else is set; when
   * unlocked, an opened item's page takes precedence over the grid, and
   * only the grid draws the demo overlay.
   */
  function RenderAsWritten(s: HubState, items: seq<Content>, resources: seq<Resource>, unlocked: bool): (r: Screen)
    ensures !unlocked <==> r.GateScreen?
    ensures r.DetailScreen? <==> unlocked && OpenedItem(s, items).Some?
    ensures r.DetailScreen? ==> r.item == OpenedItem(s, items).value && r.body == Detail(r.item) && r.overlay.None?
  {
    if !unlocked then GateScreen
    else match OpenedItem(s, items)
      case Some(c) => DetailScreen(c, Detail(c), None)
      case None => Grid(s, items, resources)
  }

  /**
   * The hub with the demo overlay drawn over the article page as well as
   * over the grid, so that the launch button on a demo's page shows the
   * demo. Otherwise the same as `RenderAsWritten`.
   */
  function Render(s: HubState, items: seq<Content>, resources: seq<Resource>, unlocked: bool): (r: Screen)
    ensures !unlocked <==> r.GateScreen?
    ensures r.DetailScreen? <==> unlocked && OpenedItem(s, items).Some?
    ensures r.DetailScreen? ==> r.item == OpenedItem(s, items).value && r.body == Detail(r.item)
    ensures !r.GateScreen? ==> r.overlay == RenderDemo(s.demo)
  {
    if !unlocked then GateScreen
    else match OpenedItem(s, items)
      case Some(c) => DetailScreen(c, Detail(c), RenderDemo(s.demo))
      case None => Grid(s, items, resources)
  }

  /** The two renderings differ only in the overlay of the article page. */
  lemma RenderFixesOnlyOverlay(s: HubState, items: seq<Content>, resources: seq<Resource>, unlocked: bool)
    ensures var w, f := RenderAsWritten(s, items, resources, unlocked), Render(s, items, resources, unlocked);
      (w.DetailScreen? ==> f == DetailScreen(w.item, w.body, RenderDemo(s.demo)))
      && (!w.DetailScreen? ==> f == w)
  {
  }

  /** A demo item whose page is open, with its launch button, in an unlocked hub. */
  predicate DemoPageOpen(s: HubState, items: seq<Content>, unlocked: bool)
  {
    unlocked && OpenedItem(s, items).Some? && Detail(OpenedItem(s, items).value).DemoLauncher?
  }

  /**
   * As written, pressing "Launch Interactive Demo" on a demo's page shows
   * nothing new: the page stays and the overlay only appears once the
   * visitor goes back to the grid.
   */
  lemma LaunchHiddenAsWritten(s: HubState, items: seq<Content>, resources: seq<Resource>, unlocked: bool)
    requires DemoPageOpen(s, items, unlocked)
    ensures var d := Detail(OpenedItem(s, items).value).demo;
      var t := Next(s, Launch(d));
      RenderAsWritten(t, items, resources, unlocked) == RenderAsWritten(s, items, resources, unlocked)
      && RenderAsWritten(t, items, resources, unlocked).overlay.None?
      && RenderAsWritten(Next(t, Back), items, resources, unlocked).overlay == RenderDemo(d)
  {
  }

  /** A concrete case: the page of the NFT demo, launched, still shows no demo. */
  lemma LaunchHiddenExample()
    ensures var c := Content("3", "Mint", "", "Web3", "", Demo, Some(MintNFTDemo), None);
      var s := HubState(None, Some("3"), "", Listings.AllLabel);
      var t := Next(s, Launch(c.demoComponent));
      RenderAsWritten(t, [c], [], true).DetailScreen? && RenderAsWritten(t, [c], [], true).overlay.None?
  {
    var c := Content("3", "Mint", "", "Web3", "", Demo, Some(MintNFTDemo), None);
    assert [c][0].id == "3";
  }

  /** With the overlay drawn over the page, launching a demo shows that demo at once. */
  lemma LaunchShowsDemo(s: HubState, items: seq<Content>, resources: seq<Resource>, unlocked: bool)
    requires DemoPageOpen(s, items, unlocked)
    ensures var c := OpenedItem(s, items).value;
      var t := Next(s, Launch(Detail(c).demo));
      Render(t, items, resources, unlocked).DetailScreen?
      && Render(t, items, resources, unlocked).item == c
      && Render(t, items, resources, unlocked).overlay == RenderDemo(c.demoComponent)
      && (c.demoComponent.Some? ==> Render(t, items, resources, unlocked).overlay.Some?)
  {
  }

  /** No two items share an id. */
  predicate DistinctIds(items: seq<Content>)
  {
    forall i, j :: 0 <= i < j < |items| ==> items[i].id != items[j].id
  }

  /** With distinct ids, looking an item up by its id finds that item. */
  lemma FindById(items: seq<Content>, k: nat)
    requires DistinctIds(items) && k < |items|
    ensures Find(HasId(items[k].id), items) == Some(items[k])
  {
    var p := HasId(items[k].id);
    assert p(items[k]);
    var i := FindIndex(p, items).value;
    assert items[i].id == items[k].id;
  }

  /**
   * Opening a card shows that card's page, provided the item ids are
   * distinct (otherwise the first item with the same id is shown).
   */
  lemma OpenCardShowsItem(s: HubState, items: seq<Content>, resources: seq<Resource>, k: nat)
    requires DistinctIds(items) && k < |items|
    ensures Render(Next(s, OpenCard(items[k].id)), items, resources, true).DetailScreen?
    ensures Render(Next(s, OpenCard(items[k].id)), items, resources, true).item == items[k]
  {
    FindById(items, k);
  }

  /** The two tools of the knowledge assistant. */
  datatype Tool = Answer | LearningPath

  /**
   * The assistant: the chosen tool, the two inputs, the request, and the tool
   * whose handler sent the last request (the helper it awaits is fixed when
   * the form is submitted, whatever tab is showing when it settles).
   */
  datatype Assistant = Assistant(tool: Tool, query: string, pathGoal: string, pending: Pending, asked: Tool)

  const AssistantInit: Assistant := Assistant(Answer, "", "", Idle, Answer)

  /** Switching tools clears the answer but not the inputs, a pending request, nor the helper it awaits. */
  function SwitchTool(a: Assistant, t: Tool): (r: Assistant)
    ensures r.tool == t && r.pending.answer == [] && r.pending.loading == a.pending.loading
    ensures r.query == a.query && r.pathGoal == a.pathGoal && r.asked == a.asked
  {
    a.(tool := t, pending := a.pending.(answer := ""))
  }

  /** "Clear & Start New Query": both inputs and the answer emptied, nothing pending, the tool kept. */
  function Clear(a: Assistant): (r: Assistant)
    ensures r.tool == a.tool && r.query == [] && r.pathGoal == [] && !r.pending.loading && !Shown(r.pending)
  {
    Assistant(a.tool, "", "", Idle, a.asked)
  }

  /** The text the current tool sends. */
  function Input(a: Assistant): string
  {
    match a.tool
    case Answer => a.query
    case LearningPath => a.pathGoal
  }

  /**
   * Submitting the current tool's form: nothing for a blank input, nor while
   * a request is pending (the submit button is disabled); otherwise the old
   * answer disappears and the request goes out with the untrimmed input.
   */
  function Submit(a: Assistant): (r: Option<Assistant>)
    ensures r.Some? <==> Trim(Input(a)) != [] && !a.pending.loading
    ensures r.Some? ==>
      (r.value.pending.loading && r.value.pending.answer == []
       && r.value.tool == a.tool && r.value.query == a.query && r.value.pathGoal == a.pathGoal)
    ensures r.Some? ==> r.value.asked == a.tool
  {
    if Trim(Input(a)) == [] || a.pending.loading then None
    else Some(a.(pending := Start(a.pending), asked := a.tool))
  }

  /** The helper the pending request awaits: the one of the tool it was submitted from. */
  function Request(a: Assistant, configured: bool, call: AiService.Outcome): Option<string>
  {
    match a.asked
    case Answer => AiService.HubAnswer(configured, call)
    case LearningPath => AiService.LearningPath(configured, call)
  }

  /**
   * A submitted request with a client always settles and shows either the
   * model's text or the current tool's fallback; without one the panel
   * keeps its loading placeholder for good.
   */
  lemma AssistantSettles(a: Assistant, configured: bool, call: AiService.Outcome)
    requires Submit(a).Some?
    ensures var t := Submit(a).value;
      var r := t.(pending := Finish(t.pending, Request(t, configured, call)));
      (r.pending.loading <==> !configured)
      && (configured && call.Failed? && a.tool == Answer ==> r.pending.answer == AiService.HubAnswerFallback)
      && (configured && call.Failed? && a.tool == LearningPath ==> r.pending.answer == AiService.LearningPathFallback)
      && (configured && call.Answered? ==> r.pending.answer == call.text)
  {
  }

  /**
   * The tabs stay clickable while a request is pending: switching tools then
   * clears the panel but does not change which helper answers, so a
   * question's answer can land under the learning-path tab and the reverse.
   */
  lemma SwitchKeepsHelper(a: Assistant, t: Tool, configured: bool, call: AiService.Outcome)
    requires Submit(a).Some?
    ensures SwitchTool(Submit(a).value, t).pending.loading
    ensures Request(SwitchTool(Submit(a).value, t), configured, call) == Request(Submit(a).value, configured, call)
    ensures configured && call.Failed? && a.tool == Answer ==>
      Request(SwitchTool(Submit(a).value, LearningPath), configured, call) == Some(AiService.HubAnswerFallback)
  {
  }
}
