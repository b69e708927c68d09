/**
 * The strategy-session booking flow of components/BookingSection.tsx: the
 * visitor describes a challenge, the assistant drafts a brief, the visitor
 * reviews it and then sends the request form.
 */
module Booking {
  import opened Wrappers
  import opened Strings
  import AiService
  import Markup

  /** The fewest characters, after trimming, that the description may have. */
  const MinObjective: nat := 20

  datatype Step = Initial | Analyzing | Summary | Form

  /** The message under the description or the brief; `NoNotice` is the empty string. */
  datatype Notice = NoNotice | TooShort | BriefFailed

  function Message(n: Notice): string
  {
    match n
    case NoNotice => ""
    case TooShort => "Please provide a more detailed description (at least 20 characters)."
    case BriefFailed => "My AI assistant could not generate a brief, but you can proceed with your original description."
  }

  datatype Booking = Booking(step: Step, objective: string, aiBrief: string, notice: Notice, submitted: bool)

  const Init: Booking := Booking(Initial, "", "", NoNotice, false)

  /** The first step with a description typed in and nothing else done. */
  function Described(objective: string): Booking
  {
    Booking(Initial, objective, "", NoNotice, false)
  }

  /** Whether the description is long enough to analyse. */
  predicate Detailed(objective: string)
  {
    |Trim(objective)| >= MinObjective
  }

  /**
   * The first half of `handleAnalyze`: a description shorter than twenty
   * characters after trimming stays on the first step with the warning;
   * otherwise the warning is cleared and the brief is being prepared.
   */
  function Analyze(b: Booking): (r: Booking)
    ensures r.objective == b.objective && r.aiBrief == b.aiBrief && r.submitted == b.submitted
    ensures !Detailed(b.objective) ==> r.step == b.step && r.notice == TooShort
    ensures Detailed(b.objective) ==> r.step == Analyzing && r.notice == NoNotice
  {
    if !Detailed(b.objective) then b.(notice := TooShort)
    else b.(notice := NoNotice, step := Analyzing)
  }

  /**
   * The second half of `handleAnalyze`, once `getAIStrategyBrief` settles:
   * the brief is the reply, or, when the request rejects, the visitor's own
   * description with a notice saying so. The summary shows either way.
   */
  function Resolve(b: Booking, brief: Option<string>): (r: Booking)
    ensures r.step == Summary && r.objective == b.objective && r.submitted == b.submitted
    ensures brief.Some? ==> r.aiBrief == brief.value && r.notice == b.notice
    ensures brief.None? ==> r.aiBrief == b.objective && r.notice == BriefFailed
  {
    match brief
    case Some(text) => b.(aiBrief := text, step := Summary)
    case None => b.(aiBrief := b.objective, notice := BriefFailed, step := Summary)
  }

  /** What the visitor can do, and how the brief request settles. */
  datatype Event =
    | Type(text: string)
    | AnalyzeClicked
    | BriefSettled(configured: bool, call: AiService.Outcome)
    | EditObjective
    | Proceed
    | SubmitRequest

  /**
   * One transition. An event whose control is not on the current screen
   * changes nothing: typing and analysing belong to the first step, the
   * brief settles only while it is being prepared, editing and proceeding
   * belong to the summary, and submitting to the form. After a submission
   * only the confirmation is shown.
   */
  function Next(b: Booking, e: Event): (r: Booking)
    ensures b.submitted ==> r == b
  {
    if b.submitted then b
    else match e
      case Type(text) => if b.step == Initial then b.(objective := text) else b
      case AnalyzeClicked => if b.step == Initial then Analyze(b) else b
      case BriefSettled(configured, call) =>
        if b.step == Analyzing then Resolve(b, AiService.StrategyBrief(configured, call)) else b
      case EditObjective => if b.step == Summary then b.(step := Initial, notice := NoNotice) else b
      case Proceed => if b.step == Summary then b.(step := Form) else b
      case SubmitRequest => if b.step == Form then b.(submitted := true) else b
  }

  function Run(b: Booking, es: seq<Event>): Booking
    decreases |es|
  {
    if |es| == 0 then b else Run(Next(b, es[0]), es[1..])
  }

  /**
   * What every reachable state satisfies: past the first step the
   * description is long enough; a brief is never being prepared under a
   * notice; the length warning only shows on the first step; and the
   * failure notice only with the description standing in as the brief.
   */
  predicate Consistent(b: Booking)
  {
    (b.step != Initial ==> Detailed(b.objective))
    && (b.step == Analyzing ==> b.notice == NoNotice)
    && (b.notice == TooShort ==> b.step == Initial)
    && (b.notice == BriefFailed ==> (b.step == Summary || b.step == Form) && b.aiBrief == b.objective)
    && (b.submitted ==> b.step == Form)
  }

  lemma InitConsistent()
    ensures Consistent(Init)
  {
  }

  lemma NextConsistent(b: Booking, e: Event)
    requires Consistent(b)
    ensures Consistent(Next(b, e))
  {
  }

  /** Every state reached from the first render is consistent. */
  lemma {:induction false} RunConsistent(b: Booking, es: seq<Event>)
    requires Consistent(b)
    ensures Consistent(Run(b, es))
    decreases |es|
  {
    if |es| > 0 {
      NextConsistent(b, es[0]);
      RunConsistent(Next(b, es[0]), es[1..]);
    }
  }

  /** A request, once sent, stays sent: later events change nothing. */
  lemma {:induction false} SubmittedIsFinal(b: Booking, es: seq<Event>)
    requires b.submitted
    ensures Run(b, es) == b
    decreases |es|
  {
    if |es| > 0 {
      SubmittedIsFinal(Next(b, es[0]), es[1..]);
    }
  }

  /**
   * What `renderStep` shows, or the confirmation once the request is sent.
   * A warning is shown as its `Message`, and `NoNotice` shows nothing.
   */
  datatype Screen =
    | Confirmation
    | DescribeScreen(objective: string, warning: Notice)
    | PreparingScreen
    | SummaryScreen(brief: string, warning: Notice)
    | FormScreen(brief: string)

  function Render(b: Booking): (r: Screen)
    ensures r == Confirmation <==> b.submitted
    ensures r.FormScreen? ==> r.brief == Markup.Brief(b.aiBrief) && |r.brief| <= |b.aiBrief|
  {
    if b.submitted then Confirmation
    else match b.step
      case Initial => DescribeScreen(b.objective, b.notice)
      case Analyzing => PreparingScreen
      case Summary => SummaryScreen(b.aiBrief, b.notice)
      case Form => FormScreen(Markup.Brief(b.aiBrief))
  }

  /**
   * When the brief request fails the summary shows the visitor's own
   * description under the failure notice, and the request form carries the
   * description with emphasis and bullet markers taken out.
   */
  lemma FailedBriefFallsBack(objective: string, call: AiService.Outcome, configured: bool)
    requires Detailed(objective)
    requires !(configured && call.Answered?)
    ensures Render(Next(Next(Described(objective), AnalyzeClicked), BriefSettled(configured, call)))
      == SummaryScreen(objective, BriefFailed)
    ensures Render(Next(Next(Next(Described(objective), AnalyzeClicked), BriefSettled(configured, call)), Proceed))
      == FormScreen(Markup.Brief(objective))
  {
    var b1 := Next(Described(objective), AnalyzeClicked);
    assert b1 == Booking(Analyzing, objective, "", NoNotice, false);
    var b2 := Next(b1, BriefSettled(configured, call));
    assert b2 == Booking(Summary, objective, objective, BriefFailed, false);
    var b3 := Next(b2, Proceed);
    assert b3 == Booking(Form, objective, objective, BriefFailed, false);
    assert Render(b2) == SummaryScreen(objective, BriefFailed);
    assert Render(b3) == FormScreen(Markup.Brief(objective));
  }

  /** A description too short to analyse keeps the visitor on the first step with the warning. */
  lemma ShortObjectiveStays(b: Booking)
    requires !b.submitted && b.step == Initial && !Detailed(b.objective)
    ensures Render(Next(b, AnalyzeClicked)) == DescribeScreen(b.objective, TooShort)
  {
  }

  /**
   * "Edit My Objective" goes back to the first step with the description as
   * typed and no notice, so analysing it again prepares a new brief.
   */
  lemma EditReturnsToDescription(b: Booking)
    requires Consistent(b) && !b.submitted && b.step == Summary
    ensures var r := Next(b, EditObjective);
      Render(r) == DescribeScreen(b.objective, NoNotice)
      && Next(r, AnalyzeClicked).step == Analyzing
  {
  }
}
