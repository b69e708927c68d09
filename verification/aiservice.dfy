/**
 * The language-model calls of services/geminiService.ts. The model itself
 * is a parameter: whether a client exists (an API key was configured) and
 * what the call produced. Prompt wording is not modelled; each prompt's
 * context is modelled as the list of hub items it is built from.
 */
module AiService {
  import opened Wrappers
  import opened Strings
  import opened Types
  import opened Directives
  import Seqs

  /** What one call to the model produced: its text, or a thrown error. */
  datatype Outcome = Answered(text: string) | Failed

  const UnavailableText: string :=
    "I'm sorry, the AI service is currently unavailable because the API key is not configured. Please contact the site administrator."

  const ErrorText: string :=
    "I'm sorry, I encountered an error while processing your request. Please try again."

  /**
   * `sendMessageToAI`: never fails. Without a client, and when the call
   * throws, the reply is a fixed apology without buttons; otherwise it is the
   * parsed model text.
   */
  function SendMessage(configured: bool, call: Outcome): (rep: Reply)
    ensures configured && call.Answered? ==> Trimmed(rep.text)
    ensures forall i :: 0 <= i < |rep.actions| ==> Button(rep.actions[i])
    ensures |rep.actions| > 0 ==> configured && call.Answered?
    ensures !configured ==> rep.text == UnavailableText
    ensures configured && call.Failed? ==> rep.text == ErrorText
  {
    if !configured then Reply(UnavailableText, [])
    else match call
      case Failed => Reply(ErrorText, [])
      case Answered(raw) => ParseReply(raw)
  }

  predicate IsArticle(c: Content)
  {
    c.kind == Article
  }

  /** An article whose full text is present and non-empty. */
  predicate HasBody(c: Content)
  {
    c.kind == Article && Truthy(c.fullContent)
  }

  /** The items the chat and the hub question prompts are built from. */
  function ChatContext(items: seq<Content>): (r: seq<Content>)
    ensures forall i :: 0 <= i < |r| ==> HasBody(r[i]) && r[i] in items
    ensures forall c :: c in items && HasBody(c) ==> c in r
  {
    Seqs.Filter(HasBody, items)
  }

  /** The items the learning-path prompt is built from: every article, with or without a body. */
  function PathContext(items: seq<Content>): (r: seq<Content>)
    ensures forall i :: 0 <= i < |r| ==> IsArticle(r[i]) && r[i] in items
    ensures forall c :: c in items && IsArticle(c) ==> c in r
  {
    Seqs.Filter(IsArticle, items)
  }

  /** The chat context is the learning-path context with the bodiless articles left out, in order. */
  lemma ChatContextWithinPath(items: seq<Content>)
    ensures ChatContext(items) == Seqs.Filter(HasBody, PathContext(items))
    ensures Seqs.IsSubseq(ChatContext(items), PathContext(items))
  {
    Seqs.FilterNarrow(HasBody, IsArticle, items);
    Seqs.FilterIsSubseq(HasBody, PathContext(items));
  }

  const HubAnswerFallback: string :=
    "Sorry, I encountered an error while analyzing the knowledge base. Please try asking in a different way."

  const LearningPathFallback: string :=
    "Sorry, I encountered an error while creating your learning path. Please try describing your goal differently."

  const MembershipFallback: string :=
    "I was unable to generate a recommendation. Please review the tiers and choose the one that best fits your strategic needs."

  const RoadmapFallback: string :=
    "Your first step is non-negotiable: download **My Web3 Leader's Playbook** in the Intelligence Core."

  /**
   * The shape shared by `getAIAnswerFromHub`, `getAILearningPath`,
   * `getMembershipRecommendation` and `getAIRoadmap`: the promise rejects
   * (`None`) exactly when there is no client; a failed call resolves to the
   * fixed fallback.
   */
  function AskOr(configured: bool, call: Outcome, fallback: string): (r: Option<string>)
    ensures r.None? <==> !configured
    ensures r.Some? ==> r.value == fallback || (call.Answered? && r.value == call.text)
    ensures r.Some? && call.Failed? ==> r.value == fallback
  {
    if !configured then None
    else match call
      case Failed => Some(fallback)
      case Answered(text) => Some(text)
  }

  function HubAnswer(configured: bool, call: Outcome): Option<string>
  {
    AskOr(configured, call, HubAnswerFallback)
  }

  function LearningPath(configured: bool, call: Outcome): Option<string>
  {
    AskOr(configured, call, LearningPathFallback)
  }

  function MembershipAdvice(configured: bool, call: Outcome): Option<string>
  {
    AskOr(configured, call, MembershipFallback)
  }

  function Roadmap(configured: bool, call: Outcome): Option<string>
  {
    AskOr(configured, call, RoadmapFallback)
  }

  /** Once a client exists, the roadmap request always resolves, to the model's sentence or to the fixed one. */
  lemma RoadmapResolves(call: Outcome)
    ensures Roadmap(true, call).Some?
    ensures call.Failed? ==> Roadmap(true, call) == Some(RoadmapFallback)
  {
  }

  /**
   * `getAIStrategyBrief`: unlike the others it has no fallback; it rejects
   * both without a client and when the call fails.
   */
  function StrategyBrief(configured: bool, call: Outcome): (r: Option<string>)
    ensures r.Some? <==> configured && call.Answered?
    ensures r.Some? ==> r.value == call.text
  {
    if configured && call.Answered? then Some(call.text) else None
  }
}
