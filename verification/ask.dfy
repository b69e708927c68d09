/**
 * The request-and-answer pattern shared by the hero's roadmap generator
 * (components/Hero.tsx), the membership advisor (components/ServicesSection.tsx)
 * and the hub's knowledge assistant (components/LearningHubSection.tsx): a
 * submit sets `isLoading` and clears the previous answer, and the awaited
 * result, once it arrives, becomes the new answer and clears `isLoading`.
 * None of the handlers catches a rejection, so a rejected request leaves the
 * form waiting for good.
 */
module Ask {
  import opened Wrappers
  import AiService

  /** Whether an answer is pending, and the answer shown (`""` for none). */
  datatype Pending = Pending(loading: bool, answer: string)

  const Idle: Pending := Pending(false, "")

  /** A request goes out: the old answer disappears and the form waits. */
  function Start(p: Pending): (r: Pending)
    ensures r.loading && r.answer == []
  {
    Pending(true, "")
  }

  /**
   * The awaited request settles: a resolved value becomes the answer and the
   * form stops waiting; a rejection (`None`) escapes the handler and changes
   * nothing.
   */
  function Finish(p: Pending, result: Option<string>): (r: Pending)
    ensures result.Some? ==> !r.loading && r.answer == result.value
    ensures result.None? ==> r == p
  {
    match result
    case Some(text) => Pending(false, text)
    case None => p
  }

  /** The answer panel shows text only when an answer is there and nothing is pending. */
  predicate Shown(p: Pending)
  {
    |p.answer| > 0 && !p.loading
  }

  /**
   * A request to one of the model helpers with a fallback: with a client the
   * form always stops waiting and shows the model's text or the fallback;
   * without one it waits forever and shows nothing.
   */
  lemma AskSettles(p: Pending, configured: bool, call: AiService.Outcome, fallback: string)
    ensures var r := Finish(Start(p), AiService.AskOr(configured, call, fallback));
      (r.loading <==> !configured)
      && (configured ==> r.answer == fallback || (call.Answered? && r.answer == call.text))
      && (!configured ==> !Shown(r))
  {
  }
}
