/**
 * The roadmap generator on the home page (components/Hero.tsx): a goal is
 * sent to the roadmap helper, and the one-sentence answer comes with a
 * "Let's Go" button whose target view is chosen by keywords in the answer.
 */
module Hero {
  import opened Wrappers
  import opened Strings
  import opened Types
  import opened Ask
  import AiService

  /** The goal typed so far and the roadmap request. */
  datatype HeroState = HeroState(goal: string, pending: Pending)

  const Init: HeroState := HeroState("", Idle)

  /** Typing; the field is disabled while a roadmap is being generated. */
  function Type(s: HeroState, text: string): (r: HeroState)
    ensures s.pending.loading ==> r == s
    ensures !s.pending.loading ==> r.goal == text && r.pending == s.pending
  {
    if s.pending.loading then s else s.(goal := text)
  }

  /**
   * Submitting the form: no request for a blank or whitespace-only goal, nor
   * while one is pending (the button is disabled); otherwise the roadmap is
   * cleared and the untrimmed goal goes out.
   */
  function Submit(s: HeroState): (r: Option<HeroState>)
    ensures r.Some? <==> Trim(s.goal) != [] && !s.pending.loading
    ensures r.Some? ==> r.value.goal == s.goal && r.value.pending.loading && r.value.pending.answer == []
  {
    if Trim(s.goal) == [] || s.pending.loading then None
    else Some(s.(pending := Start(s.pending)))
  }

  /** The keyword groups of `getActionForRoadmap`, in the order they are tried, with their targets. */
  const Rules: seq<(seq<string>, View)> := [
    (["Playbook", "Guide", "Intelligence Core"], Hub),
    (["Mastery Tracks", "Courses"], Courses),
    (["Inner Circle", "Memberships"], Services),
    (["Strategy Session"], Book)
  ]

  /** Whether `text` contains one of `words` (case-sensitive substring tests). */
  predicate AnyOf(text: string, words: seq<string>)
  {
    exists i :: 0 <= i < |words| && Contains(text, words[i])
  }

  /** The target of the first rule with a matching keyword, or the hub when none matches. */
  function FirstMatch(rules: seq<(seq<string>, View)>, text: string): View
    decreases |rules|
  {
    if |rules| == 0 then Hub
    else if AnyOf(text, rules[0].0) then rules[0].1
    else FirstMatch(rules[1..], text)
  }

  /** `getActionForRoadmap`: where the "Let's Go" button leads for a given roadmap sentence. */
  function RoadmapAction(text: string): (v: View)
    ensures v == Hub || v == Courses || v == Services || v == Book
    ensures Contains(text, "Playbook") || Contains(text, "Guide") || Contains(text, "Intelligence Core") ==> v == Hub
  {
    if Contains(text, "Playbook") || Contains(text, "Guide") || Contains(text, "Intelligence Core") then Hub
    else if Contains(text, "Mastery Tracks") || Contains(text, "Courses") then Courses
    else if Contains(text, "Inner Circle") || Contains(text, "Memberships") then Services
    else if Contains(text, "Strategy Session") then Book
    else Hub
  }

  /**
   * The keyword tests are a priority list: the button leads to the target of
   * the first group with a keyword in the text, and to the hub when no
   * group matches.
   */
  lemma RoadmapActionIsFirstMatch(text: string)
    ensures RoadmapAction(text) == FirstMatch(Rules, text)
    ensures (forall k :: 0 <= k < |Rules| ==> !AnyOf(text, Rules[k].0)) ==> RoadmapAction(text) == Hub
  {
    var g0, g1, g2, g3 := Rules[0].0, Rules[1].0, Rules[2].0, Rules[3].0;
    assert AnyOf(text, g0) <==> Contains(text, "Playbook") || Contains(text, "Guide") || Contains(text, "Intelligence Core") by {
      assert g0[0] == "Playbook" && g0[1] == "Guide" && g0[2] == "Intelligence Core";
    }
    assert AnyOf(text, g1) <==> Contains(text, "Mastery Tracks") || Contains(text, "Courses") by {
      assert g1[0] == "Mastery Tracks" && g1[1] == "Courses";
    }
    assert AnyOf(text, g2) <==> Contains(text, "Inner Circle") || Contains(text, "Memberships") by {
      assert g2[0] == "Inner Circle" && g2[1] == "Memberships";
    }
    assert AnyOf(text, g3) <==> Contains(text, "Strategy Session") by {
      assert g3[0] == "Strategy Session";
    }
    assert FirstMatch(Rules[4..], text) == Hub;
    assert Rules[1..][1..][1..][1..] == Rules[4..];
  }

  /** The "Let's Go" target, when the button is shown: a roadmap is there and nothing is pending. */
  function LetsGo(s: HeroState): (r: Option<View>)
    ensures r.Some? <==> Shown(s.pending)
    ensures r.Some? ==> r.value == RoadmapAction(s.pending.answer)
  {
    if Shown(s.pending) then Some(RoadmapAction(s.pending.answer)) else None
  }

  /**
   * A submitted goal with a client always ends with the form idle again; the
   * button then appears for any non-empty sentence. Without a client
   * `getAIRoadmap` rejects, the handler does not catch it, and the form shows
   * its loading placeholder for good.
   */
  lemma RoadmapRequest(s: HeroState, configured: bool, call: AiService.Outcome)
    requires Submit(s).Some?
    ensures var t := Submit(s).value;
      var r := t.(pending := Finish(t.pending, AiService.Roadmap(configured, call)));
      (r.pending.loading <==> !configured)
      && (!configured ==> LetsGo(r).None?)
      && (configured && call.Failed? ==> r.pending.answer == AiService.RoadmapFallback && LetsGo(r).Some?)
  {
  }
}
