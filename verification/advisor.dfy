/**
 * The membership advisor of components/ServicesSection.tsx: the visitor
 * toggles goals on and off and asks for a tier recommendation.
 */
module Advisor {
  import opened Wrappers
  import opened Seqs
  import opened Ask
  import AiService

  /** The goals offered as toggle buttons. */
  const GoalOptions: seq<string> := [
    "Master Web3 Fundamentals",
    "Build a Web3 Project",
    "Stay on the Cutting Edge",
    "Access Expert Frameworks",
    "Get My Personal Advice"
  ]

  /** The test the removal filters with: keep every goal other than `goal`. */
  function Other(goal: string): string -> bool
  {
    x => x != goal
  }

  /** `toggleGoal`: a selected goal is removed (every occurrence of it); an unselected one is added at the end. */
  function ToggleGoal(goals: seq<string>, g: string): (r: seq<string>)
    ensures g in r <==> g !in goals
    ensures forall x :: x != g ==> (x in r <==> x in goals)
    ensures g !in goals ==> r == goals + [g]
    ensures g in goals ==> IsSubseq(r, goals) && |r| < |goals|
  {
    if g in goals then
      FilterIsSubseq(Other(g), goals);
      var i :| 0 <= i < |goals| && goals[i] == g;
      FilterShorter(Other(g), goals, i);
      Filter(Other(g), goals)
    else goals + [g]
  }

  /** Toggling keeps the selection free of duplicates. */
  lemma ToggleKeepsDistinct(goals: seq<string>, g: string)
    requires NoDuplicates(goals)
    ensures NoDuplicates(ToggleGoal(goals, g))
  {
    if g in goals {
      FilterKeepsDistinct(Other(g), goals);
    }
  }

  /** Toggling an unselected goal twice gives back the original selection. */
  lemma ToggleTwiceAbsent(goals: seq<string>, g: string)
    requires g !in goals
    ensures ToggleGoal(ToggleGoal(goals, g), g) == goals
  {
    FilterConcat(Other(g), goals, [g]);
    assert Filter(Other(g), [g]) == [];
  }

  /** Toggling a selected goal twice, on a duplicate-free selection, keeps the same goals. */
  lemma ToggleTwiceSameGoals(goals: seq<string>, g: string)
    requires NoDuplicates(goals) && g in goals
    ensures multiset(ToggleGoal(ToggleGoal(goals, g), g)) == multiset(goals)
  {
    var i :| 0 <= i < |goals| && goals[i] == g;
    ToggleTwiceMoves(goals, i);
    MoveToEnd(goals[..i], g, goals[i + 1..]);
  }

  /**
   * Toggling a selected goal twice moves it to the end, so the original
   * order comes back exactly when it was already last.
   */
  lemma ToggleTwicePresent(goals: seq<string>, g: string)
    requires NoDuplicates(goals) && g in goals
    ensures ToggleGoal(ToggleGoal(goals, g), g) == goals <==> goals[|goals| - 1] == g
  {
    var i :| 0 <= i < |goals| && goals[i] == g;
    ToggleTwiceMoves(goals, i);
    assert goals[|goals| - 1] == g <==> i == |goals| - 1;
  }

  /** Toggling the goal at `i` twice moves it to the end. */
  lemma ToggleTwiceMoves(goals: seq<string>, i: nat)
    requires NoDuplicates(goals) && i < |goals|
    ensures ToggleGoal(ToggleGoal(goals, goals[i]), goals[i]) == goals[..i] + goals[i + 1..] + [goals[i]]
    ensures goals == goals[..i] + [goals[i]] + goals[i + 1..]
    ensures ToggleGoal(ToggleGoal(goals, goals[i]), goals[i]) == goals <==> i == |goals| - 1
  {
    ToggleRemoves(goals, i);
    var twice := goals[..i] + goals[i + 1..] + [goals[i]];
    if i == |goals| - 1 {
      assert twice == goals;
    } else {
      assert twice[|goals| - 1] == goals[i] != goals[|goals| - 1];
    }
  }

  /** Removing the one occurrence of a goal at `i` closes the gap. */
  lemma ToggleRemoves(goals: seq<string>, i: nat)
    requires NoDuplicates(goals) && i < |goals|
    ensures ToggleGoal(goals, goals[i]) == goals[..i] + goals[i + 1..]
  {
    var g := goals[i];
    var a, b := goals[..i], goals[i + 1..];
    assert goals == a + [g] + b;
    forall k | 0 <= k < |a|
      ensures Other(g)(a[k])
    {
      assert a[k] == goals[k];
    }
    forall k | 0 <= k < |b|
      ensures Other(g)(b[k])
    {
      assert b[k] == goals[i + 1 + k];
    }
    FilterAround(Other(g), a, g, b);
  }

  /** Moving one element to the end keeps the multiset. */
  lemma MoveToEnd<T>(a: seq<T>, x: T, b: seq<T>)
    ensures multiset(a + b + [x]) == multiset(a + [x] + b)
  {
    calc {
      multiset(a + b + [x]);
      multiset(a) + multiset(b) + multiset([x]);
      multiset(a) + multiset([x]) + multiset(b);
      multiset(a + [x] + b);
    }
  }

  /** The selected goals and the recommendation request. */
  datatype AdvisorState = AdvisorState(goals: seq<string>, pending: Pending)

  const Init: AdvisorState := AdvisorState([], Idle)

  /** A click on a goal button (the buttons stay enabled while a request is pending). */
  function Click(s: AdvisorState, g: string): (r: AdvisorState)
    ensures r.pending == s.pending
    ensures g in r.goals <==> g !in s.goals
  {
    s.(goals := ToggleGoal(s.goals, g))
  }

  /**
   * `handleGetRecommendation`: no request with no goal selected, nor while
   * one is pending (the button is disabled in both cases).
   */
  function Request(s: AdvisorState): (r: Option<AdvisorState>)
    ensures r.Some? <==> |s.goals| > 0 && !s.pending.loading
    ensures r.Some? ==> r.value.goals == s.goals && r.value.pending.loading && r.value.pending.answer == []
  {
    if |s.goals| == 0 || s.pending.loading then None
    else Some(s.(pending := Start(s.pending)))
  }

  /**
   * Any selection reached by clicking goal buttons from the empty one is
   * duplicate-free, so the goals sent to the advisor never repeat.
   */
  lemma {:induction false} ClicksKeepDistinct(s: AdvisorState, clicks: seq<string>)
    requires NoDuplicates(s.goals)
    ensures NoDuplicates(Clicks(s, clicks).goals)
    decreases |clicks|
  {
    if |clicks| > 0 {
      ToggleKeepsDistinct(s.goals, clicks[0]);
      ClicksKeepDistinct(Click(s, clicks[0]), clicks[1..]);
    }
  }

  /** The state after a series of clicks on goal buttons. */
  function Clicks(s: AdvisorState, clicks: seq<string>): AdvisorState
    decreases |clicks|
  {
    if |clicks| == 0 then s else Clicks(Click(s, clicks[0]), clicks[1..])
  }

  /** A recommendation request with a client always settles; without one it waits for good. */
  lemma AdviceRequest(s: AdvisorState, configured: bool, call: AiService.Outcome)
    requires Request(s).Some?
    ensures var t := Request(s).value;
      var r := t.(pending := Finish(t.pending, AiService.MembershipAdvice(configured, call)));
      (r.pending.loading <==> !configured)
      && (configured && call.Failed? ==> r.pending.answer == AiService.MembershipFallback)
  {
  }
}
