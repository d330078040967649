/**
 * `src/components/PartnerOnboarding.tsx`: the four-step welcome of a new
 * venue partner (intro, goals, plan, done). The component's state is the
 * fields of an `Onboarding`; each `onComplete` call is recorded in
 * `completions`.
 */
module PartnerOnboarding {
  import opened Wrappers
  import Plans

  /** At most this many goals can be selected. */
  const MaxGoals := 5

  /** The last step; steps run from 0 to `LastStep`. */
  const LastStep := 3

  /** The step that chooses a plan. */
  const PlanStep := 2

  /** The arguments of an `onComplete(goals, plan)` call. */
  datatype Completion = Completion(goals: seq<string>, plan: Option<Plans.SubscriptionPlan>)

  predicate NoDuplicates(goals: seq<string>) {
    forall i, j :: 0 <= i < j < |goals| ==> goals[i] != goals[j]
  }

  /** `goals.filter(g => g !== id)`. */
  function Without(goals: seq<string>, id: string): (r: seq<string>)
    ensures forall g :: g in r <==> g in goals && g != id
    ensures |r| <= |goals|
    ensures id in goals ==> |r| < |goals|
    ensures NoDuplicates(goals) ==> NoDuplicates(r)
  {
    if goals == [] then []
    else
      var rest := Without(goals[1..], id);
      assert forall g :: g in goals <==> g == goals[0] || g in goals[1..];
      assert forall k :: 1 <= k < |goals| ==> goals[k] == goals[1..][k - 1];
      assert NoDuplicates(goals) ==> goals[0] !in goals[1..] && NoDuplicates(goals[1..]);
      var r := if goals[0] != id then [goals[0]] + rest else rest;
      assert forall k :: 1 <= k < |r| && goals[0] != id ==> r[k] == rest[k - 1];
      r
  }

  /** A list without `id` is left as it is. */
  lemma {:induction false} WithoutAbsent(goals: seq<string>, id: string)
    requires id !in goals
    ensures Without(goals, id) == goals
  {
    if goals != [] {
      WithoutAbsent(goals[1..], id);
    }
  }

  /** The selection after `toggleGoal(id)`. */
  function Toggle(goals: seq<string>, id: string): seq<string> {
    if id in goals then Without(goals, id)
    else if |goals| < MaxGoals then goals + [id]
    else goals
  }

  /**
   * `toggleGoal` takes a selected goal out, adds an unselected one only
   * while fewer than five are selected, and leaves every other goal as it
   * was.
   */
  lemma ToggleRule(goals: seq<string>, id: string)
    ensures id in Toggle(goals, id) <==> id !in goals && |goals| < MaxGoals
    ensures forall g :: g != id ==> (g in Toggle(goals, id) <==> g in goals)
  {
  }

  /** The selection stays free of duplicates and within the cap. */
  lemma ToggleKeepsBounds(goals: seq<string>, id: string)
    requires NoDuplicates(goals) && |goals| <= MaxGoals
    ensures NoDuplicates(Toggle(goals, id)) && |Toggle(goals, id)| <= MaxGoals
  {
  }

  /** Selecting a goal and deselecting it again restores the selection. */
  lemma ToggleTwiceRestores(goals: seq<string>, id: string)
    requires id !in goals && |goals| < MaxGoals
    ensures Toggle(Toggle(goals, id), id) == goals
  {
    WithoutAppended(goals, id);
  }

  lemma {:induction false} WithoutAppended(goals: seq<string>, id: string)
    requires id !in goals
    ensures Without(goals + [id], id) == goals
  {
    if goals == [] {
      assert [id][1..] == [];
    } else {
      assert (goals + [id])[1..] == goals[1..] + [id];
      WithoutAppended(goals[1..], id);
    }
  }

  /** Deselecting and reselecting keeps the same goals, with `id` moved to the end. */
  lemma ToggleTwiceMovesLast(goals: seq<string>, id: string)
    requires NoDuplicates(goals) && |goals| <= MaxGoals && id in goals
    ensures Toggle(Toggle(goals, id), id) == Without(goals, id) + [id]
    ensures forall g :: g in Toggle(Toggle(goals, id), id) <==> g in goals
  {
  }

  /** Skip is shown on the first two steps only. */
  predicate SkipShown(step: nat) {
    step < LastStep && step != PlanStep
  }

  /** Continue is disabled on the plan step until a plan is chosen. */
  predicate ContinueDisabled(step: nat, plan: Option<Plans.SubscriptionPlan>) {
    step == PlanStep && plan.None?
  }

  /** A press the user can make besides choosing a plan. */
  datatype Press = Continue | Back | Goal(id: string) | Skip

  /** The step after one press, with `plan` chosen so far. */
  function StepAfter(step: nat, plan: Option<Plans.SubscriptionPlan>, p: Press): nat {
    match p
    case Continue => if ContinueDisabled(step, plan) || step >= LastStep then step else step + 1
    case Back => if step > 0 then step - 1 else 0
    case Goal(_) => step
    case Skip => step
  }

  /** The step after a run of presses in which no plan is chosen. */
  function StepsAfter(step: nat, plan: Option<Plans.SubscriptionPlan>, presses: seq<Press>): nat
    decreases |presses|
  {
    if presses == [] then step else StepsAfter(StepAfter(step, plan, presses[0]), plan, presses[1..])
  }

  class Onboarding {
    var step: nat
    var selectedGoals: seq<string>
    var selectedPlan: Option<Plans.SubscriptionPlan>
    var completions: seq<Completion>

    /** What every handler keeps: a step in 0..3 and at most five distinct goals. */
    predicate Valid()
      reads this
    {
      step <= LastStep && NoDuplicates(selectedGoals) && |selectedGoals| <= MaxGoals
    }

    constructor ()
      ensures Valid()
      ensures step == 0 && selectedGoals == [] && selectedPlan == None && completions == []
    {
      step := 0;
      selectedGoals := [];
      selectedPlan := None;
      completions := [];
    }

    /** `toggleGoal(id)`. */
    method ToggleGoal(id: string)
      requires Valid()
      modifies this
      ensures Valid()
      ensures selectedGoals == Toggle(old(selectedGoals), id)
      ensures step == old(step) && selectedPlan == old(selectedPlan) && completions == old(completions)
      ensures step == StepAfter(old(step), old(selectedPlan), Goal(id))
    {
      ToggleKeepsBounds(selectedGoals, id);
      if id in selectedGoals {
        selectedGoals := Without(selectedGoals, id);
      } else {
        if |selectedGoals| < MaxGoals {
          selectedGoals := selectedGoals + [id];
        }
      }
    }

    /** `SubscriptionPlanSelector`'s `onSelect`. */
    method SelectPlan(plan: Plans.SubscriptionPlan)
      requires Valid()
      modifies this
      ensures Valid()
      ensures selectedPlan == Some(plan)
      ensures step == old(step) && selectedGoals == old(selectedGoals) && completions == old(completions)
    {
      selectedPlan := Some(plan);
    }

    /** `nextStep()`: advance, or on the last step complete with the goals and plan. */
    method NextStep()
      requires Valid()
      modifies this
      ensures Valid()
      ensures old(step) < LastStep ==> step == old(step) + 1 && completions == old(completions)
      ensures old(step) == LastStep ==>
        step == old(step) && completions == old(completions) + [Completion(selectedGoals, selectedPlan)]
      ensures selectedGoals == old(selectedGoals) && selectedPlan == old(selectedPlan)
    {
      if step < LastStep {
        step := step + 1;
      } else {
        completions := completions + [Completion(selectedGoals, selectedPlan)];
      }
    }

    /** `prevStep()`: back one step, never below the first. */
    method PrevStep()
      requires Valid()
      modifies this
      ensures Valid()
      ensures step == if old(step) > 0 then old(step) - 1 else 0
      ensures selectedGoals == old(selectedGoals) && selectedPlan == old(selectedPlan) && completions == old(completions)
      ensures step == StepAfter(old(step), old(selectedPlan), Back)
    {
      if step > 0 {
        step := step - 1;
      }
    }

    /** A press on Continue / Get Started, which does nothing while disabled. */
    method PressContinue()
      requires Valid()
      modifies this
      ensures Valid()
      ensures ContinueDisabled(old(step), old(selectedPlan)) ==> step == old(step) && completions == old(completions)
      ensures !ContinueDisabled(old(step), old(selectedPlan)) && old(step) < LastStep ==>
        step == old(step) + 1 && completions == old(completions)
      ensures old(step) == LastStep ==>
        step == old(step) && completions == old(completions) + [Completion(selectedGoals, selectedPlan)]
      ensures selectedGoals == old(selectedGoals) && selectedPlan == old(selectedPlan)
      ensures step == StepAfter(old(step), old(selectedPlan), Continue)
    {
      if !ContinueDisabled(step, selectedPlan) {
        NextStep();
      }
    }

    /** A press on Skip, where it is shown: complete with no goals and no plan. */
    method PressSkip()
      requires Valid()
      modifies this
      ensures Valid()
      ensures completions == old(completions) + (if SkipShown(old(step)) then [Completion([], None)] else [])
      ensures step == old(step) && selectedGoals == old(selectedGoals) && selectedPlan == old(selectedPlan)
      ensures step == StepAfter(old(step), old(selectedPlan), Skip)
    {
      if SkipShown(step) {
        completions := completions + [Completion([], None)];
      }
    }
  }

  /**
   * Without a plan no run of presses gets past the plan step: Continue is
   * blocked there, Back only goes down, and goals and Skip leave the step.
   */
  lemma {:induction false} PlanRequiredToAdvance(step: nat, presses: seq<Press>)
    requires step <= PlanStep
    ensures StepsAfter(step, None, presses) <= PlanStep
    decreases |presses|
  {
    if presses != [] {
      PlanRequiredToAdvance(StepAfter(step, None, presses[0]), presses[1..]);
    }
  }

  /** Once a plan is chosen, Continue on the plan step reaches the last step. */
  lemma PlanUnlocksContinue(plan: Plans.SubscriptionPlan, presses: seq<Press>)
    ensures StepsAfter(PlanStep, Some(plan), [Continue] + presses) == StepsAfter(LastStep, Some(plan), presses)
  {
    assert ([Continue] + presses)[1..] == presses;
  }
}
