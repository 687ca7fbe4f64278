/** The derived values of src/pages/Dashboard.tsx: BMI and daily calories
    from the signed-in user, the goal title, and the saved plan with its totals. */
module Dashboard {
  import opened Wrappers
  import opened Types
  import opened Metrics
  import opened Store
  import opened PageRules
  import Activities

  /** The BMI effect: a user with truthy height and weight sets the BMI;
      otherwise the previous value (initially null) stays. */
  function DeriveBmi(user: Option<User>, prev: Option<real>): (bmi: Option<real>)
    ensures user.Some? && NumPresent(user.value.height) && NumPresent(user.value.weight) ==>
      && bmi.Some?
      && bmi.value * ((user.value.height.value / 100.0) * (user.value.height.value / 100.0)) == user.value.weight.value
    ensures bmi != prev ==> user.Some? && NumPresent(user.value.height) && NumPresent(user.value.weight)
  {
    if user.Some? && BmiOf(user.value).Some? then BmiOf(user.value) else prev
  }

  /** The calorie effect: recomputed from the user's own goal only when age,
      height, weight and goal are all truthy; otherwise the previous value stays. */
  function DeriveCalories(user: Option<User>, prev: Option<int>): (kcal: Option<int>)
    ensures user.Some? && BodyComplete(user.value) && TextPresent(user.value.goal) ==>
      && kcal.Some?
      && kcal.value == Round(MaintenanceCalories(user.value.age.value, user.value.height.value, user.value.weight.value, Male))
                       + GoalAdjustment(user.value.goal.value)
    ensures kcal != prev ==> user.Some? && BodyComplete(user.value) && TextPresent(user.value.goal)
  {
    if user.Some? && CaloriesOf(user.value, user.value.goal).Some? then CaloriesOf(user.value, user.value.goal) else prev
  }

  /** `getGoalInfo(...).title`. Its default branch agrees with the calorie
      formula's: a title names a loss or gain exactly when the formula
      subtracts or adds 500. */
  function GoalTitle(goal: string): (title: string)
    ensures title == "Weight Loss" <==> GoalAdjustment(goal) == -500
    ensures title == "Weight Gain" <==> GoalAdjustment(goal) == 500
    ensures title == "Weight Maintenance" <==> GoalAdjustment(goal) == 0
  {
    if goal == Loss then "Weight Loss"
    else if goal == Gain then "Weight Gain"
    else "Weight Maintenance"
  }

  /** The saved-plan effect: an absent or empty key shows no plan; a stored
      plan is shown as stored. The parse is unguarded, so unparsable text
      throws, and a parsed value that is not a list fails when it is summed. */
  function LoadSavedPlan(s: Store): (r: Result<seq<PlanItem>, Error>)
    ensures !Holds(s, ExercisePlanKey) ==> r == Success([])
    ensures r.Success? && Holds(s, ExercisePlanKey) ==> s[ExercisePlanKey] == PlanDoc(r.value)
    ensures r.Failure? <==> Holds(s, ExercisePlanKey) && !s[ExercisePlanKey].PlanDoc?
  {
    if !Holds(s, ExercisePlanKey) then Success([])
    else match s[ExercisePlanKey]
      case PlanDoc(p) => Success(p)
      case Unparsable(_) => Failure(MalformedJson)
      case _ => Failure(NotAList)
  }

  /** What the planner saves, the dashboard loads back unchanged; saving an
      empty plan leaves whatever was there before. */
  lemma SavedPlanRoundTrip(s: Store, plan: seq<PlanItem>)
    ensures |plan| > 0 ==> LoadSavedPlan(Activities.SavePlan(s, plan)) == Success(plan)
    ensures |plan| == 0 ==> LoadSavedPlan(Activities.SavePlan(s, plan)) == LoadSavedPlan(s)
  {
  }
}
