/** The goal page of src/pages/Goals.tsx: the selected goal initialised from
    the user, BMI and calorie derivation, the BMI progress value, and goal
    selection through the session's `updateUser`. */
module Goals {
  import opened Wrappers
  import opened Types
  import opened Metrics
  import opened Store
  import opened PageRules
  import opened Session
  import Dashboard
  import Activities

  /** `user?.goal || null`. */
  function InitialGoal(user: Option<User>): (g: Option<string>)
    ensures g.Some? <==> user.Some? && TextPresent(user.value.goal)
    ensures g.Some? ==> g == user.value.goal
  {
    if user.Some? && TextPresent(user.value.goal) then user.value.goal else None
  }

  /** The user effect: BMI when height and weight are truthy (else the previous
      value stays), and the selected goal reset from the user. */
  function OnUserChange(user: Option<User>, prevBmi: Option<real>): (r: (Option<real>, Option<string>))
    ensures user.Some? && NumPresent(user.value.height) && NumPresent(user.value.weight) ==>
      r.0.Some? && r.0 == BmiOf(user.value)
    ensures r.0 != prevBmi ==> user.Some? && NumPresent(user.value.height) && NumPresent(user.value.weight)
    ensures r.1 == InitialGoal(user)
  {
    var bmi := if user.Some? && BmiOf(user.value).Some? then BmiOf(user.value) else prevBmi;
    (bmi, InitialGoal(user))
  }

  /** The calorie effect: computed from the selected goal, not the stored one,
      only when age, height, weight and the selection are all truthy. */
  function DeriveCalories(user: Option<User>, selected: Option<string>, prev: Option<int>): (kcal: Option<int>)
    ensures user.Some? && BodyComplete(user.value) && TextPresent(selected) ==>
      && kcal.Some?
      && kcal.value == Round(MaintenanceCalories(user.value.age.value, user.value.height.value, user.value.weight.value, Male))
                       + GoalAdjustment(selected.value)
    ensures kcal != prev ==> user.Some? && BodyComplete(user.value) && TextPresent(selected)
  {
    if user.Some? && CaloriesOf(user.value, selected).Some? then CaloriesOf(user.value, selected) else prev
  }

  /** The value of the BMI progress bar: highest in the normal band, and the
      same low value at both extremes. */
  function Progress(c: Category): (p: int)
    ensures p == 75 <==> c == Normal
    ensures p == 50 <==> c == Overweight
    ensures p == 25 <==> c == Underweight || c == Obese
  {
    match c
    case Underweight => 25
    case Normal => 75
    case Overweight => 50
    case Obese => 25
  }

  /** The progress shown for a BMI is at most 75, reached exactly on the
      normal band 18.5 <= bmi < 25. */
  lemma ProgressPeaksOnNormal(bmi: real)
    ensures Progress(CategoryOf(bmi)) <= 75
    ensures Progress(CategoryOf(bmi)) == 75 <==> 18.5 <= bmi < 25.0
  {
  }

  /** `handleGoalSelect`: the selection becomes the chosen id; a signed-in
      user is replaced, through `updateUser`, by the same record with only the
      goal changed; with nobody signed in the session is left alone. The
      offline mirror never sees the new goal. */
  function HandleGoalSelect(sess: Session, goalId: string): (r: (Option<string>, Session))
    ensures r.0 == Some(goalId)
    ensures sess.state.user.None? ==> r.1 == sess
    ensures sess.state.user.Some? ==>
      && r.1.state.user == Some(sess.state.user.value.(goal := Some(goalId)))
      && r.1.state.isAuthenticated
      && InSync(r.1)
      && OnlyTouched(sess.store, r.1.store, {CurrentUserKey})
    ensures GetFromOfflineStorage(r.1.store, CurrentUserKey) == GetFromOfflineStorage(sess.store, CurrentUserKey)
  {
    if sess.state.user.Some? then
      (Some(goalId), UpdateUser(sess, sess.state.user.value.(goal := Some(goalId))))
    else (Some(goalId), sess)
  }

  /** Selecting a goal changes nothing but the goal: every other field of the
      signed-in user is kept. */
  lemma GoalSelectKeepsOtherFields(sess: Session, goalId: string)
    requires sess.state.user.Some?
    ensures var u := sess.state.user.value;
      var u' := HandleGoalSelect(sess, goalId).1.state.user.value;
      && u'.id == u.id && u'.email == u.email && u'.name == u.name
      && u'.age == u.age && u'.height == u.height && u'.weight == u.weight
      && u'.goal == Some(goalId)
  {
  }

  /** The pages derive the same values from the same user. Goals shows the
      Dashboard's BMI. While the selection is still the stored goal, Goals
      shows the Dashboard's calorie target, and that is the planner's target. */
  lemma PagesAgree(u: User, prevBmi: Option<real>, prevKcal: Option<int>, prevTarget: int)
    ensures OnUserChange(Some(u), prevBmi).0 == Dashboard.DeriveBmi(Some(u), prevBmi)
    ensures DeriveCalories(Some(u), InitialGoal(Some(u)), prevKcal) == Dashboard.DeriveCalories(Some(u), prevKcal)
    ensures BodyComplete(u) && TextPresent(u.goal) ==>
      Dashboard.DeriveCalories(Some(u), prevKcal) == Some(Activities.NextTarget(prevTarget, Some(u)))
  {
  }
}
