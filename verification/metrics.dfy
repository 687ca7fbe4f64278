/** The metrics engine of src/services/api.ts: BMI, the Mifflin-St Jeor daily
    calorie target and the even split of a calorie target over activities.

    Numbers are exact reals. The source computes with IEEE-754 doubles; the
    model idealises their representation error away, so a result here is the
    one the source's formula gives in exact arithmetic. */
module Metrics {
  import opened Types

  /** `Math.round`: round half up, i.e. towards positive infinity on a tie. */
  function Round(x: real): (r: int)
    ensures x - 0.5 < r as real <= x + 0.5
  {
    (x + 0.5).Floor
  }

  /** Round picks the one integer in the half-open window (x - 1/2, x + 1/2]. */
  lemma RoundUnique(x: real, n: int)
    requires x - 0.5 < n as real <= x + 0.5
    ensures Round(x) == n
  {
  }

  /** Shifting by a whole number commutes with rounding: the calorie offsets
      of -500 and +500 can be applied before or after `Math.round`. */
  lemma RoundShift(x: real, k: int)
    ensures Round(x + k as real) == Round(x) + k
  {
    RoundUnique(x + k as real, Round(x) + k);
  }

  /** Body-mass index from height in centimetres and weight in kilograms.
      The source divides without a guard; a zero height gives Infinity or
      NaN there, which the reals cannot represent, so it is excluded here. */
  function CalculateBMI(height: real, weight: real): (bmi: real)
    requires height != 0.0
    ensures bmi * ((height / 100.0) * (height / 100.0)) == weight
    ensures weight > 0.0 ==> bmi > 0.0
  {
    var meters := height / 100.0;
    SquarePositive(meters);
    var bmi := weight / (meters * meters);
    assert bmi * (meters * meters) == weight;
    bmi
  }

  lemma SquarePositive(x: real)
    requires x != 0.0
    ensures x * x > 0.0
  {
    if x < 0.0 {
      assert x * x == (-x) * (-x);
    }
  }

  datatype Gender = Male | Female

  /** Basal metabolic rate by the Mifflin-St Jeor equation. */
  function Bmr(age: real, height: real, weight: real, gender: Gender): real {
    if gender == Male then
      10.0 * weight + 6.25 * height - 5.0 * age + 5.0
    else
      10.0 * weight + 6.25 * height - 5.0 * age - 161.0
  }

  /** For the same body the male rate is 166 kcal above the female one. */
  lemma BmrGenderGap(age: real, height: real, weight: real)
    ensures Bmr(age, height, weight, Male) == Bmr(age, height, weight, Female) + 166.0
    ensures Bmr(age, height, weight, Male) > Bmr(age, height, weight, Female)
  {
  }

  /** Each extra kilogram adds 10 kcal, each extra centimetre 6.25 kcal, and
      each extra year takes 5 kcal away, whatever the rest of the body. */
  lemma BmrSlopes(age: real, height: real, weight: real, gender: Gender, d: real)
    ensures Bmr(age, height, weight + d, gender) == Bmr(age, height, weight, gender) + 10.0 * d
    ensures Bmr(age, height + d, weight, gender) == Bmr(age, height, weight, gender) + 6.25 * d
    ensures Bmr(age + d, height, weight, gender) == Bmr(age, height, weight, gender) - 5.0 * d
  {
  }

  /** The sex constants: the rate of a zero body is +5 for men and -161 for
      women. With BmrSlopes this fixes the rate on every input. */
  lemma BmrAtOrigin()
    ensures Bmr(0.0, 0.0, 0.0, Male) == 5.0
    ensures Bmr(0.0, 0.0, 0.0, Female) == -161.0
  {
  }

  /** The fixed "moderate activity" multiplier. */
  const ActivityFactor: real := 1.55

  /** Calories that keep the current weight: the BMR scaled by the activity factor. */
  function MaintenanceCalories(age: real, height: real, weight: real, gender: Gender): (kcal: real)
    ensures kcal - Bmr(age, height, weight, gender) == 0.55 * Bmr(age, height, weight, gender)
    ensures Bmr(age, height, weight, gender) > 0.0 ==> kcal > Bmr(age, height, weight, gender)
  {
    Bmr(age, height, weight, gender) * ActivityFactor
  }

  /** The offset a goal applies to maintenance calories; any string other
      than "loss" or "gain" takes the switch's default branch. */
  function GoalAdjustment(goal: string): (delta: int)
    ensures goal == Loss <==> delta == -500
    ensures goal == Gain <==> delta == 500
    ensures delta == 0 <==> goal != Loss && goal != Gain
  {
    if goal == Loss then -500 else if goal == Gain then 500 else 0
  }

  /** `calculateDailyCalories`: the rounded maintenance calories, moved by
      exactly 500 for a loss or gain goal. The result is not clamped: a small
      body with goal "loss" can give a small or negative target. */
  function CalculateDailyCalories(age: real, height: real, weight: real, goal: string, gender: Gender): (kcal: int)
    ensures kcal == Round(MaintenanceCalories(age, height, weight, gender)) + GoalAdjustment(goal)
    ensures goal == Loss ==> kcal == Round(MaintenanceCalories(age, height, weight, gender)) - 500
    ensures goal == Gain ==> kcal == Round(MaintenanceCalories(age, height, weight, gender)) + 500
    ensures goal != Loss && goal != Gain ==> kcal == Round(MaintenanceCalories(age, height, weight, gender))
  {
    var maintenance := MaintenanceCalories(age, height, weight, gender);
    RoundShift(maintenance, -500);
    RoundShift(maintenance, 500);
    if goal == Loss then Round(maintenance - 500.0)
    else if goal == Gain then Round(maintenance + 500.0)
    else Round(maintenance)
  }

  /** A worked example: age 25, 170 cm, 70 kg, male. BMR 700 + 1062.5 - 125 + 5
      = 1642.5, maintenance 2545.875, which rounds to 2546. */
  lemma DailyCaloriesExample()
    ensures CalculateDailyCalories(25.0, 170.0, 70.0, Maintenance, Male) == 2546
    ensures CalculateDailyCalories(25.0, 170.0, 70.0, Loss, Male) == 2046
    ensures CalculateDailyCalories(25.0, 170.0, 70.0, Gain, Male) == 3046
  {
    assert MaintenanceCalories(25.0, 170.0, 70.0, Male) == 2545.875;
    RoundUnique(2545.875, 2546);
  }

  /** The static activity catalog, in display order. */
  const Catalog: seq<Activity> := [
    Activity("1", "Running", 600.0, "Cardio"),
    Activity("2", "Cycling", 500.0, "Cardio"),
    Activity("3", "Swimming", 550.0, "Cardio"),
    Activity("4", "Weight Training", 300.0, "Strength"),
    Activity("5", "Yoga", 200.0, "Flexibility"),
    Activity("6", "Dancing", 400.0, "Cardio"),
    Activity("7", "Walking", 300.0, "Cardio"),
    Activity("8", "Boxing", 650.0, "Cardio")
  ]

  /** Every activity burns a positive number of calories per hour, so the
      time needed for a share of calories is well defined. */
  predicate RatesPositive(acts: seq<Activity>) {
    forall i :: 0 <= i < |acts| ==> acts[i].caloriesPerHour > 0.0
  }

  lemma CatalogWellFormed()
    ensures |Catalog| == 8
    ensures RatesPositive(Catalog)
    ensures NoDuplicates(Ids(Catalog))
  {
  }

  /** `calculateExerciseTime`: the target is split evenly; each selected
      activity, in the given order, gets the rounded share as calories and the
      rounded number of minutes it takes that activity to burn the share. */
  function CalculateExerciseTime(target: real, selected: seq<Activity>): (plan: seq<PlanItem>)
    requires RatesPositive(selected)
    ensures |selected| == 0 ==> plan == []
    ensures |plan| == |selected|
    ensures forall i :: 0 <= i < |plan| ==> plan[i].activity == selected[i]
    ensures forall i :: 0 <= i < |plan| ==> plan[i].calories == Round(target / |selected| as real)
    ensures forall i :: 0 <= i < |plan| ==>
      plan[i].timeMinutes == Round(target / |selected| as real / selected[i].caloriesPerHour * 60.0)
  {
    if |selected| == 0 then []
    else
      var share := target / |selected| as real;
      seq(|selected|, i requires 0 <= i < |selected| =>
        PlanItem(selected[i], Round(share / selected[i].caloriesPerHour * 60.0), Round(share)))
  }

  /** What a plan item means: its calories are the activity's share of the
      target to within half a calorie, and its minutes, performed at the
      activity's hourly rate, burn that share to within half a minute's worth. */
  lemma ExerciseTimeMeetsShare(target: real, selected: seq<Activity>, i: int)
    requires RatesPositive(selected)
    requires 0 <= i < |selected|
    ensures var item := CalculateExerciseTime(target, selected)[i];
      var share := target / |selected| as real;
      var rate := selected[i].caloriesPerHour;
      && share - 0.5 < item.calories as real <= share + 0.5
      && share - rate / 120.0 < item.timeMinutes as real * rate / 60.0 <= share + rate / 120.0
  {
    RoundedMinutesBurnShare(target / |selected| as real, selected[i].caloriesPerHour);
  }

  /** The rounded number of minutes for a share of calories, performed at
      `rate` calories per hour, burns the share to within the calories of
      half a minute. */
  lemma RoundedMinutesBurnShare(share: real, rate: real)
    requires rate > 0.0
    ensures var m := Round(share / rate * 60.0) as real;
      share - rate / 120.0 < m * rate / 60.0 <= share + rate / 120.0
  {
    ScaleWindow(share, rate, Round(share / rate * 60.0) as real);
  }

  /** If m is within half a minute of the time needed to burn `share` at
      `rate` calories per hour, then m minutes burn `share` to within the
      calories of half a minute. */
  lemma ScaleWindow(share: real, rate: real, m: real)
    requires rate > 0.0
    requires share / rate * 60.0 - 0.5 < m <= share / rate * 60.0 + 0.5
    ensures share - rate / 120.0 < m * rate / 60.0 <= share + rate / 120.0
  {
    var exact := share / rate * 60.0;
    var d := m - exact;
    assert exact * rate == share * 60.0;
    assert m * rate == exact * rate + d * rate;
    assert (d + 0.5) * rate > 0.0;
    assert (d + 0.5) * rate == d * rate + 0.5 * rate;
    assert (0.5 - d) * rate >= 0.0;
    assert (0.5 - d) * rate == 0.5 * rate - d * rate;
    assert d * rate > -0.5 * rate;
    assert m * rate == share * 60.0 + d * rate;
    assert m * rate / 60.0 > share - rate / 120.0;
  }

  /** The worked example: 600 kcal over Running and Cycling is 300 kcal each,
      30 minutes of running and 36 minutes of cycling. */
  lemma ExerciseTimeExample()
    ensures CalculateExerciseTime(600.0, [Catalog[0], Catalog[1]]) ==
      [PlanItem(Catalog[0], 30, 300), PlanItem(Catalog[1], 36, 300)]
  {
    var plan := CalculateExerciseTime(600.0, [Catalog[0], Catalog[1]]);
    RoundUnique(300.0, 300);
    RoundUnique(30.0, 30);
    RoundUnique(36.0, 36);
    assert plan[0] == PlanItem(Catalog[0], 30, 300);
    assert plan[1] == PlanItem(Catalog[1], 36, 300);
  }
}
