/** Rules the pages share: the BMI bands that Dashboard, Goals and Profile
    each define with the same three strict thresholds, and the guards under
    which a page derives BMI and the daily calorie target from a user record. */
module PageRules {
  import opened Wrappers
  import opened Types
  import opened Metrics

  datatype Category = Underweight | Normal | Overweight | Obese

  /** `getBMICategory`: three strict `<` tests at 18.5, 25 and 30, so a value
      exactly on a threshold belongs to the band above it. */
  function CategoryOf(bmi: real): (c: Category)
    ensures c == Underweight <==> bmi < 18.5
    ensures c == Normal <==> 18.5 <= bmi < 25.0
    ensures c == Overweight <==> 25.0 <= bmi < 30.0
    ensures c == Obese <==> 30.0 <= bmi
  {
    if bmi < 18.5 then Underweight
    else if bmi < 25.0 then Normal
    else if bmi < 30.0 then Overweight
    else Obese
  }

  /** Position of a band, from lightest to heaviest. */
  function Rank(c: Category): nat {
    match c
    case Underweight => 0
    case Normal => 1
    case Overweight => 2
    case Obese => 3
  }

  /** A larger BMI never falls in a lighter band. */
  lemma CategoryMonotone(a: real, b: real)
    requires a <= b
    ensures Rank(CategoryOf(a)) <= Rank(CategoryOf(b))
  {
  }

  /** The boundary values land as the strict tests dictate. */
  lemma CategoryBoundaries()
    ensures CategoryOf(18.499) == Underweight && CategoryOf(18.5) == Normal
    ensures CategoryOf(24.999) == Normal && CategoryOf(25.0) == Overweight
    ensures CategoryOf(29.999) == Overweight && CategoryOf(30.0) == Obese
  {
  }

  /** The label each page shows for a band. */
  function Label(c: Category): (s: string)
    ensures c == Underweight <==> s == "Underweight"
    ensures c == Normal <==> s == "Normal weight"
    ensures c == Overweight <==> s == "Overweight"
    ensures c == Obese <==> s == "Obese"
  {
    match c
    case Underweight => "Underweight"
    case Normal => "Normal weight"
    case Overweight => "Overweight"
    case Obese => "Obese"
  }

  /** Height, weight and age are all set and non-zero (JavaScript truthiness). */
  predicate BodyComplete(u: User) {
    NumPresent(u.age) && NumPresent(u.height) && NumPresent(u.weight)
  }

  /** BMI of a record whose height and weight are both truthy, else nothing. */
  function BmiOf(u: User): (r: Option<real>)
    ensures r.Some? <==> NumPresent(u.height) && NumPresent(u.weight)
    ensures r.Some? ==>
      var m := u.height.value / 100.0;
      r.value * (m * m) == u.weight.value
  {
    if NumPresent(u.height) && NumPresent(u.weight) then
      Some(CalculateBMI(u.height.value, u.weight.value))
    else None
  }

  /** Daily calories for a record and a goal, male formula (the pages never
      pass a gender): only when age, height, weight and the goal are all truthy. */
  function CaloriesOf(u: User, goal: Option<string>): (r: Option<int>)
    ensures r.Some? <==> BodyComplete(u) && TextPresent(goal)
    ensures r.Some? ==>
      r.value == Round(MaintenanceCalories(u.age.value, u.height.value, u.weight.value, Male)) + GoalAdjustment(goal.value)
  {
    if BodyComplete(u) && TextPresent(goal) then
      Some(CalculateDailyCalories(u.age.value, u.height.value, u.weight.value, goal.value, Male))
    else None
  }
}
