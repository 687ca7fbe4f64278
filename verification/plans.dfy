/** Totals of an exercise plan: the `reduce` sums that the Activities and
    Dashboard pages display as "Total Time" and "Total Calories". */
module Plans {
  import opened Types
  import opened Metrics

  /** Sum of the minutes, accumulated left to right from 0. */
  function TotalMinutes(plan: seq<PlanItem>): int {
    if |plan| == 0 then 0 else TotalMinutes(plan[..|plan| - 1]) + plan[|plan| - 1].timeMinutes
  }

  /** Sum of the calories, accumulated left to right from 0. */
  function TotalCalories(plan: seq<PlanItem>): int {
    if |plan| == 0 then 0 else TotalCalories(plan[..|plan| - 1]) + plan[|plan| - 1].calories
  }

  /** Both reductions in one pass over the plan. An empty plan totals 0 and 0. */
  method PlanTotals(plan: seq<PlanItem>) returns (minutes: int, calories: int)
    ensures minutes == TotalMinutes(plan)
    ensures calories == TotalCalories(plan)
    ensures |plan| == 0 ==> minutes == 0 && calories == 0
  {
    minutes, calories := 0, 0;
    var i := 0;
    while i < |plan|
      invariant 0 <= i <= |plan|
      invariant minutes == TotalMinutes(plan[..i])
      invariant calories == TotalCalories(plan[..i])
    {
      assert plan[..i + 1][..i] == plan[..i];
      minutes := minutes + plan[i].timeMinutes;
      calories := calories + plan[i].calories;
      i := i + 1;
    }
    assert plan[..|plan|] == plan;
  }

  /** A plan whose items all carry the same calories totals count times that. */
  lemma {:induction false} UniformCaloriesTotal(plan: seq<PlanItem>, c: int)
    requires forall i :: 0 <= i < |plan| ==> plan[i].calories == c
    ensures TotalCalories(plan) == |plan| * c
  {
    if |plan| > 0 {
      UniformCaloriesTotal(plan[..|plan| - 1], c);
    }
  }

  /** Independent rounding of each share makes the displayed calorie total
      drift from the target, but by at most half a calorie per activity; no
      remainder is redistributed. */
  lemma CalorieTotalDrift(target: real, selected: seq<Activity>)
    requires RatesPositive(selected)
    requires |selected| > 0
    ensures var total := TotalCalories(CalculateExerciseTime(target, selected)) as real;
      var n := |selected| as real;
      target - n / 2.0 < total <= target + n / 2.0
  {
    var plan := CalculateExerciseTime(target, selected);
    var c := Round(target / |selected| as real);
    assert forall i :: 0 <= i < |plan| ==> plan[i].calories == c;
    UniformCaloriesTotal(plan, c);
    RoundedSplitDrift(target, |selected|);
  }

  /** n copies of the rounded n-th part of a target add up to the target to
      within n/2. */
  lemma RoundedSplitDrift(target: real, n: nat)
    requires n > 0
    ensures var total := (n * Round(target / n as real)) as real;
      target - n as real / 2.0 < total <= target + n as real / 2.0
  {
    var c := Round(target / n as real);
    CastProduct(n, c);
    DivTimes(target, n as real);
    ScaledLower(target, n as real, target / n as real, c as real);
    ScaledUpper(target, n as real, target / n as real, c as real);
  }

  lemma CastProduct(a: int, b: int)
    ensures (a * b) as real == a as real * b as real
  {
  }

  lemma DivTimes(x: real, n: real)
    requires n != 0.0
    ensures x / n * n == x
  {
  }

  /** Lower half of the drift bound: c above s - 1/2 puts c * n above t - n/2. */
  lemma ScaledLower(t: real, n: real, s: real, c: real)
    requires n > 0.0
    requires s * n == t
    requires s - 0.5 < c
    ensures t - n / 2.0 < c * n
  {
    var e := c - s + 0.5;
    assert e * n > 0.0;
    assert e * n == c * n - s * n + 0.5 * n;
  }

  /** Upper half of the drift bound: c at most s + 1/2 keeps c * n at most t + n/2. */
  lemma ScaledUpper(t: real, n: real, s: real, c: real)
    requires n > 0.0
    requires s * n == t
    requires c <= s + 0.5
    ensures c * n <= t + n / 2.0
  {
    var e := s + 0.5 - c;
    assert e * n >= 0.0;
    assert e * n == s * n + 0.5 * n - c * n;
  }
}
