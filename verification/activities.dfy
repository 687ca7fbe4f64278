/** The activity planner of src/pages/Activities.tsx: the selection toggle,
    the plan recomputed from the selection and the calorie target, the target
    recomputed from the user, and the save guard. */
module Activities {
  import opened Wrappers
  import opened Types
  import opened Metrics
  import opened Store
  import opened PageRules

  /** `ids.filter(x => x !== id)`. */
  function Without(ids: seq<string>, id: string): (r: seq<string>)
    ensures forall x :: x in r <==> x in ids && x != id
    ensures |r| <= |ids|
  {
    if |ids| == 0 then []
    else if ids[0] == id then Without(ids[1..], id)
    else [ids[0]] + Without(ids[1..], id)
  }

  /** `handleActivityToggle`: a selected id is filtered out, any other id is
      appended at the end. */
  function Toggle(selected: seq<string>, id: string): (r: seq<string>)
    ensures id !in selected ==> r == selected + [id]
    ensures id in r <==> id !in selected
    ensures forall x :: x != id ==> (x in r <==> x in selected)
  {
    if id in selected then Without(selected, id) else selected + [id]
  }

  lemma {:induction false} WithoutAbsent(ids: seq<string>, id: string)
    requires id !in ids
    ensures Without(ids, id) == ids
  {
    if |ids| > 0 {
      WithoutAbsent(ids[1..], id);
    }
  }

  lemma {:induction false} WithoutAppend(a: seq<string>, b: seq<string>, id: string)
    ensures Without(a + b, id) == Without(a, id) + Without(b, id)
  {
    if |a| > 0 {
      assert (a + b)[1..] == a[1..] + b;
      WithoutAppend(a[1..], b, id);
    } else {
      assert a + b == b;
    }
  }

  lemma {:induction false} WithoutKeepsNoDuplicates(ids: seq<string>, id: string)
    requires NoDuplicates(ids)
    ensures NoDuplicates(Without(ids, id))
  {
    if |ids| > 0 {
      WithoutKeepsNoDuplicates(ids[1..], id);
      assert ids[0] !in ids[1..];
    }
  }

  /** Deselecting keeps the relative order of the other ids: removing the
      only occurrence of `id` from a + [id] + b leaves exactly a + b. */
  lemma ToggleRemovesInPlace(a: seq<string>, id: string, b: seq<string>)
    requires NoDuplicates(a + [id] + b)
    ensures Toggle(a + [id] + b, id) == a + b
  {
    var s := a + [id] + b;
    assert s[|a|] == id;
    OnlyOccurrence(a, id, b);
    calc {
      Toggle(s, id);
      Without(s, id);
      { WithoutAppend(a + [id], b, id); }
      Without(a + [id], id) + Without(b, id);
      { WithoutAppend(a, [id], id); assert Without([id], id) == []; }
      Without(a, id) + Without(b, id);
      { WithoutAbsent(a, id); WithoutAbsent(b, id); }
      a + b;
    }
  }

  /** In a duplicate-free a + [id] + b, the id occurs in neither part. */
  lemma OnlyOccurrence(a: seq<string>, id: string, b: seq<string>)
    requires NoDuplicates(a + [id] + b)
    ensures id !in a && id !in b
  {
    var s := a + [id] + b;
    assert s[|a|] == id;
    forall i | 0 <= i < |a| ensures a[i] != id {
      assert s[i] == a[i];
    }
    forall i | 0 <= i < |b| ensures b[i] != id {
      assert s[|a| + 1 + i] == b[i];
    }
  }

  /** Toggling keeps the selection free of duplicates. */
  lemma ToggleKeepsNoDuplicates(selected: seq<string>, id: string)
    requires NoDuplicates(selected)
    ensures NoDuplicates(Toggle(selected, id))
  {
    if id in selected {
      WithoutKeepsNoDuplicates(selected, id);
    }
  }

  /** Toggling an unselected id twice restores the list exactly; toggling a
      selected id twice keeps the same ids but moves `id` to the end. */
  lemma ToggleTwice(selected: seq<string>, id: string)
    ensures id !in selected ==> Toggle(Toggle(selected, id), id) == selected
    ensures forall x :: x in Toggle(Toggle(selected, id), id) <==> x in selected
  {
    if id !in selected {
      WithoutAppend(selected, [id], id);
      WithoutAbsent(selected, id);
      assert Without([id], id) == [];
    }
  }

  /** `activities.filter(a => selected.includes(a.id))`: the entries whose id
      is selected, in the order of `acts`. */
  function Pick(acts: seq<Activity>, selected: seq<string>): (r: seq<Activity>)
    ensures forall a :: a in r <==> a in acts && a.id in selected
    ensures |r| <= |acts|
  {
    if |acts| == 0 then []
    else (if acts[0].id in selected then [acts[0]] else []) + Pick(acts[1..], selected)
  }

  /** Only which ids are selected matters to the filter, not the order or
      multiplicity in which they were clicked. */
  lemma {:induction false} PickIgnoresClickOrder(acts: seq<Activity>, s1: seq<string>, s2: seq<string>)
    requires forall x :: x in s1 <==> x in s2
    ensures Pick(acts, s1) == Pick(acts, s2)
  {
    if |acts| > 0 {
      PickIgnoresClickOrder(acts[1..], s1, s2);
    }
  }

  lemma PickKeepsRatesPositive(acts: seq<Activity>, selected: seq<string>)
    requires RatesPositive(acts)
    ensures RatesPositive(Pick(acts, selected))
  {
    var r := Pick(acts, selected);
    forall i | 0 <= i < |r| ensures r[i].caloriesPerHour > 0.0 {
      assert r[i] in acts;
    }
  }

  /** The plan effect: empty unless something is selected and the target is
      positive; otherwise the even split over the selected catalog entries in
      catalog order. */
  function ExercisePlan(selected: seq<string>, target: int): (plan: seq<PlanItem>)
    ensures |selected| == 0 || target <= 0 ==> plan == []
    ensures |selected| > 0 && target > 0 ==>
      && RatesPositive(Pick(Catalog, selected))
      && plan == CalculateExerciseTime(target as real, Pick(Catalog, selected))
    ensures forall i :: 0 <= i < |plan| ==> plan[i].activity in Catalog && plan[i].activity.id in selected
  {
    if |selected| > 0 && target > 0 then
      CatalogWellFormed();
      PickKeepsRatesPositive(Catalog, selected);
      CalculateExerciseTime(target as real, Pick(Catalog, selected))
    else []
  }

  /** The plan does not depend on click order, so toggling an id twice gives
      back the same plan even when the id moved to the end of the selection. */
  lemma PlanAfterToggleTwice(selected: seq<string>, id: string, target: int)
    ensures ExercisePlan(Toggle(Toggle(selected, id), id), target) == ExercisePlan(selected, target)
  {
    PickAfterToggleTwice(Catalog, selected, id);
  }

  /** Whatever list is filtered, toggling an id twice picks the same entries
      in the same order as before. */
  lemma {:induction false} PickAfterToggleTwice(acts: seq<Activity>, selected: seq<string>, id: string)
    ensures Pick(acts, Toggle(Toggle(selected, id), id)) == Pick(acts, selected)
  {
    ToggleTwice(selected, id);
    PickIgnoresClickOrder(acts, Toggle(Toggle(selected, id), id), selected);
  }

  /** The filter keeps the order of the list it filters: filtering a
      concatenation concatenates the filtered parts. */
  lemma {:induction false} PickAppend(a: seq<Activity>, b: seq<Activity>, selected: seq<string>)
    ensures Pick(a + b, selected) == Pick(a, selected) + Pick(b, selected)
  {
    if |a| > 0 {
      assert (a + b)[0] == a[0];
      assert (a + b)[1..] == a[1..] + b;
      PickAppend(a[1..], b, selected);
    } else {
      assert a + b == b;
    }
  }

  /** Nothing is picked when no id is selected. */
  lemma {:induction false} PickNone(acts: seq<Activity>, selected: seq<string>)
    requires forall i :: 0 <= i < |acts| ==> acts[i].id !in selected
    ensures Pick(acts, selected) == []
  {
    if |acts| > 0 {
      PickNone(acts[1..], selected);
    }
  }

  /** Selected ids that name no catalog entry, such as ids left over from an
      older catalog, give an empty plan whatever the target. */
  lemma PlanEmptyWithoutMatch(selected: seq<string>, target: int)
    requires forall i :: 0 <= i < |Catalog| ==> Catalog[i].id !in selected
    ensures ExercisePlan(selected, target) == []
  {
    PickNone(Catalog, selected);
  }

  /** The target effect: recomputed from the user only when age, height,
      weight and goal are all truthy; otherwise the previous target stays. */
  function NextTarget(prev: int, user: Option<User>): (target: int)
    ensures user.Some? && CaloriesOf(user.value, user.value.goal).Some? ==>
      target == CaloriesOf(user.value, user.value.goal).value
    ensures target != prev ==> user.Some? && BodyComplete(user.value) && TextPresent(user.value.goal)
  {
    if user.Some? && CaloriesOf(user.value, user.value.goal).Some? then
      CaloriesOf(user.value, user.value.goal).value
    else prev
  }

  /** `savePlan`: an empty plan writes nothing; otherwise exactly the plan is
      stored under "exercisePlan" and nothing else changes. */
  function SavePlan(s: Store, plan: seq<PlanItem>): (s': Store)
    ensures |plan| == 0 ==> s' == s
    ensures |plan| > 0 ==> ExercisePlanKey in s' && s'[ExercisePlanKey] == PlanDoc(plan)
    ensures OnlyTouched(s, s', {ExercisePlanKey})
  {
    if |plan| == 0 then s else s[ExercisePlanKey := PlanDoc(plan)]
  }
}
