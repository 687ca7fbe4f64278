/** The records the application passes around: the user record, the activity
    catalog entry and the exercise-plan item (src/services/api.ts). */
module Types {
  import opened Wrappers

  /** The three goal strings the application offers. The record field is a
      plain string: the calorie formula and the goal labels both send every
      other string to the maintenance branch, so that case is kept. */
  const Loss: string := "loss"
  const Maintenance: string := "maintenance"
  const Gain: string := "gain"

  /** A user record as it is stored and passed around. Every key is optional:
      a profile update that finds no stored record spreads its fields over `{}`,
      which yields a record without id, email or name. */
  datatype User = User(
    id: Option<string>,
    email: Option<string>,
    name: Option<string>,
    age: Option<real>,
    height: Option<real>,     // centimetres
    weight: Option<real>,     // kilograms
    goal: Option<string>)

  /** The record `{}`: no key set. */
  const EmptyRecord: User := User(None, None, None, None, None, None, None)

  /** JavaScript truthiness of an optional number: absent and 0 are falsy.
      NaN is not modelled. */
  predicate NumPresent(x: Option<real>) {
    x.Some? && x.value != 0.0
  }

  /** JavaScript truthiness of an optional string: absent and "" are falsy. */
  predicate TextPresent(x: Option<string>) {
    x.Some? && x.value != ""
  }

  /** A catalog entry; `caloriesPerHour` is the rate at which it burns energy. */
  datatype Activity = Activity(id: string, name: string, caloriesPerHour: real, category: string)

  /** No value occurs twice: the selection of activity ids and the catalog's
      ids are both kept this way. */
  predicate NoDuplicates<T(==)>(s: seq<T>) {
    forall i, j :: 0 <= i < j < |s| ==> s[i] != s[j]
  }

  /** The ids of a list of activities, in order. */
  function Ids(acts: seq<Activity>): (ids: seq<string>)
    ensures |ids| == |acts|
    ensures forall i :: 0 <= i < |acts| ==> ids[i] == acts[i].id
  {
    seq(|acts|, i requires 0 <= i < |acts| => acts[i].id)
  }

  /** One line of an exercise plan: the activity, its minutes and its calories. */
  datatype PlanItem = PlanItem(activity: Activity, timeMinutes: int, calories: int)
}
