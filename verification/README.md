# Fitness tracker core, modelled in Dafny

A model of the pure logic of a local-first fitness tracker written in
TypeScript/React. There is no server: the "API" is a set of simulated calls
that read and write the browser's local storage. The model covers:

- **Metrics engine** (`Metrics`, `Plans`): BMI, the Mifflin–St Jeor daily calorie
  target with the 1.55 activity factor and the ±500 goal offset, the even split
  of a calorie target over selected activities, the static 8-entry activity
  catalog, and the plan totals.
- **Local store** (`Store`): storage as `map<string, Entry>`. An entry is a user
  record, an offline mirror `{data, timestamp}`, a saved plan, or text that
  `JSON.parse` rejects. The empty string counts as falsy.
- **Account service** (`Account`): `loginUser` with its offline fallback,
  `registerUser`, `updateUserProfile` and `getUserProfile`. Each call is one
  synchronous step from a store to a result and a new store.
- **Session context** (`Session`): the `authReducer`, the startup restore, and
  `login` / `logout` / `updateUser`. A `Session` pairs the store with the
  reducer state. `InSync` says the in-memory user agrees with storage.
- **Pages** (`PageRules`, `Activities`, `Dashboard`, `Goals`, `Profile`): the BMI
  bands, the guards for deriving metrics, the goal title, the activity toggle
  and plan recomputation, the save guard, goal selection, and the profile
  form's submit gate.

Numbers are Dafny `real`, and `Math.round` is `Round(x) = (x + 0.5).Floor`.
This is exact arithmetic: it idealises away the rounding error of IEEE doubles.
JavaScript truthiness is modelled explicitly: an absent or 0 number and an
absent or empty string are "missing". Timestamps are parameters.

Notes on the program's behaviour:

- For age 25, 170 cm, 70 kg, male and goal "maintenance", the BMR is
  700 + 1062.5 − 125 + 5 = 1642.5 (6.25 × 170 = 1062.5). Maintenance is
  2545.875, so the target is 2546. Loss gives 2046 and gain gives 3046
  (`Metrics.DailyCaloriesExample`).
- `loginUser` and `registerUser` write only the offline mirror. The canonical
  `currentUser` record is written by the session's `login`.
- `updateUserProfile` does no validation. The presence check lives in the
  Profile page's submit handler. The call fails only when the stored canonical
  text does not parse.
- Toggling a selected activity twice does not restore the list. The id moves to
  the end. The set of ids is restored, and so is the plan, because the plan
  follows catalog order. Only an unselected id toggled twice gives back the
  exact list (`Activities.ToggleTwice`, `Activities.PlanAfterToggleTwice`).
- An empty string stored under `currentUser` is treated as absent by the startup
  restore, which does not remove it. Only non-empty unparsable text is removed.

## Model

| member | source | states |
|---|---|---|
| Metrics.Round | src/services/api.ts:183-187 | `Math.round` returns an integer in the window (x − ½, x + ½], so a tie rounds up (`Metrics.RoundUnique` shows it is the only one). |
| Metrics.RoundUnique | src/services/api.ts:183-187 | Any integer in (x − ½, x + ½] is the rounded value of x. |
| Metrics.CalculateBMI | src/services/api.ts:156-159 | The BMI times the height in metres squared gives back the weight. A positive weight gives a positive BMI. |
| Metrics.BmrAtOrigin | src/services/api.ts:171-175 | The sex constants: a zero body has rate +5 for men and −161 for women. Together with `Metrics.BmrSlopes` this fixes the rate on every input. |
| Metrics.BmrSlopes | src/services/api.ts:171-175 | Adding d kg adds 10·d, adding d cm adds 6.25·d, and adding d years removes 5·d, for either sex. |
| Metrics.MaintenanceCalories | src/services/api.ts:178 | The moderate-activity surcharge is 55% of the BMR, so maintenance exceeds any positive BMR. |
| Metrics.BmrGenderGap | src/services/api.ts:171-175 | For the same age, height and weight, the male BMR is exactly 166 above the female BMR. |
| Metrics.GoalAdjustment | src/services/api.ts:181-188 | "loss" is the only goal with offset −500, "gain" the only one with +500, and every other string gets 0. |
| Metrics.RoundShift | src/services/api.ts:183-187 | Rounding commutes with a whole-number shift, so the ±500 can be applied after `Math.round`. |
| Metrics.CalculateDailyCalories | src/services/api.ts:162-189 | The target is the rounded maintenance calories plus the goal offset. Loss is maintenance − 500, gain is maintenance + 500, any other goal is maintenance. There is no clamping. |
| Metrics.DailyCaloriesExample | src/services/api.ts:172-187 | Age 25, 170 cm, 70 kg, male gives 2546 for maintenance, 2046 for loss and 3046 for gain. |
| Metrics.CatalogWellFormed | src/services/api.ts:38-47 | The catalog has 8 entries, every calories-per-hour value is positive, and the ids are distinct. |
| Metrics.CalculateExerciseTime | src/services/api.ts:192-205 | An empty selection gives an empty plan. Otherwise the plan has the same length and order as the selection, item i is activity i, calories are Round(t/n) and minutes are Round(t/n/cph·60). |
| Metrics.ExerciseTimeMeetsShare | src/services/api.ts:198-204 | Each item's calories are within 0.5 of its share. Its minutes, at the activity's rate, burn the share to within half a minute's worth of calories. |
| Metrics.RoundedMinutesBurnShare | src/services/api.ts:202 | Rounded minutes for a share, performed at the activity's hourly rate, burn the share to within rate/120 calories. |
| Metrics.ExerciseTimeExample | src/services/api.ts:198-204 | 600 kcal over Running and Cycling gives 30 min and 300 kcal, then 36 min and 300 kcal. |
| Plans.PlanTotals | src/pages/Dashboard.tsx:70-71 | The one-pass loop computes exactly the left-to-right sums of minutes and calories. Both are 0 for an empty plan. |
| Plans.UniformCaloriesTotal | src/services/api.ts:203 | A plan whose items all carry c calories totals count × c. |
| Plans.CalorieTotalDrift | src/services/api.ts:198-204 | The displayed calorie total of a split drifts from the target by at most n/2, because each share is rounded on its own and no remainder is redistributed. |
| Plans.RoundedSplitDrift | src/services/api.ts:198-203 | n copies of the rounded n-th part of a target add up to the target to within n/2. |
| Store.MirrorKey | src/services/api.ts:52 | The mirror key is "offline_" + key, so it is 8 characters longer than the key and never equal to it. |
| Store.KeysDistinct | src/services/api.ts:83-133 | "currentUser" (used throughout these lines), its mirror "offline_currentUser" and the plan key "exercisePlan" (src/pages/Activities.tsx:61) are pairwise distinct. |
| Store.ParseUser | src/contexts/AuthContext.tsx:60-64 | Parsing fails exactly on unparsable text. A stored user parses to itself. |
| Store.SaveToOfflineStorage | src/services/api.ts:50-59 | Only the mirror key is written or added, and reading it back gives the saved record. |
| Store.GetFromOfflineStorage | src/services/api.ts:61-69 | The result is the mirror's data exactly when the mirror key holds a `{data, timestamp}` entry. An absent key, empty or unparsable text, or a value without `data` gives null. |
| Store.OfflineRoundTrip | src/services/api.ts:50-69 | Reading after a write returns the written record. A second write to the same key fully replaces the first. |
| Store.OfflineIndependent | src/services/api.ts:50-69 | Writing the mirror of one key leaves the mirror of every other key reading as before. |
| Account.LoginUser | src/services/api.ts:72-96 | The demo pair gets user "1" / "Demo User" and refreshes the mirror only. Any other pair succeeds iff the mirror's email equals the given one, returns that record and leaves the store alone. Every failure is InvalidCredentials. |
| Account.LoginRefusedIff | src/services/api.ts:87-95 | Login fails iff the pair is not the demo pair and no mirrored record has that email. |
| Account.DemoMirrorAcceptsAnyPassword | src/services/api.ts:89-93 | After a demo login, the demo email with any password succeeds through the mirror, because the fallback never checks passwords. |
| Account.Decimal | src/services/api.ts:104 | A timestamp's text is a non-empty string of decimal digits, with no leading zero, that denotes exactly the timestamp. It has one digit iff the value is below 10. |
| Account.DecimalInjective | src/services/api.ts:104 | Different timestamps have different decimal texts. |
| Account.RegisterUser | src/services/api.ts:98-122 | The new record echoes the email and name and has no body fields. Its id is the timestamp's digits, or "offline_" + digits on the fallback path. Only the mirror is written. |
| Account.RegisterIdsDistinct | src/services/api.ts:103-118 | An online id never equals an offline id. Two registrations of the same origin at different times get different ids. |
| Account.Merge | src/services/api.ts:131 | The spread takes age, height, weight and goal from the profile, and id, email and name from the current record. |
| Account.UpdateUserProfile | src/services/api.ts:124-145 | The update fails iff the canonical text is non-empty and unparsable, and then writes nothing. On success the four profile fields are overridden and id, email and name are kept from the canonical record, or absent when none is stored. The same record goes to both the canonical and mirror keys, and nothing else changes. |
| Account.UpdateKeepsIdentity | src/services/api.ts:130-131 | With a stored user, the result is that user with exactly age, height, weight and goal replaced. |
| Account.UpdateIdempotent | src/services/api.ts:130-133 | Applying the same profile twice gives the same record as applying it once. |
| Account.GetUserProfile | src/services/api.ts:147-153 | An absent or empty key gives null. Unparsable text throws. Otherwise the parsed record is returned. |
| Account.UpdateThenGet | src/services/api.ts:130-152 | Reading the profile after a successful update returns the updated record. |
| Session.Reduce | src/contexts/AuthContext.tsx:21-42 | Every action keeps `isAuthenticated <==> user != null`. SET_LOADING changes only `isLoading`, and an unknown action changes nothing. SET_USER installs the payload, LOGOUT clears the user, and both end loading. |
| Session.RunConsistent | src/contexts/AuthContext.tsx:21-42 | The flag invariant holds after any sequence of dispatched actions. |
| Session.ReachableConsistent | src/contexts/AuthContext.tsx:15-19 | The initial state (no user, loading, not authenticated) satisfies the invariant, and so does every state reachable from it. |
| Session.CheckAuthStatus | src/contexts/AuthContext.tsx:59-73 | A parsable stored value signs in with that user. Non-empty unparsable text removes the key and leaves nobody signed in. An absent or empty value leaves the store alone and nobody signed in. Loading always ends, with state and storage in sync. |
| Session.Login | src/contexts/AuthContext.tsx:78-81 | The user is written under "currentUser" and installed. Afterwards the session is signed in, not loading, and agrees with storage, and no other key changes. |
| Session.UpdateUser | src/contexts/AuthContext.tsx:88-91 | Has exactly the effect of `login`. The offline mirror is not refreshed, so it still holds the record the account service last wrote. |
| Session.Logout | src/contexts/AuthContext.tsx:83-86 | Only "currentUser" is removed and the offline mirror is untouched. The state is signed out and not loading. |
| Session.OperationsKeepConsistent | src/contexts/AuthContext.tsx:78-91 | login, updateUser and logout each preserve the flag invariant. |
| Session.LoginAfterLogoutFallsBack | src/contexts/AuthContext.tsx:83-86 | Logout keeps the mirror, so after a demo login, login and logout, the demo email signs in again with any password and gets the same record. |
| PageRules.CategoryOf | src/pages/Dashboard.tsx:52-57 | The bands are exactly [−∞,18.5), [18.5,25), [25,30) and [30,∞), so every BMI gets exactly one band. |
| PageRules.CategoryBoundaries | src/pages/Dashboard.tsx:53-56 | 18.499 is Underweight, 18.5 and 24.999 are Normal, 25 and 29.999 are Overweight, and 30 is Obese. |
| PageRules.CategoryMonotone | src/pages/Dashboard.tsx:52-57 | A larger BMI never maps to an earlier band. |
| PageRules.Label | src/pages/Profile.tsx:35-40 | Each band has exactly its own label: "Underweight", "Normal weight", "Overweight" or "Obese". |
| PageRules.BmiOf | src/pages/Goals.tsx:16-20 | A BMI exists iff height and weight are truthy, and it satisfies bmi · (h/100)² = w. |
| PageRules.CaloriesOf | src/pages/Goals.tsx:24-34 | A target exists iff age, height, weight and the goal are truthy. It is the rounded male maintenance plus the goal's offset. |
| Activities.Without | src/pages/Activities.tsx:45 | The ids kept are exactly those of the input other than the toggled one. |
| Activities.Toggle | src/pages/Activities.tsx:42-48 | An unselected id is appended at the end. The toggled id is present afterwards iff it was absent before. Membership of every other id is unchanged. |
| Activities.ToggleRemovesInPlace | src/pages/Activities.tsx:45 | Deselecting from a + [id] + b with no duplicates gives exactly a + b, so the others keep their relative order. |
| Activities.ToggleKeepsNoDuplicates | src/pages/Activities.tsx:42-48 | A duplicate-free selection stays duplicate-free. |
| Activities.ToggleTwice | src/pages/Activities.tsx:42-48 | Toggling an unselected id twice restores the list exactly. Toggling any id twice restores the set of ids. |
| Activities.Pick | src/pages/Activities.tsx:32-34 | The result is exactly the entries whose id is selected. |
| Activities.PickAppend | src/pages/Activities.tsx:32-34 | Filtering preserves the catalog's order: filtering a concatenation concatenates the filtered parts. |
| Activities.PickIgnoresClickOrder | src/pages/Activities.tsx:32-34 | Two selections with the same ids pick the same entries in the same order. |
| Activities.PickNone | src/pages/Activities.tsx:32-34 | Selected ids that name no entry pick nothing. |
| Activities.PlanEmptyWithoutMatch | src/pages/Activities.tsx:30-40 | When no selected id names a catalog entry, the plan is empty whatever the target. |
| Activities.ExercisePlan | src/pages/Activities.tsx:30-40 | The plan is empty when nothing is selected or the target is ≤ 0. Otherwise it is the split of the target over the selected catalog entries in catalog order. |
| Activities.PickAfterToggleTwice | src/pages/Activities.tsx:32-48 | For any list being filtered, toggling an id twice picks the same entries in the same order as before. |
| Activities.PlanAfterToggleTwice | src/pages/Activities.tsx:30-48 | Toggling any id twice leaves the plan unchanged. |
| Activities.NextTarget | src/pages/Activities.tsx:18-28 | The target is recomputed iff age, height, weight and goal are all truthy. Otherwise the previous target stays. |
| Activities.SavePlan | src/pages/Activities.tsx:50-66 | An empty plan writes nothing. A non-empty plan is stored exactly under "exercisePlan". No other key changes. |
| Dashboard.DeriveBmi | src/pages/Dashboard.tsx:25-30 | The BMI changes only when height and weight are truthy, and is then the BMI of the two. |
| Dashboard.DeriveCalories | src/pages/Dashboard.tsx:32-42 | Calories change only when all four fields are truthy, and are then the target for the user's goal. |
| Dashboard.GoalTitle | src/pages/Dashboard.tsx:59-68 | "Weight Loss", "Weight Gain" and "Weight Maintenance" are chosen exactly when the calorie formula applies −500, +500 and 0, so the two default branches agree. |
| Dashboard.LoadSavedPlan | src/pages/Dashboard.tsx:44-50 | An absent or empty key loads no plan. A stored plan loads as stored. Unparsable text or a non-list value fails. |
| Dashboard.SavedPlanRoundTrip | src/pages/Dashboard.tsx:44-50 | A non-empty plan saved by the planner loads back unchanged. Saving an empty plan leaves the loaded value as it was. |
| Goals.InitialGoal | src/pages/Goals.tsx:21 | The selection is the user's goal when that is truthy, else null. |
| Goals.OnUserChange | src/pages/Goals.tsx:16-22 | The BMI changes only when height and weight are truthy. The selection is reset from the user. |
| Goals.DeriveCalories | src/pages/Goals.tsx:24-34 | Calories change only when age, height, weight and the selected goal are truthy. They use the selected goal, not the stored one. |
| Goals.Progress | src/pages/Goals.tsx:36-41 | The progress is 75 only for Normal, 50 only for Overweight, and 25 for Underweight and Obese. |
| Goals.PagesAgree | src/pages/Goals.tsx:16-34 | For the same user, Goals shows the Dashboard's BMI. With the selection still the stored goal, it shows the Dashboard's calorie target, which is also the planner's target whenever all four fields are truthy. |
| Goals.ProgressPeaksOnNormal | src/pages/Goals.tsx:36-41 | Progress is at most 75, and reaches 75 exactly for 18.5 ≤ bmi < 25. |
| Goals.HandleGoalSelect | src/pages/Goals.tsx:73-80 | The selection becomes the chosen id. A signed-in user is replaced by the same record with the new goal, installed in sync with storage. With nobody signed in the session is unchanged. The offline mirror never receives the new goal. |
| Goals.GoalSelectKeepsOtherFields | src/pages/Goals.tsx:77 | Every field of the user other than `goal` is kept. |
| Profile.FieldFrom | src/pages/Profile.tsx:18-20 | A field starts filled iff the user's value is truthy, and then holds that value. |
| Profile.InitialForm | src/pages/Profile.tsx:17-22 | Each field is initialised from the user, or empty when the value is absent or falsy. |
| Profile.FormBmi | src/pages/Profile.tsx:26-33 | The BMI is null when height or weight is empty. Otherwise it is the BMI of the two numbers. |
| Profile.HandleSubmit | src/pages/Profile.tsx:42-77 | An incomplete form calls nothing and changes nothing. A complete form is saved unless the stored canonical text is non-empty and unparsable. When it is saved, the returned user, carrying the form's values, is installed in sync with storage. A failed update leaves the session as it was. |
| Profile.ResubmitUnchanged | src/pages/Profile.tsx:17-63 | For a complete stored user, submitting the form as it was initialised saves exactly that user again. |
| Profile.SubmitKeepsIdentity | src/pages/Profile.tsx:55-63 | Submitting over a stored user keeps its id, email and name. |

The three pages define `getBMICategory` separately, each with the same thresholds
(src/pages/Dashboard.tsx:52-57, src/pages/Goals.tsx:36-41, src/pages/Profile.tsx:35-40).
The model defines the bands once, as `PageRules.CategoryOf`, so the pages agree by
construction. The Activities page computes the same totals as Dashboard inline
(src/pages/Activities.tsx:205, 211). Both reductions are modelled by `Plans.PlanTotals`.

## Left out

- Metrics.CalculateBMI: requires a non-zero height. In the source, height 0 divides by zero and gives Infinity or NaN, which the reals cannot represent.
- Profile.FormBmi: a height typed as "0" passes the source's truthiness test and shows an Infinite BMI. The model gives no BMI in that case.
- Metrics.CalculateExerciseTime: requires positive calories-per-hour values. The catalog guarantees this, and the source has no guard.
- Store.ParseUser: a parsed object or array of another shape under "currentUser" is read as a record with none of the user keys, and its extra keys are dropped. JSON text that parses to `null` or to a primitive (a number, boolean or string) cannot be represented by `Entry`. For a falsy primitive such as `0`, `false` or `""`, the source's startup restore keeps that value as the user while `isAuthenticated` is false (src/contexts/AuthContext.tsx:63-64, 28-29).
- Session.Reduce: the invariant `isAuthenticated <==> user != null` is proved only for payloads that are a user record or null. A falsy JSON primitive dispatched by the startup restore breaks it in the source, and the model cannot represent that payload.
- Account.RegisterUser: the fallback path, with id "offline_" + timestamp, is selected by a parameter. In the source that `catch` can only be reached if the simulated delay rejects, which it never does.
- NaN, and `Number()` on arbitrary text: a filled numeric field is modelled by the number it reads as.
- Floating point: all arithmetic is exact, so IEEE-754 rounding artefacts are not modelled.
- Timers and promises: each simulated call is one synchronous step, because the delays carry no behaviour.
- Storage quota errors and exceptions from `getItem`/`setItem`: the store is a total map, and writes always succeed. In the source, only `saveToOfflineStorage` and `getFromOfflineStorage` catch and log such errors (src/services/api.ts:56-58, 65-67). A failing `setItem` in `updateUserProfile` (src/services/api.ts:132) is retried once (src/services/api.ts:140) and then propagates, so the Profile page reports "Update failed" (src/pages/Profile.tsx:68-73). The `setItem` calls in `login`, `updateUser` and `savePlan` (src/contexts/AuthContext.tsx:79, 89, src/pages/Activities.tsx:61) have no guard, so the error escapes the handler.
- Console logging, toasts, loading spinners, icons, colour classes, `toFixed(1)` formatting and render-time guards such as `{dailyCalories && …}`: presentation only.
- src/App.tsx route guards, src/components/InstallPrompt.tsx and src/components/OfflineIndicator.tsx: routing and UI with no computation.
- Concurrency: the source runs one operation at a time on a single thread, so interleavings are not modelled.
