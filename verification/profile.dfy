/** The profile form of src/pages/Profile.tsx: initial field values, the
    live BMI, and the submit handler with its validation gate. */
module Profile {
  import opened Wrappers
  import opened Types
  import opened Metrics
  import opened Store
  import opened PageRules
  import opened Session
  import Account

  /** A numeric input: the empty string, or non-empty text whose `Number` is
      `value`. Non-empty text is truthy even when it reads as 0. */
  datatype Field = Blank | Entered(value: real)

  /** The form state; `goal` is the selected string, "" when none. */
  datatype Form = Form(age: Field, height: Field, weight: Field, goal: string)

  /** `user?.field || ''`: a falsy or absent value starts blank. */
  function FieldFrom(x: Option<real>): (f: Field)
    ensures f.Entered? <==> NumPresent(x)
    ensures f.Entered? ==> f.value == x.value
  {
    if NumPresent(x) then Entered(x.value) else Blank
  }

  /** The form's initial state, each field taken from the user or left empty. */
  function InitialForm(user: Option<User>): (f: Form)
    ensures user.None? ==> f == Form(Blank, Blank, Blank, "")
    ensures user.Some? ==>
      && f.age == FieldFrom(user.value.age)
      && f.height == FieldFrom(user.value.height)
      && f.weight == FieldFrom(user.value.weight)
      && (f.goal != "" <==> TextPresent(user.value.goal))
      && (f.goal != "" ==> user.value.goal == Some(f.goal))
  {
    if user.None? then Form(Blank, Blank, Blank, "")
    else
      var u := user.value;
      Form(FieldFrom(u.age), FieldFrom(u.height), FieldFrom(u.weight),
           if TextPresent(u.goal) then u.goal.value else "")
  }

  /** The live BMI: null while height or weight is empty, otherwise the BMI
      of the two numbers. */
  function FormBmi(f: Form): (bmi: Option<real>)
    ensures f.height.Blank? || f.weight.Blank? ==> bmi.None?
    ensures f.height.Entered? && f.weight.Entered? && f.height.value != 0.0 ==>
      && bmi.Some?
      && bmi.value * ((f.height.value / 100.0) * (f.height.value / 100.0)) == f.weight.value
  {
    if f.height.Entered? && f.weight.Entered? && f.height.value != 0.0 then
      Some(CalculateBMI(f.height.value, f.weight.value))
    else None
  }

  /** The submit gate: all four fields non-empty. */
  predicate Complete(f: Form) {
    f.age.Entered? && f.height.Entered? && f.weight.Entered? && f.goal != ""
  }

  /** What a submit ends in: stopped by the gate, failed in the profile
      update, or saved with the returned record. */
  datatype Outcome = Rejected | Failed(error: Error) | Saved(user: User)

  /** `handleSubmit`. An incomplete form calls neither the profile update nor
      `updateUser`. A complete form converts the numbers and calls the update;
      on success the returned record is installed through `updateUser`, on
      failure the session is left as it was. */
  function HandleSubmit(f: Form, sess: Session, now: int): (r: (Outcome, Session))
    ensures !Complete(f) ==> r == (Rejected, sess)
    ensures r.0.Saved? <==> Complete(f) && !(Holds(sess.store, CurrentUserKey) && sess.store[CurrentUserKey].Unparsable?)
    ensures r.0.Failed? ==> r.1 == sess && r.0.error == MalformedJson
    ensures r.0.Saved? ==>
      var u := r.0.user;
      && u.age == Some(f.age.value) && u.height == Some(f.height.value)
      && u.weight == Some(f.weight.value) && u.goal == Some(f.goal)
      && r.1.state.user == Some(u) && r.1.state.isAuthenticated && !r.1.state.isLoading
      && InSync(r.1)
      && GetFromOfflineStorage(r.1.store, CurrentUserKey) == Some(u)
  {
    if !Complete(f) then (Rejected, sess)
    else
      var profile := Account.Profile(f.age.value, f.height.value, f.weight.value, f.goal);
      match Account.UpdateUserProfile(sess.store, profile, now)
      case Failure(e) => (Failed(e), sess)
      case Success(reply) =>
        KeysDistinct();
        (Saved(reply.user), UpdateUser(Session(reply.store, sess.state), reply.user))
  }

  /** A saved submit keeps the identity of the record that was stored. */
  lemma SubmitKeepsIdentity(f: Form, sess: Session, now: int)
    requires Complete(f)
    requires CurrentUserKey in sess.store && sess.store[CurrentUserKey].UserDoc?
    ensures var r := HandleSubmit(f, sess, now);
      var stored := sess.store[CurrentUserKey].user;
      && r.0.Saved?
      && r.0.user.id == stored.id && r.0.user.email == stored.email && r.0.user.name == stored.name
  {
  }

  /** Submitting the form as it was initialised from a complete stored user
      saves exactly that user again. */
  lemma ResubmitUnchanged(sess: Session, now: int)
    requires CurrentUserKey in sess.store && sess.store[CurrentUserKey].UserDoc?
    requires BodyComplete(sess.store[CurrentUserKey].user) && TextPresent(sess.store[CurrentUserKey].user.goal)
    ensures var u := sess.store[CurrentUserKey].user;
      HandleSubmit(InitialForm(Some(u)), sess, now).0 == Saved(u)
  {
  }
}
