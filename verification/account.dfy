/** The simulated account service of src/services/api.ts: login with the
    offline fallback, registration, profile update and profile read. The
    artificial delays are left out; each call is one synchronous step from a
    store to a result and a new store. Timestamps come in as parameters. */
module Account {
  import opened Wrappers
  import opened Types
  import opened Store

  /** The single credential pair the simulated backend accepts. */
  const DemoEmail: string := "demo@example.com"
  const DemoPassword: string := "demo123"

  /** A service call's returned user together with the storage it leaves behind. */
  datatype Reply = Reply(user: User, store: Store)

  /** The physiological fields a profile update carries. */
  datatype Profile = Profile(age: real, height: real, weight: real, goal: string)

  predicate IsDemoPair(email: string, password: string) {
    email == DemoEmail && password == DemoPassword
  }

  /** The offline mirror of the current user, as `loginUser` reads it. */
  function OfflineUser(s: Store): Option<User> {
    GetFromOfflineStorage(s, CurrentUserKey)
  }

  /** True when the offline mirror holds a record whose email is `email`. */
  predicate MirrorMatches(s: Store, email: string) {
    OfflineUser(s).Some? && OfflineUser(s).value.email == Some(email)
  }

  /** `loginUser`. The demo pair signs in as user "1" and refreshes the offline
      mirror; every other pair (including the demo email with a wrong password)
      signs in only as the mirrored record, and only when its email matches;
      otherwise the call fails. The canonical key is never written here. */
  function LoginUser(s: Store, email: string, password: string, now: int): (r: Result<Reply, Error>)
    ensures IsDemoPair(email, password) ==>
      && r.Success?
      && r.value.user == User(Some("1"), Some(email), Some("Demo User"), None, None, None, None)
      && OfflineUser(r.value.store) == Some(r.value.user)
      && OnlyTouched(s, r.value.store, {MirrorKey(CurrentUserKey)})
    ensures !IsDemoPair(email, password) ==> (r.Success? <==> MirrorMatches(s, email))
    ensures !IsDemoPair(email, password) && r.Success? ==> r.value == Reply(OfflineUser(s).value, s)
    ensures r.Failure? ==> r.error == InvalidCredentials
  {
    if IsDemoPair(email, password) then
      var user := User(Some("1"), Some(email), Some("Demo User"), None, None, None, None);
      Success(Reply(user, SaveToOfflineStorage(s, CurrentUserKey, user, now)))
    else if MirrorMatches(s, email) then
      Success(Reply(OfflineUser(s).value, s))
    else
      Failure(InvalidCredentials)
  }

  /** A login is refused exactly when the pair is not the demo pair and no
      mirrored record carries the email. */
  lemma LoginRefusedIff(s: Store, email: string, password: string, now: int)
    ensures LoginUser(s, email, password, now).Failure? <==> !IsDemoPair(email, password) && !MirrorMatches(s, email)
  {
  }

  /** After a demo login, any later password for the demo email is accepted
      through the mirror: the fallback does not check passwords. */
  lemma DemoMirrorAcceptsAnyPassword(s: Store, password: string, now: int, later: int)
    ensures var r := LoginUser(s, DemoEmail, DemoPassword, now);
      r.Success? && LoginUser(r.value.store, DemoEmail, password, later).Success?
  {
  }

  /** The number a string of decimal digits denotes, most significant first. */
  function DigitsValue(s: string): int {
    if |s| == 0 then 0 else DigitsValue(s[..|s| - 1]) * 10 + (s[|s| - 1] as int - '0' as int)
  }

  /** `Date.now().toString()` for a non-negative timestamp: its decimal digits,
      without leading zeros, denoting exactly `n`. */
  function Decimal(n: nat): (r: string)
    ensures |r| > 0
    ensures forall i :: 0 <= i < |r| ==> '0' <= r[i] <= '9'
    ensures |r| == 1 <==> n < 10
    ensures |r| > 1 ==> r[0] != '0'
    ensures n > 0 ==> r[0] != '0'
    ensures DigitsValue(r) == n
    decreases n
  {
    var d := ['0' + (n % 10) as char];
    if n < 10 then d
    else
      var p := Decimal(n / 10);
      assert (p + d)[..|p + d| - 1] == p;
      p + d
  }

  /** Distinct timestamps give distinct ids: the text determines its value. */
  lemma DecimalInjective(a: nat, b: nat)
    requires Decimal(a) == Decimal(b)
    ensures a == b
  {
  }

  /** `registerUser`: a fresh record with the echoed email and name, no body
      fields, written to the offline mirror only. The id is the timestamp's
      digits, or "offline_" followed by them when the simulated remote call
      failed; the canonical key is left to the session's `login`. */
  function RegisterUser(s: Store, email: string, password: string, name: string, now: nat, remoteFailed: bool): (r: Reply)
    ensures r.user.email == Some(email) && r.user.name == Some(name)
    ensures r.user.age.None? && r.user.height.None? && r.user.weight.None? && r.user.goal.None?
    ensures r.user.id == Some(if remoteFailed then OfflinePrefix + Decimal(now) else Decimal(now))
    ensures OfflineUser(r.store) == Some(r.user)
    ensures OnlyTouched(s, r.store, {MirrorKey(CurrentUserKey)})
  {
    var id := if remoteFailed then OfflinePrefix + Decimal(now) else Decimal(now);
    var user := User(Some(id), Some(email), Some(name), None, None, None, None);
    Reply(user, SaveToOfflineStorage(s, CurrentUserKey, user, now))
  }

  /** Registration ids tell online and offline origin apart, and two
      registrations of the same origin at different times get different ids. */
  lemma RegisterIdsDistinct(s: Store, email: string, password: string, name: string, t1: nat, t2: nat)
    ensures RegisterUser(s, email, password, name, t1, false).user.id != RegisterUser(s, email, password, name, t2, true).user.id
    ensures t1 != t2 ==> RegisterUser(s, email, password, name, t1, false).user.id != RegisterUser(s, email, password, name, t2, false).user.id
    ensures t1 != t2 ==> RegisterUser(s, email, password, name, t1, true).user.id != RegisterUser(s, email, password, name, t2, true).user.id
  {
    var online, offline := Decimal(t1), OfflinePrefix + Decimal(t2);
    assert '0' <= online[0] <= '9';
    assert offline[0] == 'o';
    if t1 != t2 {
      if Decimal(t1) == Decimal(t2) {
        DecimalInjective(t1, t2);
      }
      assert (OfflinePrefix + Decimal(t1))[8..] == Decimal(t1);
      assert (OfflinePrefix + Decimal(t2))[8..] == Decimal(t2);
    }
  }

  /** The spread `{ ...current, ...profile }`: the four profile fields replaced. */
  function Merge(current: User, p: Profile): (u: User)
    ensures u.age == Some(p.age) && u.height == Some(p.height) && u.weight == Some(p.weight) && u.goal == Some(p.goal)
    ensures u.id == current.id && u.email == current.email && u.name == current.name
  {
    current.(age := Some(p.age), height := Some(p.height), weight := Some(p.weight), goal := Some(p.goal))
  }

  /** The record `updateUserProfile` merges into: `{}` when the canonical key
      is absent or empty, the parsed record otherwise, None when it does not parse. */
  function CanonicalBase(s: Store): Option<User> {
    if Holds(s, CurrentUserKey) then ParseUser(s[CurrentUserKey]) else Some(EmptyRecord)
  }

  /** `updateUserProfile`: merges the profile over the canonical record and
      writes the result both canonically and to the mirror. It performs no
      validation; it fails only when the canonical text does not parse, and
      then writes nothing. */
  function UpdateUserProfile(s: Store, p: Profile, now: int): (r: Result<Reply, Error>)
    ensures r.Failure? <==> Holds(s, CurrentUserKey) && s[CurrentUserKey].Unparsable?
    ensures r.Failure? ==> r.error == MalformedJson
    ensures r.Success? ==>
      var u := r.value.user;
      && u.age == Some(p.age) && u.height == Some(p.height)
      && u.weight == Some(p.weight) && u.goal == Some(p.goal)
      && u.id == CanonicalBase(s).value.id
      && u.email == CanonicalBase(s).value.email
      && u.name == CanonicalBase(s).value.name
    ensures r.Success? ==>
      && CurrentUserKey in r.value.store
      && r.value.store[CurrentUserKey] == UserDoc(r.value.user)
      && OfflineUser(r.value.store) == Some(r.value.user)
      && OnlyTouched(s, r.value.store, {CurrentUserKey, MirrorKey(CurrentUserKey)})
  {
    match CanonicalBase(s)
    case None => Failure(MalformedJson)
    case Some(current) =>
      var updated := Merge(current, p);
      KeysDistinct();
      var written := s[CurrentUserKey := UserDoc(updated)];
      Success(Reply(updated, SaveToOfflineStorage(written, CurrentUserKey, updated, now)))
  }

  /** A stored user keeps its identity through an update. */
  lemma UpdateKeepsIdentity(s: Store, p: Profile, now: int)
    requires CurrentUserKey in s && s[CurrentUserKey].UserDoc?
    ensures var r := UpdateUserProfile(s, p, now);
      && r.Success?
      && r.value.user == s[CurrentUserKey].user.(age := Some(p.age), height := Some(p.height), weight := Some(p.weight), goal := Some(p.goal))
  {
  }

  /** Updating twice with the same profile gives the same record as once. */
  lemma UpdateIdempotent(s: Store, p: Profile, t1: int, t2: int)
    requires UpdateUserProfile(s, p, t1).Success?
    ensures var r1 := UpdateUserProfile(s, p, t1);
      var r2 := UpdateUserProfile(r1.value.store, p, t2);
      r2.Success? && r2.value.user == r1.value.user
  {
  }

  /** `getUserProfile`: the parsed canonical record, null when absent or
      empty; the unguarded `JSON.parse` throws on unparsable text. */
  function GetUserProfile(s: Store): (r: Result<Option<User>, Error>)
    ensures r == Success(None) <==> !Holds(s, CurrentUserKey)
    ensures r.Failure? <==> Holds(s, CurrentUserKey) && s[CurrentUserKey].Unparsable?
    ensures r.Success? && r.value.Some? ==> r.value == ParseUser(s[CurrentUserKey])
  {
    if !Holds(s, CurrentUserKey) then Success(None)
    else match ParseUser(s[CurrentUserKey])
      case None => Failure(MalformedJson)
      case Some(u) => Success(Some(u))
  }

  /** Reading the profile after a successful update returns the updated record. */
  lemma UpdateThenGet(s: Store, p: Profile, now: int)
    requires UpdateUserProfile(s, p, now).Success?
    ensures var r := UpdateUserProfile(s, p, now);
      GetUserProfile(r.value.store) == Success(Some(r.value.user))
  {
  }
}
