/** Local storage as the application uses it (src/services/api.ts): a map from
    keys to stored documents, the canonical user record under "currentUser",
    the offline mirror `{data, timestamp}` under "offline_" + key, and the
    saved exercise plan under "exercisePlan". */
module Store {
  import opened Wrappers
  import opened Types

  /** What a key can hold. Storage keeps JSON text; the model keeps what
      `JSON.parse` would make of it, or the text itself when it does not parse.
      `Unparsable("")` is the empty string, which is falsy. */
  datatype Entry =
    | UserDoc(user: User)
    | MirrorDoc(data: User, timestamp: int)
    | PlanDoc(plan: seq<PlanItem>)
    | Unparsable(text: string)

  type Store = map<string, Entry>

  /** Errors a caller can see: the demo login refused with no offline record
      to fall back on, `JSON.parse` throwing on stored text, and a parsed
      value used as a list when it is not one. */
  datatype Error = InvalidCredentials | MalformedJson | NotAList

  const CurrentUserKey: string := "currentUser"
  const ExercisePlanKey: string := "exercisePlan"
  const OfflinePrefix: string := "offline_"

  /** The key under which the offline copy of `key` lives. */
  function MirrorKey(key: string): (k: string)
    ensures |k| == |key| + 8
    ensures k != key
  {
    OfflinePrefix + key
  }

  /** The three keys the application writes are pairwise distinct. */
  lemma KeysDistinct()
    ensures CurrentUserKey != MirrorKey(CurrentUserKey)
    ensures ExercisePlanKey != CurrentUserKey
    ensures ExercisePlanKey != MirrorKey(CurrentUserKey)
  {
    assert ExercisePlanKey[0] != CurrentUserKey[0];
    assert ExercisePlanKey[0] != MirrorKey(CurrentUserKey)[0];
  }

  /** Every key except those in `touched` is bound exactly as before. */
  ghost predicate OnlyTouched(s: Store, s': Store, touched: set<string>) {
    forall k :: k !in touched ==> (k in s' <==> k in s) && (k in s ==> s'[k] == s[k])
  }

  /** `if (stored)`: the key is present and its text is not the empty string. */
  predicate Holds(s: Store, key: string) {
    key in s && s[key] != Unparsable("")
  }

  /** What `JSON.parse` of a stored entry gives, read as a user record: None
      when the text does not parse. A document of another shape parses to an
      object or array that carries none of the user record's keys. */
  function ParseUser(e: Entry): (r: Option<User>)
    ensures r.None? <==> e.Unparsable?
    ensures e.UserDoc? ==> r == Some(e.user)
    ensures e.MirrorDoc? || e.PlanDoc? ==> r == Some(EmptyRecord)
  {
    match e
    case UserDoc(u) => Some(u)
    case Unparsable(_) => None
    case _ => Some(EmptyRecord)
  }

  /** `saveToOfflineStorage`: writes `{data, timestamp}` under the mirror key
      and nothing else. Storage quota failures are not modelled. */
  function SaveToOfflineStorage(s: Store, key: string, data: User, now: int): (s': Store)
    ensures s'.Keys == s.Keys + {MirrorKey(key)}
    ensures forall k :: k in s && k != MirrorKey(key) ==> s'[k] == s[k]
    ensures GetFromOfflineStorage(s', key) == Some(data)
  {
    s[MirrorKey(key) := MirrorDoc(data, now)]
  }

  /** `getFromOfflineStorage`: the `data` of the mirror entry; null when the
      key is absent or empty, when its text does not parse, and when the parsed
      value has no `data` field. */
  function GetFromOfflineStorage(s: Store, key: string): (r: Option<User>)
    ensures r.Some? <==> MirrorKey(key) in s && s[MirrorKey(key)].MirrorDoc?
    ensures r.Some? ==> r.value == s[MirrorKey(key)].data
  {
    var k := MirrorKey(key);
    if k in s && s[k].MirrorDoc? then Some(s[k].data) else None
  }

  /** Saving then reading back returns the saved record, and a later save to
      the same key replaces the earlier one whatever was stored before. */
  lemma OfflineRoundTrip(s: Store, key: string, d1: User, t1: int, d2: User, t2: int)
    ensures GetFromOfflineStorage(SaveToOfflineStorage(s, key, d1, t1), key) == Some(d1)
    ensures SaveToOfflineStorage(SaveToOfflineStorage(s, key, d1, t1), key, d2, t2)
         == SaveToOfflineStorage(s, key, d2, t2)
  {
  }

  /** Saving under one key leaves the mirror of every other key readable as before. */
  lemma OfflineIndependent(s: Store, key: string, other: string, d: User, t: int)
    requires key != other
    ensures GetFromOfflineStorage(SaveToOfflineStorage(s, key, d, t), other) == GetFromOfflineStorage(s, other)
  {
    assert MirrorKey(key) != MirrorKey(other) by {
      assert MirrorKey(key)[8..] == key;
      assert MirrorKey(other)[8..] == other;
    }
  }
}
