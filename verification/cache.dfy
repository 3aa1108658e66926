/** The Redis cache as a map from key to value, the keys the handlers use, and
    what it means for cached problem data to agree with the database. */
module Cache {
  import opened Common
  import opened Strings
  import opened Models

  /** What a key holds: a flag (the blacklist's "1"), or the JSON of a problem
      list or of one problem. JSON encoding and decoding are taken to be
      inverse, so the cached data is kept as the views themselves. */
  datatype CacheValue = Flag(text: string) | ListJson(views: seq<ProblemView>) | ProblemJson(view: ProblemView)

  type Store = map<string, CacheValue>

  /** Python truthiness of what `redis.get` returns: a serialised JSON value is
      never empty. */
  predicate Truthy(v: CacheValue)
  {
    !(v.Flag? && v.text == "")
  }

  /** `redis.get(key)` under `if cached:`. */
  function Get(c: Store, key: string): (r: Option<CacheValue>)
    ensures r.Some? <==> key in c && Truthy(c[key])
    ensures r.Some? ==> r.value == c[key]
  {
    if key in c && Truthy(c[key]) then Some(c[key]) else None
  }

  const AdminListKey: string := "admin:problems_list"

  /** `problems_list_key`: admins share one list key; every other user has a
      key of their own. */
  function ProblemsListKey(userId: int, isAdmin: bool): (k: string)
    ensures k == AdminListKey <==> isAdmin
  {
    var listKey := "user:" + IntToString(userId) + ":problems_list";
    assert listKey[0] == 'u';
    if isAdmin then AdminListKey else listKey
  }

  function ListKey(userId: int): string
  {
    ProblemsListKey(userId, false)
  }

  function ProblemKey(id: int): string
  {
    "problem:" + IntToString(id)
  }

  function BlacklistKey(token: string): string
  {
    "blacklist:" + token
  }

  /** Whether `get_current_user` finds the token blacklisted. */
  predicate Blacklisted(c: Store, token: string)
  {
    Get(c, BlacklistKey(token)).Some?
  }

  /** Different non-admin users have different list keys, and none of them is
      the admin key, whatever id an admin has. */
  lemma ListKeysDistinct(a: int, b: int, adminId: int)
    ensures ProblemsListKey(a, false) == ProblemsListKey(b, false) ==> a == b
    ensures ProblemsListKey(a, false) != ProblemsListKey(adminId, true)
  {
    if ProblemsListKey(a, false) == ProblemsListKey(b, false) {
      Unwrap("user:", IntToString(a), IntToString(b), ":problems_list");
      IntToStringInjective(a, b);
    }
    assert ProblemsListKey(a, false)[0] != AdminListKey[0];
  }

  /** Problem keys name their problem. */
  lemma ProblemKeysDistinct(a: int, b: int)
    ensures ProblemKey(a) == ProblemKey(b) ==> a == b
  {
    if ProblemKey(a) == ProblemKey(b) {
      Unwrap("problem:", IntToString(a), IntToString(b), "");
      IntToStringInjective(a, b);
    }
  }

  /** The four families of keys never collide: they start differently. */
  lemma KeyFamiliesDisjoint(u: int, id: int, token: string)
    ensures ListKey(u) != AdminListKey && ListKey(u) != ProblemKey(id) && ListKey(u) != BlacklistKey(token)
    ensures ProblemKey(id) != AdminListKey && ProblemKey(id) != BlacklistKey(token)
    ensures BlacklistKey(token) != AdminListKey
  {
    assert ListKey(u)[0] == 'u' && AdminListKey[0] == 'a';
    assert ProblemKey(id)[0] == 'p' && BlacklistKey(token)[0] == 'b';
  }

  /** Every cached problem list or problem is what the database would serve now. */
  ghost predicate Coherent(db: Db, c: Store)
  {
    && (AdminListKey in c ==> c[AdminListKey] == ListJson(AllViews(db)))
    && (forall u: int :: ListKey(u) in c ==> c[ListKey(u)] == ListJson(UserViews(db, u)))
    && (forall id: int :: ProblemKey(id) in c ==>
          0 <= id && id in db.problems && c[ProblemKey(id)] == ProblemJson(ViewOf(db, id)))
  }
}
