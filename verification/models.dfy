/** The stored entities (the ORM classes) and the database as a set of tables,
    each a map from row id to record. */
module Models {
  import opened Common
  import opened Strings

  type Id = nat

  // ---------------------------------------------------------------------------
  // Problem status
  // ---------------------------------------------------------------------------

  /** The closed set of statuses a problem can carry. */
  datatype Status = Pending | InWork | Done | Rejected

  /** The text stored in the `status` column. */
  function StatusText(s: Status): string
  {
    match s
    case Pending => "В обробці"
    case InWork => "в роботі"
    case Done => "виконано"
    case Rejected => "відмовлено"
  }

  /** Different statuses are stored as different texts. */
  lemma StatusTextInjective(a: Status, b: Status)
    requires StatusText(a) == StatusText(b)
    ensures a == b
  {
    var ta, tb := StatusText(a), StatusText(b);
    assert ta[0] == tb[0] && |ta| == |tb|;
  }

  // ---------------------------------------------------------------------------
  // Records
  // ---------------------------------------------------------------------------

  datatype User = User(
    username: string,
    passwordHash: string,
    email: string,
    isAdmin: bool,
    isVerified: bool,
    telegramId: Option<int>)

  datatype Problem = Problem(
    title: string,
    description: string,
    imageUrl: Option<string>,
    status: Status,
    userId: int,
    adminId: Option<int>)

  datatype AdminResponse = AdminResponse(message: string, adminId: int, problemId: int)

  datatype ServiceRecord = ServiceRecord(
    workDone: string,
    usedParts: Option<seq<string>>,
    warrantyInfo: string,
    problemId: int,
    userId: int)

  datatype ProblemMessage = ProblemMessage(message: string, userId: int, problemId: int, isAdmin: bool)

  datatype SnakeStats = SnakeStats(userId: int, points: int)

  /** A user row as the `User` column defaults create it: neither an admin nor
      verified, and without a linked Telegram account. */
  function NewUser(username: string, passwordHash: string, email: string): (u: User)
    ensures !u.isAdmin && !u.isVerified && u.telegramId == None
    ensures u.username == username && u.email == email && u.passwordHash == passwordHash
  {
    User(username, passwordHash, email, false, false, None)
  }

  /** A problem row as the `Problem` column defaults create it: pending and
      not yet taken by an admin. */
  function NewProblem(title: string, description: string, imageUrl: Option<string>, userId: int): (p: Problem)
    ensures p.status == Pending && p.adminId == None
    ensures p.title == title && p.description == description
    ensures p.imageUrl == imageUrl && p.userId == userId
  {
    Problem(title, description, imageUrl, Pending, userId, None)
  }

  // ---------------------------------------------------------------------------
  // The database
  // ---------------------------------------------------------------------------

  /** All tables. Row ids are drawn from `next`, which is above every id in use. */
  datatype Db = Db(
    users: map<Id, User>,
    problems: map<Id, Problem>,
    responses: map<Id, AdminResponse>,
    records: map<Id, ServiceRecord>,
    messages: map<Id, ProblemMessage>,
    snakes: map<Id, SnakeStats>,
    next: Id)

  const EmptyDb: Db := Db(map[], map[], map[], map[], map[], map[], 0)

  predicate KeysBelow<V>(m: map<Id, V>, bound: Id)
  {
    forall k :: k in m ==> k < bound
  }

  predicate IdsFresh(db: Db)
  {
    && KeysBelow(db.users, db.next)
    && KeysBelow(db.problems, db.next)
    && KeysBelow(db.responses, db.next)
    && KeysBelow(db.records, db.next)
    && KeysBelow(db.messages, db.next)
    && KeysBelow(db.snakes, db.next)
  }

  /** The unique constraints of the `users` table. */
  predicate UniqueUsers(users: map<Id, User>)
  {
    && (forall i, j :: i in users && j in users && i != j ==> users[i].username != users[j].username)
    && (forall i, j :: i in users && j in users && i != j ==> users[i].email != users[j].email)
    && (forall i, j :: i in users && j in users && i != j && users[i].telegramId.Some? ==>
          users[i].telegramId != users[j].telegramId)
  }

  const MaxUsername: nat := 50
  const MaxEmail: nat := 100
  const MaxTitle: nat := 250
  const MaxDescription: nat := 1000
  const MaxImageUrl: nat := 250
  const MaxText: nat := 1000

  /** Column widths and lower-cased emails. */
  predicate UserShape(u: User)
  {
    |u.username| <= MaxUsername && |u.email| <= MaxEmail && IsLower(u.email)
  }

  predicate ProblemShape(p: Problem)
  {
    && |p.title| <= MaxTitle
    && |p.description| <= MaxDescription
    && (p.imageUrl.Some? ==> |p.imageUrl.value| <= MaxImageUrl)
  }

  predicate Shapes(db: Db)
  {
    && (forall i :: i in db.users ==> UserShape(db.users[i]))
    && (forall i :: i in db.problems ==> ProblemShape(db.problems[i]))
    && (forall i :: i in db.responses ==> |db.responses[i].message| <= MaxText)
    && (forall i :: i in db.records ==>
          |db.records[i].workDone| <= MaxText && |db.records[i].warrantyInfo| <= MaxText)
  }

  /** At most one leaderboard row per user. */
  predicate UniqueSnakes(snakes: map<Id, SnakeStats>)
  {
    forall i, j :: i in snakes && j in snakes && i != j ==> snakes[i].userId != snakes[j].userId
  }

  /** What every reachable database satisfies. */
  predicate ValidDb(db: Db)
  {
    IdsFresh(db) && UniqueUsers(db.users) && Shapes(db) && UniqueSnakes(db.snakes)
  }

  // ---------------------------------------------------------------------------
  // Lookups: the first row (by id) that matches, as `scalar_one_or_none` and
  // `.all()` see the table
  // ---------------------------------------------------------------------------

  /** The smallest id in `[from, bound)` whose row satisfies `p`. */
  function FindKey<V>(m: map<Id, V>, p: V -> bool, from: Id, bound: Id): (r: Option<Id>)
    ensures r.Some? ==> from <= r.value < bound && r.value in m && p(m[r.value])
    ensures r.Some? ==> forall j :: from <= j < r.value && j in m ==> !p(m[j])
    ensures r.None? ==> forall j :: from <= j < bound && j in m ==> !p(m[j])
    decreases bound - from
  {
    if from >= bound then None
    else if from in m && p(m[from]) then Some(from)
    else FindKey(m, p, from + 1, bound)
  }

  /** Whichever bounds are used, a search over every key finds the same
      (smallest) matching id in two tables that match on the same ids. */
  lemma FindKeyAgrees<V>(m1: map<Id, V>, m2: map<Id, V>, p: V -> bool, b1: Id, b2: Id)
    requires KeysBelow(m1, b1) && KeysBelow(m2, b2)
    requires forall k :: (k in m1 && p(m1[k])) <==> (k in m2 && p(m2[k]))
    ensures FindKey(m1, p, 0, b1) == FindKey(m2, p, 0, b2)
  {
    var r1, r2 := FindKey(m1, p, 0, b1), FindKey(m2, p, 0, b2);
    if r1.Some? {
      assert r1.value in m2 && p(m2[r1.value]);
    }
    if r2.Some? {
      assert r2.value in m1 && p(m1[r2.value]);
    }
  }

  predicate Increasing(s: seq<Id>)
  {
    forall i, j :: 0 <= i < j < |s| ==> s[i] < s[j]
  }

  /** The ids in `[from, bound)` whose rows satisfy `p`. A query without
      ORDER BY returns rows in an order the database chooses; the model fixes
      ascending ids. */
  function Rows<V>(m: map<Id, V>, p: V -> bool, from: Id, bound: Id): (r: seq<Id>)
    ensures forall k :: k in r <==> from <= k < bound && k in m && p(m[k])
    ensures Increasing(r)
    decreases bound - from
  {
    if from >= bound then []
    else
      var rest := Rows(m, p, from + 1, bound);
      assert forall j :: 0 <= j < |rest| ==> from < rest[j] by {
        forall j | 0 <= j < |rest|
          ensures from < rest[j]
        {
          assert rest[j] in rest;
        }
      }
      if from in m && p(m[from]) then [from] + rest else rest
  }

  /** An ascending sequence is determined by its elements. */
  lemma {:induction false} IncreasingUnique(a: seq<Id>, b: seq<Id>)
    requires Increasing(a) && Increasing(b)
    requires forall k :: k in a <==> k in b
    ensures a == b
    decreases |a|
  {
    assert a != [] ==> a[0] in b;
    assert b != [] ==> b[0] in a;
    if a != [] && b != [] {
      assert a[0] == b[0] by {
        assert a[0] in b && b[0] in a;
      }
      forall k
        ensures k in a[1..] <==> k in b[1..]
      {
        if k in a[1..] {
          assert k in b && k != b[0];
        }
        if k in b[1..] {
          assert k in a && k != a[0];
        }
      }
      IncreasingUnique(a[1..], b[1..]);
      assert a == [a[0]] + a[1..] && b == [b[0]] + b[1..];
    }
  }

  /** The selected ids depend only on which rows match, not on the bound. */
  lemma RowsAgree<V>(m1: map<Id, V>, m2: map<Id, V>, p: V -> bool, b1: Id, b2: Id)
    requires KeysBelow(m1, b1) && KeysBelow(m2, b2)
    requires forall k :: (k in m1 && p(m1[k])) <==> (k in m2 && p(m2[k]))
    ensures Rows(m1, p, 0, b1) == Rows(m2, p, 0, b2)
  {
    IncreasingUnique(Rows(m1, p, 0, b1), Rows(m2, p, 0, b2));
  }

  // ---------------------------------------------------------------------------
  // Problem views: a problem as `ProblemRead` serialises it
  // ---------------------------------------------------------------------------

  /** A problem with the admin response and service record it exposes: at most
      one of each (`uselist=False`). */
  datatype ProblemView = ProblemView(
    id: Id,
    problem: Problem,
    response: Option<AdminResponse>,
    record: Option<ServiceRecord>)

  function ResponseFor(db: Db, id: Id): Option<AdminResponse>
  {
    match FindKey(db.responses, (r: AdminResponse) => r.problemId == id, 0, db.next)
    case Some(k) => Some(db.responses[k])
    case None => None
  }

  function RecordFor(db: Db, id: Id): Option<ServiceRecord>
  {
    match FindKey(db.records, (r: ServiceRecord) => r.problemId == id, 0, db.next)
    case Some(k) => Some(db.records[k])
    case None => None
  }

  /** The view of a stored problem: its own row, and a response and a record
      only if one refers to it. */
  function ViewOf(db: Db, id: Id): (v: ProblemView)
    requires id in db.problems
    ensures v.id == id && v.problem == db.problems[id]
    ensures v.response.Some? ==> v.response.value in db.responses.Values && v.response.value.problemId == id
    ensures v.record.Some? ==> v.record.value in db.records.Values && v.record.value.problemId == id
    ensures v.response.None? ==> forall k :: k in db.responses && k < db.next ==> db.responses[k].problemId != id
    ensures v.record.None? ==> forall k :: k in db.records && k < db.next ==> db.records[k].problemId != id
  {
    ProblemView(id, db.problems[id], ResponseFor(db, id), RecordFor(db, id))
  }

  function ViewsOf(db: Db, ids: seq<Id>): (vs: seq<ProblemView>)
    requires forall k :: k in ids ==> k in db.problems
    ensures |vs| == |ids|
    ensures forall i :: 0 <= i < |ids| ==> vs[i] == ViewOf(db, ids[i])
  {
    if ids == [] then [] else [ViewOf(db, ids[0])] + ViewsOf(db, ids[1..])
  }

  function AnyProblem(p: Problem): bool { true }

  /** Every problem (`get_problems`), in the model's ascending-id order. */
  function AllViews(db: Db): seq<ProblemView>
  {
    ViewsOf(db, Rows(db.problems, AnyProblem, 0, db.next))
  }

  function OwnedBy(u: int): Problem -> bool
  {
    (p: Problem) => p.userId == u
  }

  /** The problems one user owns (`get_problems_by_user_id`), in the model's
      ascending-id order. */
  function UserViews(db: Db, u: int): seq<ProblemView>
  {
    ViewsOf(db, Rows(db.problems, OwnedBy(u), 0, db.next))
  }

  /** The views of two databases that agree on the problems selected by `p`
      and on what each of those problems exposes are the same list. */
  lemma ViewsAgree(db1: Db, db2: Db, p: Problem -> bool)
    requires KeysBelow(db1.problems, db1.next) && KeysBelow(db2.problems, db2.next)
    requires forall k :: (k in db1.problems && p(db1.problems[k])) <==> (k in db2.problems && p(db2.problems[k]))
    requires forall k :: k in db1.problems && p(db1.problems[k]) ==> ViewOf(db1, k) == ViewOf(db2, k)
    ensures ViewsOf(db1, Rows(db1.problems, p, 0, db1.next)) == ViewsOf(db2, Rows(db2.problems, p, 0, db2.next))
  {
    RowsAgree(db1.problems, db2.problems, p, db1.next, db2.next);
  }

  /** A problem's view is unchanged when its row, the responses and the
      records it could expose are unchanged. */
  lemma ViewStable(db1: Db, db2: Db, id: Id)
    requires IdsFresh(db1) && IdsFresh(db2)
    requires id in db1.problems && id in db2.problems && db1.problems[id] == db2.problems[id]
    requires forall k :: (k in db1.responses && db1.responses[k].problemId == id) <==>
                         (k in db2.responses && db2.responses[k].problemId == id)
    requires forall k :: k in db1.responses && db1.responses[k].problemId == id ==> db2.responses[k] == db1.responses[k]
    requires forall k :: (k in db1.records && db1.records[k].problemId == id) <==>
                         (k in db2.records && db2.records[k].problemId == id)
    requires forall k :: k in db1.records && db1.records[k].problemId == id ==> db2.records[k] == db1.records[k]
    ensures ViewOf(db1, id) == ViewOf(db2, id)
  {
    FindKeyAgrees(db1.responses, db2.responses, (r: AdminResponse) => r.problemId == id, db1.next, db2.next);
    FindKeyAgrees(db1.records, db2.records, (r: ServiceRecord) => r.problemId == id, db1.next, db2.next);
  }
}
