/** The HTTP handlers of `main.py`: each takes the database and the cache and
    returns both with its reply. Dependencies are resolved first (401, 403),
    then the body is validated (422), then the handler runs. */
module Api {
  import opened Common
  import opened Strings
  import opened Models
  import opened Lifecycle
  import opened Schemas
  import opened Security
  import opened Uploads
  import opened Crud
  import opened Cache
  import opened Auth

  datatype App = App(db: Db, cache: Store)

  /** What every reachable state satisfies: a valid database and a cache that
      agrees with it. */
  ghost predicate Good(app: App)
  {
    ValidDb(app.db) && Coherent(app.db, app.cache)
  }

  const ValidationFailed: string := "Unprocessable Entity"
  const EmailTaken: string := "Email already exists"
  const UsernameTaken: string := "Username already taken"
  const InvalidCredentials: string := "Invalid credentials"
  const ProblemNotFound: string := "Problem not found"
  const NotYourProblem: string := "Not your problem"
  const AccessDenied: string := "Access denied"

  /** A rejection of one kind passed on as a reply of another. */
  function Pass<T, U>(r: Reply<T>): (s: Reply<U>)
    requires r.Error?
    ensures s.Error? && s.code == r.code && s.detail == r.detail
  {
    Error(r.code, r.detail)
  }

  // ===========================================================================
  // Users
  // ===========================================================================

  /** `register`: an invalid body is refused, then a taken email (compared
      lower-cased), then a taken username; otherwise the user is stored. */
  function Register(app: App, u: UserCreate, c: Crypto): (r: (App, Reply<User>))
    requires IdsFresh(app.db)
    ensures r.0.cache == app.cache
    ensures r.1.Error? ==> r.0 == app
    ensures !ValidUserCreate(u) ==> r.1 == Error(422, ValidationFailed)
    ensures ValidUserCreate(u) && (exists k :: k in app.db.users && app.db.users[k].email == Lower(u.email)) ==>
              r.1 == Error(400, EmailTaken)
    ensures (ValidUserCreate(u) && (forall k :: k in app.db.users ==> app.db.users[k].email != Lower(u.email)) &&
             (exists k :: k in app.db.users && app.db.users[k].username == u.username)) ==>
              r.1 == Error(400, UsernameTaken)
    ensures r.1.Ok? <==> ValidUserCreate(u) &&
                         forall k :: k in app.db.users ==>
                           app.db.users[k].email != Lower(u.email) && app.db.users[k].username != u.username
    ensures r.1.Ok? ==> r.1.value == NewUser(u.username, c.hash(u.password), Lower(u.email))
                        && r.0.db == app.db.(users := app.db.users[app.db.next := r.1.value], next := app.db.next + 1)
  {
    if !ValidUserCreate(u) then (app, Error(422, ValidationFailed))
    else if GetUserByEmail(app.db, u.email).Some? then (app, Error(400, EmailTaken))
    else if GetUserByUsername(app.db, u.username).Some? then (app, Error(400, UsernameTaken))
    else
      var (db', stored) := CreateUser(app.db, u, c);
      if stored.Stored? then (app.(db := db'), Ok(db'.users[stored.value]))
      else (app, Error(500, InternalError))
  }

  /** Registration keeps every invariant: the new user is unique and in shape,
      and no cached problem data mentions users. */
  lemma RegisterKeepsGood(app: App, u: UserCreate, c: Crypto)
    requires Good(app)
    ensures Good(Register(app, u, c).0)
  {
    var r := Register(app, u, c);
    if r.1.Ok? {
      var db, db' := app.db, r.0.db;
      assert UserShape(db'.users[db.next]);
      assert UniqueUsers(db'.users);
      ProblemDataUnchanged(db, db', app.cache);
    }
  }

  /** `login`: a token for the user the email and password identify, expiring
      after the access-token lifetime. */
  function Login(app: App, l: UserLogin, c: Crypto, now: int): (r: Reply<Token>)
    requires IdsFresh(app.db)
    ensures r.Error? <==> AuthenticateUser(app.db, l.email, l.password, c).None?
    ensures r.Error? ==> r == Error(401, InvalidCredentials)
    ensures r.Ok? ==> r.value.tokenType == "bearer"
  {
    match AuthenticateUser(app.db, l.email, l.password, c)
    case None => Error(401, InvalidCredentials)
    case Some(id) => Ok(BearerToken(c.encode(id, now + AccessTokenLifetime)))
  }

  /** A token from `login` is accepted until it is blacklisted: it names the
      user whose lower-cased email was given and carries the expiry time. */
  lemma LoginTokenAccepted(app: App, l: UserLogin, c: Crypto, now: int)
    requires ValidDb(app.db) && TokensDecode(c)
    requires Login(app, l, c, now).Ok?
    requires !Blacklisted(app.cache, Login(app, l, c, now).value.accessToken)
    ensures var p := GetCurrentUser(app.db, app.cache, c, Some(Login(app, l, c, now).value.accessToken));
            && p.Ok?
            && p.value.user.email == Lower(l.email)
            && c.verify(l.password, p.value.user.passwordHash)
            && p.value.exp == Some(now + AccessTokenLifetime)
  {
    var id := AuthenticateUser(app.db, l.email, l.password, c).value;
    assert c.decode(c.encode(id, now + AccessTokenLifetime)) == Some(Payload(Some(IntSub(id)), Some(now + AccessTokenLifetime)));
  }

  /** `delete_user`: blacklists the caller's token for the rest of its
      lifetime if any is left, drops the caller's and the admins' cached
      lists, and deletes the user. A token without an expiry claim makes the
      handler fail before it changes anything. */
  function DeleteAccount(app: App, token: Option<string>, c: Crypto, now: int): (r: (App, Reply<User>))
    ensures var a := GetCurrentUser(app.db, app.cache, c, token);
            && (a.Error? ==> r == (app, Pass(a)))
            && (a.Ok? && a.value.exp.None? ==> r == (app, Error(500, InternalError)))
            && (r.1.Ok? <==> a.Ok? && a.value.exp.Some?)
            && (r.1.Ok? ==> r.1.value == a.value.user && r.0.db == app.db.(users := app.db.users - {a.value.id}))
            && (r.1.Ok? && a.value.exp.value > now ==>
                  r.0.cache == app.cache[BlacklistKey(token.value) := Flag("1")] - {ListKey(a.value.id), AdminListKey})
            && (r.1.Ok? && a.value.exp.value <= now ==>
                  r.0.cache == app.cache - {ListKey(a.value.id), AdminListKey})
  {
    var a := GetCurrentUser(app.db, app.cache, c, token);
    if a.Error? then (app, Pass(a))
    else if a.value.exp.None? then (app, Error(500, InternalError))
    else
      var ttl := a.value.exp.value - now;
      var blacklisted := if ttl > 0 then app.cache[BlacklistKey(token.value) := Flag("1")] else app.cache;
      var cache' := blacklisted - {ListKey(a.value.id), AdminListKey};
      (App(DeleteUser(app.db, a.value.id).0, cache'), Ok(a.value.user))
  }

  /** After an account is deleted no token is accepted for it any more, and
      the token used to delete it is refused with 401. */
  lemma DeletedAccountLocksOut(app: App, token: Option<string>, c: Crypto, now: int, other: Option<string>)
    requires DeleteAccount(app, token, c, now).1.Ok?
    ensures var after := DeleteAccount(app, token, c, now).0;
            && GetCurrentUser(after.db, after.cache, c, token).Error?
            && GetCurrentUser(after.db, after.cache, c, token).code == 401
            && (GetCurrentUser(after.db, after.cache, c, other).Ok? ==>
                  GetCurrentUser(after.db, after.cache, c, other).value.id != GetCurrentUser(app.db, app.cache, c, token).value.id)
  {
    var a := GetCurrentUser(app.db, app.cache, c, token);
    var after := DeleteAccount(app, token, c, now).0;
    if a.value.exp.value > now {
      KeyFamiliesDisjoint(a.value.id, 0, token.value);
      assert after.cache[BlacklistKey(token.value)] == Flag("1");
      assert Blacklisted(after.cache, token.value);
    } else {
      assert a.value.id !in after.db.users;
    }
  }

  /** Deleting an account keeps every invariant. */
  lemma DeleteAccountKeepsGood(app: App, token: Option<string>, c: Crypto, now: int)
    requires Good(app)
    ensures Good(DeleteAccount(app, token, c, now).0)
  {
    var r := DeleteAccount(app, token, c, now);
    if r.1.Ok? {
      var a := GetCurrentUser(app.db, app.cache, c, token);
      var blacklisted := if a.value.exp.value > now then app.cache[BlacklistKey(token.value) := Flag("1")] else app.cache;
      if a.value.exp.value > now {
        BlacklistKeepsCoherent(app.db, app.cache, token.value);
      }
      ProblemDataUnchanged(app.db, r.0.db, blacklisted);
      CoherentWithout(r.0.db, blacklisted, {ListKey(a.value.id), AdminListKey});
    }
  }

  // ===========================================================================
  // Problems
  // ===========================================================================

  /** `create_problem` as intended, with the upload and the caller's id passed
      to `crud.create_problem`: the problem is stored for the caller; the
      caller's cached list and the admins' cached list are dropped, and nothing
      else in the cache is touched. */
  function SubmitProblem(app: App, token: Option<string>, data: ProblemCreate, image: Option<Upload>, c: Crypto)
    : (r: (App, Reply<ProblemView>))
    requires WellFormedUpload(image)
    ensures var a := GetCurrentUser(app.db, app.cache, c, token);
            && (a.Error? ==> r == (app, Pass(a)))
            && (a.Ok? && !ValidProblemCreate(data) ==> r == (app, Error(422, ValidationFailed)))
            && (r.1.Error? ==> r.0 == app)
            && (r.1.Ok? ==> (a.Ok? && ValidProblemCreate(data)
                               && r.0.db == CreateProblem(app.db, data, image, a.value.id).0
                               && r.1.value.problem.userId == a.value.id && r.1.value.problem.status == Pending
                               && r.0.cache == app.cache - {ListKey(a.value.id), AdminListKey}))
    ensures var a := GetCurrentUser(app.db, app.cache, c, token);
            a.Ok? && ValidProblemCreate(data) ==> r.1 == CreateProblem(app.db, data, image, a.value.id).1
  {
    var a := GetCurrentUser(app.db, app.cache, c, token);
    if a.Error? then (app, Pass(a))
    else if !ValidProblemCreate(data) then (app, Error(422, ValidationFailed))
    else
      var (db', reply) := CreateProblem(app.db, data, image, a.value.id);
      if reply.Error? then (app, reply)
      else (App(db', app.cache - {ListKey(a.value.id), AdminListKey}), reply)
  }

  /** `create_problem` as written: the handler calls `crud.create_problem`
      with the caller's id where the image belongs and no user id at all, so
      the call raises before anything is stored or dropped from the cache,
      and an authenticated caller with a valid body gets 500. */
  function SubmitProblemAsWritten(app: App, token: Option<string>, data: ProblemCreate, c: Crypto)
    : (r: (App, Reply<ProblemView>))
    ensures r.0 == app && r.1.Error?
    ensures var a := GetCurrentUser(app.db, app.cache, c, token);
            && (a.Error? ==> r.1 == Pass(a))
            && (a.Ok? ==> r.1.code == (if ValidProblemCreate(data) then 500 else 422))
  {
    var a := GetCurrentUser(app.db, app.cache, c, token);
    if a.Error? then (app, Pass(a))
    else if !ValidProblemCreate(data) then (app, Error(422, ValidationFailed))
    else (app, Error(500, InternalError))
  }

  /** Every valid submission without an image that the intended handler
      stores is refused by the handler as written. */
  lemma SubmitAsWrittenRefusesValid(app: App, token: Option<string>, data: ProblemCreate, c: Crypto)
    requires GetCurrentUser(app.db, app.cache, c, token).Ok? && ValidProblemCreate(data)
    ensures SubmitProblem(app, token, data, None, c).1.Ok?
    ensures SubmitProblemAsWritten(app, token, data, c) == (app, Error(500, InternalError))
  {
  }

  /** Submitting a problem keeps every invariant. */
  lemma SubmitProblemKeepsGood(app: App, token: Option<string>, data: ProblemCreate, image: Option<Upload>, c: Crypto)
    requires Good(app) && WellFormedUpload(image)
    ensures Good(SubmitProblem(app, token, data, image, c).0)
  {
    var r := SubmitProblem(app, token, data, image, c);
    if r.1.Ok? {
      var a := GetCurrentUser(app.db, app.cache, c, token);
      var db, db' := app.db, r.0.db;
      CreateProblemKeepsValid(db, data, image, a.value.id);
      forall k | k != db.next && k in db.problems
        ensures db.problems[k] == db'.problems[k] && ViewOf(db, k) == ViewOf(db', k)
      {
        ViewStable(db, db', k);
      }
      assert ProblemKey(db.next) in app.cache ==> db.next in db.problems;
      CoherentAfterProblemWrite(db, db', app.cache, r.0.cache, db.next, a.value.id);
    }
  }

  /** `get_problems`: the cached list under the caller's key, or else every
      problem for an admin and the caller's own problems for anyone else,
      which is then cached under that key. */
  function ListProblems(app: App, token: Option<string>, c: Crypto): (r: (App, Reply<seq<ProblemView>>))
    requires IdsFresh(app.db)
    ensures r.0.db == app.db
    ensures var a := GetCurrentUser(app.db, app.cache, c, token);
            && (a.Error? ==> r == (app, Pass(a)))
            && (r.0.cache != app.cache ==>
                  (a.Ok? && Get(app.cache, ProblemsListKey(a.value.id, a.value.user.isAdmin)).None?
                   && r.1.Ok? && r.0.cache == app.cache[ProblemsListKey(a.value.id, a.value.user.isAdmin) := ListJson(r.1.value)]))
            && (r.1.Ok? && !a.value.user.isAdmin && r.0.cache != app.cache ==>
                  forall i :: 0 <= i < |r.1.value| ==> r.1.value[i].problem.userId == a.value.id)
  {
    var a := GetCurrentUser(app.db, app.cache, c, token);
    if a.Error? then (app, Pass(a))
    else
      var key := ProblemsListKey(a.value.id, a.value.user.isAdmin);
      match Get(app.cache, key)
      case Some(ListJson(vs)) => (app, Ok(vs))
      case Some(_) => (app, Error(500, InternalError))
      case None =>
        var vs := if a.value.user.isAdmin then GetProblems(app.db) else GetProblemsByUserId(app.db, a.value.id);
        (app.(cache := app.cache[key := ListJson(vs)]), Ok(vs))
  }

  /** In a good state the cache is invisible: the list is every problem for an
      admin and exactly the caller's own problems for anyone else, whether it
      came from the cache or not; and the state stays good. */
  lemma ListProblemsServesDatabase(app: App, token: Option<string>, c: Crypto)
    requires Good(app)
    requires GetCurrentUser(app.db, app.cache, c, token).Ok?
    ensures var a := GetCurrentUser(app.db, app.cache, c, token).value;
            ListProblems(app, token, c).1 == Ok(if a.user.isAdmin then AllViews(app.db) else UserViews(app.db, a.id))
    ensures Good(ListProblems(app, token, c).0)
  {
    var a := GetCurrentUser(app.db, app.cache, c, token).value;
    var key := ProblemsListKey(a.id, a.user.isAdmin);
    var r := ListProblems(app, token, c);
    if Get(app.cache, key).None? {
      var v := r.1.value;
      forall u: int, id: int
        ensures ListKey(u) == key ==> u == a.id && !a.user.isAdmin
        ensures ProblemKey(id) != key
      {
        ListKeysDistinct(u, a.id, a.id);
        KeyFamiliesDisjoint(u, id, "");
        KeyFamiliesDisjoint(a.id, id, "");
      }
      assert Coherent(app.db, r.0.cache);
    }
  }

  /** Whether the caller may see or delete a problem: admins any, others only
      their own. */
  predicate MayAccess(a: Principal, p: Problem)
  {
    a.user.isAdmin || p.userId == a.id
  }

  /** What `get_problem` answers without a cache. */
  function ProblemAccess(db: Db, a: Principal, id: int): (r: Reply<ProblemView>)
    ensures r.Ok? <==> 0 <= id && id in db.problems && MayAccess(a, db.problems[id])
    ensures r.Ok? ==> r.value == ViewOf(db, id)
    ensures r.Error? ==> (r.code == 404 <==> !(0 <= id && id in db.problems))
  {
    match GetProblem(db, id)
    case None => Error(404, ProblemNotFound)
    case Some(v) => if MayAccess(a, v.problem) then Ok(v) else Error(403, NotYourProblem)
  }

  /** `get_problem`: the cached problem or the stored one; a caller who is not
      an admin is refused another user's problem on both paths. */
  function ShowProblem(app: App, token: Option<string>, id: int, c: Crypto): (r: (App, Reply<ProblemView>))
    ensures r.0.db == app.db
    ensures var a := GetCurrentUser(app.db, app.cache, c, token);
            && (a.Error? ==> r == (app, Pass(a)))
            && (r.1.Ok? ==> a.Ok? && MayAccess(a.value, r.1.value.problem))
            && (r.0.cache != app.cache ==>
                  (r.1.Ok? && r.0.cache == app.cache[ProblemKey(id) := ProblemJson(r.1.value)]
                   && 0 <= id && id in app.db.problems && r.1.value == ViewOf(app.db, id)))
  {
    var a := GetCurrentUser(app.db, app.cache, c, token);
    if a.Error? then (app, Pass(a))
    else
      var key := ProblemKey(id);
      match Get(app.cache, key)
      case Some(ProblemJson(v)) => if MayAccess(a.value, v.problem) then (app, Ok(v)) else (app, Error(403, NotYourProblem))
      case Some(_) => (app, Error(500, InternalError))
      case None =>
        var reply := ProblemAccess(app.db, a.value, id);
        if reply.Ok? then (app.(cache := app.cache[key := ProblemJson(reply.value)]), reply) else (app, reply)
  }

  /** In a good state the cache is invisible: the answer is the one the
      database gives, and the state stays good. */
  lemma ShowProblemServesDatabase(app: App, token: Option<string>, id: int, c: Crypto)
    requires Good(app)
    requires GetCurrentUser(app.db, app.cache, c, token).Ok?
    ensures ShowProblem(app, token, id, c).1 == ProblemAccess(app.db, GetCurrentUser(app.db, app.cache, c, token).value, id)
    ensures Good(ShowProblem(app, token, id, c).0)
  {
    var r := ShowProblem(app, token, id, c);
    if r.0.cache != app.cache {
      forall u: int, j: int
        ensures ListKey(u) != ProblemKey(id) && AdminListKey != ProblemKey(id)
        ensures ProblemKey(j) == ProblemKey(id) ==> j == id
      {
        KeyFamiliesDisjoint(u, id, "");
        ProblemKeysDistinct(j, id);
      }
      assert Coherent(app.db, r.0.cache);
    }
  }

  /** `delete_problem`: a missing problem is not found, another user's problem
      is refused to a non-admin; otherwise the problem's own key, its owner's
      list and the admins' list are dropped and the problem is deleted. */
  function RemoveProblem(app: App, token: Option<string>, id: int, c: Crypto): (r: (App, Reply<ProblemView>))
    ensures var a := GetCurrentUser(app.db, app.cache, c, token);
            && (a.Error? ==> r == (app, Pass(a)))
            && (a.Ok? && !(0 <= id && id in app.db.problems) ==> r == (app, Error(404, ProblemNotFound)))
            && (a.Ok? && 0 <= id && id in app.db.problems && !MayAccess(a.value, app.db.problems[id]) ==>
                  r == (app, Error(403, AccessDenied)))
            && (r.1.Ok? <==> a.Ok? && 0 <= id && id in app.db.problems && MayAccess(a.value, app.db.problems[id]))
            && (r.1.Ok? ==>
                  (r.1.value == ViewOf(app.db, id)
                   && r.0.db == app.db.(problems := app.db.problems - {id as Id})
                   && r.0.cache == app.cache - {ListKey(app.db.problems[id].userId), AdminListKey, ProblemKey(id)}))
  {
    var a := GetCurrentUser(app.db, app.cache, c, token);
    if a.Error? then (app, Pass(a))
    else match GetProblem(app.db, id)
      case None => (app, Error(404, ProblemNotFound))
      case Some(v) =>
        if !MayAccess(a.value, v.problem) then (app, Error(403, AccessDenied))
        else
          var cache' := app.cache - {ListKey(v.problem.userId), AdminListKey, ProblemKey(id)};
          (App(DeleteProblem(app.db, id).0, cache'), Ok(v))
  }

  /** Deleting a problem keeps every invariant. */
  lemma RemoveProblemKeepsGood(app: App, token: Option<string>, id: int, c: Crypto)
    requires Good(app)
    ensures Good(RemoveProblem(app, token, id, c).0)
  {
    var r := RemoveProblem(app, token, id, c);
    if r.1.Ok? {
      var db, db' := app.db, r.0.db;
      StatusWritesKeepValid(db, id, 0, Completed);
      forall k | k != id && k in db.problems
        ensures db.problems[k] == db'.problems[k] && ViewOf(db, k) == ViewOf(db', k)
      {
        ViewStable(db, db', k);
      }
      CoherentAfterProblemWrite(db, db', app.cache, r.0.cache, id, db.problems[id].userId);
    }
  }

  /** `change_problem_status`: only an admin, and only with one of the two
      final statuses; a missing problem is not found. The problem's key, its
      owner's list and the admins' list are dropped. */
  function ChangeStatus(app: App, token: Option<string>, id: int, status: string, c: Crypto)
    : (r: (App, Reply<ProblemView>))
    ensures var a := GetCurrentAdmin(GetCurrentUser(app.db, app.cache, c, token));
            && (a.Error? ==> r == (app, Pass(a)))
            && (a.Ok? && ParseStatusUpdate(status).None? ==> r == (app, Error(422, ValidationFailed)))
            && (a.Ok? && ParseStatusUpdate(status).Some? && !(0 <= id && id in app.db.problems) ==>
                  r == (app, Error(404, ProblemNotFound)))
            && (r.1.Ok? <==> a.Ok? && ParseStatusUpdate(status).Some? && 0 <= id && id in app.db.problems)
            && (r.1.Ok? ==>
                  (StatusText(r.1.value.problem.status) == status
                   && r.0.db == UpdateProblemStatus(app.db, id, ParseStatusUpdate(status).value).0
                   && r.0.cache == app.cache - {ProblemKey(id), ListKey(app.db.problems[id].userId), AdminListKey}))
  {
    var a := GetCurrentAdmin(GetCurrentUser(app.db, app.cache, c, token));
    if a.Error? then (app, Pass(a))
    else match ParseStatusUpdate(status)
      case None => (app, Error(422, ValidationFailed))
      case Some(v) =>
        var (db', updated) := UpdateProblemStatus(app.db, id, v);
        if updated.None? then (app, Error(404, ProblemNotFound))
        else (App(db', app.cache - {ProblemKey(id), ListKey(updated.value.problem.userId), AdminListKey}), Ok(updated.value))
  }

  /** Changing a status keeps every invariant. */
  lemma ChangeStatusKeepsGood(app: App, token: Option<string>, id: int, status: string, c: Crypto)
    requires Good(app)
    ensures Good(ChangeStatus(app, token, id, status, c).0)
  {
    var r := ChangeStatus(app, token, id, status, c);
    if r.1.Ok? {
      var db, db' := app.db, r.0.db;
      StatusWritesKeepValid(db, id, 0, ParseStatusUpdate(status).value);
      forall k | k != id && k in db.problems
        ensures db.problems[k] == db'.problems[k] && ViewOf(db, k) == ViewOf(db', k)
      {
        ViewStable(db, db', k);
      }
      CoherentAfterProblemWrite(db, db', app.cache, r.0.cache, id, db.problems[id].userId);
    }
  }

  /** `create_service_record` as written: an admin stores the record, which
      also completes the problem, but no cached data is dropped. A missing
      problem makes the handler return nothing, which the response model
      refuses. */
  function RecordServiceAsWritten(app: App, token: Option<string>, rec: ServiceRecordCreate, c: Crypto)
    : (r: (App, Reply<ServiceRecord>))
    ensures r.0.cache == app.cache
    ensures var a := GetCurrentAdmin(GetCurrentUser(app.db, app.cache, c, token));
            && (a.Error? ==> r == (app, Pass(a)))
            && (a.Ok? && !ValidServiceRecord(rec) ==> r == (app, Error(422, ValidationFailed)))
            && (r.1.Ok? <==> a.Ok? && ValidServiceRecord(rec) && 0 <= rec.problemId && rec.problemId in app.db.problems)
            && (a.Ok? && ValidServiceRecord(rec) && !(0 <= rec.problemId && rec.problemId in app.db.problems) ==>
                  r == (app, Error(500, InternalError)))
            && (r.1.Ok? ==> r.0.db == CreateServiceRecord(app.db, rec).0)
  {
    var a := GetCurrentAdmin(GetCurrentUser(app.db, app.cache, c, token));
    if a.Error? then (app, Pass(a))
    else if !ValidServiceRecord(rec) then (app, Error(422, ValidationFailed))
    else
      var (db', stored) := CreateServiceRecord(app.db, rec);
      if stored.None? then (app, Error(500, InternalError))
      else (app.(db := db'), Ok(stored.value))
  }

  /** The stale view: once a problem that is not yet done has been cached,
      recording a service for it leaves the cache behind the database, and the
      next `get_problem` by the same admin serves the old status. */
  lemma ServiceRecordLeavesStaleView(app: App, token: Option<string>, rec: ServiceRecordCreate, c: Crypto)
    requires Good(app)
    requires RecordServiceAsWritten(app, token, rec, c).1.Ok?
    requires ProblemKey(rec.problemId) in app.cache
    requires app.db.problems[rec.problemId].status != Done
    ensures var after := RecordServiceAsWritten(app, token, rec, c).0;
            && !Coherent(after.db, after.cache)
            && ShowProblem(after, token, rec.problemId, c).1.Ok?
            && ShowProblem(after, token, rec.problemId, c).1.value.problem.status != after.db.problems[rec.problemId].status
  {
    var after := RecordServiceAsWritten(app, token, rec, c).0;
    var cached := app.cache[ProblemKey(rec.problemId)];
    assert cached == ProblemJson(ViewOf(app.db, rec.problemId));
    assert after.db.problems[rec.problemId].status == Done;
    assert GetCurrentUser(after.db, after.cache, c, token) == GetCurrentUser(app.db, app.cache, c, token);
  }

  /** `create_service_record` as intended: as written, and then the problem's
      key, its owner's list and the admins' list are dropped, as the other
      handlers that change a problem do. */
  function RecordService(app: App, token: Option<string>, rec: ServiceRecordCreate, c: Crypto)
    : (r: (App, Reply<ServiceRecord>))
    ensures var w := RecordServiceAsWritten(app, token, rec, c);
            && r.1 == w.1 && r.0.db == w.0.db
            && (r.1.Error? ==> r.0 == app)
            && (r.1.Ok? ==> r.0.cache == app.cache - {ProblemKey(rec.problemId), ListKey(app.db.problems[rec.problemId].userId), AdminListKey})
  {
    var (app', reply) := RecordServiceAsWritten(app, token, rec, c);
    if reply.Error? then (app', reply)
    else
      var owner := app.db.problems[rec.problemId].userId;
      (app'.(cache := app.cache - {ProblemKey(rec.problemId), ListKey(owner), AdminListKey}), reply)
  }

  /** Recording a service with the invalidation keeps every invariant. */
  lemma RecordServiceKeepsGood(app: App, token: Option<string>, rec: ServiceRecordCreate, c: Crypto)
    requires Good(app)
    ensures Good(RecordService(app, token, rec, c).0)
  {
    var r := RecordService(app, token, rec, c);
    if r.1.Ok? {
      var db, db' := app.db, r.0.db;
      var pid := rec.problemId;
      CreateServiceRecordKeepsValid(db, rec);
      forall k | k != pid && k in db.problems
        ensures db.problems[k] == db'.problems[k] && ViewOf(db, k) == ViewOf(db', k)
      {
        ViewStable(db, db', k);
      }
      CoherentAfterProblemWrite(db, db', app.cache, r.0.cache, pid, db.problems[pid].userId);
    }
  }

  // ===========================================================================
  // Coherence
  // ===========================================================================

  /** Dropping keys never makes the cache disagree. */
  /** A blacklist entry never lands on a list or problem key, so adding one
      keeps the cache coherent. */
  lemma BlacklistKeepsCoherent(db: Db, c: Store, token: string)
    requires Coherent(db, c)
    ensures Coherent(db, c[BlacklistKey(token) := Flag("1")])
  {
    forall u: int, id: int
      ensures BlacklistKey(token) != ListKey(u) && BlacklistKey(token) != ProblemKey(id)
      ensures BlacklistKey(token) != AdminListKey
    {
      KeyFamiliesDisjoint(u, id, token);
    }
  }

  lemma CoherentWithout(db: Db, c: Store, keys: set<string>)
    requires Coherent(db, c)
    ensures Coherent(db, c - keys)
  {
  }

  /** A write that leaves problems, responses and records alone leaves every
      view alone, so the cache stays coherent. */
  lemma ProblemDataUnchanged(db1: Db, db2: Db, c: Store)
    requires IdsFresh(db1) && IdsFresh(db2)
    requires db1.problems == db2.problems && db1.responses == db2.responses && db1.records == db2.records
    requires Coherent(db1, c)
    ensures Coherent(db2, c)
  {
    forall k | k in db1.problems
      ensures ViewOf(db1, k) == ViewOf(db2, k)
    {
      ViewStable(db1, db2, k);
    }
    ViewsAgree(db1, db2, AnyProblem);
    forall u: int
      ensures UserViews(db1, u) == UserViews(db2, u)
    {
      ViewsAgree(db1, db2, OwnedBy(u));
    }
  }

  /** A write to one problem `pid` of `owner` (creating, changing or deleting
      it) keeps the cache coherent if that problem's key, the owner's list and
      the admins' list are gone from it and every other problem's view is
      unchanged. */
  lemma CoherentAfterProblemWrite(db1: Db, db2: Db, c1: Store, c2: Store, pid: Id, owner: int)
    requires IdsFresh(db1) && IdsFresh(db2) && Coherent(db1, c1)
    requires forall key :: key in c2 ==> key in c1 && c2[key] == c1[key]
    requires ProblemKey(pid) !in c2 && ListKey(owner) !in c2 && AdminListKey !in c2
    requires forall k :: k != pid ==> (k in db1.problems <==> k in db2.problems)
    requires forall k :: k != pid && k in db1.problems ==> db1.problems[k] == db2.problems[k] && ViewOf(db1, k) == ViewOf(db2, k)
    requires pid in db1.problems ==> db1.problems[pid].userId == owner
    requires pid in db2.problems ==> db2.problems[pid].userId == owner
    ensures Coherent(db2, c2)
  {
    forall u: int | ListKey(u) in c2
      ensures c2[ListKey(u)] == ListJson(UserViews(db2, u))
    {
      ListKeysDistinct(u, owner, 0);
      OtherUserViewsKept(db1, db2, pid, owner, u);
    }
    forall id: int | ProblemKey(id) in c2
      ensures 0 <= id && id in db2.problems && c2[ProblemKey(id)] == ProblemJson(ViewOf(db2, id))
    {
      ProblemKeysDistinct(id, pid);
    }
  }

  /** The list of a user other than the owner of the only problem written is
      unchanged. */
  lemma OtherUserViewsKept(db1: Db, db2: Db, pid: Id, owner: int, u: int)
    requires IdsFresh(db1) && IdsFresh(db2) && u != owner
    requires forall k :: k != pid ==> (k in db1.problems <==> k in db2.problems)
    requires forall k :: k != pid && k in db1.problems ==> db1.problems[k] == db2.problems[k] && ViewOf(db1, k) == ViewOf(db2, k)
    requires pid in db1.problems ==> db1.problems[pid].userId == owner
    requires pid in db2.problems ==> db2.problems[pid].userId == owner
    ensures UserViews(db1, u) == UserViews(db2, u)
  {
    var p := OwnedBy(u);
    assert forall k :: (k in db1.problems && p(db1.problems[k])) <==> (k in db2.problems && p(db2.problems[k]));
    ViewsAgree(db1, db2, p);
  }
}
