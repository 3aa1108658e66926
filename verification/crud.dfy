/** The data-access layer: reads and writes on the tables, one function per
    database helper. Every write returns the new database with its result. */
module Crud {
  import opened Common
  import opened Strings
  import opened Models
  import opened Lifecycle
  import opened Schemas
  import opened Security
  import opened Uploads

  /** The outcome of a write that can miss its row or break a unique constraint. */
  datatype Stored<T> = NotFound | IntegrityError | Stored(value: T)

  // ===========================================================================
  // Users
  // ===========================================================================

  function GetUserById(db: Db, id: int): (r: Option<User>)
    ensures r.Some? <==> 0 <= id && id in db.users
    ensures r.Some? ==> r.value == db.users[id]
  {
    if 0 <= id && id in db.users then Some(db.users[id]) else None
  }

  /** `get_user_by_email`: the query is lower-cased before it is compared, so
      the row found is the one whose stored email equals the lower-cased query. */
  function GetUserByEmail(db: Db, email: string): (r: Option<Id>)
    requires IdsFresh(db)
    ensures r.Some? ==> r.value in db.users && db.users[r.value].email == Lower(email)
    ensures r.None? ==> forall k :: k in db.users ==> db.users[k].email != Lower(email)
  {
    FindKey(db.users, (u: User) => u.email == Lower(email), 0, db.next)
  }

  /** A lookup by email does not depend on the case of the query. */
  lemma EmailLookupIgnoresCase(db: Db, e1: string, e2: string)
    requires ValidDb(db)
    requires Lower(e1) == Lower(e2)
    ensures GetUserByEmail(db, e1) == GetUserByEmail(db, e2)
  {
    var r1, r2 := GetUserByEmail(db, e1), GetUserByEmail(db, e2);
    if r1.Some? && r2.Some? {
      assert db.users[r1.value].email == db.users[r2.value].email;
    }
  }

  function GetUserByUsername(db: Db, username: string): (r: Option<Id>)
    requires IdsFresh(db)
    ensures r.Some? ==> r.value in db.users && db.users[r.value].username == username
    ensures r.None? ==> forall k :: k in db.users ==> db.users[k].username != username
  {
    FindKey(db.users, (u: User) => u.username == username, 0, db.next)
  }

  /** Some user other than `except` holds this username or email. */
  function Clash(db: Db, except: int, username: string, email: string): (r: bool)
    requires IdsFresh(db)
    ensures r <==> exists k :: k in db.users && k != except &&
                     (db.users[k].username == username || db.users[k].email == email)
  {
    FindKey(db.users, (u: User) => u.username == username || u.email == email, 0, db.next).Some?
    && (FindKey(db.users, (u: User) => u.username == username || u.email == email, 0, db.next).value != except
        || FindKey(db.users, (u: User) => u.username == username || u.email == email, except + 1, db.next).Some?)
  }

  /** `create_user`: stores the email lower-cased and the password hashed, with
      the column defaults; the unique constraints refuse a username or email
      already stored. */
  function CreateUser(db: Db, u: UserCreate, c: Crypto): (r: (Db, Stored<Id>))
    requires IdsFresh(db)
    ensures !r.1.NotFound?
    ensures r.1.IntegrityError? <==>
              (exists k :: k in db.users && (db.users[k].username == u.username || db.users[k].email == Lower(u.email)))
    ensures r.1.IntegrityError? ==> r.0 == db
    ensures r.1.Stored? ==> r.1.value == db.next && r.1.value !in db.users
    ensures r.1.Stored? ==> r.0 == db.(users := db.users[db.next := NewUser(u.username, c.hash(u.password), Lower(u.email))],
                                      next := db.next + 1)
  {
    if Clash(db, -1, u.username, Lower(u.email)) then (db, IntegrityError)
    else
      var user := NewUser(u.username, c.hash(u.password), Lower(u.email));
      (db.(users := db.users[db.next := user], next := db.next + 1), Stored(db.next))
  }

  /** `authenticate_user`: the user found by email, if the password verifies
      against the stored hash. */
  function AuthenticateUser(db: Db, email: string, password: string, c: Crypto): (r: Option<Id>)
    requires IdsFresh(db)
    ensures r.Some? ==> r == GetUserByEmail(db, email) && c.verify(password, db.users[r.value].passwordHash)
    ensures r.None? ==> GetUserByEmail(db, email).None? ||
                        !c.verify(password, db.users[GetUserByEmail(db, email).value].passwordHash)
  {
    match GetUserByEmail(db, email)
    case Some(id) => if c.verify(password, db.users[id].passwordHash) then Some(id) else None
    case None => None
  }

  /** With unique emails, authentication succeeds exactly when some user has
      the (lower-cased) email and the password verifies against their hash. */
  lemma AuthenticateExactly(db: Db, email: string, password: string, c: Crypto)
    requires ValidDb(db)
    ensures AuthenticateUser(db, email, password, c).Some? <==>
            exists k :: k in db.users && db.users[k].email == Lower(email) && c.verify(password, db.users[k].passwordHash)
  {
    var g := GetUserByEmail(db, email);
    if g.Some? {
      forall k | k in db.users && db.users[k].email == Lower(email)
        ensures k == g.value
      {
      }
    }
  }

  /** A freshly registered user is found by any casing of their email and
      authenticated with their password. */
  lemma CreatedUserAuthenticates(db: Db, u: UserCreate, c: Crypto, e: string)
    requires ValidDb(db) && HashSound(c)
    requires CreateUser(db, u, c).1.Stored?
    requires Lower(e) == Lower(u.email)
    ensures IdsFresh(CreateUser(db, u, c).0)
    ensures AuthenticateUser(CreateUser(db, u, c).0, e, u.password, c) == Some(db.next)
  {
    var db' := CreateUser(db, u, c).0;
    assert db'.users[db.next].email == Lower(e);
  }

  function DeleteUser(db: Db, id: int): (r: (Db, Option<User>))
    ensures r.1 == GetUserById(db, id)
    ensures r.1.Some? ==> r.0 == db.(users := db.users - {id as Id})
    ensures r.1.None? ==> r.0 == db
  {
    if 0 <= id && id in db.users then (db.(users := db.users - {id as Id}), Some(db.users[id])) else (db, None)
  }

  /** The user with the fields of `change` that were supplied; a supplied
      password is stored hashed. */
  function Revise(u: User, change: UserUpdate, c: Crypto): (v: User)
    ensures v.username == (if change.username.Some? then change.username.value else u.username)
    ensures v.email == (if change.email.Some? then change.email.value else u.email)
    ensures v.passwordHash == (if change.password.Some? then c.hash(change.password.value) else u.passwordHash)
    ensures v.isAdmin == u.isAdmin && v.isVerified == u.isVerified && v.telegramId == u.telegramId
  {
    var u1 := if change.username.Some? then u.(username := change.username.value) else u;
    var u2 := if change.email.Some? then u1.(email := change.email.value) else u1;
    if change.password.Some? then u2.(passwordHash := c.hash(change.password.value)) else u2
  }

  /** `update_user` as written: an unknown id is not found; otherwise only the
      supplied fields change, the email exactly as supplied, and a username or
      email another user holds breaks a unique constraint. */
  function UpdateUser(db: Db, change: UserUpdate, id: int, c: Crypto): (r: (Db, Stored<User>))
    requires IdsFresh(db)
    ensures r.1.NotFound? <==> GetUserById(db, id).None?
    ensures !r.1.Stored? ==> r.0 == db
    ensures r.1.Stored? ==> 0 <= id && id in db.users && r.1.value == Revise(db.users[id], change, c)
    ensures r.1.Stored? ==> r.0 == db.(users := db.users[id as Id := r.1.value])
    ensures r.1.IntegrityError? <==> (GetUserById(db, id).Some? &&
              Clash(db, id, Revise(db.users[id], change, c).username, Revise(db.users[id], change, c).email))
  {
    if !(0 <= id && id in db.users) then (db, NotFound)
    else
      var v := Revise(db.users[id], change, c);
      if Clash(db, id, v.username, v.email) then (db, IntegrityError)
      else (db.(users := db.users[id as Id := v]), Stored(v))
  }

  /** The update with its email lower-cased, as `create_user` stores emails. */
  function NormalizeEmail(change: UserUpdate): (n: UserUpdate)
    ensures n.username == change.username && n.password == change.password
    ensures n.email.Some? <==> change.email.Some?
    ensures n.email.Some? ==> n.email.value == Lower(change.email.value)
  {
    match change.email
    case Some(e) => change.(email := Some(Lower(e)))
    case None => change
  }

  /** `update_user` with the email lower-cased before it is stored. */
  function UpdateUserNormalized(db: Db, change: UserUpdate, id: int, c: Crypto): (r: (Db, Stored<User>))
    requires IdsFresh(db)
    ensures r.1.NotFound? <==> GetUserById(db, id).None?
    ensures r.1.Stored? ==> IsLower(r.1.value.email) || change.email.None?
    ensures r.1.Stored? && change.email.Some? ==> r.1.value.email == Lower(change.email.value)
  {
    UpdateUser(db, NormalizeEmail(change), id, c)
  }

  /** As written, a new email with an upper-case letter is stored as given, and
      the lower-casing lookup used by login no longer finds the user. */
  lemma UpdatedEmailNotFound()
    ensures var c := Crypto((p: string) => p, (p: string, h: string) => p == h,
                            (id: Id, exp: int) => "", (t: string) => None);
            var db := EmptyDb.(users := map[0 := NewUser("ann", "h", "ann@x.io")], next := 1);
            var r := UpdateUser(db, UserUpdate(None, Some("Ann@x.io"), None), 0, c);
            && ValidDb(db)
            && r.1.Stored?
            && GetUserByEmail(r.0, "Ann@x.io") == None
            && !ValidDb(r.0)
  {
    var c := Crypto((p: string) => p, (p: string, h: string) => p == h,
                    (id: Id, exp: int) => "", (t: string) => None);
    var db := EmptyDb.(users := map[0 := NewUser("ann", "h", "ann@x.io")], next := 1);
    var r := UpdateUser(db, UserUpdate(None, Some("Ann@x.io"), None), 0, c);
    assert Lower("Ann@x.io") == "ann@x.io";
    assert !IsLower(r.0.users[0].email) by {
      assert LowerChar(r.0.users[0].email[0]) != r.0.users[0].email[0];
    }
  }

  /** With the email lower-cased, a stored update keeps the database valid and
      the user is found by any casing of the new email. */
  lemma NormalizedUpdateKeepsLookup(db: Db, change: UserUpdate, id: int, c: Crypto, e: string)
    requires ValidDb(db) && ValidUserUpdate(change)
    requires UpdateUserNormalized(db, change, id, c).1.Stored?
    ensures ValidDb(UpdateUserNormalized(db, change, id, c).0)
    ensures change.email.Some? && Lower(e) == Lower(change.email.value) ==>
              GetUserByEmail(UpdateUserNormalized(db, change, id, c).0, e) == Some(id as Id)
  {
    var n := NormalizeEmail(change);
    var db' := UpdateUserNormalized(db, change, id, c).0;
    var v := Revise(db.users[id], n, c);
    assert db'.users == db.users[id as Id := v];
    assert UserShape(v);
    assert UniqueUsers(db'.users) by {
      forall i, j | i in db'.users && j in db'.users && i != j
        ensures db'.users[i].username != db'.users[j].username
        ensures db'.users[i].email != db'.users[j].email
      {
        if i == id { assert !(j != id && (db.users[j].username == v.username || db.users[j].email == v.email)); }
        if j == id { assert !(i != id && (db.users[i].username == v.username || db.users[i].email == v.email)); }
      }
    }
    if change.email.Some? && Lower(e) == Lower(change.email.value) {
      var g := GetUserByEmail(db', e);
      assert db'.users[id].email == Lower(e);
    }
  }

  /** `make_admin`: grants admin rights and changes nothing else. */
  function MakeAdmin(db: Db, id: int): (r: (Db, Option<User>))
    ensures r.1.Some? <==> GetUserById(db, id).Some?
    ensures r.1.Some? ==> r.1.value == db.users[id].(isAdmin := true) && r.1.value.isAdmin
    ensures r.1.Some? ==> r.0 == db.(users := db.users[id as Id := r.1.value])
    ensures r.1.None? ==> r.0 == db
  {
    if 0 <= id && id in db.users then
      var u := db.users[id].(isAdmin := true);
      (db.(users := db.users[id as Id := u]), Some(u))
    else (db, None)
  }

  /** `verify_user`: marks the email verified and changes nothing else. */
  function VerifyUser(db: Db, id: int): (r: (Db, Option<User>))
    ensures r.1.Some? <==> GetUserById(db, id).Some?
    ensures r.1.Some? ==> r.1.value == db.users[id].(isVerified := true) && r.1.value.isVerified
    ensures r.1.Some? ==> r.0 == db.(users := db.users[id as Id := r.1.value])
    ensures r.1.None? ==> r.0 == db
  {
    if 0 <= id && id in db.users then
      var u := db.users[id].(isVerified := true);
      (db.(users := db.users[id as Id := u]), Some(u))
    else (db, None)
  }

  function GetUserByTelegramId(db: Db, telegramId: int): (r: Option<Id>)
    requires IdsFresh(db)
    ensures r.Some? ==> r.value in db.users && db.users[r.value].telegramId == Some(telegramId)
    ensures r.None? ==> forall k :: k in db.users ==> db.users[k].telegramId != Some(telegramId)
  {
    FindKey(db.users, (u: User) => u.telegramId == Some(telegramId), 0, db.next)
  }

  /** `unlink_user_tg`: forgets the Telegram account and changes nothing else. */
  function UnlinkUserTg(db: Db, id: int): (r: (Db, Option<User>))
    ensures r.1.Some? <==> GetUserById(db, id).Some?
    ensures r.1.Some? ==> r.1.value == db.users[id].(telegramId := None)
    ensures r.1.Some? ==> r.0 == db.(users := db.users[id as Id := r.1.value])
    ensures r.1.None? ==> r.0 == db
  {
    if 0 <= id && id in db.users then
      var u := db.users[id].(telegramId := None);
      (db.(users := db.users[id as Id := u]), Some(u))
    else (db, None)
  }

  /** Editing one user's flags keeps the database valid. */
  lemma FlagEditsKeepValid(db: Db, id: int)
    requires ValidDb(db)
    ensures ValidDb(MakeAdmin(db, id).0)
    ensures ValidDb(VerifyUser(db, id).0)
    ensures ValidDb(UnlinkUserTg(db, id).0)
  {
    if 0 <= id && id in db.users {
      var u := db.users[id];
      SameKeysKeepValid(db, id, u.(isAdmin := true));
      SameKeysKeepValid(db, id, u.(isVerified := true));
      SameKeysKeepValid(db, id, u.(telegramId := None));
    }
  }

  /** Replacing a user by one with the same username and email, and the same
      Telegram id or none, keeps the database valid. */
  lemma SameKeysKeepValid(db: Db, id: Id, v: User)
    requires ValidDb(db) && id in db.users
    requires v.username == db.users[id].username && v.email == db.users[id].email
    requires v.telegramId == db.users[id].telegramId || v.telegramId.None?
    ensures ValidDb(db.(users := db.users[id := v]))
  {
    var users := db.users[id := v];
    assert forall i :: i in users ==> UserShape(users[i]) by {
      forall i | i in users
        ensures UserShape(users[i])
      {
        assert i != id ==> users[i] == db.users[i];
        assert UserShape(db.users[i]);
      }
    }
  }

  // ===========================================================================
  // Problems
  // ===========================================================================

  /** Only well-formed upload names: a uuid4 and a formatted timestamp. */
  predicate WellFormedUpload(image: Option<Upload>)
  {
    image.Some? ==> |image.value.uuid| == 36 && |image.value.stamp| == 19
  }

  const UnsupportedMedia: string := "must be image with extension png jpeg jpg webp"

  /** `create_problem`: an attached file that is not an allowed image is
      refused with 415 and nothing is stored; otherwise a new problem is
      stored with the uploaded path, pending and without an admin. */
  function CreateProblem(db: Db, data: ProblemCreate, image: Option<Upload>, userId: int): (r: (Db, Reply<ProblemView>))
    requires WellFormedUpload(image)
    ensures r.1.Error? <==> image.Some? && UploadFile(image.value).None?
    ensures r.1.Error? ==> r.1.code == 415 && r.0 == db
    ensures r.1.Ok? ==> db.next !in db.problems ==> db.next in r.0.problems
    ensures r.1.Ok? ==> var p := r.1.value.problem;
      && r.1.value.id == db.next
      && p.status == Pending && p.adminId == None && p.userId == userId
      && p.title == data.title && p.description == data.description
      && p.imageUrl == (if image.Some? then UploadFile(image.value) else None)
    ensures r.1.Ok? ==> r.0 == db.(problems := db.problems[db.next := r.1.value.problem], next := db.next + 1)
  {
    var path := if image.Some? then UploadFile(image.value) else None;
    if image.Some? && path.None? then (db, Error(415, UnsupportedMedia))
    else
      var p := NewProblem(data.title, data.description, path, userId);
      var db' := db.(problems := db.problems[db.next := p], next := db.next + 1);
      (db', Ok(ViewOf(db', db.next)))
  }

  /** `get_problems`: every problem exactly once. The query has no ORDER BY,
      so the order is the database's; the model fixes ascending ids. */
  function GetProblems(db: Db): (r: seq<ProblemView>)
    requires IdsFresh(db)
    ensures forall i :: 0 <= i < |r| ==> r[i].id in db.problems && r[i] == ViewOf(db, r[i].id)
    ensures forall k :: k in db.problems ==> exists i :: 0 <= i < |r| && r[i].id == k
    ensures forall i, j :: 0 <= i < j < |r| ==> r[i].id < r[j].id
  {
    var ids := Rows(db.problems, AnyProblem, 0, db.next);
    assert forall k :: k in db.problems ==> k in ids;
    AllViews(db)
  }

  /** `get_problems_by_user_id`: exactly the problems the user owns. */
  function GetProblemsByUserId(db: Db, userId: int): (r: seq<ProblemView>)
    requires IdsFresh(db)
    ensures forall i :: 0 <= i < |r| ==> r[i].id in db.problems && r[i] == ViewOf(db, r[i].id)
    ensures forall i :: 0 <= i < |r| ==> r[i].problem.userId == userId
    ensures forall k :: k in db.problems && db.problems[k].userId == userId ==> exists i :: 0 <= i < |r| && r[i].id == k
    ensures forall i, j :: 0 <= i < j < |r| ==> r[i].id < r[j].id
  {
    var ids := Rows(db.problems, OwnedBy(userId), 0, db.next);
    assert forall k :: k in db.problems && db.problems[k].userId == userId ==> k in ids;
    UserViews(db, userId)
  }

  function GetProblem(db: Db, id: int): (r: Option<ProblemView>)
    ensures r.Some? <==> 0 <= id && id in db.problems
    ensures r.Some? ==> r.value == ViewOf(db, id)
  {
    if 0 <= id && id in db.problems then Some(ViewOf(db, id)) else None
  }

  /** `delete_problem`: removes the row and returns what it was. */
  function DeleteProblem(db: Db, id: int): (r: (Db, Option<ProblemView>))
    ensures r.1 == GetProblem(db, id)
    ensures r.1.Some? ==> r.0 == db.(problems := db.problems - {id as Id})
    ensures r.1.None? ==> r.0 == db
  {
    if 0 <= id && id in db.problems then (db.(problems := db.problems - {id as Id}), Some(ViewOf(db, id)))
    else (db, None)
  }

  /** Replaces one stored problem by the record `p`; an absent id changes nothing,
      as an UPDATE that matches no row. */
  function UpdateProblem(db: Db, id: int, p: Problem): Db
  {
    if 0 <= id && id in db.problems then db.(problems := db.problems[id as Id := p]) else db
  }

  /** `assign_admin`: sets the admin and the "в роботі" status and changes
      nothing else; an unknown problem is not found. */
  function AssignAdmin(db: Db, problemId: int, adminId: int): (r: (Db, Option<ProblemView>))
    ensures r.1.Some? <==> 0 <= problemId && problemId in db.problems
    ensures r.1.None? ==> r.0 == db
    ensures r.1.Some? ==> var old_ := db.problems[problemId];
      && r.0 == db.(problems := db.problems[problemId as Id := old_.(adminId := Some(adminId), status := InWork)])
      && r.1.value.problem.status == Step(old_.status, Assigned)
      && r.1.value.problem.adminId == Some(adminId)
      && r.1.value == ViewOf(r.0, problemId)
  {
    if 0 <= problemId && problemId in db.problems then
      var p := db.problems[problemId];
      var db' := UpdateProblem(db, problemId, p.(adminId := Some(adminId), status := Step(p.status, Assigned)));
      (db', Some(ViewOf(db', problemId)))
    else (db, None)
  }

  /** `update_problem_status`: sets the admin's verdict as the status and
      changes nothing else; an unknown problem is not found. */
  function UpdateProblemStatus(db: Db, problemId: int, v: Verdict): (r: (Db, Option<ProblemView>))
    ensures r.1.Some? <==> 0 <= problemId && problemId in db.problems
    ensures r.1.None? ==> r.0 == db
    ensures r.1.Some? ==> var old_ := db.problems[problemId];
      && r.0 == db.(problems := db.problems[problemId as Id := old_.(status := VerdictStatus(v))])
      && r.1.value.problem.status == Step(old_.status, Decided(v))
      && r.1.value == ViewOf(r.0, problemId)
  {
    if 0 <= problemId && problemId in db.problems then
      var p := db.problems[problemId];
      var db' := UpdateProblem(db, problemId, p.(status := Step(p.status, Decided(v))));
      (db', Some(ViewOf(db', problemId)))
    else (db, None)
  }

  /** `create_message`: needs both the problem and the sender; the message
      records whether the sender is an admin. */
  function CreateMessage(db: Db, text: string, senderId: int, problemId: int): (r: (Db, Option<ProblemMessage>))
    ensures r.1.Some? <==> GetProblem(db, problemId).Some? && GetUserById(db, senderId).Some?
    ensures r.1.None? ==> r.0 == db
    ensures r.1.Some? ==> r.1.value == ProblemMessage(text, senderId, problemId, db.users[senderId].isAdmin)
    ensures r.1.Some? ==> r.0 == db.(messages := db.messages[db.next := r.1.value], next := db.next + 1)
  {
    if !(0 <= problemId && problemId in db.problems) then (db, None)
    else if !(0 <= senderId && senderId in db.users) then (db, None)
    else
      var m := ProblemMessage(text, senderId, problemId, db.users[senderId].isAdmin);
      (db.(messages := db.messages[db.next := m], next := db.next + 1), Some(m))
  }

  /** `create_admin_response`: only for an existing problem. */
  function CreateAdminResponse(db: Db, resp: AdminResponseCreate, adminId: int): (r: (Db, Option<AdminResponse>))
    ensures r.1.Some? <==> GetProblem(db, resp.problemId).Some?
    ensures r.1.None? ==> r.0 == db
    ensures r.1.Some? ==> r.1.value == AdminResponse(resp.message, adminId, resp.problemId)
    ensures r.1.Some? ==> r.0 == db.(responses := db.responses[db.next := r.1.value], next := db.next + 1)
  {
    if !(0 <= resp.problemId && resp.problemId in db.problems) then (db, None)
    else
      var a := AdminResponse(resp.message, adminId, resp.problemId);
      (db.(responses := db.responses[db.next := a], next := db.next + 1), Some(a))
  }

  /** `create_service_record`: only for an existing problem. The record belongs
      to the problem's owner whatever user id the request named, and the
      problem's status becomes "виконано"; nothing else changes. */
  function CreateServiceRecord(db: Db, rec: ServiceRecordCreate): (r: (Db, Option<ServiceRecord>))
    ensures r.1.Some? <==> GetProblem(db, rec.problemId).Some?
    ensures r.1.None? ==> r.0 == db
    ensures r.1.Some? ==> var p := db.problems[rec.problemId];
      && r.1.value == ServiceRecord(rec.workDone, rec.usedParts, rec.warrantyInfo, rec.problemId, p.userId)
      && r.0 == db.(records := db.records[db.next := r.1.value],
                    problems := db.problems[rec.problemId as Id := p.(status := Step(p.status, Serviced))],
                    next := db.next + 1)
      && r.0.problems[rec.problemId].status == Done
  {
    if !(0 <= rec.problemId && rec.problemId in db.problems) then (db, None)
    else
      var p := db.problems[rec.problemId];
      var s := ServiceRecord(rec.workDone, rec.usedParts, rec.warrantyInfo, rec.problemId, p.userId);
      var db1 := db.(records := db.records[db.next := s], next := db.next + 1);
      (UpdateProblem(db1, rec.problemId, p.(status := Step(p.status, Serviced))), Some(s))
  }

  /** `get_service_record`: the record of a problem. Nothing stops a second
      record for the same problem, and then `scalar_one_or_none` raises
      `MultipleResultsFound`, which the caller answers with 500. */
  function GetServiceRecord(db: Db, problemId: int): (r: Reply<Option<ServiceRecord>>)
    requires IdsFresh(db)
    ensures r.Error? <==> exists i, j :: i in db.records && j in db.records && i != j &&
                                        db.records[i].problemId == problemId && db.records[j].problemId == problemId
    ensures r.Error? ==> r == Error(500, InternalError)
    ensures r.Ok? && r.value.Some? ==> r.value.value in db.records.Values && r.value.value.problemId == problemId
    ensures r.Ok? && r.value.None? <==> forall k :: k in db.records ==> db.records[k].problemId != problemId
  {
    var mine := (s: ServiceRecord) => s.problemId == problemId;
    match FindKey(db.records, mine, 0, db.next)
    case None => Ok(None)
    case Some(k) =>
      match FindKey(db.records, mine, k + 1, db.next)
      case Some(k2) => Error(500, InternalError)
      case None =>
        assert forall i :: i in db.records && mine(db.records[i]) ==> i == k;
        Ok(Some(db.records[k]))
  }

  /** Recording a second service for a problem is accepted, and afterwards
      reading the problem's record fails. */
  lemma SecondRecordBreaksLookup(db: Db, a: ServiceRecordCreate, b: ServiceRecordCreate)
    requires IdsFresh(db) && a.problemId == b.problemId
    requires CreateServiceRecord(db, a).1.Some?
    ensures var db1 := CreateServiceRecord(db, a).0;
            && CreateServiceRecord(db1, b).1.Some?
            && GetServiceRecord(CreateServiceRecord(db1, b).0, a.problemId) == Error(500, InternalError)
  {
    var db1 := CreateServiceRecord(db, a).0;
    var db2 := CreateServiceRecord(db1, b).0;
    assert db.next !in db.records;
    assert db2.records[db.next].problemId == a.problemId && db2.records[db1.next].problemId == a.problemId;
  }

  /** Storing a validated problem keeps the database valid. */
  lemma CreateProblemKeepsValid(db: Db, data: ProblemCreate, image: Option<Upload>, userId: int)
    requires ValidDb(db) && WellFormedUpload(image) && ValidProblemCreate(data)
    ensures ValidDb(CreateProblem(db, data, image, userId).0)
  {
    var r := CreateProblem(db, data, image, userId);
    if r.1.Ok? {
      assert ProblemShape(r.1.value.problem);
    }
  }

  /** Storing a validated admin response keeps the database valid. */
  lemma CreateAdminResponseKeepsValid(db: Db, resp: AdminResponseCreate, adminId: int)
    requires ValidDb(db) && ValidAdminResponse(resp)
    ensures ValidDb(CreateAdminResponse(db, resp, adminId).0)
  {
  }

  /** Storing a message keeps the database valid. */
  lemma CreateMessageKeepsValid(db: Db, text: string, senderId: int, problemId: int)
    requires ValidDb(db)
    ensures ValidDb(CreateMessage(db, text, senderId, problemId).0)
  {
  }

  /** Storing a validated service record, which also completes its problem,
      keeps the database valid. */
  lemma CreateServiceRecordKeepsValid(db: Db, rec: ServiceRecordCreate)
    requires ValidDb(db) && ValidServiceRecord(rec)
    ensures ValidDb(CreateServiceRecord(db, rec).0)
  {
    var r := CreateServiceRecord(db, rec);
    if r.1.Some? {
      var db' := r.0;
      assert IdsFresh(db');
      assert forall i :: i in db'.problems ==> ProblemShape(db'.problems[i]) by {
        forall i | i in db'.problems
          ensures ProblemShape(db'.problems[i])
        {
          assert ProblemShape(db.problems[i]);
        }
      }
      assert forall i :: i in db'.records ==> |db'.records[i].workDone| <= MaxText && |db'.records[i].warrantyInfo| <= MaxText;
      assert Shapes(db');
    }
  }

  /** Status changes and deletions keep the database valid. */
  lemma StatusWritesKeepValid(db: Db, problemId: int, adminId: int, v: Verdict)
    requires ValidDb(db)
    ensures ValidDb(AssignAdmin(db, problemId, adminId).0)
    ensures ValidDb(UpdateProblemStatus(db, problemId, v).0)
    ensures ValidDb(DeleteProblem(db, problemId).0)
  {
    if 0 <= problemId && problemId in db.problems {
      var p := db.problems[problemId];
      assert ProblemShape(p);
      SameShapeKeepsValid(db, problemId, p.(adminId := Some(adminId), status := InWork));
      SameShapeKeepsValid(db, problemId, p.(status := VerdictStatus(v)));
    }
  }

  /** Replacing a problem by one in shape keeps the database valid. */
  lemma SameShapeKeepsValid(db: Db, id: Id, p: Problem)
    requires ValidDb(db) && id in db.problems && ProblemShape(p)
    ensures ValidDb(db.(problems := db.problems[id := p]))
  {
  }

  // ===========================================================================
  // Snake leaderboard
  // ===========================================================================

  /** `create_snake`: a user's stored score only ever grows. A score replaces
      the stored one only if it is strictly greater; a user without a row gets
      one. Other users' rows are untouched. */
  function CreateSnake(db: Db, s: SnakeCreate): (r: (Db, SnakeStats))
    requires IdsFresh(db)
    ensures r.1.userId == s.userId
    ensures r.0.users == db.users && r.0.problems == db.problems && r.0.responses == db.responses
    ensures r.0.records == db.records && r.0.messages == db.messages
    ensures forall k :: k in r.0.snakes ==> k in db.snakes || (k == db.next && r.0.snakes[k] == r.1)
    ensures forall k :: k in db.snakes && db.snakes[k].userId != s.userId ==> k in r.0.snakes && r.0.snakes[k] == db.snakes[k]
    ensures forall k :: k in db.snakes ==> k in r.0.snakes && r.0.snakes[k].points >= db.snakes[k].points
    ensures exists k :: k in r.0.snakes && r.0.snakes[k] == r.1
    ensures (exists k :: k in db.snakes && db.snakes[k].userId == s.userId) ==>
              exists k :: k in db.snakes && db.snakes[k].userId == s.userId &&
                          r.1.points == if s.points > db.snakes[k].points then s.points else db.snakes[k].points
    ensures (forall k :: k in db.snakes ==> db.snakes[k].userId != s.userId) ==> r.1.points == s.points
  {
    match FindKey(db.snakes, (x: SnakeStats) => x.userId == s.userId, 0, db.next)
    case Some(k) =>
      var old_ := db.snakes[k];
      if s.points > old_.points then
        var row := old_.(points := s.points);
        (db.(snakes := db.snakes[k := row]), row)
      else (db, old_)
    case None =>
      var row := SnakeStats(s.userId, s.points);
      assert db.snakes[db.next := row][db.next] == row;
      (db.(snakes := db.snakes[db.next := row], next := db.next + 1), row)
  }

  /** Recording a score keeps at most one row per user. */
  lemma CreateSnakeKeepsValid(db: Db, s: SnakeCreate)
    requires ValidDb(db)
    ensures ValidDb(CreateSnake(db, s).0)
  {
  }

  function GetUserStats(db: Db, userId: int): (r: Option<SnakeStats>)
    requires IdsFresh(db)
    ensures r.Some? ==> r.value in db.snakes.Values && r.value.userId == userId
    ensures r.None? ==> forall k :: k in db.snakes ==> db.snakes[k].userId != userId
  {
    match FindKey(db.snakes, (x: SnakeStats) => x.userId == userId, 0, db.next)
    case Some(k) => Some(db.snakes[k])
    case None => None
  }
}
