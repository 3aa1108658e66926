/** The request bodies and their pydantic field constraints. A body that breaks
    a constraint is answered with 422 before any handler runs. */
module Schemas {
  import opened Common
  import opened Models
  import opened Lifecycle

  const MinPassword: nat := 6

  /** The fields a validation error can name. */
  datatype Field = Username | Email | Password | Title | Description | ImageUrl
                 | Message | WorkDone | WarrantyInfo | StatusField

  datatype UserCreate = UserCreate(username: string, email: string, password: string)
  datatype UserLogin = UserLogin(email: string, password: string)
  /** `None` is a field the request did not set. */
  datatype UserUpdate = UserUpdate(username: Option<string>, email: Option<string>, password: Option<string>)
  datatype ProblemCreate = ProblemCreate(title: string, description: string, imageUrl: Option<string>)
  datatype AdminResponseCreate = AdminResponseCreate(message: string, problemId: int)
  datatype ServiceRecordCreate = ServiceRecordCreate(
    workDone: string, usedParts: Option<seq<string>>, warrantyInfo: string, problemId: int, userId: int)
  datatype SnakeCreate = SnakeCreate(userId: int, points: int)
  datatype Token = Token(accessToken: string, tokenType: string)

  predicate ValidUserCreate(u: UserCreate)
  {
    |u.username| <= MaxUsername && |u.email| <= MaxEmail && |u.password| >= MinPassword
  }

  /** The fields of a registration body that break a constraint, in
      declaration order. */
  function UserCreateErrors(u: UserCreate): (errs: seq<Field>)
    ensures errs == [] <==> ValidUserCreate(u)
    ensures Username in errs <==> |u.username| > 50
    ensures Email in errs <==> |u.email| > 100
    ensures Password in errs <==> |u.password| < 6
  {
    (if |u.username| > MaxUsername then [Username] else [])
    + (if |u.email| > MaxEmail then [Email] else [])
    + (if |u.password| < MinPassword then [Password] else [])
  }

  predicate ValidUserUpdate(u: UserUpdate)
  {
    && (u.username.Some? ==> |u.username.value| <= MaxUsername)
    && (u.email.Some? ==> |u.email.value| <= MaxEmail)
    && (u.password.Some? ==> |u.password.value| >= MinPassword)
  }

  /** A profile update may omit every field, but a field it supplies is held to
      the same bound as at registration. */
  function UserUpdateErrors(u: UserUpdate): (errs: seq<Field>)
    ensures errs == [] <==> ValidUserUpdate(u)
    ensures Password in errs <==> u.password.Some? && |u.password.value| < 6
    ensures Username in errs <==> u.username.Some? && |u.username.value| > 50
    ensures Email in errs <==> u.email.Some? && |u.email.value| > 100
  {
    (if u.username.Some? && |u.username.value| > MaxUsername then [Username] else [])
    + (if u.email.Some? && |u.email.value| > MaxEmail then [Email] else [])
    + (if u.password.Some? && |u.password.value| < MinPassword then [Password] else [])
  }

  predicate ValidProblemCreate(p: ProblemCreate)
  {
    && |p.title| <= MaxTitle
    && |p.description| <= MaxDescription
    && (p.imageUrl.Some? ==> |p.imageUrl.value| <= MaxImageUrl)
  }

  function ProblemCreateErrors(p: ProblemCreate): (errs: seq<Field>)
    ensures errs == [] <==> ValidProblemCreate(p)
    ensures Title in errs <==> |p.title| > 250
    ensures Description in errs <==> |p.description| > 1000
    ensures ImageUrl in errs <==> p.imageUrl.Some? && |p.imageUrl.value| > 250
  {
    (if |p.title| > MaxTitle then [Title] else [])
    + (if |p.description| > MaxDescription then [Description] else [])
    + (if p.imageUrl.Some? && |p.imageUrl.value| > MaxImageUrl then [ImageUrl] else [])
  }

  predicate ValidAdminResponse(r: AdminResponseCreate)
  {
    |r.message| <= MaxText
  }

  predicate ValidServiceRecord(r: ServiceRecordCreate)
  {
    |r.workDone| <= MaxText && |r.warrantyInfo| <= MaxText
  }

  /** A service record's texts are bounded; its list of parts may be absent. */
  function ServiceRecordErrors(r: ServiceRecordCreate): (errs: seq<Field>)
    ensures errs == [] <==> ValidServiceRecord(r)
    ensures WorkDone in errs <==> |r.workDone| > 1000
    ensures WarrantyInfo in errs <==> |r.warrantyInfo| > 1000
  {
    (if |r.workDone| > MaxText then [WorkDone] else [])
    + (if |r.warrantyInfo| > MaxText then [WarrantyInfo] else [])
  }

  /** `ProblemUpdateStatus`: the body's status must be exactly one of the two
      final statuses' texts; every other string is rejected. */
  function ParseStatusUpdate(text: string): (r: Option<Verdict>)
    ensures r.Some? <==> text == "виконано" || text == "відмовлено"
    ensures r.Some? ==> StatusText(VerdictStatus(r.value)) == text
  {
    if text == StatusText(Done) then Some(Completed)
    else if text == StatusText(Rejected) then Some(Refused)
    else None
  }

  /** The token body `login` returns; its type defaults to "bearer". */
  function BearerToken(access: string): (t: Token)
    ensures t.tokenType == "bearer" && t.accessToken == access
  {
    Token(access, "bearer")
  }
}
