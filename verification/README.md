# Service-desk backend, modelled in Dafny

This project models the core of a FastAPI service-desk backend.

**Users and problems.** Users register, log in with an e-mail and a password, and file problems (repair requests). Admins take a problem into work, set its final status and record the service done. Each problem walks the status lifecycle "В обробці" → "в роботі" → "виконано" / "відмовлено".

**Storage, cache and tokens.**
- The database is a set of tables: users, problems, admin responses, service records, chat messages and snake-game scores. `models.py` defines only the first four; `ProblemMessage` and `SnakeStats` are not part of this model's source, so their tables are minimal records holding the columns `crud.py` reads and writes.
- A key–value cache (Redis) holds serialised problem lists, single problems and a token blacklist.
- Access tokens are signed claims naming a user id and an expiry.

**Connection registry.** A connection registry keeps WebSocket connections per problem chat, per admin and per user, and broadcasts problem events through them.

**Shape of the model.** Everything is modelled as immutable data and pure functions:
- every table is a `map<Id, record>`, and the ids come from one counter;
- the cache is a `map<string, CacheValue>`;
- each HTTP handler takes the state, the bearer token and the request body, and returns the new state with either a body or an error carrying its status code and detail text;
- password hashing, password checks, token encoding and token decoding are function parameters (`Security.Crypto`), and two predicates state what the model relies on: a password verifies against its own hash, and a token decodes to the claims it was made with.

Two predicates carry the invariants:
- `Models.ValidDb` covers fresh ids, the unique username, e-mail and Telegram id, the column widths, lower-cased e-mails and one score per user.
- `Api.Good` adds `Cache.Coherent`: every cached list and every cached problem equals what the database would give.

**What is proved.** Every mutating handler keeps `Good` as the model defines it; deleting a user keeps it only because the model does not null the deleted user's foreign keys (see "Left out"). In a good state, the cached read paths answer exactly what the database answers.

## Modules

| file | module | models |
|---|---|---|
| common.dfy | Common | `Option`, the handler reply, the 500 detail |
| strings.dfy | Strings | lower-casing, integer formatting, `split` / `join` / `replace` |
| models.dfy | Models | the ORM records, the database, first-match lookups, problem views |
| lifecycle.dfy | Lifecycle | the problem-status state machine |
| schemas.dfy | Schemas | the request bodies and their field constraints |
| security.dfy | Security | hashing and token functions as parameters |
| uploads.dfy | Uploads | the image-extension check of `upload_file` |
| crud.dfy | Crud | the data-access functions |
| leaderboard.dfy | Leaderboard | the top-10 query of the snake leaderboard |
| cache.dfy | Cache | cache values, the key families, coherence |
| auth.dfy | Auth | the token-acceptance and verified / admin dependency chains |
| api.dfy | Api | the HTTP handlers of `main.py` |
| registry.dfy | Registry | `ConnectionManager` |
| templates.dfy | Templates | e-mail template rendering |

## Model

| member | source | states |
|---|---|---|
| Strings.Lower | backend/crud.py:17 | lower-casing keeps the length, maps each character, gives a lower-case text, and leaves lower-case text unchanged |
| Strings.IntToStringInjective | backend/utils.py:142 | distinct ids are written as distinct decimal texts, so ids interpolated into keys never collide |
| Strings.NatToStringInjective | backend/main.py:167 | distinct naturals give distinct decimal texts |
| Strings.SplitOn | backend/utils.py:209 | splitting gives at least one piece, the first piece is a prefix, and no piece contains the separator |
| Strings.SplitJoinRoundTrip | backend/utils.py:209 | joining the pieces of a split with the separator gives back the text |
| Strings.ReplaceIsSplitJoin | backend/email_templates.py:22-25 | `replace` puts the replacement where every occurrence of the pattern was |
| Strings.SplitFree | backend/utils.py:209 | a text without the separator splits into itself alone |
| Strings.ReplaceAbsent | backend/email_templates.py:32 | replacing a pattern that does not occur leaves the text unchanged |
| Strings.SplitAppend | backend/utils.py:209 | splitting on a one-character separator around an occurrence splits each side |
| Models.StatusTextInjective | backend/models.py:23 | the four status texts are pairwise distinct |
| Models.NewUser | backend/models.py:35-43 | a new user is neither an admin nor verified and has no Telegram id |
| Models.NewProblem | backend/models.py:16-26 | a new problem is "В обробці" with no admin assigned |
| Models.FindKey | backend/crud.py:26-30 | `scalar_one_or_none`: the smallest matching id, or none, and then no row matches |
| Models.FindKeyAgrees | backend/crud.py:33-37 | a lookup depends only on which rows match, not on the id bound |
| Models.Rows | backend/crud.py:160-172 | `.all()`: exactly the matching ids, each once; the model fixes ascending order for a query without ORDER BY |
| Models.RowsAgree | backend/crud.py:165-172 | two tables whose matching rows coincide select the same list |
| Models.ViewOf | backend/models.py:31-32 | a problem exposes its own row and at most one response and one record, each referring to it; none only if no row refers to it |
| Models.ViewsAgree | backend/crud.py:160-172 | databases that agree on the selected problems and what they expose give equal lists |
| Models.ViewStable | backend/models.py:28-32 | a problem's view depends only on its row and the responses and records that refer to it |
| Lifecycle.Step | backend/crud.py:190-210 | only creation gives "В обробці", only assignment "в роботі"; a verdict gives one of the final statuses; a service record gives "виконано" |
| Lifecycle.RunIsLastStep | backend/crud.py:201-210 | there are no transition guards: the status is set by the last event alone |
| Lifecycle.NeverBackToPending | backend/models.py:23 | after any event other than creation, a problem is never "В обробці" again |
| Schemas.UserCreateErrors | backend/schemas.py:9-15 | a registration body is refused exactly when the username is over 50, the e-mail over 100, or the password under 6 characters |
| Schemas.UserUpdateErrors | backend/schemas.py:31-34 | every update field is optional, but each supplied one keeps its bound, including a password of at least 6 |
| Schemas.ProblemCreateErrors | backend/schemas.py:84-91 | a problem is refused exactly when the title is over 250, the description over 1000, or a given image URL over 250 |
| Schemas.ServiceRecordErrors | backend/schemas.py:63-71 | work done and warranty text are at most 1000 characters; the parts list may be absent |
| Schemas.ParseStatusUpdate | backend/schemas.py:107-108 | a status update is accepted exactly for "виконано" and "відмовлено", and its status is stored as that text |
| Schemas.BearerToken | backend/schemas.py:113-115 | the token type is "bearer" |
| Uploads.ExtensionWithoutDot | backend/utils.py:209 | a name without a dot is its own extension, lower-cased |
| Uploads.ExtensionAfterLastDot | backend/utils.py:209 | the extension is the lower-cased text after the last dot |
| Uploads.UploadFile | backend/utils.py:205-221 | a file is stored exactly when its extension is png, jpg, jpeg or webp, under a path within 250 characters whose extension is the file's own |
| Uploads.ExtensionIsDotFree | backend/utils.py:207 | the extension, the piece after the last dot, holds no dot |
| Uploads.UploadIgnoresCase | backend/utils.py:209-211 | an upper-case extension is accepted exactly when its lower-case form is |
| Crud.GetUserById | backend/crud.py:26-30 | the user with that id, or none exactly when no such id exists |
| Crud.GetUserByEmail | backend/crud.py:33-37 | a user whose stored e-mail equals the lower-cased query, or none when no user has it |
| Crud.EmailLookupIgnoresCase | backend/crud.py:33-37 | e-mails that lower-case alike find the same user |
| Crud.GetUserByUsername | backend/crud.py:40-44 | a user with exactly that username, or none when no user has it |
| Crud.Clash | backend/models.py:38-40 | holds exactly when another user already holds the username or the e-mail |
| Crud.CreateUser | backend/crud.py:14-23 | the unique constraints refuse a taken username or e-mail; otherwise a default user with the lower-cased e-mail and the hashed password is stored under a fresh id |
| Crud.AuthenticateUser | backend/crud.py:46-52 | a user is returned only if the e-mail lookup finds one and the password verifies |
| Crud.AuthenticateExactly | backend/crud.py:46-52 | authentication succeeds if and only if some user has the lower-cased e-mail and the password verifies against that user's hash |
| Crud.CreatedUserAuthenticates | backend/crud.py:14-52 | a user who has just registered logs in with the same password and any casing of the e-mail |
| Crud.DeleteUser | backend/crud.py:55-62 | deletes exactly the looked-up user and returns it; an unknown id changes nothing |
| Crud.Revise | backend/crud.py:71-77 | only supplied fields change; a supplied password is stored hashed; the flags and Telegram id are kept |
| Crud.UpdateUser | backend/crud.py:65-82 | none for an unknown id; a unique-constraint clash changes nothing; otherwise only that user's row is revised |
| Crud.UpdatedEmailNotFound | backend/crud.py:65-82 | as written, an update to "Ann@x.io" stores the capital letter, breaks the lower-case invariant, and the login lookup no longer finds the user |
| Crud.NormalizeEmail | backend/crud.py:17 | the e-mail of an update is lower-cased, and the other fields are kept |
| Crud.UpdateUserNormalized | backend/crud.py:65-82 | the corrected update stores a supplied e-mail lower-cased |
| Crud.NormalizedUpdateKeepsLookup | backend/crud.py:65-82 | the corrected update keeps the database valid, and the user is found under any casing of the new e-mail |
| Crud.MakeAdmin | backend/crud.py:85-96 | sets the admin flag and nothing else; none for an unknown id |
| Crud.VerifyUser | backend/crud.py:99-107 | sets the verified flag and nothing else; none for an unknown id |
| Crud.GetUserByTelegramId | backend/crud.py:110-114 | a user with that Telegram id, or none when no user has it |
| Crud.UnlinkUserTg | backend/crud.py:117-125 | clears the Telegram id and nothing else; none for an unknown id |
| Crud.FlagEditsKeepValid | backend/crud.py:85-125 | granting admin, verifying and unlinking keep every database invariant |
| Crud.CreateProblem | backend/crud.py:136-158 | 415 exactly when an upload has a refused extension; otherwise a pending, unassigned problem of the caller is stored under a fresh id |
| Crud.GetProblems | backend/crud.py:160-163 | every problem, each once, each with its response and record (in the model's ascending-id order) |
| Crud.GetProblemsByUserId | backend/crud.py:165-172 | exactly the user's problems (in the model's ascending-id order) |
| Crud.GetProblem | backend/crud.py:174-181 | the problem's view, or none exactly when the id is absent |
| Crud.DeleteProblem | backend/crud.py:183-188 | removes exactly that problem's row and returns its view; an unknown id changes nothing (the responses and records that referred to it are kept as they were) |
| Crud.AssignAdmin | backend/crud.py:190-199 | sets the admin and "в роботі", changes nothing else and returns the refreshed problem with its response and record; none for an unknown problem |
| Crud.UpdateProblemStatus | backend/crud.py:201-210 | sets the verdict's status and changes nothing else; none for an unknown problem |
| Crud.CreateMessage | backend/crud.py:213-228 | needs both the problem and the sender, and records whether the sender is an admin |
| Crud.CreateMessageKeepsValid | backend/crud.py:213-228 | storing a message keeps the database valid |
| Crud.CreateAdminResponse | backend/crud.py:233-246 | stored only for an existing problem, with the given admin |
| Crud.CreateServiceRecord | backend/crud.py:251-276 | none for an unknown problem; otherwise the record belongs to the problem's owner whatever user id was sent, and the problem becomes "виконано" |
| Crud.GetServiceRecord | backend/crud.py:278-281 | the record that refers to the problem, none when no record does, and 500 (`MultipleResultsFound`) exactly when two records do |
| Crud.SecondRecordBreaksLookup | backend/crud.py:251-281 | a second record for one problem is accepted, after which reading the problem's record answers 500 |
| Crud.CreateProblemKeepsValid | backend/crud.py:136-158 | a validated problem keeps every database invariant |
| Crud.CreateAdminResponseKeepsValid | backend/crud.py:233-246 | a validated response keeps every database invariant |
| Crud.CreateServiceRecordKeepsValid | backend/crud.py:251-276 | a validated record keeps every database invariant |
| Crud.StatusWritesKeepValid | backend/crud.py:183-210 | assigning, setting a verdict and deleting keep every database invariant |
| Crud.CreateSnake | backend/crud.py:285-299 | a score replaces the stored one only if strictly greater, so stored scores never decrease; a new user gets a row; other users' rows are untouched, the only new row is the returned one under the fresh id, and no other table changes |
| Crud.CreateSnakeKeepsValid | backend/crud.py:285-299 | at most one score row per user is kept |
| Crud.GetUserStats | backend/crud.py:317-322 | the user's score row, or none when the user has none |
| Leaderboard.Insert | backend/crud.py:306 | inserting into a descending list keeps it descending and adds exactly the new entry |
| Leaderboard.SortDesc | backend/crud.py:306 | the result is ordered by non-increasing points and is a permutation of the input |
| Leaderboard.JoinRows | backend/crud.py:304-305 | the join yields exactly the score rows whose user exists, with the username |
| Leaderboard.JoinedRows | backend/crud.py:304-305 | an entry is in the joined rows exactly when some score row of an existing user produces it |
| Leaderboard.PrefixOfSorted | backend/crud.py:306-307 | a prefix of a sorted permutation is sorted and drawn from the input |
| Leaderboard.PrefixDominates | backend/crud.py:306-307 | every row left out of the prefix scores no more than any row in it |
| Leaderboard.GetTop10 | backend/crud.py:302-314 | at most 10 entries (fewer only if fewer exist), non-increasing by points, drawn from the joined rows, and no row left out scores more than one kept |
| Cache.Get | backend/main.py:147-149 | a cached value is used only if present and truthy |
| Cache.ProblemsListKey | backend/utils.py:139-142 | the key is "admin:problems_list" exactly for admins, whatever the id |
| Cache.ListKeysDistinct | backend/utils.py:139-142 | distinct non-admin ids give distinct keys, and none equals the admin key |
| Cache.ProblemKeysDistinct | backend/main.py:167 | distinct problem ids give distinct keys |
| Cache.KeyFamiliesDisjoint | backend/main.py:41-44 | the user-list, admin-list, problem and blacklist keys never collide |
| Auth.GetCurrentUser | backend/main.py:47-77 | checked in order: no token gives 401 "Not authenticated", then a blacklisted token, an undecodable token or one without `sub`, and an unknown user each give 401; a non-integer `sub` gives 500; it accepts exactly a live token naming an existing user |
| Auth.AcceptToken | backend/utils.py:224-244 | the decode and lookup steps: a non-integer `sub` gives 500, any other failure the caller's code; it accepts exactly a token naming an existing user |
| Auth.GetVerifiedUser | backend/utils.py:178-182 | an unverified user gets 403 "Your email not verified"; earlier errors pass through |
| Auth.GetCurrentAdminVerified | backend/utils.py:185-188 | verification is checked before admin rights: 403 "Your email not verified", then 403 "Admin access required" |
| Auth.GetCurrentAdmin | backend/main.py:79-82 | the admin gate the handlers use checks only admin rights, not verification |
| Auth.AdminGatesDisagree | backend/main.py:79-82 | the two admin gates differ exactly on an unverified admin, and they give an unverified non-admin different details |
| Auth.GetCurrentUserWs | backend/utils.py:246-254 | a socket is refused with policy-violation code 1008 unless its token names an existing user |
| Auth.WsAcceptsWhatHttpAccepts | backend/utils.py:224-254 | every token accepted over HTTP is accepted on a socket, and a blacklisted token is still accepted there |
| Api.Register | backend/main.py:86-92 | in order: 422 for an invalid body, 400 "Email already exists" (any casing), 400 "Username already taken"; otherwise a default user is created; the cache is untouched |
| Api.RegisterKeepsGood | backend/main.py:86-92 | registration keeps the database valid and the cache coherent |
| Api.Login | backend/main.py:94-101 | 401 "Invalid credentials" exactly when authentication fails; otherwise a bearer token for the user |
| Api.LoginTokenAccepted | backend/main.py:94-101 | a token from login, while not blacklisted, is accepted for the same user with a 30-minute expiry |
| Api.DeleteAccount | backend/main.py:107-124 | the token is blacklisted only when its remaining lifetime is positive; the caller's and the admins' lists are dropped; the user is deleted; a token without an expiry gives 500 |
| Api.DeletedAccountLocksOut | backend/main.py:114-124 | afterwards the deleting token is refused with 401, and no token is accepted for the deleted user |
| Api.BlacklistKeepsCoherent | backend/main.py:107-124 | a blacklist entry never overwrites a cached list or problem, so the cache stays coherent |
| Api.DeleteAccountKeepsGood | backend/main.py:107-124 | deleting an account keeps the database valid and the cache coherent |
| Api.SubmitProblem | backend/main.py:128-138 | the intended handler: 401s first, then 422; an authenticated caller with a valid body gets `crud.create_problem`'s reply (415 for a refused image); a stored problem is pending and belongs to the caller, and exactly the caller's list key and the admin list key are dropped |
| Api.SubmitProblemAsWritten | backend/main.py:128-138 | as written the handler changes nothing: 401s first, then 422, then 500 for every valid submission |
| Api.SubmitAsWrittenRefusesValid | backend/main.py:135 | a valid submission that the intended handler stores gets 500 from the handler as written |
| Api.SubmitProblemKeepsGood | backend/main.py:128-138 | submitting a problem keeps the database valid and the cache coherent |
| Api.ListProblems | backend/main.py:140-158 | the cache changes only when nothing truthy is cached under the caller's key, and then only that key is set, to the list answered; a non-admin's fresh list holds only their own problems |
| Api.ListProblemsServesDatabase | backend/main.py:146-158 | in a good state an admin gets every problem and anyone else exactly their own, and the state stays good |
| Api.ProblemAccess | backend/main.py:176-181 | 404 for an absent problem before 403 "Not your problem" for a non-admin who does not own it |
| Api.ShowProblem | backend/main.py:160-185 | the ownership check applies on the cached path too; only a database read that succeeds is cached, under the problem's key |
| Api.ShowProblemServesDatabase | backend/main.py:167-185 | in a good state the answer is the uncached one, and the state stays good |
| Api.RemoveProblem | backend/main.py:187-205 | 404 before 403 "Access denied"; on success the problem is deleted and exactly its key, its owner's list and the admin list are dropped |
| Api.RemoveProblemKeepsGood | backend/main.py:187-205 | deleting a problem keeps the database valid and the cache coherent |
| Api.ChangeStatus | backend/main.py:209-225 | the admin gate first, then 422 unless the status is a final one, then 404; on success exactly the problem's key, its owner's list and the admin list are dropped |
| Api.ChangeStatusKeepsGood | backend/main.py:209-225 | changing a status keeps the database valid and the cache coherent |
| Api.RecordServiceAsWritten | backend/main.py:227-233 | as written: the admin gate, 422, then the record is stored and the problem done, but the cache is untouched; an unknown problem gives 500 |
| Api.ServiceRecordLeavesStaleView | backend/main.py:227-233 | as written, a cached problem that was not done makes the cache incoherent, and the next read serves the old status |
| Api.RecordService | backend/main.py:227-233 | corrected: the same reply and database, with the problem's key, its owner's list and the admin list dropped |
| Api.RecordServiceKeepsGood | backend/main.py:227-233 | the corrected handler keeps the database valid and the cache coherent |
| Registry.RemoveFirst | backend/utils.py:51 | `list.remove` drops exactly the first occurrence when there is one and keeps the order of the rest |
| Registry.RemoveAppended | backend/utils.py:46-51 | removing a socket just appended gives the list back |
| Registry.ChatConnect | backend/utils.py:42-46 | the socket is appended to the problem's list, created if absent; nothing else changes |
| Registry.ChatDisconnect | backend/utils.py:48-54 | the first occurrence leaves the list in order, an emptied list is deleted, and nothing else changes |
| Registry.ChatDisconnectUnknown | backend/utils.py:48-54 | disconnecting an unknown socket or problem changes nothing |
| Registry.ChatRoundTrip | backend/utils.py:42-54 | connecting and then disconnecting a new socket restores the registry, deleting a list it created |
| Registry.Failed | backend/utils.py:58-62 | the sockets whose send fails, in order |
| Registry.Deliver | backend/utils.py:58-62 | each failed socket is connected again, so the chat list grows by the failed sockets in order and nothing else changes |
| Registry.BroadcastToProblem | backend/utils.py:56-62 | the message goes to the list as it stood, and each failed socket is appended again rather than removed |
| Registry.FailedCount | backend/utils.py:58-62 | a failing socket is listed in the failures once per occurrence |
| Registry.BroadcastDuplicatesFailed | backend/utils.py:56-62 | after a broadcast a failed socket is listed twice as often, and any other socket as often as before |
| Registry.ConnectGlobal | backend/utils.py:67-74 | an admin socket joins only the admins, and any other socket only its own user's list |
| Registry.DisconnectGlobal | backend/utils.py:76-82 | the socket's first occurrence leaves the admins or its user's list, in order; a user's emptied list is kept; an unknown socket changes nothing |
| Registry.GlobalRoundTrip | backend/utils.py:67-82 | connecting and then disconnecting restores the registry, except that an empty list remains for a user who had none |
| Registry.Recipients | backend/utils.py:91-103 | a problem's recipients are all admin sockets and the owner's sockets, and no one else |
| Registry.Announce | backend/utils.py:84-103 | one message per recipient, each of the given type and carrying the problem |
| Registry.BroadcastNewProblem | backend/utils.py:84-103 | "new_problem" reaches exactly the admins and the owner |
| Registry.BroadcastProblemUpdate | backend/utils.py:105-124 | "update_problem" reaches exactly the admins and the owner |
| Templates.Placeholder | backend/email_templates.py:32 | a key's placeholder is the key in double braces |
| Templates.PartsOf | backend/email_templates.py:11-14 | an absent list gives no parts, and a list gives its items |
| Templates.Cell | backend/email_templates.py:15-21 | a part's cell holds the part's text between the fixed opening and closing markup |
| Templates.PiecesInOrder | backend/email_templates.py:14-21 | each piece appears in the concatenation at its own offset |
| Templates.CellList | backend/email_templates.py:14-21 | one cell per part, in input order |
| Templates.CellsInOrder | backend/email_templates.py:14-21 | the cell of part i holds part i's text at its offset, so the parts appear in input order |
| Templates.ExpandParts | backend/email_templates.py:10-29 | a non-empty list replaces every sample block with the cells; an empty or absent one replaces "{{part_1}}" with "—"; text with neither is unchanged |
| Templates.Substitute | backend/email_templates.py:31-32 | a key replaces every occurrence of its placeholder with `str(value)`; placeholders not present leave the text unchanged |
| Templates.FindUsedParts | backend/email_templates.py:10 | finds the `used_parts` argument exactly when one is given |
| Templates.Render | backend/email_templates.py:6-34 | a template without the supplied placeholders, the sample block or "{{part_1}}" comes out unchanged: unsupplied placeholders survive |
| Templates.RenderOneKey | backend/email_templates.py:31-32 | a single plain argument replaces every occurrence of its placeholder with its text |
| Templates.RenderParts | backend/email_templates.py:10-29 | `used_parts` alone is never substituted as a plain key: it expands to the cells or to "—" |

## Left out

- `security.py`: argon2 hashing and JWT encoding and decoding are foreign libraries. They are function parameters, assumed only where a lemma names it: a password verifies against its own hash, and a token decodes to the claims it was made with.
- Clock, uuid and file system:
  - the current time is a parameter (`now`);
  - the uuid and timestamp of an upload's file name are parameters;
  - the bytes written to disk are not modelled.
- Token expiry is not enforced by the model's decoding. The blacklist's TTL is modelled only through the `ttl > 0` decision; entries never expire.
- Input validation:
  - `EmailStr` format validation is not modelled;
  - only the length bounds of the schemas are.
- Strings.Lower: it lower-cases the ASCII capitals and the basic Cyrillic capitals U+0400–U+042F only (so Ґ, U+0490, stays as it is); Python's `str.lower` covers all of Unicode.
- Serialisation:
  - JSON encoding and decoding through the cache is the identity on problem views;
  - `repr` escaping of quotes inside a `used_parts` item is not modelled.
- Ids come from one counter and are never reused.
- An explicit `null` in a profile update is treated like an absent field.
- Crud.DeleteProblem / Api.RemoveProblem: `delete_problem` loads the problem with its response and service record (`crud.py:129-134`, `crud.py:183-188`), and the relationships in `models.py:31-32` carry no cascade. So deleting the problem makes the ORM set `admin_responses.problem_id` and `service_records.problem_id` of those rows to null. The model keeps them pointing at the deleted id. Ids are never reused, so no other problem ever exposes them, but `Crud.GetServiceRecord` for the deleted id still finds the old record where the source finds none.
- Crud.DeleteUser / Api.DeleteAccountKeepsGood: the relationships in `models.py:45-48` carry no cascade, so deleting a user makes the ORM set `problems.user_id`, `problems.admin_id`, `admin_responses.admin_id` and `service_records.user_id` of the dependent rows to null. The model leaves those rows unchanged. It therefore does not show that an admin's uncached `GET /problems/` then answers 500, because `ProblemRead.user_id` is an `int` (`schemas.py:98`). Nor does it show that cached `problem:{id}` entries of those problems go stale.
- Lookups take the smallest matching id. For users, `scalar_one_or_none` cannot meet several matches because of the unique constraints. For score rows, `create_snake` itself keeps one row per user, as `Models.ValidDb` records. Service records have no such constraint (`models.py:70`), and `Crud.GetServiceRecord` answers 500 when two refer to one problem.
- Models.Rows / Crud.GetProblems / Crud.GetProblemsByUserId: rows of a query without ORDER BY come in an order the database chooses; the model fixes ascending ids.
- Async scheduling, WebSocket `accept` / `send`, `print` logging and the error handling around sends are not modelled; a send is modelled only by whether it fails.
- The WebSocket close code for an internal error is not modelled; the model answers 500 there.
- `generate_code` (randomness), `send_tg_message`, the SMTP configuration, `bot.py`, `db.py` and `redis_config.py` are I/O and not part of this model.
- The `/users/me` profile handler only returns the authenticated user. It is covered by `Auth.GetCurrentUser`.
- FastAPI wiring, CORS and the lifespan hook are not modelled. Endpoints that the tests call but `main.py` does not define are also absent.
- Api.SubmitProblem: `main.py:135` calls `crud.create_problem(db, problem, current_user.id)`, while `crud.py:136` takes `(db, problem_data, image, user_id)`. The caller's id lands in `image` and `user_id` is missing, so the call raises before anything is stored and an authenticated valid submission answers 500. `Api.SubmitProblemAsWritten` models that; `Api.SubmitProblem` models the handler as evidently intended, with the image passed through (see "## Findings").
- Templates.Render: it states only that a template without any of the supplied placeholders comes out unchanged. The effect of several keys whose values contain other keys' placeholders is left to the sequential definition. The single-key and `used_parts` cases are stated by `Templates.RenderOneKey` and `Templates.RenderParts`.
- Leaderboard.GetTop10: the order among equal scores is whatever the database returns, so the contract states sortedness, the bound and dominance rather than a particular order of ties.

## Findings

| source | as written | input that shows it | evidently intended | confidence | as-written member | corrected member |
|---|---|---|---|---|---|---|
| backend/crud.py:65-82 | `update_user` stores a new e-mail exactly as sent, while `create_user` lower-cases it and every lookup lower-cases the query | user "ann@x.io" updates the e-mail to "Ann@x.io"; logging in with "Ann@x.io" then finds no user | lower-case the updated e-mail as registration does | not executed | Crud.UpdatedEmailNotFound | Crud.NormalizedUpdateKeepsLookup |
| backend/main.py:135 | `create_problem` calls `crud.create_problem(db, problem, current_user.id)`, but `crud.py:136` takes `(db, problem_data, image, user_id)`: the id lands in `image` and `user_id` is missing, so the call raises | an authenticated user posts a valid title and description; the reply is 500 and nothing is stored | pass the image (or none) and the caller's id as `user_id` | not executed | Api.SubmitProblemAsWritten | Api.SubmitProblem |
| backend/main.py:227-233 | `create_service_record` marks the problem "виконано" but drops no cached key, unlike every other handler that changes a problem | an admin reads problem 1 (now cached as "в роботі") and records a service for it; the next read of problem 1 serves "в роботі" | drop "problem:{id}", the owner's list and the admin list | not executed | Api.ServiceRecordLeavesStaleView | Api.RecordServiceKeepsGood |
