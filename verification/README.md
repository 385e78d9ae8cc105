# Mergington High School activities backend — Dafny model

This project models the backend of the Mergington High School activity
signup service (`src/app.py`). The backend has two parts:

- the **activity registry**, a map from activity name to a record with a
  description, a schedule, `max_participants` and an ordered participant
  list, edited by `signup_for_activity` and `unregister_from_activity`;
- the **teacher session table**, a map from session token to username,
  filled by `teacher_login` and emptied by `teacher_logout`. The checks
  `get_authenticated_teacher` and `require_teacher_auth` read it. Every
  registry edit must pass the teacher check first.

The server's global dictionaries become one immutable `App.State` value.
Each endpoint is a pure function that returns either an `HttpError` or the
next state with the reply's `message`. The server keeps its state on an
error, and `App.Step` / `App.Run` thread the state through a sequence of
requests. Errors are one datatype, `Http.HttpError`, with the source's
status codes (403, 404, 400, 400, 401) and `detail` texts.

Modules, in dependency order:

- `wrappers.dfy`: `Wrappers` (`Option`, `Result`) and `Http` (the error cases).
- `registry.dfy`: `Registry`. It holds the activity record, `RemoveFirst`
  (Python's `list.remove`), the two registry transitions, and lemmas for the
  frame, round-trip, duplicate-freedom and capacity properties.
- `sessions.dfy`: `Sessions`. It holds the credential table built from the
  parsed teacher entries, cookie truthiness, the teacher check, login,
  logout and `/auth/me`.
- `seed.dfy`: `Seed`, the nine activities the server starts with.
- `app.dfy`: `App`. It holds the state, the endpoints in the order the source
  checks things (authentication, then existence, then membership), and the
  invariant over any request sequence.

Some Python semantics are written out explicitly:

- A missing cookie and an empty cookie both mean "no token" (`if not session_token`).
- A session whose username is the empty string fails `require_teacher_auth`,
  because `""` is falsy (`Sessions.EmptyUsernameNotAuthenticated`).
- A later teacher entry with the same username overrides an earlier one.
- `list.remove` drops only the first occurrence.

Capacity is not enforced: signup never compares the participant count with
`max_participants`, and `Registry.SignUpCanExceedCapacity` shows a full
activity accepting one more participant.

## Model

| member | source | states |
|---|---|---|
| Http.Status | src/app.py:63-221 | Each error carries the status the source raises: 403 exactly for the missing teacher, 404 exactly for an unknown activity, 401 exactly for bad credentials, and 400 exactly for the two membership errors |
| Registry.RemoveFirst | src/app.py:226 | `list.remove(x)` on a list containing `x` shortens it by exactly one element |
| Registry.RemoveFirstMultiset | src/app.py:226 | `list.remove(x)` takes away one copy of `x` and keeps every other element with its count |
| Registry.RemoveFirstAtFirstIndex | src/app.py:226 | The element removed is the one at the first index holding `x`; the prefix before it and the suffix after it are kept in order |
| Registry.RemoveFirstOfAppended | src/app.py:200 | Removing an email just appended to a list that did not contain it gives the original list back |
| Registry.RemoveFirstNoDup | src/app.py:226 | On a duplicate-free list, the removal leaves a duplicate-free list that no longer contains the email |
| Registry.SignUp | src/app.py:185-201 | 404 exactly when the name is unknown; 400 "already signed up" exactly when the email is listed; otherwise the email is appended at the end. No other field and no other activity changes, and the name set is unchanged |
| Registry.Unregister | src/app.py:211-227 | 404 exactly when the name is unknown; 400 "not signed up" exactly when the email is not listed; otherwise the list loses one copy of the email and one element. No other field and no other activity changes |
| Registry.UnregisterRemovesFirstOccurrence | src/app.py:219-226 | A successful unregister removes exactly the first occurrence and keeps the order of the rest |
| Registry.SignUpThenUnregister | src/app.py:193-200 | A successful signup of an email followed by its unregister restores the registry exactly |
| Registry.UnregisterThenSignUp | src/app.py:219-226 | On a duplicate-free list, unregister then signup of the same email succeeds and keeps the same participants, possibly reordered |
| Registry.SignUpPreservesNoDup | src/app.py:193-200 | If no participant list has duplicates, a successful signup keeps it so |
| Registry.UnregisterPreservesNoDup | src/app.py:219-226 | If no participant list has duplicates, a successful unregister keeps it so, and the email is then absent from the list |
| Registry.SignUpIgnoresCapacity | src/app.py:186-201 | Whether signup succeeds does not depend on `max_participants` |
| Registry.SignUpCanExceedCapacity | src/app.py:186-201 | Any activity at or over capacity still accepts an email it does not list, and ends up over capacity |
| Sessions.CredentialsFrom | src/app.py:37-41 | A username is a key exactly when some entry with both fields names it, and it maps to the password of the last such entry |
| Sessions.LoadCredentials | src/app.py:36-41 | A missing `teachers` key yields no credentials; otherwise the keys are the usernames of the entries that have both fields, and each maps to the password of the last such entry for it |
| Sessions.SessionToken | src/app.py:53-54 | The cookie yields a token exactly when it is present and non-empty |
| Sessions.GetAuthenticatedTeacher | src/app.py:52-56 | A username is returned exactly when the cookie is present, non-empty and a key of the session table, and it is the one stored for that token |
| Sessions.RequireTeacherAuth | src/app.py:59-66 | Succeeds exactly when the cookie's token maps to a non-empty username and returns that username; otherwise fails with 403 |
| Sessions.Login | src/app.py:147-154 | Succeeds exactly when the credentials have the username with an equal password, so an unknown username always gets 401. On success the token maps to the username and no other session changes |
| Sessions.Logout | src/app.py:168-172 | Afterwards the presented cookie resolves to no teacher. A missing or empty cookie changes nothing; otherwise exactly that token is removed and every remaining session is untouched |
| Sessions.GetAuthStatus | src/app.py:137-142 | Reports authenticated exactly when the teacher check passes, with that username; otherwise no username |
| Sessions.LoginThenAuthenticated | src/app.py:52-66 | After a successful login with a non-empty token and username, that token passes the teacher check as that username |
| Sessions.LoginThenLogout | src/app.py:153-154 | Logging out the token of a login that used a fresh, non-empty token restores the session table |
| Sessions.LoginWithFreshTokenGrows | src/app.py:153-154 | A login with a fresh token adds exactly one session |
| Sessions.LogoutKeepsOtherSessions | src/app.py:170-172 | Logout changes how no other token resolves |
| Sessions.LogoutIdempotent | src/app.py:170-172 | Logging out a second time with the same cookie changes nothing more |
| Sessions.EmptyUsernameNotAuthenticated | src/app.py:60-65 | A session stored for the empty username fails the teacher check with 403 and reports unauthenticated |
| Seed.InitialActivities | src/app.py:69-124 | The start-up registry holds exactly the nine seeded activity names |
| Seed.InitialActivitiesWellFormed | src/app.py:69-124 | Every activity of `Seed.InitialActivities` (the nine seeded records) has two distinct participants, within its capacity |
| App.InitialState | src/app.py:44 | The start-up state has no sessions and duplicate-free participant lists |
| App.SignupForActivity | src/app.py:178-201 | Without an authenticated teacher the result is 403 whatever the activity is. Otherwise it is the registry's outcome, with the sessions unchanged and the source's reply message |
| App.UnregisterFromActivity | src/app.py:204-227 | Without an authenticated teacher the result is 403 whatever the activity is. Otherwise it is the registry's outcome, with the sessions unchanged and the source's reply message |
| App.TeacherLogin | src/app.py:145-165 | Succeeds exactly when the credentials loaded for this call match, leaving the registry unchanged; on failure, 401 |
| App.TeacherLogout | src/app.py:168-175 | The registry is unchanged, the cookie no longer passes the teacher check, and the reply is "Logged out" |
| App.Run | src/app.py:132-227 | Serving a sequence of requests one at a time never changes the set of activity names, and a sequence without login or logout leaves the session table as it was |
| App.Step | src/app.py:132-227 | No request changes the set of activity names; only login and logout touch the sessions, and they leave the registry alone; reads change nothing |
| App.UnauthenticatedCannotEdit | src/app.py:178-227 | A signup or unregister without an authenticated teacher leaves the whole state unchanged |
| App.StepPreservesNoDup | src/app.py:193-226 | Any single request keeps every participant list duplicate-free |
| App.RunPreservesInvariant | src/app.py:178-227 | Any sequence of requests keeps every participant list duplicate-free and keeps the set of activity names |
| App.ReachableStatesHaveNoDup | src/app.py:69-124 | Every state reachable from start-up has duplicate-free participant lists and the nine seeded activity names |
| App.SignupThenUnregisterRestores | src/app.py:193-226 | A successful signup followed by an unregister of the same email with the same cookie succeeds and restores the whole state |
| App.LoginEnablesSignup | src/app.py:153-154 | After a login with a non-empty token and username, a signup presenting that token passes authentication and succeeds when the email is new |
| App.LogoutDisablesEdits | src/app.py:170-172 | After logout, signup and unregister with the same cookie fail with 403 |

## Left out

- `src/static/app.js`, the browser client, in its entirety. It is DOM updates, `fetch` calls, message timers and event wiring, with no backend state.
- FastAPI routing, the static mount, the root redirect and dependency injection. `GET /activities` returns the registry as it is and is modelled only as a request that changes nothing (`App.ActivitiesRequest`).
- Setting and deleting the session cookie, and request validation by the framework (for example a missing `email` query parameter).
- Reading and JSON-parsing `teachers.json`, including the 500 when the file is missing. Teacher entries arrive already parsed as string-valued fields. Non-string JSON values are not modelled.
- The randomness of `secrets.token_urlsafe(32)`. The token is a parameter of `Sessions.Login` and `App.TeacherLogin`, and lemmas that need a fresh or non-empty token say so in their requires.
- Process-global mutable dictionaries and concurrent request interleaving. Requests are served one at a time on an explicit state value.
- App.TeacherLogin: the reply's `username` field is not modelled separately, because it echoes the request's username.
- Http.Detail carries the source's `detail` texts but has no contract, because it only lists constants.
