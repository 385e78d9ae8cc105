/**
 Teacher authentication: the credential table built from the parsed teacher
 entries, the table of active sessions (token to username), and the login,
 logout and authentication checks over it.
 */
module Sessions {
  import opened Wrappers
  import opened Http

  /** One parsed teacher object: its string-valued fields by key. */
  type Entry = map<string, string>

  /** Username to password. */
  type Credentials = map<string, string>

  /** Session token to username. */
  type SessionTable = map<string, string>

  /** An entry contributes to the credentials only when it has both fields. */
  predicate Complete(e: Entry)
  {
    "username" in e && "password" in e
  }

  /** Entry `i` is complete and no later complete entry has its username. */
  predicate LastFor(entries: seq<Entry>, i: int)
    requires 0 <= i < |entries|
  {
    && Complete(entries[i])
    && forall j :: i < j < |entries| && Complete(entries[j]) ==>
         entries[j]["username"] != entries[i]["username"]
  }

  /** The dict comprehension of `load_teacher_credentials`: entries are read in
      order, incomplete ones are skipped, and a later entry for the same
      username overrides an earlier one. */
  function CredentialsFrom(entries: seq<Entry>): (r: Credentials)
    ensures forall u :: u in r <==>
              exists i :: 0 <= i < |entries| && Complete(entries[i]) && entries[i]["username"] == u
    ensures forall i :: 0 <= i < |entries| && LastFor(entries, i) ==>
              entries[i]["username"] in r && r[entries[i]["username"]] == entries[i]["password"]
    decreases |entries|
  {
    if |entries| == 0 then map[]
    else
      var init := entries[..|entries| - 1];
      var last := entries[|entries| - 1];
      var m := CredentialsFrom(init);
      assert forall i :: 0 <= i < |init| ==> init[i] == entries[i];
      if Complete(last) then m[last["username"] := last["password"]] else m
  }

  /** `load_teacher_credentials` after the file is parsed: a missing
      `teachers` key reads as an empty list. */
  function LoadCredentials(teachers: Option<seq<Entry>>): (r: Credentials)
    ensures teachers.None? ==> r == map[]
    ensures teachers.Some? ==> forall u :: u in r <==>
              exists i :: 0 <= i < |teachers.value| && Complete(teachers.value[i])
                          && teachers.value[i]["username"] == u
    ensures teachers.Some? ==> forall i :: 0 <= i < |teachers.value| && LastFor(teachers.value, i) ==>
              r[teachers.value[i]["username"]] == teachers.value[i]["password"]
  {
    match teachers
    case None => map[]
    case Some(entries) => CredentialsFrom(entries)
  }

  /** The session cookie as Python reads it: a missing or empty cookie is no token. */
  function SessionToken(cookie: Option<string>): (t: Option<string>)
    ensures t.Some? <==> cookie.Some? && cookie.value != ""
    ensures t.Some? ==> t.value == cookie.value
  {
    match cookie
    case Some(v) => if v == "" then None else Some(v)
    case None => None
  }

  /** `get_authenticated_teacher`: the username the cookie's token maps to, if any. */
  function GetAuthenticatedTeacher(sessions: SessionTable, cookie: Option<string>): (r: Option<string>)
    ensures r.Some? <==> cookie.Some? && cookie.value != "" && cookie.value in sessions
    ensures r.Some? ==> r.value == sessions[cookie.value]
  {
    match SessionToken(cookie)
    case None => None
    case Some(token) => if token in sessions then Some(sessions[token]) else None
  }

  /** `require_teacher_auth`: the authenticated username, or 403. An empty
      username is falsy in Python and is rejected like a missing one. */
  function RequireTeacherAuth(sessions: SessionTable, cookie: Option<string>): (r: Result<string, HttpError>)
    ensures r.Ok? <==> cookie.Some? && cookie.value != "" && cookie.value in sessions
                       && sessions[cookie.value] != ""
    ensures r.Ok? ==> r.value == sessions[cookie.value]
    ensures r.Err? ==> r.error == Forbidden
  {
    match GetAuthenticatedTeacher(sessions, cookie)
    case Some(username) => if username == "" then Err(Forbidden) else Ok(username)
    case None => Err(Forbidden)
  }

  /** `teacher_login`: with the freshly drawn `token`, record a session for
      `username` when the stored password equals the presented one. */
  function Login(sessions: SessionTable, creds: Credentials, username: string, password: string,
                 token: string): (r: Result<SessionTable, HttpError>)
    ensures r.Ok? <==> username in creds && creds[username] == password
    ensures username !in creds ==> r == Err(InvalidCredentials)
    ensures r.Err? ==> r.error == InvalidCredentials
    ensures r.Ok? ==> r.value.Keys == sessions.Keys + {token}
    ensures r.Ok? ==> r.value[token] == username
    ensures r.Ok? ==> forall t :: t in sessions && t != token ==> r.value[t] == sessions[t]
  {
    if username in creds && creds[username] == password then Ok(sessions[token := username])
    else Err(InvalidCredentials)
  }

  /** `teacher_logout`: drop the presented token, if there is one. */
  function Logout(sessions: SessionTable, cookie: Option<string>): (r: SessionTable)
    ensures GetAuthenticatedTeacher(r, cookie) == None
    ensures SessionToken(cookie).None? ==> r == sessions
    ensures SessionToken(cookie).Some? ==> r.Keys == sessions.Keys - {cookie.value}
    ensures forall t :: t in r ==> t in sessions && r[t] == sessions[t]
  {
    match SessionToken(cookie)
    case None => sessions
    case Some(token) => sessions - {token}
  }

  /** The body of `GET /auth/me`. */
  datatype AuthStatus = AuthStatus(authenticated: bool, username: Option<string>)

  /** `get_auth_status`: authenticated exactly when the teacher check would pass. */
  function GetAuthStatus(sessions: SessionTable, cookie: Option<string>): (r: AuthStatus)
    ensures r.authenticated <==> RequireTeacherAuth(sessions, cookie).Ok?
    ensures r.authenticated ==> r.username == Some(RequireTeacherAuth(sessions, cookie).value)
    ensures !r.authenticated ==> r.username == None
  {
    match GetAuthenticatedTeacher(sessions, cookie)
    case Some(username) =>
      if username != "" then AuthStatus(true, Some(username)) else AuthStatus(false, None)
    case None => AuthStatus(false, None)
  }

  /** A successful login authenticates later requests that present its token. */
  lemma LoginThenAuthenticated(sessions: SessionTable, creds: Credentials, username: string,
                               password: string, token: string)
    requires Login(sessions, creds, username, password, token).Ok?
    requires token != "" && username != ""
    ensures RequireTeacherAuth(Login(sessions, creds, username, password, token).value, Some(token))
            == Ok(username)
  {
  }

  /** Logging out the token of a fresh login restores the session table. */
  lemma LoginThenLogout(sessions: SessionTable, creds: Credentials, username: string,
                        password: string, token: string)
    requires Login(sessions, creds, username, password, token).Ok?
    requires token != "" && token !in sessions
    ensures Logout(Login(sessions, creds, username, password, token).value, Some(token)) == sessions
  {
    var after := Login(sessions, creds, username, password, token).value;
    assert Logout(after, Some(token)).Keys == sessions.Keys;
  }

  /** A fresh token adds exactly one session. */
  lemma LoginWithFreshTokenGrows(sessions: SessionTable, creds: Credentials, username: string,
                                 password: string, token: string)
    requires Login(sessions, creds, username, password, token).Ok?
    requires token !in sessions
    ensures |Login(sessions, creds, username, password, token).value| == |sessions| + 1
  {
    var after := Login(sessions, creds, username, password, token).value;
    assert after.Keys == sessions.Keys + {token};
    assert |after.Keys| == |sessions.Keys| + 1;
  }

  /** Logout changes how no other cookie resolves. */
  lemma LogoutKeepsOtherSessions(sessions: SessionTable, cookie: Option<string>, other: Option<string>)
    requires SessionToken(other).Some? && SessionToken(other) != SessionToken(cookie)
    ensures GetAuthenticatedTeacher(Logout(sessions, cookie), other)
            == GetAuthenticatedTeacher(sessions, other)
  {
  }

  /** Logging out twice is the same as logging out once. */
  lemma LogoutIdempotent(sessions: SessionTable, cookie: Option<string>)
    ensures Logout(Logout(sessions, cookie), cookie) == Logout(sessions, cookie)
  {
  }

  /** A session recorded for the empty username never passes the teacher check. */
  lemma EmptyUsernameNotAuthenticated(sessions: SessionTable, cookie: Option<string>)
    requires GetAuthenticatedTeacher(sessions, cookie) == Some("")
    ensures RequireTeacherAuth(sessions, cookie) == Err(Forbidden)
    ensures !GetAuthStatus(sessions, cookie).authenticated
  {
  }
}
