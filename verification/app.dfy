/**
 The backend's endpoints over one explicit state value: the activity
 registry and the active teacher sessions. An endpoint either returns an
 error, and the server keeps its state, or returns the next state together
 with the message of its JSON reply.
 */
module App {
  import opened Wrappers
  import opened Http
  import opened Registry
  import opened Sessions
  import Seed

  datatype State = State(activities: Activities, sessions: SessionTable)

  /** A successful endpoint call: the next state and the reply's `message`. */
  datatype Reply = Reply(state: State, message: string)

  /** The server's state at start-up: the seeded registry, no sessions. */
  function InitialState(): (s: State)
    ensures AllNoDup(s.activities)
    ensures s.sessions == map[]
  {
    Seed.InitialActivitiesWellFormed();
    State(Seed.InitialActivities(), map[])
  }

  /** `POST /activities/{name}/signup?email=...`: authentication first, then
      the registry's checks. */
  function SignupForActivity(s: State, cookie: Option<string>, name: string, email: string)
    : (r: Result<Reply, HttpError>)
    ensures RequireTeacherAuth(s.sessions, cookie).Err? ==> r == Err(Forbidden)
    ensures r.Ok? <==> RequireTeacherAuth(s.sessions, cookie).Ok?
                       && name in s.activities && email !in s.activities[name].participants
    ensures RequireTeacherAuth(s.sessions, cookie).Ok? && r.Err? ==>
              r.error == SignUp(s.activities, name, email).error
    ensures r.Ok? ==> r.value.state.sessions == s.sessions
    ensures r.Ok? ==> r.value.state.activities == SignUp(s.activities, name, email).value
    ensures r.Ok? ==> r.value.message == "Signed up " + email + " for " + name
  {
    match RequireTeacherAuth(s.sessions, cookie)
    case Err(e) => Err(e)
    case Ok(_) =>
      match SignUp(s.activities, name, email)
      case Err(e) => Err(e)
      case Ok(acts) => Ok(Reply(s.(activities := acts), "Signed up " + email + " for " + name))
  }

  /** `DELETE /activities/{name}/unregister?email=...`: authentication first,
      then the registry's checks. */
  function UnregisterFromActivity(s: State, cookie: Option<string>, name: string, email: string)
    : (r: Result<Reply, HttpError>)
    ensures RequireTeacherAuth(s.sessions, cookie).Err? ==> r == Err(Forbidden)
    ensures r.Ok? <==> RequireTeacherAuth(s.sessions, cookie).Ok?
                       && name in s.activities && email in s.activities[name].participants
    ensures RequireTeacherAuth(s.sessions, cookie).Ok? && r.Err? ==>
              r.error == Unregister(s.activities, name, email).error
    ensures r.Ok? ==> r.value.state.sessions == s.sessions
    ensures r.Ok? ==> r.value.state.activities == Unregister(s.activities, name, email).value
    ensures r.Ok? ==> r.value.message == "Unregistered " + email + " from " + name
  {
    match RequireTeacherAuth(s.sessions, cookie)
    case Err(e) => Err(e)
    case Ok(_) =>
      match Unregister(s.activities, name, email)
      case Err(e) => Err(e)
      case Ok(acts) => Ok(Reply(s.(activities := acts), "Unregistered " + email + " from " + name))
  }

  /** `POST /auth/login`: credentials are loaded from the parsed teacher file
      on every call; `token` is the value `secrets.token_urlsafe` drew. */
  function TeacherLogin(s: State, teachers: Option<seq<Entry>>, username: string, password: string,
                        token: string): (r: Result<Reply, HttpError>)
    ensures var creds := LoadCredentials(teachers);
            r.Ok? <==> username in creds && creds[username] == password
    ensures r.Err? ==> r.error == InvalidCredentials
    ensures r.Ok? ==> r.value.state.activities == s.activities
    ensures r.Ok? ==> r.value.state.sessions == Login(s.sessions, LoadCredentials(teachers),
                                                      username, password, token).value
    ensures r.Ok? ==> r.value.message == "Logged in as " + username
  {
    match Login(s.sessions, LoadCredentials(teachers), username, password, token)
    case Err(e) => Err(e)
    case Ok(sessions) => Ok(Reply(s.(sessions := sessions), "Logged in as " + username))
  }

  /** `POST /auth/logout`: always answers "Logged out". */
  function TeacherLogout(s: State, cookie: Option<string>): (r: Reply)
    ensures r.state.activities == s.activities
    ensures r.state.sessions == Logout(s.sessions, cookie)
    ensures RequireTeacherAuth(r.state.sessions, cookie) == Err(Forbidden)
    ensures r.message == "Logged out"
  {
    Reply(s.(sessions := Logout(s.sessions, cookie)), "Logged out")
  }

  /** One request to the backend, with everything the server reads from
      outside its state. */
  datatype Request =
    | SignupRequest(cookie: Option<string>, name: string, email: string)
    | UnregisterRequest(cookie: Option<string>, name: string, email: string)
    | LoginRequest(teachers: Option<seq<Entry>>, username: string, password: string, token: string)
    | LogoutRequest(cookie: Option<string>)
    | AuthMeRequest(cookie: Option<string>)
    | ActivitiesRequest

  /** The state after one request; an error response leaves it as it was. */
  function Step(s: State, req: Request): (s': State)
    ensures s'.activities.Keys == s.activities.Keys
    ensures (req.LoginRequest? || req.LogoutRequest?) ==> s'.activities == s.activities
    ensures !(req.LoginRequest? || req.LogoutRequest?) ==> s'.sessions == s.sessions
    ensures (req.AuthMeRequest? || req.ActivitiesRequest?) ==> s' == s
  {
    match req
    case SignupRequest(cookie, name, email) =>
      (match SignupForActivity(s, cookie, name, email)
       case Ok(reply) => reply.state
       case Err(_) => s)
    case UnregisterRequest(cookie, name, email) =>
      (match UnregisterFromActivity(s, cookie, name, email)
       case Ok(reply) => reply.state
       case Err(_) => s)
    case LoginRequest(teachers, username, password, token) =>
      (match TeacherLogin(s, teachers, username, password, token)
       case Ok(reply) => reply.state
       case Err(_) => s)
    case LogoutRequest(cookie) => TeacherLogout(s, cookie).state
    case AuthMeRequest(_) => s
    case ActivitiesRequest => s
  }

  /** The state after a sequence of requests served one at a time. */
  function Run(s: State, reqs: seq<Request>): (s': State)
    ensures s'.activities.Keys == s.activities.Keys
    ensures (forall k :: 0 <= k < |reqs| ==> !reqs[k].LoginRequest? && !reqs[k].LogoutRequest?)
            ==> s'.sessions == s.sessions
    decreases |reqs|
  {
    if |reqs| == 0 then s else Run(Step(s, reqs[0]), reqs[1..])
  }

  /** A request without an authenticated teacher never changes the registry. */
  lemma UnauthenticatedCannotEdit(s: State, req: Request)
    requires req.SignupRequest? || req.UnregisterRequest?
    requires RequireTeacherAuth(s.sessions, req.cookie).Err?
    ensures Step(s, req) == s
  {
  }

  /** One request keeps every participant list duplicate-free. */
  lemma StepPreservesNoDup(s: State, req: Request)
    requires AllNoDup(s.activities)
    ensures AllNoDup(Step(s, req).activities)
  {
    match req
    case SignupRequest(cookie, name, email) =>
      if SignupForActivity(s, cookie, name, email).Ok? {
        SignUpPreservesNoDup(s.activities, name, email);
      }
    case UnregisterRequest(cookie, name, email) =>
      if UnregisterFromActivity(s, cookie, name, email).Ok? {
        UnregisterPreservesNoDup(s.activities, name, email);
      }
    case _ =>
  }

  /** Any sequence of requests keeps every participant list duplicate-free
      and keeps the set of activity names. */
  lemma {:induction false} RunPreservesInvariant(s: State, reqs: seq<Request>)
    requires AllNoDup(s.activities)
    ensures AllNoDup(Run(s, reqs).activities)
    ensures Run(s, reqs).activities.Keys == s.activities.Keys
    decreases |reqs|
  {
    if |reqs| > 0 {
      StepPreservesNoDup(s, reqs[0]);
      RunPreservesInvariant(Step(s, reqs[0]), reqs[1..]);
    }
  }

  /** Every state the server reaches from start-up has duplicate-free lists. */
  lemma ReachableStatesHaveNoDup(reqs: seq<Request>)
    ensures AllNoDup(Run(InitialState(), reqs).activities)
    ensures Run(InitialState(), reqs).activities.Keys == Seed.InitialActivities().Keys
  {
    RunPreservesInvariant(InitialState(), reqs);
  }

  /** A successful signup followed by an unregister of the same email by the
      same teacher restores the state. */
  lemma SignupThenUnregisterRestores(s: State, cookie: Option<string>, name: string, email: string)
    requires SignupForActivity(s, cookie, name, email).Ok?
    ensures var s1 := SignupForActivity(s, cookie, name, email).value.state;
            UnregisterFromActivity(s1, cookie, name, email).Ok?
            && UnregisterFromActivity(s1, cookie, name, email).value.state == s
  {
    SignUpThenUnregister(s.activities, name, email);
  }

  /** After logging in with a fresh, non-empty token, the teacher can sign
      students up with that token as the session cookie. */
  lemma LoginEnablesSignup(s: State, teachers: Option<seq<Entry>>, username: string, password: string,
                           token: string, name: string, email: string)
    requires TeacherLogin(s, teachers, username, password, token).Ok?
    requires token != "" && username != ""
    requires name in s.activities && email !in s.activities[name].participants
    ensures var s1 := TeacherLogin(s, teachers, username, password, token).value.state;
            SignupForActivity(s1, Some(token), name, email).Ok?
  {
    LoginThenAuthenticated(s.sessions, LoadCredentials(teachers), username, password, token);
  }

  /** After logout, the same cookie can no longer edit the registry. */
  lemma LogoutDisablesEdits(s: State, cookie: Option<string>, name: string, email: string)
    ensures var s1 := TeacherLogout(s, cookie).state;
            SignupForActivity(s1, cookie, name, email) == Err(Forbidden)
            && UnregisterFromActivity(s1, cookie, name, email) == Err(Forbidden)
  {
  }
}
