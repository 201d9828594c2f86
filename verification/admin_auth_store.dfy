/** The admin panel's session store: who is signed in, with which token,
    mirrored in browser storage and in the default `Authorization` header.
    Its sign-in accepts staff accounts only. */
module AdminAuthStore {
  import opened Strings
  import opened Accounts
  import opened Client
  import AuthController

  datatype State = State(
    user: Option<Profile>,
    token: Option<string>,
    loading: bool,
    error: Option<string>,
    saved: Saved<Profile>,
    header: Option<string>)

  /** The store as created from what browser storage holds, before `init`. */
  function Load(saved: Saved<Profile>): (s: State)
    ensures s.user == saved.user && s.token == saved.token && s.saved == saved
    ensures !s.loading && s.error.None? && s.header.None?
  {
    State(saved.user, saved.token, false, None, saved, None)
  }

  /** `init`: the header follows a truthy token. */
  function Init(s: State): (r: State)
    ensures r == s.(header := r.header)
    ensures Truthy(s.token) ==> r.header == Some(Bearer(s.token.value))
    ensures !Truthy(s.token) ==> r.header == s.header
  {
    if Truthy(s.token) then s.(header := Some(Bearer(s.token.value))) else s
  }

  predicate IsAuthenticated(s: State) {
    Truthy(s.token)
  }

  predicate IsStaff(role: Role) {
    role == Manager || role == Owner
  }

  predicate IsAdmin(s: State) {
    s.user.Some? && IsStaff(s.user.value.role)
  }

  predicate IsOwner(s: State) {
    s.user.Some? && s.user.value.role == Owner
  }

  /** The session is mirrored: storage holds the user and token, and the
      header carries a truthy token. */
  predicate Mirrored(s: State) {
    s.saved == Saved(s.user, s.token) && (Truthy(s.token) ==> s.header == Some(Bearer(s.token.value)))
  }

  const AccessDenied := "Access denied. Admin privileges required."

  /** `login`, given the reply to the request it sends. */
  function Login(s: State, response: Response<AuthController.TokenBody>): (r: (State, bool))
    ensures !r.0.loading
    ensures r.1 <==> response.Success? && IsStaff(response.data.user.role)
    ensures r.1 ==> r.0.user == Some(response.data.user) && r.0.token == Some(response.data.token) && r.0.error.None?
    ensures r.1 ==> r.0.saved == Saved(r.0.user, r.0.token) && r.0.header == Some(Bearer(response.data.token))
    ensures !r.1 ==> r.0 == s.(loading := false, error := r.0.error)
    ensures response.Success? && !r.1 ==> r.0.error == Some(AccessDenied)
    ensures response.Failure? ==> r.0.error == Some(Or(response.body.message, response.exception))
  {
    match response
    case Success(data) =>
      if !IsStaff(data.user.role) then (s.(loading := false, error := Some(AccessDenied)), false)
      else
        var user := Some(data.user);
        var token := Some(data.token);
        (State(user, token, false, None, Saved(user, token), Some(Bearer(data.token))), true)
    case Failure(body, exception) =>
      (s.(loading := false, error := Some(Or(body.message, exception))), false)
  }

  /** `logout`: signed out, in memory, in storage and in the header. */
  function Logout(s: State): (r: State)
    ensures !IsAuthenticated(r) && !IsAdmin(r) && !IsOwner(r)
    ensures r.saved == Saved(None, None) && r.header.None?
    ensures r.loading == s.loading && r.error == s.error
  {
    s.(user := None, token := None, saved := Saved(None, None), header := None)
  }

  /** A successful sign-in makes the store authenticated (for a truthy
      token) and an admin; an owner's makes it an owner. */
  lemma LoginGrantsStaff(s: State, data: AuthController.TokenBody)
    requires IsStaff(data.user.role)
    ensures var r := Login(s, Success(data)).0;
            IsAdmin(r) && (IsOwner(r) <==> data.user.role == Owner)
            && (IsAuthenticated(r) <==> data.token != "")
  {
  }

  /** `login` and `logout` keep the session mirrored, and `init` restores
      the mirror after a reload. */
  lemma MirrorKept(s: State, response: Response<AuthController.TokenBody>)
    requires Mirrored(s)
    ensures Mirrored(Login(s, response).0)
    ensures Mirrored(Logout(s))
  {
  }

  /** Reloading from storage and calling `init` gives back the session. */
  lemma ReloadRestores(s: State)
    requires Mirrored(s)
    ensures var r := Init(Load(s.saved));
            r.user == s.user && r.token == s.token && Mirrored(r)
            && (IsAuthenticated(r) <==> IsAuthenticated(s)) && (IsAdmin(r) <==> IsAdmin(s))
  {
  }

  /** The panel sends `identifier` and `password`, and the backend reads
      `email`: the reply is always the 400, so signing in from the panel
      never succeeds and leaves the session as it was, whatever the
      error middleware puts in the body. */
  lemma PanelSignInAlwaysFails(s: State, password: Option<string>, found: Option<Account>,
                               matches: (string, string) -> bool, token: string, body: ErrorBody, exception: string)
    ensures var reply := AuthController.Login(AuthController.LoginBody(None, password), found, matches, token);
            reply.Fail? && reply.status == 400
            && var r := Login(s, Deliver(reply, body, exception));
               !r.1 && r.0.user == s.user && r.0.token == s.token && r.0.saved == s.saved && r.0.header == s.header
  {
    AuthController.NoEmailNoLookup(password, found, matches, token);
  }

  /** How a handler's reply reaches the browser: a JSON reply as data,
      anything else as a failure whose body the error middleware writes. */
  function Deliver<T>(reply: Reply<T>, body: ErrorBody, exception: string): (r: Response<T>)
    ensures r.Success? <==> reply.Ok?
    ensures reply.Ok? ==> r.data == reply.body
  {
    if reply.Ok? then Success(reply.body) else Failure(body, exception)
  }
}
