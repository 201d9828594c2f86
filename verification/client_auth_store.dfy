/** The learner site's session store: the signed-in user and token, mirrored
    in browser storage and in the API client's `Authorization` header, and
    the account actions that change them. A failed action records the
    server's `error` field (or a fixed text) and rethrows it. */
module ClientAuthStore {
  import opened Strings
  import opened Accounts
  import opened Client
  import AuthController

  datatype State = State(
    user: Option<Profile>,
    token: Option<string>,
    loading: bool,
    error: Option<string>,
    saved: Saved<Profile>,
    header: Option<string>)

  /** How an action ends for its caller: a value, or the rethrown error text. */
  datatype Outcome<T> = Returned(value: T) | Raised(error: string)

  /** The store as created from browser storage: an empty token reads as none. */
  function Load(saved: Saved<Profile>): (s: State)
    ensures s.user == saved.user && s.saved == saved && !s.loading && s.error.None? && s.header.None?
    ensures s.token.Some? <==> Truthy(saved.token)
    ensures s.token.Some? ==> s.token == saved.token
  {
    State(saved.user, if Truthy(saved.token) then saved.token else None, false, None, saved, None)
  }

  /** `init`: the header follows a truthy token. */
  function Init(s: State): (r: State)
    ensures r == s.(header := r.header)
    ensures Truthy(s.token) ==> r.header == Some(Bearer(s.token.value))
    ensures !Truthy(s.token) ==> r.header == s.header
  {
    if Truthy(s.token) then s.(header := Some(Bearer(s.token.value))) else s
  }

  predicate IsAuthenticated(s: State) {
    Truthy(s.token)
  }

  predicate IsAdmin(s: State) {
    s.user.Some? && (s.user.value.role == Owner || s.user.value.role == Manager)
  }

  predicate IsOwner(s: State) {
    s.user.Some? && s.user.value.role == Owner
  }

  /** Storage holds what memory holds, and a truthy token is in the header. */
  predicate Mirrored(s: State) {
    s.saved == Saved(s.user, s.token) && (Truthy(s.token) ==> s.header == Some(Bearer(s.token.value)))
  }

  /** `setAuth`: user and token from the response, in memory, storage and header. */
  function SetAuth(s: State, data: AuthController.TokenBody): (r: State)
    ensures r.user == Some(data.user) && r.token == Some(data.token)
    ensures r.saved == Saved(r.user, r.token) && r.header == Some(Bearer(data.token))
    ensures r.loading == s.loading && r.error == s.error
  {
    s.(user := Some(data.user), token := Some(data.token), saved := Saved(Some(data.user), Some(data.token)),
       header := Some(Bearer(data.token)))
  }

  /** `logout`. */
  function Logout(s: State): (r: State)
    ensures r.user.None? && r.token.None? && !IsAuthenticated(r) && !IsAdmin(r) && !IsOwner(r)
    ensures r.saved == Saved(None, None) && r.header.None?
    ensures r.loading == s.loading && r.error == s.error
  {
    s.(user := None, token := None, saved := Saved(None, None), header := None)
  }

  /** The end of a failed action: the error recorded and rethrown, nothing
      else changed, loading over. */
  function Failed<T>(s: State, body: ErrorBody, fallback: string): (r: (State, Outcome<T>))
    ensures r.0 == s.(loading := false, error := Some(Or(body.error, fallback)))
    ensures r.1 == Raised(Or(body.error, fallback))
  {
    var e := Or(body.error, fallback);
    (s.(loading := false, error := Some(e)), Raised(e))
  }

  /** `register` and `login` (they differ only in the fallback text). */
  function SignIn(s: State, response: Response<AuthController.TokenBody>, fallback: string): (r: (State, Outcome<AuthController.TokenBody>))
    ensures !r.0.loading
    ensures response.Success? ==> r == (SetAuth(s, response.data).(loading := false, error := None), Returned(response.data))
    ensures response.Failure? ==> r.0.user == s.user && r.0.token == s.token && r.0.saved == s.saved && r.0.header == s.header
    ensures response.Failure? ==> r.1 == Raised(Or(response.body.error, fallback)) && r.0.error == Some(r.1.error)
  {
    match response
    case Success(data) => (SetAuth(s.(error := None), data).(loading := false), Returned(data))
    case Failure(body, _) => Failed(s.(error := None), body, fallback)
  }

  function Register(s: State, response: Response<AuthController.TokenBody>): (r: (State, Outcome<AuthController.TokenBody>))
    ensures response.Success? ==> r.1 == Returned(response.data) && r.0.error.None?
    ensures response.Failure? ==> r.1 == Raised(Or(response.body.error, "Registration failed"))
  {
    SignIn(s, response, "Registration failed")
  }

  function Login(s: State, response: Response<AuthController.TokenBody>): (r: (State, Outcome<AuthController.TokenBody>))
    ensures response.Success? ==> r.1 == Returned(response.data) && r.0.error.None?
    ensures response.Failure? ==> r.1 == Raised(Or(response.body.error, "Login failed"))
  {
    SignIn(s, response, "Login failed")
  }

  /** `updateProfile` and `uploadProfilePicture`: the returned document
      becomes the user, in memory and storage; the token is untouched. */
  function ReplaceUser(s: State, response: Response<Option<Profile>>, fallback: string): (r: (State, Outcome<Option<Profile>>))
    ensures !r.0.loading && r.0.token == s.token && r.0.header == s.header
    ensures response.Success? ==> r.0.user == response.data && r.0.saved == s.saved.(user := response.data) && r.0.error.None?
    ensures response.Failure? ==> r.0.user == s.user && r.0.saved == s.saved && r.0.error == Some(Or(response.body.error, fallback))
  {
    match response
    case Success(data) => (s.(loading := false, error := None, user := data, saved := s.saved.(user := data)), Returned(data))
    case Failure(body, _) => Failed(s.(error := None), body, fallback)
  }

  function UpdateProfile(s: State, response: Response<Option<Profile>>): (r: (State, Outcome<Option<Profile>>))
    ensures response.Success? ==> r.1 == Returned(response.data) && r.0.error.None?
    ensures response.Failure? ==> r.1 == Raised(Or(response.body.error, "Failed to update profile"))
  {
    ReplaceUser(s, response, "Failed to update profile")
  }

  function UploadProfilePicture(s: State, response: Response<Option<Profile>>): (r: (State, Outcome<Option<Profile>>))
    ensures response.Success? ==> r.1 == Returned(response.data) && r.0.error.None?
    ensures response.Failure? ==> r.1 == Raised(Or(response.body.error, "Failed to upload profile picture"))
  {
    ReplaceUser(s, response, "Failed to upload profile picture")
  }

  /** `changePassword`: a truthy token in the reply replaces the token (in
      memory, storage and header); the user is never touched. */
  function ChangePassword(s: State, response: Response<Option<string>>): (r: (State, Outcome<Option<string>>))
    ensures !r.0.loading && r.0.user == s.user && r.0.saved.user == s.saved.user
    ensures response.Success? && Truthy(response.data) ==>
              r.0.token == response.data && r.0.saved.token == response.data && r.0.header == Some(Bearer(response.data.value))
    ensures !(response.Success? && Truthy(response.data)) ==> r.0.token == s.token && r.0.saved == s.saved && r.0.header == s.header
    ensures response.Failure? ==> r.0.error == Some(Or(response.body.error, "Failed to change password"))
  {
    match response
    case Success(token) =>
      var t := s.(loading := false, error := None);
      if Truthy(token) then (t.(token := token, saved := t.saved.(token := token), header := Some(Bearer(token.value))), Returned(token))
      else (t, Returned(token))
    case Failure(body, _) => Failed(s.(error := None), body, "Failed to change password")
  }

  /** `deleteAccount`: success signs out; failure changes no session field. */
  function DeleteAccount(s: State, response: Response<()>): (r: (State, Outcome<bool>))
    ensures !r.0.loading
    ensures response.Success? ==> r.1 == Returned(true) && r.0 == Logout(s).(loading := false, error := None)
    ensures response.Failure? ==> r.0.user == s.user && r.0.token == s.token && r.0.saved == s.saved && r.0.header == s.header
    ensures response.Failure? ==> r.1 == Raised(Or(response.body.error, "Failed to delete account"))
  {
    match response
    case Success(_) => (Logout(s.(error := None)).(loading := false), Returned(true))
    case Failure(body, _) => Failed(s.(error := None), body, "Failed to delete account")
  }

  /** Every action keeps storage and header in step with memory. */
  lemma SessionActionsKeepMirror(s: State, auth: Response<AuthController.TokenBody>, del: Response<()>, fallback: string)
    requires Mirrored(s)
    ensures Mirrored(SignIn(s, auth, fallback).0)
    ensures Mirrored(DeleteAccount(s, del).0) && Mirrored(Logout(s))
  {
  }

  /** The profile and password actions keep the mirror too. */
  lemma AccountActionsKeepMirror(s: State, doc: Response<Option<Profile>>, pw: Response<Option<string>>, fallback: string)
    requires Mirrored(s)
    ensures Mirrored(ReplaceUser(s, doc, fallback).0)
    ensures Mirrored(ChangePassword(s, pw).0)
  {
  }

  /** Reloading from storage and calling `init` gives back the session,
      except that an empty token comes back as none. */
  lemma ReloadRestores(s: State)
    requires Mirrored(s) && (s.token.Some? ==> s.token.value != "")
    ensures var r := Init(Load(s.saved));
            r.user == s.user && r.token == s.token && Mirrored(r)
  {
  }

  /** Signing in after a sign-out, with the same reply, reaches the same
      session whatever came before. */
  lemma SignInForgetsPast(s: State, t: State, data: AuthController.TokenBody)
    ensures var a := Login(Logout(s), Success(data)).0;
            var b := Login(Logout(t), Success(data)).0;
            a.user == b.user && a.token == b.token && a.saved == b.saved && a.header == b.header
  {
  }
}
