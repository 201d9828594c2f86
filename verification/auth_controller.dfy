/** The public account handlers: `register`, `login` and `checkUsername`.
    The database is a map from account id to account; the password hash,
    the password comparison, the address check and the token signer are
    parameters. */
module AuthController {
  import opened Strings
  import opened Accounts

  /** The body of a token response. */
  datatype TokenBody = TokenBody(token: string, user: Profile)

  datatype RegisterBody = RegisterBody(
    firstName: Option<string>,
    lastName: Option<string>,
    username: Option<string>,
    email: Option<string>,
    password: Option<string>,
    role: Option<string>)

  /** `role || 'user'`: any non-empty role the client sends is kept. */
  function RequestedRole(role: Option<string>): (r: string)
    ensures r != ""
    ensures Truthy(role) ==> r == role.value
    ensures !Truthy(role) ==> r == "user"
  {
    if Truthy(role) then role.value else "user"
  }

  /** The account `User.create` would build from the body: the schema's
      `trim` and `lowercase` setters, then its `required`, `minlength`,
      address and enum validators. `None` when a validator refuses. */
  function NewAccount(b: RegisterBody, id: string, hash: string -> string, isEmail: string -> bool): (r: Option<Account>)
    ensures r.Some? <==> var role := ParseRole(RequestedRole(b.role));
                         role.Some? && WithRole(b, id, hash, isEmail, role.value).Some?
    ensures r.Some? ==> ParseRole(RequestedRole(b.role)) == Some(r.value.role)
    ensures r.Some? ==> r == WithRole(b, id, hash, isEmail, r.value.role)
  {
    var role := ParseRole(RequestedRole(b.role));
    if role.None? then None else WithRole(b, id, hash, isEmail, role.value)
  }

  /** The account built from the body with the given role, when every
      validator other than the role's accepts it. */
  function WithRole(b: RegisterBody, id: string, hash: string -> string, isEmail: string -> bool, role: Role): (r: Option<Account>)
    ensures r.Some? <==>
              && Trim(Value(b.firstName)) != ""
              && Utf16Length(Lower(Trim(Value(b.username)))) >= 3
              && Value(b.email) != "" && isEmail(Lower(Value(b.email)))
              && Utf16Length(Value(b.password)) >= 6
    ensures r.Some? ==> r.value.id == id && r.value.role == role
    ensures r.Some? ==> r.value.firstName == Trim(Value(b.firstName)) && r.value.username == Lower(Trim(Value(b.username)))
    ensures r.Some? ==> r.value.email == Lower(Value(b.email)) && r.value.password == hash(Value(b.password))
    ensures r.Some? ==> (r.value.lastName.Some? <==> b.lastName.Some?)
                        && (b.lastName.Some? ==> r.value.lastName.value == Trim(b.lastName.value))
    ensures r.Some? ==> r.value.profilePicture == "no-photo.jpg" && !r.value.isRestricted && r.value.loginCount == 0
  {
    var firstName := Trim(Value(b.firstName));
    var username := Lower(Trim(Value(b.username)));
    var email := Lower(Value(b.email));
    var password := Value(b.password);
    if firstName == "" || username == "" || Utf16Length(username) < 3 || email == "" || !isEmail(email)
       || password == "" || Utf16Length(password) < 6
    then None
    else
      var lastName := if b.lastName.Some? then Some(Trim(b.lastName.value)) else None;
      Some(Account(id, firstName, lastName, username, email, hash(password), role, "no-photo.jpg", false, 0))
  }

  /** The role is the only thing `role` in the body decides. */
  lemma WithRoleIgnoresRoleField(b: RegisterBody, id: string, hash: string -> string, isEmail: string -> bool, role: Role, asked: Option<string>)
    ensures WithRole(b.(role := asked), id, hash, isEmail, role) == WithRole(b, id, hash, isEmail, role)
  {
    var c := b.(role := asked);
    assert c.firstName == b.firstName && c.lastName == b.lastName && c.username == b.username;
    assert c.email == b.email && c.password == b.password;
  }

  /** No stored account has this id, username or email (the unique indexes). */
  predicate Unused(db: map<string, Account>, a: Account) {
    a.id !in db && forall k :: k in db ==> db[k].username != a.username && db[k].email != a.email
  }

  /** `register`: the created account and a 201 token response, or a refused write. */
  function Register(db: map<string, Account>, b: RegisterBody, id: string, hash: string -> string,
                    isEmail: string -> bool, token: string): (r: (Reply<TokenBody>, map<string, Account>))
    ensures r.0.Ok? || r.0.Thrown?
    ensures r.0.Ok? <==> var a := NewAccount(b, id, hash, isEmail); a.Some? && Unused(db, a.value)
    ensures r.0.Thrown? ==> r.1 == db
    ensures r.0.Ok? ==> r.0.status == 201 && id in r.1 && id !in db && r.1 == db[id := r.1[id]]
    ensures r.0.Ok? ==> r.1[id] == NewAccount(b, id, hash, isEmail).value
    ensures r.0.Ok? ==> r.0.body == TokenBody(token, Project(r.1[id]))
  {
    var a := NewAccount(b, id, hash, isEmail);
    if a.Some? && Unused(db, a.value) then (Ok(201, TokenBody(token, Project(a.value))), db[id := a.value])
    else (Thrown, db)
  }

  /** A client that asks for any role the schema knows, `owner` included, gets
      it; one that sends no role (or an empty one) gets `user`. */
  lemma RegisterKeepsRequestedRole(db: map<string, Account>, b: RegisterBody, id: string, hash: string -> string,
                                   isEmail: string -> bool, token: string)
    ensures var r := Register(db, b, id, hash, isEmail, token);
            r.0.Ok? ==> r.1[id].role == (if Truthy(b.role) then ParseRole(b.role.value).value else User)
  {
  }

  /** A body the schema accepts without a role is accepted with `role: owner`
      too, and creates an owner. */
  lemma ClientMayAskForOwner(b: RegisterBody, id: string, hash: string -> string, isEmail: string -> bool)
    requires NewAccount(b.(role := None), id, hash, isEmail).Some?
    ensures var a := NewAccount(b.(role := Some("owner")), id, hash, isEmail);
            a.Some? && a.value.role == Owner && a.value == NewAccount(b.(role := None), id, hash, isEmail).value.(role := Owner)
  {
    WithRoleIgnoresRoleField(b, id, hash, isEmail, User, None);
    WithRoleIgnoresRoleField(b, id, hash, isEmail, Owner, Some("owner"));
    assert ParseRole(RequestedRole(Some("owner"))) == Some(Owner);
    assert ParseRole(RequestedRole(None)) == Some(User);
  }

  datatype LoginBody = LoginBody(email: Option<string>, password: Option<string>)

  /** `login`. `found` is the account the address lookup returned; `matches`
      compares an entered password with a stored hash. */
  function Login(b: LoginBody, found: Option<Account>, matches: (string, string) -> bool, token: string): (r: Reply<TokenBody>)
    ensures !Truthy(b.email) || !Truthy(b.password) ==> r == Fail(400, "Please provide an email and password")
    ensures r.Ok? <==> Truthy(b.email) && Truthy(b.password) && found.Some?
                       && matches(b.password.value, found.value.password) && !found.value.isRestricted
    ensures r.Ok? ==> r == Ok(200, TokenBody(token, Project(found.value)))
    ensures r.Fail? && r.status == 403 <==>
              Truthy(b.email) && Truthy(b.password) && found.Some?
              && matches(b.password.value, found.value.password) && found.value.isRestricted
    ensures Truthy(b.email) && Truthy(b.password) && (found.None? || !matches(b.password.value, found.value.password)) ==>
              r == Fail(401, "Invalid credentials")
    ensures !r.Thrown?
  {
    if !Truthy(b.email) || !Truthy(b.password) then Fail(400, "Please provide an email and password")
    else if found.None? then Fail(401, "Invalid credentials")
    else if !matches(b.password.value, found.value.password) then Fail(401, "Invalid credentials")
    else if found.value.isRestricted then Fail(403, "Your account has been restricted")
    else Ok(200, TokenBody(token, Project(found.value)))
  }

  /** An unknown address and a wrong password get the same reply, so the reply
      does not tell whether an address is registered; the restriction is only
      revealed to a caller who knows the password. */
  lemma UnknownLikeWrongPassword(b: LoginBody, a: Account, matches: (string, string) -> bool, token: string)
    requires Truthy(b.password) ==> !matches(b.password.value, a.password)
    ensures Login(b, None, matches, token) == Login(b, Some(a), matches, token)
    ensures Login(b, Some(a), matches, token).Fail? && Login(b, Some(a), matches, token).status != 403
  {
  }

  /** A body with no `email` field, whatever else it carries, is turned away
      with 400 before any lookup. */
  lemma NoEmailNoLookup(password: Option<string>, found: Option<Account>, matches: (string, string) -> bool, token: string)
    ensures Login(LoginBody(None, password), found, matches, token) == Fail(400, "Please provide an email and password")
  {
  }

  /** The reply of `checkUsername`. */
  datatype Availability = Availability(success: bool, available: bool, message: string, suggestions: seq<string>)

  /** `checkUsername`: the name is lowercased before the lookup; `taken` is
      the lookup and `suggest` the suggester. */
  function CheckUsername(name: string, taken: string -> bool, suggest: string -> seq<string>): (r: Availability)
    ensures r.available <==> !taken(Lower(name))
    ensures r.success == r.available
    ensures r.available ==> r.suggestions == [] && r.message == "Username is available"
    ensures !r.available ==> r.suggestions == suggest(Lower(name)) && r.message == "Username is already taken"
  {
    var key := Lower(name);
    if taken(key) then Availability(false, false, "Username is already taken", suggest(key))
    else Availability(true, true, "Username is available", [])
  }

  /** Names that differ only in ASCII letter case get the same answer. */
  lemma CheckUsernameIgnoresCase(a: string, b: string, taken: string -> bool, suggest: string -> seq<string>)
    requires Lower(a) == Lower(b)
    ensures CheckUsername(a, taken, suggest) == CheckUsername(b, taken, suggest)
  {
  }

  /** Asking again with the lowercased name changes nothing. */
  lemma CheckUsernameLowered(name: string, taken: string -> bool, suggest: string -> seq<string>)
    ensures CheckUsername(Lower(name), taken, suggest) == CheckUsername(name, taken, suggest)
  {
    LowerIdempotent(name);
  }
}
