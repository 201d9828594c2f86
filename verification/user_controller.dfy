/** The signed-in user's own account handlers: `updateDetails`,
    `updatePassword`, `updateProfilePicture` and `deleteAccount`. `id` is
    the caller's account id; the password comparison, the hash and the
    token signer are parameters. */
module UserController {
  import opened Strings
  import opened Accounts

  /** Everything except the three fields `updateDetails` may write. */
  predicate SameExceptDetails(a: Account, b: Account) {
    a.id == b.id && a.email == b.email && a.password == b.password && a.role == b.role
    && a.profilePicture == b.profilePicture && a.isRestricted == b.isRestricted && a.loginCount == b.loginCount
  }

  /** The stored username an update asks for, after the schema's setters. */
  function StoredUsername(u: string): string {
    Lower(Trim(u))
  }

  /** The update validators, which `runValidators` runs on the update
      before the query is sent: a given first name must not trim to empty,
      and a given username must not trim to empty and must have 3 units. */
  predicate DetailsValid(firstName: Option<string>, username: Option<string>) {
    (firstName.None? || Trim(firstName.value) != "")
    && (username.None? || var u := StoredUsername(username.value); u != "" && Utf16Length(u) >= 3)
  }

  /** The unique index on `username`: a given username must not belong to
      another account. It is only met when a document is written. */
  predicate UsernameFree(db: map<string, Account>, id: string, username: Option<string>) {
    username.None? || forall k :: k in db && k != id ==> db[k].username != StoredUsername(username.value)
  }

  /** The account after the update: a given field is set to its trimmed
      (and, for the username, lowercased) value; an absent one is kept. */
  function Patched(a: Account, firstName: Option<string>, lastName: Option<string>, username: Option<string>): (r: Account)
    ensures SameExceptDetails(a, r)
    ensures firstName.None? ==> r.firstName == a.firstName
    ensures lastName.None? ==> r.lastName == a.lastName
    ensures username.None? ==> r.username == a.username
    ensures firstName.Some? ==> r.firstName == Trim(firstName.value)
    ensures lastName.Some? ==> r.lastName == Some(Trim(lastName.value))
    ensures username.Some? ==> r.username == StoredUsername(username.value)
  {
    a.(firstName := if firstName.Some? then Trim(firstName.value) else a.firstName,
       lastName := if lastName.Some? then Some(Trim(lastName.value)) else a.lastName,
       username := if username.Some? then StoredUsername(username.value) else a.username)
  }

  /** `updateDetails`: only first name, last name and username can change,
      only the caller's account changes. The validators run first, so an
      invalid field throws even when the account is gone; a valid update of
      an absent account gives `data: null`; a taken username throws on the
      write. */
  function UpdateDetails(db: map<string, Account>, id: string, firstName: Option<string>, lastName: Option<string>,
                         username: Option<string>): (r: (Reply<Option<Account>>, map<string, Account>))
    ensures r.0.Ok? || r.0.Thrown?
    ensures r.0.Thrown? <==> !DetailsValid(firstName, username) || (id in db && !UsernameFree(db, id, username))
    ensures r.0.Thrown? || id !in db ==> r.1 == db
    ensures id !in db && DetailsValid(firstName, username) ==> r.0 == Ok(200, None)
    ensures r.0.Ok? && id in db ==>
              r.1.Keys == db.Keys && r.1[id] == Patched(db[id], firstName, lastName, username)
              && r.0 == Ok(200, Some(r.1[id]))
    ensures forall k :: k in db && k != id ==> k in r.1 && r.1[k] == db[k]
  {
    if !DetailsValid(firstName, username) then (Thrown, db)
    else if id !in db then (Ok(200, None), db)
    else if !UsernameFree(db, id, username) then (Thrown, db)
    else
      var a := Patched(db[id], firstName, lastName, username);
      (Ok(200, Some(a)), db[id := a])
  }

  /** An update that names no field leaves the account as it was. */
  lemma EmptyUpdateKeepsAccount(db: map<string, Account>, id: string)
    ensures UpdateDetails(db, id, None, None, None).1 == db
  {
    if id in db {
      assert Patched(db[id], None, None, None) == db[id];
      assert db[id := db[id]] == db;
    }
  }

  /** Sending back the fields an update stored stores them again unchanged:
      trimming and lowercasing have already been done. */
  lemma PatchedStable(a: Account, firstName: string, lastName: string, username: string)
    requires Trim(firstName) == firstName && Trim(lastName) == lastName && StoredUsername(username) == username
    ensures Patched(a, Some(firstName), Some(lastName), Some(username)) ==
              a.(firstName := firstName, lastName := Some(lastName), username := username)
  {
  }

  /** `updatePassword`. A missing current password makes the comparison
      throw; a wrong one gives 401 before the new password is looked at; a
      short new password gives 400; an empty or missing one is refused by
      the schema's `required` on save. */
  function UpdatePassword(db: map<string, Account>, id: string, current: Option<string>, newPassword: Option<string>,
                          matches: (string, string) -> bool, hash: string -> string, token: string): (r: (Reply<string>, map<string, Account>))
    ensures !r.0.Ok? ==> r.1 == db
    ensures id in db && current.Some? && !matches(current.value, db[id].password) ==> r.0 == Fail(401, "Password is incorrect")
    ensures r.0.Ok? <==> id in db && current.Some? && matches(current.value, db[id].password)
                         && Truthy(newPassword) && Utf16Length(newPassword.value) >= 6
    ensures r.0.Fail? && r.0.status == 400 <==>
              id in db && current.Some? && matches(current.value, db[id].password)
              && Truthy(newPassword) && Utf16Length(newPassword.value) < 6
    ensures r.0.Ok? ==> r.0 == Ok(200, token) && r.1 == db[id := db[id].(password := hash(newPassword.value))]
  {
    if id !in db || current.None? then (Thrown, db)
    else if !matches(current.value, db[id].password) then (Fail(401, "Password is incorrect"), db)
    else if Truthy(newPassword) && Utf16Length(newPassword.value) < 6 then
      (Fail(400, "New password must be at least 6 characters"), db)
    else if !Truthy(newPassword) then (Thrown, db)
    else (Ok(200, token), db[id := db[id].(password := hash(newPassword.value))])
  }

  /** A changed password leaves every other field and account as it was. */
  lemma UpdatePasswordTouchesOnlyPassword(db: map<string, Account>, id: string, current: Option<string>, newPassword: Option<string>,
                                          matches: (string, string) -> bool, hash: string -> string, token: string)
    ensures var r := UpdatePassword(db, id, current, newPassword, matches, hash, token);
            r.1.Keys == db.Keys
            && (forall k :: k in db && k != id ==> r.1[k] == db[k])
            && (id in db ==> r.1[id].(password := db[id].password) == db[id])
  {
  }

  /** `updateProfilePicture`: no file gives 400; otherwise the picture is
      set to the uploaded file's path and nothing else changes. */
  function UpdateProfilePicture(db: map<string, Account>, id: string, file: Option<string>): (r: (Reply<Option<Account>>, map<string, Account>))
    ensures file.None? ==> r == (Fail(400, "Please upload a file"), db)
    ensures file.Some? ==> r.0.Ok? && r.0.status == 200
    ensures file.Some? && id in db ==> r.1 == db[id := db[id].(profilePicture := file.value)] && r.0.body == Some(r.1[id])
    ensures file.Some? && id !in db ==> r.1 == db && r.0.body == None
  {
    if file.None? then (Fail(400, "Please upload a file"), db)
    else if id !in db then (Ok(200, None), db)
    else
      var a := db[id].(profilePicture := file.value);
      (Ok(200, Some(a)), db[id := a])
  }

  /** Of two uploads the later one decides the picture, so uploading the
      same file again changes nothing. */
  lemma LastUploadWins(db: map<string, Account>, id: string, f: string, g: string)
    ensures UpdateProfilePicture(UpdateProfilePicture(db, id, Some(f)).1, id, Some(g)).1
            == UpdateProfilePicture(db, id, Some(g)).1
    ensures var once := UpdateProfilePicture(db, id, Some(f));
            UpdateProfilePicture(once.1, id, Some(f)) == once
  {
    if id in db {
      var a := db[id].(profilePicture := f);
      assert a.(profilePicture := g) == db[id].(profilePicture := g);
      assert a.(profilePicture := f) == a;
      assert db[id := a][id := a] == db[id := a];
    }
  }

  /** An upload and a password change of the same account touch different
      fields: doing them in either order leaves the same store, and the
      upload does not change whether the password change succeeds. */
  lemma UploadCommutesWithPasswordChange(db: map<string, Account>, id: string, file: string, current: Option<string>,
                                         newPassword: Option<string>, matches: (string, string) -> bool,
                                         hash: string -> string, token: string)
    ensures var up := UpdateProfilePicture(db, id, Some(file)).1;
            var pw := UpdatePassword(db, id, current, newPassword, matches, hash, token);
            && UpdatePassword(up, id, current, newPassword, matches, hash, token).0 == pw.0
            && UpdateProfilePicture(pw.1, id, Some(file)).1
               == UpdatePassword(up, id, current, newPassword, matches, hash, token).1
  {
    var up := UpdateProfilePicture(db, id, Some(file)).1;
    if id in db {
      assert up[id].password == db[id].password;
      var pw := UpdatePassword(db, id, current, newPassword, matches, hash, token);
      if pw.0.Ok? {
        assert db[id].(password := hash(newPassword.value)).(profilePicture := file)
            == db[id].(profilePicture := file).(password := hash(newPassword.value));
      }
    }
  }

  /** `deleteAccount`: a missing password, then an unknown account, then a
      wrong password; the account goes only when all three pass. */
  function DeleteAccount(db: map<string, Account>, id: string, password: Option<string>,
                         matches: (string, string) -> bool): (r: (Reply<string>, map<string, Account>))
    ensures !Truthy(password) ==> r.0 == Fail(400, "Please provide your password to confirm")
    ensures Truthy(password) && id !in db ==> r.0 == Fail(404, "User not found")
    ensures Truthy(password) && id in db && !matches(password.value, db[id].password) ==> r.0 == Fail(401, "Password is incorrect")
    ensures r.0.Ok? <==> Truthy(password) && id in db && matches(password.value, db[id].password)
    ensures r.0.Ok? ==> r.0.body == "Account deleted successfully" && r.1 == db - {id}
    ensures !r.0.Ok? ==> r.1 == db
    ensures !r.0.Thrown?
  {
    if !Truthy(password) then (Fail(400, "Please provide your password to confirm"), db)
    else if id !in db then (Fail(404, "User not found"), db)
    else if !matches(password.value, db[id].password) then (Fail(401, "Password is incorrect"), db)
    else (Ok(200, "Account deleted successfully"), db - {id})
  }

  /** A deletion removes exactly the caller's account. */
  lemma DeleteAccountRemovesOnlyCaller(db: map<string, Account>, id: string, password: Option<string>,
                                       matches: (string, string) -> bool)
    ensures var r := DeleteAccount(db, id, password, matches);
            r.0.Ok? ==> r.1.Keys == db.Keys - {id} && |r.1| == |db| - 1
                        && forall k :: k in r.1 ==> r.1[k] == db[k]
  {
  }
}
