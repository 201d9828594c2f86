/** The user-management handlers of the admin panel: `getUsers`, `getUser`,
    `restrictUser`, `updateUserRole` and `deleteUser`. The database is a
    map from account id to account for single-account lookups and a
    sequence in natural order for listings; `caller` is the role of the
    signed-in staff account. */
module AdminController {
  import opened Strings
  import opened Accounts

  /** A manager may see and act on regular users only; an owner on everyone. */
  predicate MaySee(caller: Role, a: Account) {
    caller != Manager || a.role == User
  }

  /** The accounts of `users` the caller may see, in their order. */
  function Visible(caller: Role, users: seq<Account>): (r: seq<Account>)
    ensures |r| <= |users|
    ensures forall i :: 0 <= i < |r| ==> r[i] in users && MaySee(caller, r[i])
    ensures caller != Manager ==> r == users
  {
    if users == [] then []
    else if MaySee(caller, users[0]) then [users[0]] + Visible(caller, users[1..])
    else Visible(caller, users[1..])
  }

  /** Nothing the caller may see is left out of the listing. */
  lemma {:induction false} VisibleComplete(caller: Role, users: seq<Account>)
    ensures forall a :: a in users && MaySee(caller, a) ==> a in Visible(caller, users)
  {
    if users != [] {
      VisibleComplete(caller, users[1..]);
      forall a | a in users && MaySee(caller, a) ensures a in Visible(caller, users) {
        if a != users[0] {
          assert a in users[1..];
        }
      }
    }
  }

  /** A single account is listed iff the caller may see it. */
  lemma VisibleSingle(caller: Role, x: Account)
    ensures Visible(caller, [x]) == if MaySee(caller, x) then [x] else []
  {
    assert [x][1..] == [];
  }

  /** Listing two stretches of the database one after the other is listing
      them together; with `VisibleSingle` this fixes the listing as the
      visible accounts in database order. */
  lemma {:induction false} VisibleAppend(caller: Role, a: seq<Account>, b: seq<Account>)
    ensures Visible(caller, a + b) == Visible(caller, a) + Visible(caller, b)
    decreases |a|
  {
    if a != [] {
      assert (a + b)[0] == a[0] && (a + b)[1..] == a[1..] + b;
      VisibleAppend(caller, a[1..], b);
    } else {
      assert a + b == b;
    }
  }

  /** Listing a listing again gives it back. */
  lemma {:induction false} VisibleIdempotent(caller: Role, users: seq<Account>)
    ensures Visible(caller, Visible(caller, users)) == Visible(caller, users)
  {
    if users != [] {
      VisibleIdempotent(caller, users[1..]);
      if MaySee(caller, users[0]) {
        var rest := Visible(caller, users[1..]);
        assert ([users[0]] + rest)[1..] == rest;
      }
    }
  }

  datatype Listing = Listing(count: nat, data: seq<Account>)

  /** `getUsers`: managers get the regular users, anyone else gets all. */
  function GetUsers(caller: Role, users: seq<Account>): (r: Reply<Listing>)
    ensures r.Ok? && r.status == 200
    ensures r.body.count == |r.body.data|
    ensures r.body.data == Visible(caller, users)
    ensures caller == Manager ==> forall i :: 0 <= i < |r.body.data| ==> r.body.data[i].role == User
  {
    var data := Visible(caller, users);
    Ok(200, Listing(|data|, data))
  }

  /** `getUser`: an unknown id gives 404 before the role is considered; a
      manager asking for a staff account gets 403. */
  function GetUser(db: map<string, Account>, caller: Role, id: string): (r: Reply<Account>)
    ensures id !in db ==> r == Fail(404, "User not found with id of " + id)
    ensures id in db && !MaySee(caller, db[id]) ==> r == Fail(403, "Not authorized to view this user")
    ensures r.Ok? <==> id in db && MaySee(caller, db[id])
    ensures r.Ok? ==> r == Ok(200, db[id])
  {
    if id !in db then Fail(404, "User not found with id of " + id)
    else if !MaySee(caller, db[id]) then Fail(403, "Not authorized to view this user")
    else Ok(200, db[id])
  }

  /** `restrictUser`: the same checks in the same order; on success only the
      restriction flag of that one account is set to the requested value. */
  function RestrictUser(db: map<string, Account>, caller: Role, id: string, restricted: bool): (r: (Reply<Account>, map<string, Account>))
    ensures id !in db ==> r.0 == Fail(404, "User not found with id of " + id)
    ensures id in db && !MaySee(caller, db[id]) ==> r.0 == Fail(403, "Not authorized to restrict this user")
    ensures r.0.Ok? <==> id in db && MaySee(caller, db[id])
    ensures !r.0.Ok? ==> r.1 == db
    ensures r.0.Ok? ==> r.1 == db[id := db[id].(isRestricted := restricted)] && r.0 == Ok(200, r.1[id])
  {
    if id !in db then (Fail(404, "User not found with id of " + id), db)
    else if !MaySee(caller, db[id]) then (Fail(403, "Not authorized to restrict this user"), db)
    else
      var a := db[id].(isRestricted := restricted);
      (Ok(200, a), db[id := a])
  }

  /** The 404 does not depend on who asks, and a manager can never view or
      restrict a manager or an owner. */
  lemma StaffShieldedFromManagers(db: map<string, Account>, id: string, restricted: bool)
    ensures GetUser(db, Manager, id) == GetUser(db, Owner, id) <==> id !in db || db[id].role == User
    ensures id in db && db[id].role != User ==>
              GetUser(db, Manager, id).status == 403 && RestrictUser(db, Manager, id, restricted).1 == db
    ensures GetUser(db, Owner, id).Ok? <==> id in db
  {
  }

  /** Restricting twice with the same value is restricting once. */
  lemma RestrictIdempotent(db: map<string, Account>, caller: Role, id: string, restricted: bool)
    ensures var once := RestrictUser(db, caller, id, restricted).1;
            RestrictUser(once, caller, id, restricted).1 == once
  {
    var once := RestrictUser(db, caller, id, restricted).1;
    if id in db && MaySee(caller, db[id]) {
      assert once[id] == db[id].(isRestricted := restricted);
      assert once[id := once[id].(isRestricted := restricted)] == once;
    }
  }

  /** `updateUserRole`: the schema's enum refuses an unknown role; an
      unknown id gives `data: null`; otherwise only that account's role
      changes. A body without `role` makes an update with no field, which
      changes nothing and answers with the account as it is. No caller
      check happens here. */
  function UpdateUserRole(db: map<string, Account>, id: string, role: Option<string>): (r: (Reply<Option<Account>>, map<string, Account>))
    ensures r.0.Thrown? <==> role.Some? && ParseRole(role.value).None?
    ensures !r.0.Thrown? ==> r.0.Ok? && r.0.status == 200
    ensures r.0.Thrown? || id !in db || role.None? ==> r.1 == db
    ensures !r.0.Thrown? && id !in db ==> r.0.body == None
    ensures role.None? && id in db ==> r.0.body == Some(db[id])
    ensures role.Some? && ParseRole(role.value).Some? && id in db ==>
              r.1 == db[id := db[id].(role := ParseRole(role.value).value)] && r.0.body == Some(r.1[id])
              && RoleName(r.1[id].role) == role.value
  {
    if role.None? then (Ok(200, if id in db then Some(db[id]) else None), db)
    else
      var parsed := ParseRole(role.value);
      if parsed.None? then (Thrown, db)
      else if id !in db then (Ok(200, None), db)
      else
        var a := db[id].(role := parsed.value);
        (Ok(200, Some(a)), db[id := a])
  }

  /** `deleteUser`: the account is gone afterwards and the reply is a
      success whether or not it existed. */
  function DeleteUser(db: map<string, Account>, id: string): (r: (Reply<()>, map<string, Account>))
    ensures r.0 == Ok(200, ())
    ensures id !in r.1 && r.1.Keys == db.Keys - {id}
    ensures forall k :: k in r.1 ==> r.1[k] == db[k]
  {
    (Ok(200, ()), db - {id})
  }

  /** Deleting an id that is not there succeeds and changes nothing. */
  lemma DeleteAbsentUser(db: map<string, Account>, id: string)
    requires id !in db
    ensures DeleteUser(db, id) == (Ok(200, ()), db)
  {
    assert db - {id} == db;
  }
}
