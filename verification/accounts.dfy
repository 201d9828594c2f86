/** The user account as the backend stores it, the public view of it that
    responses carry, and the reply shapes of the account handlers. */
module Accounts {
  import opened Strings

  /** The roles the user schema admits. */
  datatype Role = User | Manager | Owner

  function RoleName(r: Role): string {
    match r
    case User => "user"
    case Manager => "manager"
    case Owner => "owner"
  }

  /** The schema's enum check: a role string names a role or is refused. */
  function ParseRole(s: string): (r: Option<Role>)
    ensures r.Some? ==> RoleName(r.value) == s
  {
    if s == "user" then Some(User)
    else if s == "manager" then Some(Manager)
    else if s == "owner" then Some(Owner)
    else None
  }

  /** Every role survives being written out and read back. */
  lemma ParseRoleName(r: Role)
    ensures ParseRole(RoleName(r)) == Some(r)
  {
  }

  /** A stored account; `password` is the stored hash. */
  datatype Account = Account(
    id: string,
    firstName: string,
    lastName: Option<string>,
    username: string,
    email: string,
    password: string,
    role: Role,
    profilePicture: string,
    isRestricted: bool,
    loginCount: nat)

  /** The account fields a token response reveals. */
  datatype Profile = Profile(
    id: string,
    firstName: string,
    lastName: Option<string>,
    username: string,
    email: string,
    role: Role,
    profilePicture: string)

  /** The account fields a token response withholds. */
  datatype Private = Private(password: string, isRestricted: bool, loginCount: nat)

  /** The `user` object of `sendTokenResponse`. */
  function Project(a: Account): (p: Profile)
    ensures p.id == a.id && p.role == a.role && p.username == a.username && p.email == a.email
  {
    Profile(a.id, a.firstName, a.lastName, a.username, a.email, a.role, a.profilePicture)
  }

  function PrivatePart(a: Account): Private {
    Private(a.password, a.isRestricted, a.loginCount)
  }

  function Restore(p: Profile, s: Private): Account {
    Account(p.id, p.firstName, p.lastName, p.username, p.email, s.password, p.role, p.profilePicture, s.isRestricted, s.loginCount)
  }

  /** The public view and the withheld part together are the whole account,
      and the public view carries nothing of the withheld part. */
  lemma ProjectSplitsAccount(a: Account, p: Profile, s: Private)
    ensures Restore(Project(a), PrivatePart(a)) == a
    ensures Project(Restore(p, s)) == p && PrivatePart(Restore(p, s)) == s
  {
  }

  /** `String.prototype.length`: UTF-16 code units, two for a code point above U+FFFF. */
  function Utf16Length(s: string): (n: nat)
    ensures |s| <= n <= 2 * |s|
    ensures (forall i :: 0 <= i < |s| ==> s[i] as int <= 0xFFFF) ==> n == |s|
    ensures |s| == 1 ==> (n == 2 <==> s[0] as int > 0xFFFF)
  {
    if s == [] then 0 else (if s[0] as int > 0xFFFF then 2 else 1) + Utf16Length(s[1..])
  }

  /** The units of a concatenation are the units of its parts. */
  lemma {:induction false} Utf16LengthConcat(a: string, b: string)
    ensures Utf16Length(a + b) == Utf16Length(a) + Utf16Length(b)
    decreases |a|
  {
    if a != [] {
      assert (a + b)[1..] == a[1..] + b;
      Utf16LengthConcat(a[1..], b);
    } else {
      assert a + b == b;
    }
  }

  /** How a handler ends: a JSON reply, an error passed on with its status,
      or an exception (a write the schema or a unique index refuses, a
      library call that throws), which goes to the error middleware. */
  datatype Reply<T> = Ok(status: int, body: T) | Fail(status: int, message: string) | Thrown
}
