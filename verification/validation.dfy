/** The request-body validation rules of the backend and the `validate` step
    that turns their failures into one 400 error. A rule chain reads one
    field, sanitises it (`trim`) and runs its checks in order; every check
    that fails adds its message (no chain stops at its first failure). */
module Validation {
  import opened Strings

  /** A body field: `None` when the request does not carry it. */
  type Field = Option<string>

  /** The failure messages of the rules. */
  datatype Message =
    | FirstNameRequired
    | FirstNameLength
    | FirstNameLetters
    | LastNameLength
    | LastNameLetters
    | UsernameRequired
    | UsernameLength
    | UsernameCharacters
    | EmailRequired
    | EmailInvalid
    | PasswordLength
    | PasswordPattern
    | IdentifierRequired
    | CurrentPasswordRequired
    | InvalidId
    | NewPasswordRequired
    | PasswordRequired

  /** The text a message carries in the error response. */
  function Text(m: Message): string {
    match m
    case FirstNameRequired => "First name is required"
    case FirstNameLength => "First name must be between 2-50 characters"
    case FirstNameLetters => "First name can only contain letters"
    case LastNameLength => "Last name must be less than 50 characters"
    case LastNameLetters => "Last name can only contain letters"
    case UsernameRequired => "Username is required"
    case UsernameLength => "Username must be between 3-30 characters"
    case UsernameCharacters => "Username can only contain letters, numbers, and underscores"
    case EmailRequired => "Email is required"
    case EmailInvalid => "Please provide a valid email"
    case PasswordLength => "Password must be at least 6 characters"
    case PasswordPattern => "Password must contain at least one letter and one number"
    case IdentifierRequired => "Email or Username is required"
    case CurrentPasswordRequired => "Current password is required"
    case InvalidId => "Invalid user ID format"
    case NewPasswordRequired => "New password is required"
    case PasswordRequired => "Password is required"
  }

  /** The message of a check, when it fails: a check adds at most one
      message, its own, and adds it exactly when it fails. */
  function Check(ok: bool, message: Message): (r: seq<Message>)
    ensures |r| <= 1
    ensures ok <==> r == []
    ensures forall m :: m in r ==> m == message
  {
    if ok then [] else [message]
  }

  /** The variation selectors that `isLength` does not count. */
  predicate IsPresentationSelector(c: char) {
    c == '\U{FE0E}' || c == '\U{FE0F}'
  }

  /** The length `isLength` measures: code points, not counting variation selectors. */
  function Length(s: string): (n: nat)
    ensures n <= |s|
    ensures (forall i :: 0 <= i < |s| ==> !IsPresentationSelector(s[i])) ==> n == |s|
  {
    if s == [] then 0 else (if IsPresentationSelector(s[0]) then 0 else 1) + Length(s[1..])
  }

  /** `[a-zA-Z\s]`. */
  predicate IsNameChar(c: char) {
    IsLetter(c) || IsSpace(c)
  }

  /** `[a-zA-Z0-9_]`. */
  predicate IsWordChar(c: char) {
    IsLetter(c) || IsDigit(c) || c == '_'
  }

  predicate AllNameChars(s: string) {
    forall i :: 0 <= i < |s| ==> IsNameChar(s[i])
  }

  predicate AllWordChars(s: string) {
    forall i :: 0 <= i < |s| ==> IsWordChar(s[i])
  }

  /** What `.` can reach from the start: the text before the first line terminator. */
  function FirstLine(s: string): (r: string)
    ensures |r| <= |s| && r == s[..|r|]
    ensures forall i :: 0 <= i < |r| ==> !IsLineTerminator(r[i])
    ensures |r| < |s| ==> IsLineTerminator(s[|r|])
  {
    if s == [] || IsLineTerminator(s[0]) then [] else [s[0]] + FirstLine(s[1..])
  }

  /** `/^(?=.*[A-Za-z])(?=.*\d)/`: a letter and a digit, both before any line terminator. */
  predicate LetterAndDigit(s: string) {
    var line := FirstLine(s);
    (exists i :: 0 <= i < |line| && IsLetter(line[i])) && (exists i :: 0 <= i < |line| && IsDigit(line[i]))
  }

  /** A first name: `trim`, `notEmpty`, `isLength(2..50)`, `matches(/^[a-zA-Z\s]+$/)`. */
  function FirstNameErrors(f: Field, required: bool): seq<Message> {
    var v := Trim(Value(f));
    (if required then Check(v != "", FirstNameRequired) else [])
    + Check(2 <= Length(v) <= 50, FirstNameLength)
    + Check(v != "" && AllNameChars(v), FirstNameLetters)
  }

  /** A last name, always optional: `trim`, `isLength(max 50)`, `matches(/^[a-zA-Z\s]*$/)`. */
  function LastNameErrors(f: Field): seq<Message> {
    if f.None? then []
    else
      var v := Trim(f.value);
      Check(Length(v) <= 50, LastNameLength)
      + Check(AllNameChars(v), LastNameLetters)
  }

  /** A username: `trim`, `notEmpty`, `isLength(3..30)`, `matches(/^[a-zA-Z0-9_]+$/)`. */
  function UsernameErrors(f: Field, required: bool): seq<Message> {
    var v := Trim(Value(f));
    (if required then Check(v != "", UsernameRequired) else [])
    + Check(3 <= Length(v) <= 30, UsernameLength)
    + Check(v != "" && AllWordChars(v), UsernameCharacters)
  }

  /** A password: `notEmpty`, `isLength(min 6)`, and the letter-and-digit pattern; not trimmed. */
  function PasswordErrors(f: Field, requiredMessage: Message): seq<Message> {
    var v := Value(f);
    Check(v != "", requiredMessage)
    + Check(Length(v) >= 6, PasswordLength)
    + Check(LetterAndDigit(v), PasswordPattern)
  }

  datatype RegisterBody = RegisterBody(firstName: Field, lastName: Field, username: Field, email: Field, password: Field)

  /** `registerValidation`; `isEmail` is the library's address check. */
  function RegisterErrors(b: RegisterBody, isEmail: string -> bool): seq<Message> {
    var email := Trim(Value(b.email));
    FirstNameErrors(b.firstName, true)
    + LastNameErrors(b.lastName)
    + UsernameErrors(b.username, true)
    + Check(email != "", EmailRequired) + Check(isEmail(email), EmailInvalid)
    + PasswordErrors(b.password, PasswordRequired)
  }

  datatype LoginBody = LoginBody(identifier: Field, password: Field)

  /** `loginValidation`: presence only. */
  function LoginErrors(b: LoginBody): (r: seq<Message>)
    ensures r == [] <==> Trim(Value(b.identifier)) != "" && Value(b.password) != ""
  {
    Check(Trim(Value(b.identifier)) != "", IdentifierRequired)
    + Check(Value(b.password) != "", PasswordRequired)
  }

  datatype DetailsBody = DetailsBody(firstName: Field, lastName: Field, username: Field)

  /** `updateDetailsValidation`: every field optional. */
  function DetailsErrors(b: DetailsBody): seq<Message> {
    (if b.firstName.None? then [] else FirstNameErrors(b.firstName, false))
    + LastNameErrors(b.lastName)
    + (if b.username.None? then [] else UsernameErrors(b.username, false))
  }

  /** `updatePasswordValidation`. */
  function UpdatePasswordErrors(currentPassword: Field, newPassword: Field): seq<Message> {
    Check(Value(currentPassword) != "", CurrentPasswordRequired)
    + PasswordErrors(newPassword, NewPasswordRequired)
  }

  /** `resetPasswordValidation`. */
  function ResetPasswordErrors(newPassword: Field): seq<Message> {
    PasswordErrors(newPassword, NewPasswordRequired)
  }

  /** `idParamValidation`; `isMongoId` is the library's object-id check. */
  function IdParamErrors(id: string, isMongoId: string -> bool): seq<Message> {
    Check(isMongoId(id), InvalidId)
  }

  /** Letters, digits and underscores are each counted by `isLength`. */
  lemma WordCharsCounted(s: string)
    requires AllWordChars(s)
    ensures Length(s) == |s|
  {
    forall i | 0 <= i < |s| ensures !IsPresentationSelector(s[i]) {
      assert IsWordChar(s[i]);
    }
  }

  /** Letters and white space are each counted by `isLength`. */
  lemma NameCharsCounted(s: string)
    requires AllNameChars(s)
    ensures Length(s) == |s|
  {
    forall i | 0 <= i < |s| ensures !IsPresentationSelector(s[i]) {
      assert IsNameChar(s[i]);
    }
  }

  /** A first name the rules accept: 2 to 50 letters and spaces. */
  predicate ValidFirstName(v: string) {
    2 <= |v| <= 50 && AllNameChars(v)
  }

  /** A last name the rules accept: at most 50 letters and spaces, possibly none. */
  predicate ValidLastName(v: string) {
    |v| <= 50 && AllNameChars(v)
  }

  /** A username the rules accept: 3 to 30 letters, digits and underscores. */
  predicate ValidUsername(v: string) {
    3 <= |v| <= 30 && AllWordChars(v)
  }

  /** A strong enough password. */
  predicate StrongPassword(p: string) {
    Length(p) >= 6 && LetterAndDigit(p)
  }

  /** A password passes iff it has at least 6 counted characters and a letter
      and a digit before any line break. */
  lemma PasswordRule(f: Field, requiredMessage: Message)
    ensures PasswordErrors(f, requiredMessage) == [] <==> StrongPassword(Value(f))
  {
  }

  /** A registration username passes iff its trimmed form is 3 to 30 word characters. */
  lemma UsernameRule(f: Field)
    ensures UsernameErrors(f, true) == [] <==> ValidUsername(Trim(Value(f)))
    ensures UsernameErrors(f, false) == [] <==> ValidUsername(Trim(Value(f)))
  {
    var v := Trim(Value(f));
    if AllWordChars(v) {
      WordCharsCounted(v);
    }
  }

  /** A registration first name passes iff its trimmed form is 2 to 50 letters and spaces. */
  lemma FirstNameRule(f: Field)
    ensures FirstNameErrors(f, true) == [] <==> ValidFirstName(Trim(Value(f)))
    ensures FirstNameErrors(f, false) == [] <==> ValidFirstName(Trim(Value(f)))
  {
    var v := Trim(Value(f));
    if AllNameChars(v) {
      NameCharsCounted(v);
    }
  }

  /** A last name passes iff it is absent, or trims to at most 50 letters and spaces (empty included). */
  lemma LastNameRule(f: Field)
    ensures LastNameErrors(f) == [] <==> f.None? || ValidLastName(Trim(f.value))
  {
    if f.Some? {
      var v := Trim(f.value);
      if AllNameChars(v) {
        NameCharsCounted(v);
      }
    }
  }

  /** A registration passes iff every field meets its rule and the address is well formed. */
  lemma RegisterRule(b: RegisterBody, isEmail: string -> bool)
    ensures RegisterErrors(b, isEmail) == [] <==>
              ValidFirstName(Trim(Value(b.firstName)))
              && (b.lastName.None? || ValidLastName(Trim(b.lastName.value)))
              && ValidUsername(Trim(Value(b.username)))
              && Trim(Value(b.email)) != "" && isEmail(Trim(Value(b.email)))
              && StrongPassword(Value(b.password))
  {
    FirstNameRule(b.firstName);
    LastNameRule(b.lastName);
    UsernameRule(b.username);
    PasswordRule(b.password, PasswordRequired);
  }

  /** An update passes iff every field it carries meets the registration rule;
      an absent field is not checked at all. */
  lemma DetailsRule(b: DetailsBody)
    ensures DetailsErrors(b) == [] <==>
              (b.firstName.None? || ValidFirstName(Trim(b.firstName.value)))
              && (b.lastName.None? || ValidLastName(Trim(b.lastName.value)))
              && (b.username.None? || ValidUsername(Trim(b.username.value)))
  {
    FirstNameRule(b.firstName);
    LastNameRule(b.lastName);
    UsernameRule(b.username);
  }

  /** A password change or reset passes iff the new password is strong (and,
      for a change, the current one is given). */
  lemma NewPasswordRule(current: Field, newPassword: Field)
    ensures UpdatePasswordErrors(current, newPassword) == [] <==> Value(current) != "" && StrongPassword(Value(newPassword))
    ensures ResetPasswordErrors(newPassword) == [] <==> StrongPassword(Value(newPassword))
  {
    PasswordRule(newPassword, NewPasswordRequired);
  }

  /** Outcome of `validate`: on to the handler, or one error. */
  datatype Outcome = Next | Error(status: int, message: string)

  /** The texts of a list of messages, in order. */
  function Texts(errors: seq<Message>): (r: seq<string>)
    ensures |r| == |errors|
    ensures forall i :: 0 <= i < |errors| ==> r[i] == Text(errors[i])
  {
    seq(|errors|, i requires 0 <= i < |errors| => Text(errors[i]))
  }

  /** `validate`: all messages joined by `, ` in one 400 error, or pass on. */
  function Validate(errors: seq<Message>): (r: Outcome)
    ensures r == Next <==> errors == []
    ensures r.Error? ==> r.status == 400
    ensures r.Error? ==> forall i :: 0 <= i < |errors| ==> Contains(r.message, Text(errors[i]))
    ensures |errors| == 1 ==> r == Error(400, Text(errors[0]))
  {
    if errors == [] then Next
    else
      JoinContainsParts(Texts(errors), ", ");
      Error(400, Join(Texts(errors), ", "))
  }

  /** The messages keep the order of the failed checks: the error of a list
      is the error of its first part, `, `, then the error of the rest. */
  lemma ValidateInOrder(a: seq<Message>, b: seq<Message>)
    requires a != [] && b != []
    ensures Validate(a + b).message == Validate(a).message + ", " + Validate(b).message
  {
    var ta, tb := Texts(a), Texts(b);
    TextsAppend(a, b);
    JoinAppend(ta, tb, ", ");
  }

  /** The texts of consecutive checks are the texts of each, in order. */
  lemma TextsAppend(a: seq<Message>, b: seq<Message>)
    ensures Texts(a + b) == Texts(a) + Texts(b)
  {
  }

  /** Every part occurs in the joined text. */
  lemma {:induction false} JoinContainsParts(parts: seq<string>, sep: string)
    ensures forall i :: 0 <= i < |parts| ==> Contains(Join(parts, sep), parts[i])
    decreases |parts|
  {
    if |parts| == 1 {
      assert OccursAt(parts[0], parts[0], 0);
    } else if |parts| > 1 {
      var rest := Join(parts[1..], sep);
      var s := parts[0] + sep + rest;
      assert Join(parts, sep) == s;
      JoinContainsParts(parts[1..], sep);
      assert s[..|parts[0]|] == parts[0];
      assert OccursAt(s, parts[0], 0);
      forall i | 1 <= i < |parts| ensures Contains(s, parts[i]) {
        assert parts[1..][i - 1] == parts[i];
        ContainsShift(parts[0] + sep, rest, parts[i]);
      }
    }
  }

  /** An occurrence in `b` is an occurrence in `a + b`. */
  lemma ContainsShift(a: string, b: string, sub: string)
    requires Contains(b, sub)
    ensures Contains(a + b, sub)
  {
    var i :| 0 <= i <= |b| - |sub| && OccursAt(b, sub, i);
    assert (a + b)[|a| + i..|a| + i + |sub|] == b[i..i + |sub|];
    assert OccursAt(a + b, sub, |a| + i);
  }
}
