/**
 * The `users` table of `src/db/schema/auth.ts`, the signup password rule declared
 * beside it, the request shapes built from it and the sanitised projections.
 */
module UserSchema {
  import opened Wrappers
  import opened Text
  import opened Schemas

  type UserId = string

  /** One row of `users`, keyed by `id` in a Table. `verified`, `verificationToken`
      and `passwordResetToken` are the columns the handlers read and write. */
  datatype User = User(
    email: string,
    password: string,
    verified: bool,
    verificationToken: Option<string>,
    passwordResetToken: Option<string>)

  /** `email` is `unique()`: no two rows share one. */
  ghost predicate EmailsUnique(t: map<UserId, User>) {
    forall a, b | a in t && b in t && a != b :: t[a].email != t[b].email
  }

  /** The table: `id` is the primary key (the map's key) and `email` is unique. */
  type Table = t: map<UserId, User> | EmailsUnique(t) witness map[]

  /** `findFirst` with `eq(fields.email, e)`: the row whose email is exactly `e`. */
  function FindByEmail(t: Table, e: string): (r: Option<UserId>)
    ensures r.Some? ==> r.value in t && t[r.value].email == e
    ensures r.None? <==> forall id | id in t :: t[id].email != e
  {
    if exists id | id in t :: t[id].email == e then
      var id :| id in t && t[id].email == e; Some(id)
    else None
  }

  /** Adding a row whose email is not yet taken keeps emails unique. */
  lemma InsertKeepsUnique(t: Table, id: UserId, u: User)
    requires id !in t && FindByEmail(t, u.email).None?
    ensures EmailsUnique(t[id := u])
  {
  }

  /** Changing a row without changing its email keeps emails unique. */
  lemma UpdateKeepsUnique(t: Table, id: UserId, u: User)
    requires id in t && t[id].email == u.email
    ensures EmailsUnique(t[id := u])
  {
  }

  /** The signup password rule of this file: length at least 8 and the four
      character classes, with no maximum, space or word check. */
  function SignupPasswordIssues(p: string): seq<string> {
    (if Utf16Length(p) < MinPasswordLength then [TooShort] else [])
    + (if !HasUpper(p) then [NoUpper] else [])
    + (if !HasLower(p) then [NoLower] else [])
    + (if !HasDigit(p) then [NoDigit] else [])
    + (if !HasSpecial(p) then [NoSpecial] else [])
  }

  predicate SignupPasswordAccepted(p: string) {
    SignupPasswordIssues(p) == []
  }

  lemma SignupPasswordAcceptedIff(p: string)
    ensures SignupPasswordAccepted(p) <==>
      MinPasswordLength <= Utf16Length(p) && HasUpper(p) && HasLower(p) && HasDigit(p) && HasSpecial(p)
  {
  }

  /** Every password `src/lib/schemas.ts` accepts is accepted here, and not the other
      way round: a password with a space passes this rule and fails that one. */
  lemma SignupRuleStrictlyWeaker(p: string)
    ensures PasswordAccepted(p) ==> SignupPasswordAccepted(p)
    ensures SignupPasswordAccepted("Abcd 123!") && !PasswordAccepted("Abcd 123!")
  {
    PasswordAcceptedIff(p);
    SignupPasswordAcceptedIff(p);
    var w := "Abcd 123!";
    assert IsUpper(w[0]) && IsLower(w[1]) && IsDigit(w[5]) && IsSpecial(w[8]);
    assert w[4] == ' ';
    PasswordAcceptedIff(w);
    SignupPasswordAcceptedIff(w);
  }

  /** `insertUserchema`: the signup body `{ email, password }`. */
  predicate SignupInputValid(isEmail: string -> bool, email: string, password: string) {
    isEmail(email) && SignupPasswordAccepted(password)
  }

  /** `loginUserchema`: the login body `{ email, password }`; only the email format is checked. */
  predicate LoginInputValid(isEmail: string -> bool, email: string, password: string) {
    isEmail(email)
  }

  /** Login input validity never depends on the password, and login accepts with
      a well-formed email a password that the signup shape refuses. */
  lemma LoginInputIgnoresPassword(isEmail: string -> bool, email: string, p: string, q: string)
    ensures LoginInputValid(isEmail, email, p) == LoginInputValid(isEmail, email, q)
    ensures isEmail(email) ==> LoginInputValid(isEmail, email, "") && !SignupInputValid(isEmail, email, "")
  {
    assert !SignupPasswordAccepted("") by {
      assert SignupPasswordIssues("")[0] == TooShort;
    }
  }

  /** `selectUserSchema`: the user as it leaves the service. */
  datatype SanitizedUser = SanitizedUser(id: UserId, email: string)

  /** `loginUserchemaResponse`: the sanitised user extended with the login token. */
  datatype LoginResponse = LoginResponse(id: UserId, email: string, token: string)

  function SelectUser(id: UserId, u: User): (v: SanitizedUser)
    ensures v.id == id && v.email == u.email
  {
    SanitizedUser(id, u.email)
  }

  function LoginView(id: UserId, u: User, token: string): (v: LoginResponse)
    ensures SanitizedUser(v.id, v.email) == SelectUser(id, u) && v.token == token
  {
    LoginResponse(id, u.email, token)
  }

  /** The sanitised views reveal nothing but id and email: two rows with the same
      email give the same view whatever their password, flags and tokens. */
  lemma ViewsHideSecrets(id: UserId, u: User, w: User, token: string)
    requires u.email == w.email
    ensures SelectUser(id, u) == SelectUser(id, w)
    ensures LoginView(id, u, token) == LoginView(id, w, token)
  {
  }
}
