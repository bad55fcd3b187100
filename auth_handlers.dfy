/**
 * The route handlers of `src/routes/auth/auth.handlers.ts` as methods of a user
 * store. Every handler is a lookup, a branch and single-row updates keyed by `id`,
 * answered with a status code.
 *
 * bcrypt, `hono/jwt` and zod's email check are the oracles of an Oracles value
 * fixed when the store is made. The random salt, `crypto.randomUUID()`, the
 * clock `Date.now()` and the outcome of the mail send are method inputs.
 */
module AuthHandlers {
  import opened Wrappers
  import opened Text
  import opened UserSchema
  import opened Jwt
  import opened Http

  /** The foreign operations the handlers call. */
  datatype Oracles = Oracles(
    hash: (string, nat) -> string,      // bcrypt `hash(password, 10)` with the salt it draws
    compare: (string, string) -> bool,  // bcrypt `compare(password, hashed)`
    sign: Signer,                       // `sign(payload, JWT_SECRET)`
    verify: Verifier,                   // `verify(token, JWT_SECRET)` at a clock reading
    isEmail: string -> bool)            // zod `.email()`

  /** `token` was signed for a payload whose subject is `id`. */
  ghost predicate IssuedFor(sign: Signer, token: Option<string>, id: UserId) {
    token.Some? ==> exists c :: sign(c) == token.value && c.sub == Some(id)
  }

  /** What every row keeps: a normalised email, no pending verification token once
      verified, and each stored token issued for the row's own id. */
  ghost predicate RowOk(sign: Signer, id: UserId, u: User) {
    && Normalized(u.email)
    && (u.verified ==> u.verificationToken.None?)
    && IssuedFor(sign, u.verificationToken, id)
    && IssuedFor(sign, u.passwordResetToken, id)
  }

  ghost predicate TableOk(sign: Signer, t: map<UserId, User>) {
    forall id | id in t :: RowOk(sign, id, t[id])
  }

  /** `findFirst` with `eq(fields.verificationToken, token)` finds a row. */
  predicate HoldsVerificationToken(t: Table, token: string) {
    exists id | id in t :: t[id].verificationToken == Some(token)
  }

  /** `findFirst` with `eq(fields.passwordResetToken, token)` finds a row. */
  predicate HoldsResetToken(t: Table, token: string) {
    exists id | id in t :: t[id].passwordResetToken == Some(token)
  }

  /** Stored tokens name their owner, so no two rows hold the same token. */
  lemma HolderUnique(sign: Signer, t: Table, a: UserId, b: UserId, token: string)
    requires SignerInjective(sign) && TableOk(sign, t)
    requires a in t && b in t
    requires (t[a].verificationToken == Some(token) && t[b].verificationToken == Some(token))
          || (t[a].passwordResetToken == Some(token) && t[b].passwordResetToken == Some(token))
    ensures a == b
  {
    assert RowOk(sign, a, t[a]) && RowOk(sign, b, t[b]);
  }

  /** Setting row `id` to a row that keeps its own invariant keeps the table invariant. */
  lemma SetKeepsTableOk(sign: Signer, t: map<UserId, User>, id: UserId, u: User)
    requires TableOk(sign, t) && RowOk(sign, id, u)
    ensures TableOk(sign, t[id := u])
  {
  }

  /** The row `signup` inserts, before any token is stored. */
  function NewUser(email: string, digest: string): (u: User)
    ensures !u.verified && u.verificationToken.None? && u.passwordResetToken.None?
  {
    User(email, digest, false, None, None)
  }

  class UserStore {
    var users: Table
    const oracles: Oracles

    ghost predicate Valid()
      reads this
    {
      SignerInjective(oracles.sign) && TableOk(oracles.sign, users)
    }

    constructor (oracles: Oracles)
      requires SignerInjective(oracles.sign)
      ensures Valid() && users == map[] && this.oracles == oracles
    {
      this.oracles := oracles;
      users := map[];
    }

    /** Replaces row `id` with `u`, which keeps its email and the row invariant. */
    method UpdateRow(id: UserId, u: User)
      requires Valid() && id in users && users[id].email == u.email && RowOk(oracles.sign, id, u)
      modifies this
      ensures Valid() && users == old(users)[id := u]
    {
      UpdateKeepsUnique(users, id, u);
      SetKeepsTableOk(oracles.sign, users, id, u);
      users := users[id := u];
    }

    /** Adds row `id` with `u`, whose email no row has yet. */
    method InsertRow(id: UserId, u: User)
      requires Valid() && id !in users && RowOk(oracles.sign, id, u)
      requires FindByEmail(users, u.email).None?
      modifies this
      ensures Valid() && users == old(users)[id := u]
    {
      InsertKeepsUnique(users, id, u);
      SetKeepsTableOk(oracles.sign, users, id, u);
      users := users[id := u];
    }

    /** The insert of `signup` followed by its token update: row `id` is added
        unverified, then holds `token` (`null` after a failed send). */
    method InsertWithToken(id: UserId, u: User, token: Option<string>)
      requires Valid() && id !in users && FindByEmail(users, u.email).None?
      requires RowOk(oracles.sign, id, u) && !u.verified && IssuedFor(oracles.sign, token, id)
      modifies this
      ensures Valid() && users == old(users)[id := u.(verificationToken := token)]
    {
      InsertRow(id, u);
      UpdateRow(id, users[id].(verificationToken := token));
    }

    /** `signup`. */
    method Signup(email: string, password: string, newId: UserId, salt: nat, nowMs: int, sendOk: bool)
      returns (reply: Reply)
      requires Valid()
      modifies this
      ensures Valid()
      ensures FindByEmail(old(users), Normalize(email)).Some? ==>
                reply == Reply(BAD_REQUEST, Message(BadRequestPhrase)) && users == old(users)
      ensures FindByEmail(old(users), Normalize(email)).None? && newId in old(users) ==>
                reply == Reply(INTERNAL_SERVER_ERROR, Message(InternalServerErrorPhrase)) && users == old(users)
      ensures FindByEmail(old(users), Normalize(email)).None? && newId !in old(users) ==>
                var token := oracles.sign(VerificationClaims(newId, nowMs));
                && users == old(users)[newId := NewUser(Normalize(email), oracles.hash(password, salt))
                                                  .(verificationToken := if sendOk then Some(token) else None)]
                && reply == (if sendOk then Reply(CREATED, UserBody(SanitizedUser(newId, Normalize(email))))
                             else Reply(INTERNAL_SERVER_ERROR, Message("Error sending verification email")))
    {
      var normalizedEmail := Normalize(email);
      if FindByEmail(users, normalizedEmail).Some? {
        return Reply(BAD_REQUEST, Message(BadRequestPhrase));
      }
      var hashedPassword := oracles.hash(password, salt);
      if newId in users {
        // the insert violates the primary key and throws; nothing catches it
        return Reply(INTERNAL_SERVER_ERROR, Message(InternalServerErrorPhrase));
      }
      NormalizedIff(email);
      var verificationToken := oracles.sign(VerificationClaims(newId, nowMs));
      assert IssuedFor(oracles.sign, Some(verificationToken), newId) by {
        assert VerificationClaims(newId, nowMs).sub == Some(newId);
      }
      var sanitizedUser := SelectUser(newId, NewUser(normalizedEmail, hashedPassword));
      InsertWithToken(newId, NewUser(normalizedEmail, hashedPassword),
                      if sendOk then Some(verificationToken) else None);
      if !sendOk {
        return Reply(INTERNAL_SERVER_ERROR, Message("Error sending verification email"));
      }
      return Reply(CREATED, UserBody(sanitizedUser));
    }

    /** `verifyEmail`. A success clears the token, so no row holds it afterwards. */
    method VerifyEmail(token: string, nowMs: int) returns (reply: Reply)
      requires Valid()
      modifies this
      ensures Valid()
      ensures VerifyJwt(oracles.verify, token, nowMs).None? ==>
                reply == Reply(UNAUTHORIZED, Message("Invalid or expired token")) && users == old(users)
      ensures VerifyJwt(oracles.verify, token, nowMs).Some? && !HoldsVerificationToken(old(users), token) ==>
                reply == Reply(NOT_FOUND, Message("User not found")) && users == old(users)
      ensures VerifyJwt(oracles.verify, token, nowMs).Some? && HoldsVerificationToken(old(users), token) ==>
                && reply == Reply(NO_CONTENT, Empty)
                && exists id | id in old(users) && old(users)[id].verificationToken == Some(token) ::
                     users == old(users)[id := old(users)[id].(verified := true, verificationToken := None)]
      ensures reply.status == NO_CONTENT ==> !HoldsVerificationToken(users, token)
      ensures reply.status == NO_CONTENT ==>
                exists id | id in old(users) && old(users)[id].verificationToken == Some(token) ::
                  !old(users)[id].verified && id in users && users[id].verified
    {
      var payload := VerifyJwt(oracles.verify, token, nowMs);
      if payload.None? {
        return Reply(UNAUTHORIZED, Message("Invalid or expired token"));
      }
      if !HoldsVerificationToken(users, token) {
        return Reply(NOT_FOUND, Message("User not found"));
      }
      var id :| id in users && users[id].verificationToken == Some(token);
      ghost var before := users;
      UpdateRow(id, users[id].(verified := true, verificationToken := None));
      forall other | other in users
        ensures users[other].verificationToken != Some(token)
      {
        if other != id && users[other].verificationToken == Some(token) {
          HolderUnique(oracles.sign, before, id, other, token);
        }
      }
      return Reply(NO_CONTENT, Empty);
    }

    /** `sendVerificationEmail`: its mail call is commented out, so it only issues and stores. */
    method SendVerificationEmail(email: string, nowMs: int) returns (reply: Reply)
      requires Valid()
      modifies this
      ensures Valid()
      ensures FindByEmail(old(users), Normalize(email)).None? ==>
                reply == Reply(NOT_FOUND, Message("User not found")) && users == old(users)
      ensures FindByEmail(old(users), Normalize(email)).Some? ==>
                var id := FindByEmail(old(users), Normalize(email)).value;
                if old(users)[id].verified then
                  reply == Reply(BAD_REQUEST, Message("Email is already verified")) && users == old(users)
                else
                  && reply == Reply(OK, Message("Verification email sent"))
                  && users == old(users)[id := old(users)[id].(verificationToken :=
                                                 Some(oracles.sign(VerificationClaims(id, nowMs))))]
    {
      var normalizedEmail := Normalize(email);
      var found := FindByEmail(users, normalizedEmail);
      if found.None? {
        return Reply(NOT_FOUND, Message("User not found"));
      }
      var id := found.value;
      if users[id].verified {
        return Reply(BAD_REQUEST, Message("Email is already verified"));
      }
      var verificationToken := oracles.sign(VerificationClaims(id, nowMs));
      assert IssuedFor(oracles.sign, Some(verificationToken), id) by {
        assert VerificationClaims(id, nowMs).sub == Some(id);
      }
      UpdateRow(id, users[id].(verificationToken := Some(verificationToken)));
      return Reply(OK, Message("Verification email sent"));
    }

    /** `sendPasswordResetEmail`. A failed send clears `verificationToken`, as written. */
    method SendPasswordResetEmail(email: string, nowMs: int, sendOk: bool) returns (reply: Reply)
      requires Valid()
      modifies this
      ensures Valid()
      ensures FindByEmail(old(users), Normalize(email)).None? ==>
                reply == Reply(NO_CONTENT, Empty) && users == old(users)
      ensures FindByEmail(old(users), Normalize(email)).Some? ==>
                var id := FindByEmail(old(users), Normalize(email)).value;
                if sendOk then
                  && reply == Reply(NO_CONTENT, Empty)
                  && users == old(users)[id := old(users)[id].(passwordResetToken :=
                                                 Some(oracles.sign(VerificationClaims(id, nowMs))))]
                else
                  && reply == Reply(INTERNAL_SERVER_ERROR, Message("Error sending password reset email"))
                  && users == old(users)[id := old(users)[id].(verificationToken := None)]
    {
      var normalizedEmail := Normalize(email);
      var found := FindByEmail(users, normalizedEmail);
      if found.None? {
        return Reply(NO_CONTENT, Empty);
      }
      var id := found.value;
      var passwordResetToken := oracles.sign(VerificationClaims(id, nowMs));
      if sendOk {
        assert IssuedFor(oracles.sign, Some(passwordResetToken), id) by {
          assert VerificationClaims(id, nowMs).sub == Some(id);
        }
        UpdateRow(id, users[id].(passwordResetToken := Some(passwordResetToken)));
      } else {
        UpdateRow(id, users[id].(verificationToken := None));
        return Reply(INTERNAL_SERVER_ERROR, Message("Error sending password reset email"));
      }
      return Reply(NO_CONTENT, Empty);
    }

    /** `resetPassword`: matches on the stored reset token only; the token's signature
        and expiry are never checked. */
    method ResetPassword(token: string, newPassword: string, salt: nat) returns (reply: Reply)
      requires Valid()
      modifies this
      ensures Valid()
      ensures !HoldsResetToken(old(users), token) ==>
                reply == Reply(UNAUTHORIZED, Message("Invalid or expired token")) && users == old(users)
      ensures HoldsResetToken(old(users), token) ==>
                && reply == Reply(OK, Message("Password successfully updated"))
                && exists id | id in old(users) && old(users)[id].passwordResetToken == Some(token) ::
                     users == old(users)[id := old(users)[id].(password := oracles.hash(newPassword, salt),
                                                               passwordResetToken := None)]
      ensures reply.status == OK ==> !HoldsResetToken(users, token)
    {
      if !HoldsResetToken(users, token) {
        return Reply(UNAUTHORIZED, Message("Invalid or expired token"));
      }
      var id :| id in users && users[id].passwordResetToken == Some(token);
      var hashedPassword := oracles.hash(newPassword, salt);
      ghost var before := users;
      UpdateRow(id, users[id].(password := hashedPassword, passwordResetToken := None));
      forall other | other in users
        ensures users[other].passwordResetToken != Some(token)
      {
        if other != id && users[other].passwordResetToken == Some(token) {
          HolderUnique(oracles.sign, before, id, other, token);
        }
      }
      return Reply(OK, Message("Password successfully updated"));
    }

    /** `login`: looks the email up exactly as given, without normalising it. */
    method Login(email: string, password: string, nowMs: int, jti: string) returns (reply: Reply)
      requires Valid()
      ensures reply.status in {OK, UNAUTHORIZED, NOT_FOUND}
      ensures reply.status == NOT_FOUND <==> forall id | id in users :: users[id].email != email
      ensures reply.status == NOT_FOUND ==> reply == Reply(NOT_FOUND, Message(NotFoundPhrase))
      ensures reply.status == UNAUTHORIZED ==> reply == Reply(UNAUTHORIZED, Message(UnauthorizedPhrase))
      ensures reply.status == OK <==>
                exists id | id in users :: users[id].email == email && oracles.compare(password, users[id].password)
      ensures reply.status == OK ==>
                && reply.body.LoginBody?
                && reply.body.login.id in users
                && reply.body.login == LoginView(reply.body.login.id, users[reply.body.login.id],
                                                 oracles.sign(LoginClaims(reply.body.login.id, nowMs, jti)))
                && users[reply.body.login.id].email == email
      ensures !Normalized(email) ==> reply.status == NOT_FOUND
    {
      var found := FindByEmail(users, email);
      if found.None? {
        return Reply(NOT_FOUND, Message(NotFoundPhrase));
      }
      var id := found.value;
      var isValidPassword := oracles.compare(password, users[id].password);
      if !isValidPassword {
        return Reply(UNAUTHORIZED, Message(UnauthorizedPhrase));
      }
      var token := oracles.sign(LoginClaims(id, nowMs, jti));
      assert RowOk(oracles.sign, id, users[id]);
      return Reply(OK, LoginBody(LoginView(id, users[id], token)));
    }

    /** `getUser` for the caller `callerId` that `authenticate` published. */
    method GetUser(callerId: UserId, id: UserId) returns (reply: Reply)
      ensures callerId != id ==>
                reply == Reply(FORBIDDEN, Message("Forbidden: You are not allowed to access this resource"))
      ensures callerId == id && id !in users ==> reply == Reply(NOT_FOUND, Message(NotFoundPhrase))
      ensures callerId == id && id in users ==> reply == Reply(OK, UserBody(SelectUser(id, users[id])))
    {
      if callerId != id {
        return Reply(FORBIDDEN, Message("Forbidden: You are not allowed to access this resource"));
      }
      if id !in users {
        return Reply(NOT_FOUND, Message(NotFoundPhrase));
      }
      return Reply(OK, UserBody(SelectUser(id, users[id])));
    }
  }
}
