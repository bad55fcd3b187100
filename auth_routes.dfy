/**
 * The middleware wiring of `src/routes/auth/auth.routes.ts`: resend is limited to
 * three requests per five minutes per raw email, login is preceded by
 * `verifyUserStatus` and `getUser` by `authenticate`.
 */
module AuthRoutes {
  import opened Wrappers
  import opened Text
  import opened UserSchema
  import opened Jwt
  import opened Http
  import opened RequestEmail
  import opened Authenticate
  import opened RateLimit
  import opened AuthHandlers

  const ResendLimit := 3
  const ResendWindowMs := 5 * 60 * 1000

  /** POST /auth/resend-verification-email: the limiter, then `sendVerificationEmail`. */
  method ResendVerificationEmailRoute(limiter: RateLimiter, store: UserStore, body: RequestBody, nowMs: int)
    returns (reply: Reply)
    requires store.Valid()
    modifies limiter, store
    ensures store.Valid()
    ensures old(WithinLimit(limiter.store, ResendLimit)) ==> WithinLimit(limiter.store, ResendLimit)
    ensures RequiredEmail(body, store.oracles.isEmail).Failure? ==>
              && reply == RequiredEmail(body, store.oracles.isEmail).error
              && limiter.store == old(limiter.store) && store.users == old(store.users)
    ensures RequiredEmail(body, store.oracles.isEmail).Success? ==>
              var email := body.email.value;
              var key := Key(email);
              var bucket := if key in old(limiter.store) then Some(old(limiter.store)[key]) else None;
              var verdict := Consume(bucket, ResendLimit, ResendWindowMs, nowMs);
              var found := FindByEmail(old(store.users), Normalize(email));
              && limiter.store == old(limiter.store)[key := verdict.1]
              && (reply.status == TOO_MANY_REQUESTS <==> !verdict.0)
              && (!verdict.0 ==>
                    reply == Reply(TOO_MANY_REQUESTS, Message("Rate limit exceeded")) && store.users == old(store.users))
              && (verdict.0 && found.None? ==>
                    reply == Reply(NOT_FOUND, Message("User not found")) && store.users == old(store.users))
              && (verdict.0 && found.Some? && old(store.users)[found.value].verified ==>
                    reply == Reply(BAD_REQUEST, Message("Email is already verified")) && store.users == old(store.users))
              && (verdict.0 && found.Some? && !old(store.users)[found.value].verified ==>
                    && reply == Reply(OK, Message("Verification email sent"))
                    && store.users == old(store.users)[found.value := old(store.users)[found.value].(verificationToken :=
                                         Some(store.oracles.sign(VerificationClaims(found.value, nowMs))))])
    ensures reply.status in {OK, BAD_REQUEST, NOT_FOUND, TOO_MANY_REQUESTS, INTERNAL_SERVER_ERROR}
  {
    var gate := limiter.RateLimit(ResendLimit, ResendWindowMs, body, store.oracles.isEmail, nowMs);
    if gate.Reject? {
      return gate.reply;
    }
    reply := store.SendVerificationEmail(gate.value, nowMs);
  }

  /** POST /auth/login: `verifyUserStatus` looks the trimmed, lower-cased email up,
      `login` the raw one. An email that is not already normalised passes the gate
      for its account and is then not found. */
  method LoginRoute(store: UserStore, body: RequestBody, password: string, nowMs: int, jti: string)
    returns (reply: Reply)
    requires store.Valid()
    ensures VerifyUserStatus(body, store.oracles.isEmail, store.users).Reject? ==>
              reply == VerifyUserStatus(body, store.oracles.isEmail, store.users).reply
    ensures VerifyUserStatus(body, store.oracles.isEmail, store.users).Next? ==>
              if Normalized(body.email.value) then reply.status in {OK, UNAUTHORIZED}
              else reply.status == NOT_FOUND
    ensures reply.status == OK ==>
              && reply.body.LoginBody? && reply.body.login.id in store.users
              && store.users[reply.body.login.id].verified
              && store.users[reply.body.login.id].email == body.email.value
    ensures VerifyUserStatus(body, store.oracles.isEmail, store.users).Next? && Normalized(body.email.value) ==>
              (reply.status == OK <==>
                 exists id | id in store.users ::
                   store.users[id].email == body.email.value && store.oracles.compare(password, store.users[id].password))
    ensures reply.status == OK ==>
              reply.body.login == LoginView(reply.body.login.id, store.users[reply.body.login.id],
                                            store.oracles.sign(LoginClaims(reply.body.login.id, nowMs, jti)))
  {
    var gate := VerifyUserStatus(body, store.oracles.isEmail, store.users);
    if gate.Reject? {
      return gate.reply;
    }
    var email := body.email.value;
    if Normalized(email) {
      NormalizedIff(email);
    }
    reply := store.Login(email, password, nowMs, jti);
  }

  /** GET /auth/user/{id}: `authenticate`, then `getUser` for the published caller.
      Only the verified subject of a valid token reads its own record, and the
      handler's not-found answer cannot occur behind the gate. */
  method GetUserRoute(store: UserStore, header: Option<string>, id: UserId, nowMs: int)
    returns (reply: Reply)
    requires store.Valid()
    ensures Authenticate.Authenticate(header, store.oracles.verify, nowMs, store.users).Reject? ==>
              reply == Authenticate.Authenticate(header, store.oracles.verify, nowMs, store.users).reply
    ensures reply.status == OK ==>
              && SubjectOf(header, store.oracles.verify, nowMs, id)
              && id in store.users && store.users[id].verified
              && reply.body == UserBody(SelectUser(id, store.users[id]))
    ensures reply.status == OK <==>
              SubjectOf(header, store.oracles.verify, nowMs, id) && id in store.users && store.users[id].verified
    ensures reply.status != NOT_FOUND
    ensures Authenticate.Authenticate(header, store.oracles.verify, nowMs, store.users).Next?
            && Authenticate.Authenticate(header, store.oracles.verify, nowMs, store.users).value.0 != id ==>
              reply == Reply(FORBIDDEN, Message("Forbidden: You are not allowed to access this resource"))
  {
    var gate := Authenticate.Authenticate(header, store.oracles.verify, nowMs, store.users);
    if gate.Reject? {
      return gate.reply;
    }
    reply := store.GetUser(gate.value.0, id);
  }

  /** The resend limit on the verdicts alone: three requests in a window pass, the fourth is refused, and
      the first request after the window closes passes again. */
  lemma ResendLimitScenario()
    ensures Replay(None, ResendLimit, ResendWindowMs, [0, 1000, 2000, 3000, 300000])
            == [true, true, true, false, true]
  {
    var times := [0, 1000, 2000, 3000, 300000];
    var r := Replay(None, ResendLimit, ResendWindowMs, times);
    FreshWindowAdmitsLimit(ResendLimit, ResendWindowMs, 0, [1000, 2000, 3000]);
    assert r[..4] == Replay(None, ResendLimit, ResendWindowMs, times[..4]) by {
      ReplayPrefix(None, ResendLimit, ResendWindowMs, times, 4);
    }
  }

  /** The example account's email in three pieces, before and after lowering:
      only the first two pieces carry an upper-case letter. */
  lemma ExampleEmailPieces()
    ensures "User@Example.com" == "User@" + "Examp" + "le.com"
    ensures "user@example.com" == "user@" + "examp" + "le.com"
    ensures ToLower("User@") == "user@" && ToLower("Examp") == "examp" && ToLower("le.com") == "le.com"
  {
  }

  /** The example account's email, normalised. */
  lemma ExampleEmailNormalizes()
    ensures Normalize("User@Example.com") == "user@example.com"
  {
    TrimOfTrimmed("User@Example.com");
    ExampleEmailPieces();
    ToLowerAppend("User@" + "Examp", "le.com");
    ToLowerAppend("User@", "Examp");
  }

  /** Sign up on an empty store, follow the verification link and follow it again:
      the account is created, verified once, and the replayed link finds no holder. */
  method SignupVerifyReplay(o: Oracles, email: string, password: string, id: UserId, salt: nat,
                            signupMs: int, verifyMs: int)
    returns (store: UserStore, created: Reply, verified: Reply, replayed: Reply)
    requires SignerInjective(o.sign)
    requires o.verify(o.sign(VerificationClaims(id, signupMs)), verifyMs).Success?
    ensures fresh(store) && store.Valid() && store.oracles == o
    ensures store.users == map[id := NewUser(Normalize(email), o.hash(password, salt)).(verified := true)]
    ensures created == Reply(CREATED, UserBody(SanitizedUser(id, Normalize(email))))
    ensures verified == Reply(NO_CONTENT, Empty)
    ensures replayed == Reply(NOT_FOUND, Message("User not found"))
  {
    store := new UserStore(o);
    created := store.Signup(email, password, id, salt, signupMs, true);
    var link := o.sign(VerificationClaims(id, signupMs));
    assert HoldsVerificationToken(store.users, link);
    verified := store.VerifyEmail(link, verifyMs);
    replayed := store.VerifyEmail(link, verifyMs);
  }

  /** Sign up, verify, replay the link, then log in through the route with the
      stored form of the email. The hypotheses are what the oracles must do: accept
      the link's token when it is followed, accept the password against its own
      digest, and accept the stored email, which must not be empty, as an email. */
  method SignupVerifyLoginScenario(o: Oracles, email: string, password: string, id: UserId, salt: nat,
                                   signupMs: int, verifyMs: int, loginMs: int, jti: string)
    returns (created: Reply, verified: Reply, replayed: Reply, loggedIn: Reply)
    requires SignerInjective(o.sign)
    requires o.verify(o.sign(VerificationClaims(id, signupMs)), verifyMs).Success?
    requires o.compare(password, o.hash(password, salt))
    requires Normalize(email) != "" && o.isEmail(Normalize(email))
    ensures created == Reply(CREATED, UserBody(SanitizedUser(id, Normalize(email))))
    ensures verified == Reply(NO_CONTENT, Empty)
    ensures replayed == Reply(NOT_FOUND, Message("User not found"))
    ensures loggedIn == Reply(OK, LoginBody(LoginResponse(id, Normalize(email), o.sign(LoginClaims(id, loginMs, jti)))))
  {
    var store;
    store, created, verified, replayed := SignupVerifyReplay(o, email, password, id, salt, signupMs, verifyMs);
    var stored := Normalize(email);
    NormalizedIff(email);
    assert store.users.Keys == {id} && store.users[id].email == stored && store.users[id].verified;
    NormalizedIff(stored);
    var body := Json(Some(stored));
    assert RequiredEmail(body, o.isEmail) == Success(stored);
    assert VerifyUserStatus(body, o.isEmail, store.users).Next?;
    assert o.compare(password, store.users[id].password);
    loggedIn := LoginRoute(store, body, password, loginMs, jti);
    assert loggedIn.status == OK && loggedIn.body.login.id == id;
  }

  /** Sign up, then ask to resend the link at once: the request is served and opens
      a window of five minutes. */
  method SignupThenResend(o: Oracles, email: string, password: string, id: UserId, salt: nat)
    returns (limiter: RateLimiter, store: UserStore, first: Reply)
    requires SignerInjective(o.sign)
    requires email != "" && o.isEmail(email)
    ensures fresh(limiter) && fresh(store)
    ensures first == Reply(OK, Message("Verification email sent"))
    ensures limiter.store == map[Key(email) := Entry(1, ResendWindowMs)]
    ensures store.Valid() && store.oracles == o && store.users.Keys == {id}
    ensures store.users[id].email == Normalize(email) && !store.users[id].verified
  {
    store := new UserStore(o);
    var created := store.Signup(email, password, id, salt, 0, true);
    limiter := new RateLimiter();
    first := ResendVerificationEmailRoute(limiter, store, Json(Some(email)), 0);
  }

  /** A resend inside a live window that still has room is served and counted.
      The account is the only one and is still unverified. */
  method ResendInWindow(limiter: RateLimiter, store: UserStore, email: string, ghost id: UserId,
                        count: int, nowMs: int)
    returns (reply: Reply)
    requires store.Valid() && email != "" && store.oracles.isEmail(email)
    requires store.users.Keys == {id} && store.users[id].email == Normalize(email) && !store.users[id].verified
    requires limiter.store == map[Key(email) := Entry(count, ResendWindowMs)]
    requires count < ResendLimit && nowMs < ResendWindowMs
    modifies limiter, store
    ensures reply == Reply(OK, Message("Verification email sent"))
    ensures limiter.store == map[Key(email) := Entry(count + 1, ResendWindowMs)]
    ensures store.Valid() && store.users.Keys == {id}
    ensures store.users[id].email == Normalize(email) && !store.users[id].verified
  {
    var body := Json(Some(email));
    ghost var users := store.users;
    ghost var token := store.oracles.sign(VerificationClaims(id, nowMs));
    assert RequiredEmail(body, store.oracles.isEmail).Success?;
    assert FindByEmail(users, Normalize(email)) == Some(id);
    assert Consume(Some(Entry(count, ResendWindowMs)), ResendLimit, ResendWindowMs, nowMs)
        == (true, Entry(count + 1, ResendWindowMs));
    reply := ResendVerificationEmailRoute(limiter, store, body, nowMs);
    assert store.users == users[id := users[id].(verificationToken := Some(token))];
  }

  /** Two more resends within the window: both are served, and the bucket is full. */
  method SignupThenThreeResends(o: Oracles, email: string, password: string, id: UserId, salt: nat)
    returns (limiter: RateLimiter, store: UserStore, first: Reply, second: Reply, third: Reply)
    requires SignerInjective(o.sign)
    requires email != "" && o.isEmail(email)
    ensures fresh(limiter) && fresh(store)
    ensures first == second == third == Reply(OK, Message("Verification email sent"))
    ensures limiter.store == map[Key(email) := Entry(ResendLimit, ResendWindowMs)]
    ensures store.Valid() && store.oracles == o && store.users.Keys == {id}
    ensures store.users[id].email == Normalize(email) && !store.users[id].verified
  {
    limiter, store, first := SignupThenResend(o, email, password, id, salt);
    second := ResendInWindow(limiter, store, email, id, 1, 1000);
    third := ResendInWindow(limiter, store, email, id, 2, 2000);
  }

  /** Sign up, then ask to resend the link four times within five minutes and once
      more when the window has closed: three resends and the late one are served,
      the fourth is refused. */
  method ResendBurstScenario(o: Oracles, email: string, password: string, id: UserId, salt: nat)
    returns (first: Reply, second: Reply, third: Reply, fourth: Reply, later: Reply)
    requires SignerInjective(o.sign)
    requires email != "" && o.isEmail(email)
    ensures first == second == third == later == Reply(OK, Message("Verification email sent"))
    ensures fourth == Reply(TOO_MANY_REQUESTS, Message("Rate limit exceeded"))
  {
    var limiter, store;
    limiter, store, first, second, third := SignupThenThreeResends(o, email, password, id, salt);
    var body := Json(Some(email));
    fourth := ResendVerificationEmailRoute(limiter, store, body, 3000);
    assert limiter.store == map[Key(email) := Entry(ResendLimit, ResendWindowMs)];
    assert store.users.Keys == {id} && store.users[id].email == Normalize(email) && !store.users[id].verified;
    later := ResendVerificationEmailRoute(limiter, store, body, 300000);
  }
}
