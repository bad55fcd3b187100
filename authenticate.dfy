/**
 * The two request gates of `src/middlewares/authenticate.ts`. Each is an ordered
 * chain of checks over read-only lookups; the first failing check answers the
 * request. Being functions of the table, neither gate can change it.
 */
module Authenticate {
  import opened Wrappers
  import opened Text
  import opened UserSchema
  import opened Jwt
  import opened Http
  import opened RequestEmail

  const BearerPrefix := "Bearer "

  /** `authHeader.split(" ")[1]` for a header that starts with "Bearer ": the text
      after the first space, up to the second space or the end. */
  function BearerToken(header: string): (t: string)
    requires StartsWith(header, BearerPrefix)
    ensures t == PieceBefore(header[|BearerPrefix|..], ' ')
    ensures ' ' !in t && StartsWith(header[|BearerPrefix|..], t)
  {
    assert "Bearer" + [' '] == BearerPrefix;
    SplitSecondPiece(header, "Bearer", ' ');
    Split(header, ' ')[1]
  }

  /** The header carries a token that verifies at `nowMs` and names a non-empty subject. */
  predicate SubjectOf(header: Option<string>, verify: Verifier, nowMs: int, id: UserId) {
    && header.Some? && StartsWith(header.value, BearerPrefix)
    && VerifyJwt(verify, BearerToken(header.value), nowMs).Some?
    && VerifyJwt(verify, BearerToken(header.value), nowMs).value.sub == Some(id)
    && id != ""
  }

  /** `authenticate`: publishes the user whose id is the token's subject. */
  function Authenticate(header: Option<string>, verify: Verifier, nowMs: int, users: Table)
    : (r: Gate<(UserId, User)>)
    ensures header.None? || !StartsWith(header.value, BearerPrefix) ==>
              r == Reject(Reply(UNAUTHORIZED, Message(UnauthorizedPhrase)))
    ensures r.Next? <==>
              exists id | id in users :: SubjectOf(header, verify, nowMs, id) && users[id].verified
    ensures r.Next? ==> SubjectOf(header, verify, nowMs, r.value.0)
                        && r.value.0 in users && r.value.1 == users[r.value.0]
    ensures r.Reject? ==> r.reply.status == UNAUTHORIZED || r.reply.status == FORBIDDEN
    ensures r.Reject? && r.reply.status == FORBIDDEN <==>
              exists id :: SubjectOf(header, verify, nowMs, id) && (id !in users || !users[id].verified)
  {
    if header.None? || !StartsWith(header.value, BearerPrefix) then
      Reject(Reply(UNAUTHORIZED, Message(UnauthorizedPhrase)))
    else
      var payload := VerifyJwt(verify, BearerToken(header.value), nowMs);
      if payload.None? then
        Reject(Reply(UNAUTHORIZED, Message("Invalid or expired token")))
      else if payload.value.sub.None? || payload.value.sub.value == "" then
        Reject(Reply(UNAUTHORIZED, Message("Invalid token payload")))
      else
        var id := payload.value.sub.value;
        assert SubjectOf(header, verify, nowMs, id);
        if id !in users then
          Reject(Reply(FORBIDDEN, Message("Forbidden: User not found")))
        else if !users[id].verified then
          Reject(Reply(FORBIDDEN, Message("Forbidden: Email not verified")))
        else
          Next((id, users[id]))
  }

  /** `verifyUserStatus`: lets the request through only for a verified account whose
      stored email is the trimmed, lower-cased body email. */
  function VerifyUserStatus(body: RequestBody, isEmail: string -> bool, users: Table): (r: Gate<()>)
    ensures RequiredEmail(body, isEmail).Failure? ==> r == Reject(RequiredEmail(body, isEmail).error)
    ensures r.Next? <==>
              && RequiredEmail(body, isEmail).Success?
              && exists id | id in users ::
                   users[id].email == Normalize(body.email.value) && users[id].verified
    ensures r.Reject? && r.reply.status == NOT_FOUND <==>
              && RequiredEmail(body, isEmail).Success?
              && forall id | id in users :: users[id].email != Normalize(body.email.value)
    ensures r.Reject? && r.reply.status == FORBIDDEN <==>
              && RequiredEmail(body, isEmail).Success?
              && exists id | id in users ::
                   users[id].email == Normalize(body.email.value) && !users[id].verified
    ensures RequiredEmail(body, isEmail).Success? && r.Reject? ==> r.reply.status in {NOT_FOUND, FORBIDDEN}
    ensures r.Reject? ==> r.reply.status in {BAD_REQUEST, NOT_FOUND, FORBIDDEN, INTERNAL_SERVER_ERROR}
  {
    match RequiredEmail(body, isEmail)
    case Failure(reply) => Reject(reply)
    case Success(email) =>
      match FindByEmail(users, Normalize(email))
      case None => Reject(Reply(NOT_FOUND, Message("User not found")))
      case Some(id) =>
        if !users[id].verified then Reject(Reply(FORBIDDEN, Message("Forbidden: Email not verified")))
        else Next(())
  }
}
