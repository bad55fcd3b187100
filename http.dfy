/** The HTTP surface the handlers and middlewares produce: status codes, phrases,
    response bodies and the pass-or-reject outcome of a middleware. */
module Http {
  import opened UserSchema

  const OK := 200
  const CREATED := 201
  const NO_CONTENT := 204
  const BAD_REQUEST := 400
  const UNAUTHORIZED := 401
  const FORBIDDEN := 403
  const NOT_FOUND := 404
  const TOO_MANY_REQUESTS := 429
  const INTERNAL_SERVER_ERROR := 500

  /** The phrases the handlers send as `message` for bare status errors. */
  const BadRequestPhrase := "Bad Request"
  const UnauthorizedPhrase := "Unauthorized"
  const NotFoundPhrase := "Not Found"
  const InternalServerErrorPhrase := "Internal Server Error"

  /** A response body: nothing, `{ message }`, a sanitised user, or a login response. */
  datatype Body =
    | Empty
    | Message(text: string)
    | UserBody(user: SanitizedUser)
    | LoginBody(login: LoginResponse)

  datatype Reply = Reply(status: int, body: Body)

  /** A middleware either calls `next()` (carrying what it publishes with `c.set`)
      or answers the request itself. */
  datatype Gate<+T> = Next(value: T) | Reject(reply: Reply)

  /** A JSON request body as a middleware reads it with `c.req.json()`: unparsable,
      the value `null`, or any other value, whose `email` member is a string or
      absent (for a value that is not an object it is absent). */
  datatype RequestBody = Unparsable | Null | Json(email: Wrappers.Option<string>)
}

/** The email check both `verifyUserStatus` and `rateLimit` run on their JSON body
    before anything else. */
module RequestEmail {
  import opened Wrappers
  import opened Http

  const InvalidBody := "Invalid or missing JSON body"
  const EmailRequired := "Email is required"
  const InvalidEmail := "Invalid email format"

  /** The body's `email` when it parses, is present and non-empty, and passes the
      email format check `isEmail`; otherwise the reply the request gets. Reading
      `email` of `null` throws outside the middleware's `try`, and the application's
      error handler answers 500; every other refusal is the middleware's 400. */
  function RequiredEmail(body: RequestBody, isEmail: string -> bool): (r: Result<string, Reply>)
    ensures r.Success? <==> body.Json? && body.email.Some? && body.email.value != "" && isEmail(body.email.value)
    ensures r.Success? ==> r.value == body.email.value
    ensures r.Failure? ==> r.error.status == (if body.Null? then INTERNAL_SERVER_ERROR else BAD_REQUEST)
  {
    match body
    case Unparsable => Failure(Reply(BAD_REQUEST, Message(InvalidBody)))
    case Null => Failure(Reply(INTERNAL_SERVER_ERROR, Message(InternalServerErrorPhrase)))
    case Json(email) =>
      if email.None? || email.value == "" then Failure(Reply(BAD_REQUEST, Message(EmailRequired)))
      else if !isEmail(email.value) then Failure(Reply(BAD_REQUEST, Message(InvalidEmail)))
      else Success(email.value)
  }
}
