/** The authentication middleware of `internal/middleware/auth.go`. Token verification
    (`ValidateToken`, JWT over HMAC-SHA256) is not part of this model: the gate takes it as an
    uninterpreted function from the token string to its verdict. */
module Auth {
  import opened Common
  import opened Http
  import Text

  /** The identity the gate stores in the request context (`ContextKey`). */
  datatype ContextKey = ContextKey(userId: Uuid, username: string)

  /** The request context as the handlers and `NewItem`/`NewPost` read it: the identity stored
      under `UserContextKey`, if any. */
  datatype Context = Context(user: Option<ContextKey>)

  /** The context holds an identity whose username is `username` (the handlers' ownership
      test against the `username` path segment). */
  predicate PathIsCaller(ctx: Context, username: string)
  {
    ctx.user.Some? && ctx.user.value.username == username
  }

  /** `UserValidation`, the verdict of `ValidateToken`. */
  datatype Validation = Validation(token: string, id: Uuid, username: string, err: Option<string>)

  /** What the gate does with a request: answer it with a 401, or call the wrapped handler once
      with the given context. */
  datatype Gate = Reject(resp: Response) | Next(ctx: Context)

  const BearerPrefix := "Bearer "

  /** The token the gate hands to the validator: the header with one leading "Bearer " removed. */
  function TokenOf(header: string): string
  {
    Text.TrimPrefix(header, BearerPrefix)
  }

  /** `Auth(next)` applied to a request with `Authorization` header `header` and context `ctx`.
      The wrapped handler runs iff the header is non-empty, the token left after the prefix is
      non-empty and the validator accepts it; it then sees exactly the validated id and username.
      Every other request gets a 401 whose message names the first check that failed. */
  function Auth(header: string, validate: string -> Validation, ctx: Context): (g: Gate)
    ensures g.Next? <==> header != "" && TokenOf(header) != "" && validate(TokenOf(header)).err.None?
    ensures g.Next? ==> g.ctx == ctx.(user := Some(ContextKey(validate(TokenOf(header)).id,
                                                              validate(TokenOf(header)).username)))
    ensures g.Reject? ==> g.resp.Body? && g.resp.status == StatusUnauthorized
    ensures header == "" ==> g == Reject(Body(StatusUnauthorized, "Missing auth header", None))
    ensures header != "" && TokenOf(header) == "" ==>
              g == Reject(Body(StatusUnauthorized, "Invalid Authorization header format", None))
    ensures header != "" && TokenOf(header) != "" && validate(TokenOf(header)).err.Some? ==>
              g == Reject(Body(StatusUnauthorized, "Invalid or expired token", validate(TokenOf(header)).err))
  {
    if header == "" then
      Reject(Body(StatusUnauthorized, "Missing auth header", None))
    else
      var token := TokenOf(header);
      if token == "" then
        Reject(Body(StatusUnauthorized, "Invalid Authorization header format", None))
      else
        var validation := validate(token);
        if validation.err.Some? then
          Reject(Body(StatusUnauthorized, "Invalid or expired token", validation.err))
        else
          Next(ctx.(user := Some(ContextKey(validation.id, validation.username))))
  }

  /** A header that does not start with "Bearer " reaches the validator unchanged, and the
      header "Bearer " alone is the one non-empty header left with no token. */
  lemma TokenExtraction(header: string)
    ensures !Text.HasPrefix(header, BearerPrefix) ==> TokenOf(header) == header
    ensures Text.HasPrefix(header, BearerPrefix) ==> BearerPrefix + TokenOf(header) == header
    ensures header != "" ==> (TokenOf(header) == "" <==> header == BearerPrefix)
  {
    if header != "" && TokenOf(header) == "" && Text.HasPrefix(header, BearerPrefix) {
      assert BearerPrefix + "" == BearerPrefix;
    }
  }
}
