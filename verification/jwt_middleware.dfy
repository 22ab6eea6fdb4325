/** `jwt_auth_middleware` of src/auth/middleware/jwt_middleware.rs: a
    three-way gate over the access token of the cookie-based service. */
module JwtMiddleware {
  import opened Wrappers
  import Http
  import AuthJwt
  import BearerJwt

  /** Why the gate answered 401. */
  datatype Rejection = MissingToken | BadToken(error: AuthJwt.JwtError)

  /** The gate either answers 401, or stores the verified claims in the
      request extensions and calls the next handler once. */
  datatype GateOutcome = Unauthorized(reason: Rejection) | Next(claims: AuthJwt.AccessTokenClaims)

  /** The 401 text when no token could be extracted. */
  const MissingTokenMessage := "Missing or invalid Authoriztion header"

  /** The 401 answer for a rejection. The display text of a verification
      error comes from the token library, so it is a parameter. */
  function RejectionResponse(reason: Rejection, errorText: AuthJwt.JwtError -> string): Http.Response {
    match reason
    case MissingToken => Http.Response(Http.Unauthorized, None, None, Http.PlainText(MissingTokenMessage))
    case BadToken(e) => Http.Response(Http.Unauthorized, None, None, Http.PlainText("Invalid token: " + errorText(e)))
  }

  /** `jwt_auth_middleware`: extract the token from the `access_token` cookie,
      verify it, and pass the claims on. */
  function JwtAuthMiddleware(svc: AuthJwt.JwtService, codec: AuthJwt.Codec, now: nat, req: Http.Request)
    : (r: AuthJwt.Run<GateOutcome>)
    ensures r.exit.Return?
    ensures r.exit.value.Next? ==>
              AuthJwt.ExtractAccessToken(req).Some?
              && AuthJwt.VerifyAccessToken(svc, codec, AuthJwt.ExtractAccessToken(req).value, now) == Success(r.exit.value.claims)
    ensures r.exit.value == Unauthorized(MissingToken) <==> AuthJwt.ExtractAccessToken(req).None?
    ensures r.exit.value.Unauthorized? && r.exit.value.reason.BadToken? ==>
              AuthJwt.ExtractAccessToken(req).Some?
              && AuthJwt.VerifyAccessToken(svc, codec, AuthJwt.ExtractAccessToken(req).value, now) == Failure(r.exit.value.reason.error)
  {
    match AuthJwt.ExtractAccessToken(req)
    case None => AuthJwt.Run(Return(Unauthorized(MissingToken)), [])
    case Some(token) =>
      match AuthJwt.VerifyAccessToken(svc, codec, token, now)
      case Failure(e) => AuthJwt.Run(Return(Unauthorized(BadToken(e))), [AuthJwt.VerifyAccess(token)])
      case Success(claims) => AuthJwt.Run(Return(Next(claims)), [AuthJwt.VerifyAccess(token)])
  }

  /** The next handler runs exactly when a token was extracted and verified,
      and then with exactly the verified claims; otherwise the answer is a
      401 saying which step failed. */
  lemma GateDecision(svc: AuthJwt.JwtService, codec: AuthJwt.Codec, now: nat, req: Http.Request,
                     errorText: AuthJwt.JwtError -> string)
    ensures var r := JwtAuthMiddleware(svc, codec, now, req);
            r.exit.Return?
            && (r.exit.value.Next? <==>
                  AuthJwt.ExtractAccessToken(req).Some?
                  && AuthJwt.VerifyAccessToken(svc, codec, AuthJwt.ExtractAccessToken(req).value, now).Success?)
            && (r.exit.value.Next? ==>
                  r.exit.value.claims == AuthJwt.VerifyAccessToken(svc, codec, AuthJwt.ExtractAccessToken(req).value, now).value)
            && (AuthJwt.ExtractAccessToken(req).None? ==> r.exit.value == Unauthorized(MissingToken))
            && (r.exit.value.Unauthorized? ==> RejectionResponse(r.exit.value.reason, errorText).status == 401)
  {
  }

  /** Verification is applied once, and only to the token the cookie-based
      extraction returned. */
  lemma VerifiesOnlyExtractedToken(svc: AuthJwt.JwtService, codec: AuthJwt.Codec, now: nat, req: Http.Request)
    ensures var r := JwtAuthMiddleware(svc, codec, now, req);
            |r.calls| <= 1
            && forall c :: c in r.calls ==>
                 AuthJwt.ExtractAccessToken(req).Some? && c == AuthJwt.VerifyAccess(AuthJwt.ExtractAccessToken(req).value)
  {
  }

  /** The gate reads the cookie, not the header: a request whose only
      token is an `Authorization: Bearer` header is rejected as missing. */
  lemma BearerHeaderIsNotRead(svc: AuthJwt.JwtService, codec: AuthJwt.Codec, now: nat, t: string)
    requires BearerJwt.IsVisibleText(t)
    ensures BearerJwt.IsVisibleText(BearerJwt.BearerPrefix + t)
    ensures var req := Http.Request([], [Http.Header("Authorization", BearerJwt.Encode(BearerJwt.BearerPrefix + t))]);
            BearerJwt.ExtractAccessToken(req) == Some(t)
            && JwtAuthMiddleware(svc, codec, now, req) == AuthJwt.Run(Return(Unauthorized(MissingToken)), [])
  {
    BearerJwt.BearerHeaderRoundTrip(t, []);
  }
}
