/** `home_session` and `home_jwt` of src/routes/login/home.rs: which page the
    home route shows for a session or an access-token cookie. */
module Home {
  import opened Wrappers
  import AuthJwt
  import Http
  import SessionGate
  import Errors

  /** The home route either renders the guest page, looks up and renders the
      page of one user, answers 401 for a token that did not verify, or
      answers 500 when the guest template failed to render. */
  datatype HomeOutcome = GuestPage | ShowUser(email: string) | Unauthorized(error: AuthJwt.JwtError) | RenderFailed

  /** The guest page, or a 500 if the template failed to render. */
  function Guest(rendered: bool): HomeOutcome {
    if rendered then GuestPage else RenderFailed
  }

  /** `session.get_email().unwrap_or(None).unwrap_or_default()`: a read
      error and a missing email both become the empty string. */
  function SessionEmail(session: SessionGate.SessionRead): string {
    match session
    case Success(Some(email)) => email
    case _ => ""
  }

  /** `home_session`. */
  function HomeSession(session: SessionGate.SessionRead, rendered: bool): (r: HomeOutcome)
    ensures r.ShowUser? <==> session.Success? && session.value.Some? && session.value.value != ""
    ensures r.ShowUser? ==> r.email == session.value.value
    ensures !r.ShowUser? ==> r == Guest(rendered)
  {
    var email := SessionEmail(session);
    if |email| == 0 then Guest(rendered) else ShowUser(email)
  }

  /** `home_jwt`: no access cookie is a guest; a cookie that does not verify,
      expired or not, is a 401 (there is no refresh step here); a verifying
      one shows the user of its claims. */
  function HomeJwt(req: Http.Request, svc: AuthJwt.JwtService, codec: AuthJwt.Codec, now: nat, rendered: bool)
    : (r: AuthJwt.Run<HomeOutcome>)
    ensures r.exit.Return?
    ensures r.exit.value.ShowUser? ==>
              AuthJwt.ExtractAccessToken(req).Some?
              && AuthJwt.VerifyAccessToken(svc, codec, AuthJwt.ExtractAccessToken(req).value, now).Success?
              && AuthJwt.VerifyAccessToken(svc, codec, AuthJwt.ExtractAccessToken(req).value, now).value.email == r.exit.value.email
    ensures r.exit.value.Unauthorized? <==>
              AuthJwt.ExtractAccessToken(req).Some?
              && AuthJwt.VerifyAccessToken(svc, codec, AuthJwt.ExtractAccessToken(req).value, now).Failure?
    ensures forall c :: c in r.calls ==> c.VerifyAccess?
  {
    match AuthJwt.ExtractAccessToken(req)
    case None => AuthJwt.Run(Return(Guest(rendered)), [])
    case Some(t) =>
      match AuthJwt.VerifyAccessToken(svc, codec, t, now)
      case Failure(e) => AuthJwt.Run(Return(Unauthorized(e)), [AuthJwt.VerifyAccess(t)])
      case Success(claims) => AuthJwt.Run(Return(ShowUser(claims.email)), [AuthJwt.VerifyAccess(t)])
  }

  /** The guest page is shown for a session read error, a missing email and
      an empty email alike. */
  lemma HomeSessionGuestCases(e: Errors.ErrorValue)
    ensures HomeSession(Failure(e), true) == GuestPage
    ensures HomeSession(Success(None), true) == GuestPage
    ensures HomeSession(Success(Some("")), true) == GuestPage
  {
  }

  /** `home_jwt` decided: without a cookie nothing is verified and the guest
      page shows; otherwise the cookie's token alone is verified once, any
      failure (expiry included) is a 401 with that error and no refresh
      carrier is tried, and success shows the claims' user. */
  lemma HomeJwtDecision(req: Http.Request, svc: AuthJwt.JwtService, codec: AuthJwt.Codec, now: nat, rendered: bool)
    ensures var r := HomeJwt(req, svc, codec, now, rendered);
            r.exit.Return?
            && (AuthJwt.ExtractAccessToken(req).None? ==> r.exit.value == Guest(rendered) && r.calls == [])
            && (AuthJwt.ExtractAccessToken(req).Some? ==>
                  var v := AuthJwt.VerifyAccessToken(svc, codec, AuthJwt.ExtractAccessToken(req).value, now);
                  r.calls == [AuthJwt.VerifyAccess(AuthJwt.ExtractAccessToken(req).value)]
                  && (v.Failure? ==> r.exit.value == Unauthorized(v.error))
                  && (v.Success? ==> r.exit.value == ShowUser(v.value.email)))
  {
  }
}
