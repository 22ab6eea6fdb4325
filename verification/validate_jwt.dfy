/** src/routes/login/validate_jwt.rs: the JWT login flow `validate_jwt`,
    which issues the two carriers, and the carrier resolver `check_token`,
    which turns the carriers of a request into one of four outcomes. */
module ValidateJwt {
  import opened Wrappers
  import Http
  import Errors
  import AuthJwt

  /** The resolver's four outcomes. */
  datatype CheckJwtToken =
    | Guest
    | AccessValid(email: string)
    | RefreshValid(email: string, accessCookie: Http.Cookie, refreshCookie: Http.Cookie)
    | InvalidToken

  /** The refresh-token operations of the service. They are called by the
      handlers but defined outside this model, so they are parameters:
      reading the refresh carrier of a request, verifying a refresh token,
      creating one for an email, and rotating one. */
  datatype RefreshOps = RefreshOps(
    extract: Http.Request -> Option<string>,
    verify: string -> Result<AuthJwt.RefreshTokenClaims, AuthJwt.JwtError>,
    create: string -> Result<string, AuthJwt.JwtError>,
    rotate: string -> Result<string, AuthJwt.JwtError>)

  /** The role every token minted here carries. */
  const AdminRole: Option<string> := Some("admin")

  /** Panic texts of the `.expect` calls on minting. */
  const LoginAccessPanic := "Failed to load jwt(access)"
  const LoginRefreshPanic := "Faile to loat jwt(refresh)"
  const ResolverAccessPanic := "Faile to loat jwt(access)"
  const ResolverRefreshPanic := "Faile to load jwt(refresh)"

  /** The access carrier: session-wide path, 15 minutes, not readable by
      scripts, sent on top-level cross-site navigation. */
  function AccessCookie(token: string): Http.Cookie {
    Http.Cookie("access_token", token, "/", 15 * 60, true, false, Http.Lax)
  }

  /** The refresh carrier: 7 days, not readable by scripts, HTTPS only,
      never sent cross-site. */
  function RefreshCookie(token: string): Http.Cookie {
    Http.Cookie("refresh_token", token, "/", 7 * 24 * 60 * 60, true, true, Http.Strict)
  }

  /** `login_redirect` of src/routes/login/process.rs: a 401 whose JSON body
      names the error and points the client at `/home`. */
  function LoginRedirect(e: Errors.ApiError): (r: Http.Response)
    ensures r.status == 401 && r.location.None? && r.flash.None?
    ensures r.body.ErrorJson? && r.body.redirect == "/home"
  {
    Http.Response(Http.Unauthorized, None, None, Http.ErrorJson(Errors.Message(e), "/home"))
  }

  /** Two login errors get the same answer exactly when they are the same
      variant: the answer carries the variant's text and nothing of its cause. */
  lemma LoginRedirectIdentifiesVariant(a: Errors.ApiError, b: Errors.ApiError)
    ensures LoginRedirect(a) == LoginRedirect(b) <==> Errors.SameVariant(a, b)
  {
    Errors.MessageIdentifiesVariant(a, b);
  }

  // ---------------------------------------------------------------------
  // check_token
  // ---------------------------------------------------------------------

  /** Step 2 of `check_token`: try the refresh carrier. On success mint a new
      access token for the refresh claims' email, rotate the refresh token,
      and hand both back as cookies. */
  function TryRefresh(req: Http.Request, svc: AuthJwt.JwtService, codec: AuthJwt.Codec, now: nat, ops: RefreshOps)
    : AuthJwt.Run<Result<CheckJwtToken, AuthJwt.JwtError>>
  {
    match ops.extract(req)
    case None => AuthJwt.Run(Return(Success(Guest)), [])
    case Some(rt) =>
      match ops.verify(rt)
      // expired, bad signature, invalid or anything else: all the same outcome
      case Failure(_) => AuthJwt.Run(Return(Success(InvalidToken)), [AuthJwt.VerifyRefresh(rt)])
      case Success(claims) =>
        var minted := [AuthJwt.VerifyRefresh(rt), AuthJwt.MintAccess(claims.email, AdminRole)];
        match AuthJwt.CreateAccessToken(svc, codec, claims.email, AdminRole, now)
        case Failure(_) => AuthJwt.Run(Panic(ResolverAccessPanic), minted)
        case Success(access) =>
          match ops.rotate(rt)
          case Failure(_) => AuthJwt.Run(Panic(ResolverRefreshPanic), minted + [AuthJwt.Rotate(rt)])
          case Success(refresh) =>
            AuthJwt.Run(Return(Success(RefreshValid(claims.email, AccessCookie(access), RefreshCookie(refresh)))),
                        minted + [AuthJwt.Rotate(rt)])
  }

  /** `check_token`: a verifying access carrier wins; an expired one falls
      through to the refresh carrier; any other access failure stops with
      `InvalidToken`; with no carrier at all the request is a guest. It never
      returns `Err`; it can only panic when minting fails. */
  function CheckToken(req: Http.Request, svc: AuthJwt.JwtService, codec: AuthJwt.Codec, now: nat, ops: RefreshOps)
    : (r: AuthJwt.Run<Result<CheckJwtToken, AuthJwt.JwtError>>)
    ensures r.exit.Return? ==> r.exit.value.Success?
    ensures r.exit.Panic? ==> r.exit.message in {ResolverAccessPanic, ResolverRefreshPanic}
  {
    match AuthJwt.ExtractAccessToken(req)
    case None => TryRefresh(req, svc, codec, now, ops)
    case Some(t) =>
      match AuthJwt.VerifyAccessToken(svc, codec, t, now)
      case Success(claims) => AuthJwt.Run(Return(Success(AccessValid(claims.email))), [AuthJwt.VerifyAccess(t)])
      case Failure(e) =>
        if e.ExpiredToken? then
          var rest := TryRefresh(req, svc, codec, now, ops);
          AuthJwt.Run(rest.exit, [AuthJwt.VerifyAccess(t)] + rest.calls)
        else if e.InvalidSignature? || e.InvalidToken? then
          AuthJwt.Run(Return(Success(InvalidToken)), [AuthJwt.VerifyAccess(t)])
        else
          AuthJwt.Run(Return(Success(InvalidToken)), [AuthJwt.VerifyAccess(t)])
  }

  /** The access carrier of `req` was absent, or present and expired: the
      requests on which `check_token` reaches the refresh carrier. */
  predicate AccessAbsentOrExpired(req: Http.Request, svc: AuthJwt.JwtService, codec: AuthJwt.Codec, now: nat) {
    match AuthJwt.ExtractAccessToken(req)
    case None => true
    case Some(t) => AuthJwt.VerifyAccessToken(svc, codec, t, now) == Failure(AuthJwt.ExpiredToken)
  }

  /** A verifying access carrier yields `AccessValid` with its claims' email,
      and the refresh carrier is never consulted. */
  lemma AccessCarrierWins(req: Http.Request, svc: AuthJwt.JwtService, codec: AuthJwt.Codec, now: nat, ops: RefreshOps,
                          t: string, claims: AuthJwt.AccessTokenClaims)
    requires AuthJwt.ExtractAccessToken(req) == Some(t)
    requires AuthJwt.VerifyAccessToken(svc, codec, t, now) == Success(claims)
    ensures CheckToken(req, svc, codec, now, ops) == AuthJwt.Run(Return(Success(AccessValid(claims.email))), [AuthJwt.VerifyAccess(t)])
  {
  }

  /** An expired access carrier falls through to the refresh carrier: the
      outcome is the refresh step's, after the one access verification; with
      no refresh carrier it is `Guest`, not `InvalidToken`. */
  lemma ExpiredAccessFallsThrough(req: Http.Request, svc: AuthJwt.JwtService, codec: AuthJwt.Codec, now: nat, ops: RefreshOps,
                                  t: string)
    requires AuthJwt.ExtractAccessToken(req) == Some(t)
    requires AuthJwt.VerifyAccessToken(svc, codec, t, now) == Failure(AuthJwt.ExpiredToken)
    ensures CheckToken(req, svc, codec, now, ops).exit == TryRefresh(req, svc, codec, now, ops).exit
    ensures CheckToken(req, svc, codec, now, ops).calls == [AuthJwt.VerifyAccess(t)] + TryRefresh(req, svc, codec, now, ops).calls
    ensures ops.extract(req).None? ==> CheckToken(req, svc, codec, now, ops) == AuthJwt.Run(Return(Success(Guest)), [AuthJwt.VerifyAccess(t)])
  {
  }

  /** Any access failure other than expiry stops at once with
      `InvalidToken`: no refresh verification, no minting, no rotation. */
  lemma BadAccessCarrierStops(req: Http.Request, svc: AuthJwt.JwtService, codec: AuthJwt.Codec, now: nat, ops: RefreshOps,
                              t: string, e: AuthJwt.JwtError)
    requires AuthJwt.ExtractAccessToken(req) == Some(t)
    requires AuthJwt.VerifyAccessToken(svc, codec, t, now) == Failure(e)
    requires !e.ExpiredToken?
    ensures CheckToken(req, svc, codec, now, ops) == AuthJwt.Run(Return(Success(InvalidToken)), [AuthJwt.VerifyAccess(t)])
  {
  }

  /** When the refresh carrier is reached and verifies, the outcome is
      `RefreshValid` for the refresh claims' email, with a new access token
      minted for that email with role `admin` and the rotated refresh token. */
  lemma RefreshCarrierRenews(req: Http.Request, svc: AuthJwt.JwtService, codec: AuthJwt.Codec, now: nat, ops: RefreshOps,
                             rt: string, claims: AuthJwt.RefreshTokenClaims, access: string, refresh: string)
    requires AccessAbsentOrExpired(req, svc, codec, now)
    requires ops.extract(req) == Some(rt)
    requires ops.verify(rt) == Success(claims)
    requires AuthJwt.CreateAccessToken(svc, codec, claims.email, Some("admin"), now) == Success(access)
    requires ops.rotate(rt) == Success(refresh)
    ensures CheckToken(req, svc, codec, now, ops).exit
            == Return(Success(RefreshValid(claims.email, AccessCookie(access), RefreshCookie(refresh))))
    ensures AuthJwt.MintAccess(claims.email, Some("admin")) in CheckToken(req, svc, codec, now, ops).calls
    ensures AuthJwt.Rotate(rt) in CheckToken(req, svc, codec, now, ops).calls
  {
    var r := CheckToken(req, svc, codec, now, ops);
    var tail := TryRefresh(req, svc, codec, now, ops).calls;
    assert tail == [AuthJwt.VerifyRefresh(rt), AuthJwt.MintAccess(claims.email, AdminRole), AuthJwt.Rotate(rt)];
    assert r.calls[|r.calls| - 1] == AuthJwt.Rotate(rt);
    assert r.calls[|r.calls| - 2] == AuthJwt.MintAccess(claims.email, AdminRole);
  }

  /** When the refresh carrier is reached and fails to verify, for whatever
      reason, the outcome is `InvalidToken` and nothing is minted or rotated. */
  lemma BadRefreshCarrierRejected(req: Http.Request, svc: AuthJwt.JwtService, codec: AuthJwt.Codec, now: nat, ops: RefreshOps,
                                  rt: string, e: AuthJwt.JwtError)
    requires AccessAbsentOrExpired(req, svc, codec, now)
    requires ops.extract(req) == Some(rt)
    requires ops.verify(rt) == Failure(e)
    ensures CheckToken(req, svc, codec, now, ops).exit == Return(Success(InvalidToken))
    ensures forall c :: c in CheckToken(req, svc, codec, now, ops).calls ==> c.VerifyAccess? || c.VerifyRefresh?
  {
  }

  /** No carrier at all: `Guest`, and nothing is called. */
  lemma NoCarrierIsGuest(req: Http.Request, svc: AuthJwt.JwtService, codec: AuthJwt.Codec, now: nat, ops: RefreshOps)
    requires AuthJwt.ExtractAccessToken(req).None?
    requires ops.extract(req).None?
    ensures CheckToken(req, svc, codec, now, ops) == AuthJwt.Run(Return(Success(Guest)), [])
  {
  }

  /** The resolver authenticates only what verified: an `AccessValid` email
      is the email of the verified access claims, and a `RefreshValid` email
      is the email of the verified refresh claims, reached only when the
      access carrier was absent or expired. Conversely it is `Guest` only
      when no carrier was usable or present. */
  lemma ResolverAuthenticatesOnlyVerified(req: Http.Request, svc: AuthJwt.JwtService, codec: AuthJwt.Codec, now: nat,
                                          ops: RefreshOps, email: string)
    ensures CheckToken(req, svc, codec, now, ops).exit == Return(Success(AccessValid(email))) ==>
              AuthJwt.ExtractAccessToken(req).Some?
              && AuthJwt.VerifyAccessToken(svc, codec, AuthJwt.ExtractAccessToken(req).value, now).Success?
              && AuthJwt.VerifyAccessToken(svc, codec, AuthJwt.ExtractAccessToken(req).value, now).value.email == email
    ensures (CheckToken(req, svc, codec, now, ops).exit.Return?
             && CheckToken(req, svc, codec, now, ops).exit.value.value.RefreshValid?
             && CheckToken(req, svc, codec, now, ops).exit.value.value.email == email) ==>
              AccessAbsentOrExpired(req, svc, codec, now)
              && ops.extract(req).Some?
              && ops.verify(ops.extract(req).value).Success?
              && ops.verify(ops.extract(req).value).value.email == email
    ensures CheckToken(req, svc, codec, now, ops).exit == Return(Success(Guest)) <==>
              AccessAbsentOrExpired(req, svc, codec, now) && ops.extract(req).None?
  {
  }

  /** Minting and rotation happen only after the refresh carrier verified,
      and only for that carrier's email and token. */
  lemma MintingNeedsVerifiedRefresh(req: Http.Request, svc: AuthJwt.JwtService, codec: AuthJwt.Codec, now: nat,
                                    ops: RefreshOps, c: AuthJwt.Call)
    requires c in CheckToken(req, svc, codec, now, ops).calls
    requires c.MintAccess? || c.Rotate? || c.MintRefresh?
    ensures AccessAbsentOrExpired(req, svc, codec, now)
    ensures ops.extract(req).Some? && ops.verify(ops.extract(req).value).Success?
    ensures c.MintAccess? ==> c == AuthJwt.MintAccess(ops.verify(ops.extract(req).value).value.email, Some("admin"))
    ensures c.Rotate? ==> c == AuthJwt.Rotate(ops.extract(req).value)
    ensures !c.MintRefresh?
  {
  }

  // ---------------------------------------------------------------------
  // validate_jwt
  // ---------------------------------------------------------------------

  /** What the JWT login ends in: both carriers issued for an email (the
      handler then renders that user's page with them), or an error answered
      by `login_redirect`. */
  datatype LoginJwt =
    | Issued(email: string, accessCookie: Http.Cookie, refreshCookie: Http.Cookie)
    | Rejected(response: Http.Response, error: Errors.ApiError)

  /** The email lookup: a query error, no row, or the row's email and
      password hash. */
  type EmailLookup = Result<Option<(string, string)>, Errors.ErrorValue>

  /** The password check run on the blocking pool, for a stored hash and the
      submitted password: the outer failure is the task's join error, the
      inner result is `verify_password_hash`'s. */
  type PasswordCheck = (string, string) -> Result<Result<(), Errors.ApiError>, Errors.ErrorValue>

  /** A rejected login: `login_redirect(e)` carrying `e`. */
  function Reject(e: Errors.ApiError, calls: seq<AuthJwt.Call>): AuthJwt.Run<LoginJwt> {
    AuthJwt.Run(Return(Rejected(LoginRedirect(e), e)), calls)
  }

  /** `validate_jwt`: look up the submitted email, check the password, then
      mint an access token (role `admin`) and a refresh token for the
      submitted email and issue them as cookies. */
  function ValidateJwtLogin(email: string, password: string, svc: AuthJwt.JwtService, codec: AuthJwt.Codec, now: nat,
                            lookup: EmailLookup, checkPassword: PasswordCheck, ops: RefreshOps)
    : (r: AuthJwt.Run<LoginJwt>)
    ensures r.exit.Return? && r.exit.value.Rejected? ==> r.exit.value.response == LoginRedirect(r.exit.value.error)
    ensures r.exit.Return? && r.exit.value.Issued? ==>
              r.exit.value.email == email && lookup.Success? && lookup.value.Some?
              && checkPassword(lookup.value.value.1, password).Success?
              && checkPassword(lookup.value.value.1, password).value.Success?
    ensures r.exit.Panic? ==> r.exit.message in {LoginAccessPanic, LoginRefreshPanic}
    ensures r.exit.Panic? || (r.exit.Return? && r.exit.value.Issued?) <==>
              lookup.Success? && lookup.value.Some? && checkPassword(lookup.value.value.1, password).Success?
              && checkPassword(lookup.value.value.1, password).value.Success?
  {
    match lookup
    case Failure(e) => Reject(Errors.UnexpectError(e), [])
    case Success(None) => Reject(Errors.AuthError(Errors.ErrorValue("No such user", None)), [])
    case Success(Some(row)) =>
      var checked := [AuthJwt.CheckPassword(row.1)];
      match checkPassword(row.1, password)
      case Failure(join) => Reject(Errors.JoinError(join), checked)
      case Success(Failure(e)) => Reject(e, checked)
      case Success(Success(_)) =>
        var mintedAccess := checked + [AuthJwt.MintAccess(email, AdminRole)];
        match AuthJwt.CreateAccessToken(svc, codec, email, AdminRole, now)
        case Failure(_) => AuthJwt.Run(Panic(LoginAccessPanic), mintedAccess)
        case Success(access) =>
          var mintedBoth := mintedAccess + [AuthJwt.MintRefresh(email)];
          match ops.create(email)
          case Failure(_) => AuthJwt.Run(Panic(LoginRefreshPanic), mintedBoth)
          case Success(refresh) =>
            AuthJwt.Run(Return(Issued(email, AccessCookie(access), RefreshCookie(refresh))), mintedBoth)
  }

  /** Tokens are minted, and carriers issued, only after the lookup found a
      row and the password check for that row's hash succeeded; they are
      issued for the submitted email. */
  lemma TokensOnlyAfterPasswordCheck(email: string, password: string, svc: AuthJwt.JwtService, codec: AuthJwt.Codec,
                                     now: nat, lookup: EmailLookup, checkPassword: PasswordCheck, ops: RefreshOps)
    ensures var r := ValidateJwtLogin(email, password, svc, codec, now, lookup, checkPassword, ops);
            ((r.exit.Return? && r.exit.value.Issued?) || AuthJwt.MintAccess(email, AdminRole) in r.calls
             || AuthJwt.MintRefresh(email) in r.calls)
            ==> lookup.Success? && lookup.value.Some?
                && checkPassword(lookup.value.value.1, password).Success?
                && checkPassword(lookup.value.value.1, password).value.Success?
    ensures var r := ValidateJwtLogin(email, password, svc, codec, now, lookup, checkPassword, ops);
            r.exit.Return? && r.exit.value.Issued? ==>
              r.exit.value.email == email
              && AuthJwt.CreateAccessToken(svc, codec, email, Some("admin"), now).Success?
              && r.exit.value.accessCookie == AccessCookie(AuthJwt.CreateAccessToken(svc, codec, email, Some("admin"), now).value)
              && ops.create(email).Success?
              && r.exit.value.refreshCookie == RefreshCookie(ops.create(email).value)
  {
  }

  /** An unknown email, a failed query or a failed password check is
      answered by a 401 redirecting to `/home`, and no token is created. */
  lemma FailedLoginIssuesNothing(email: string, password: string, svc: AuthJwt.JwtService, codec: AuthJwt.Codec,
                                 now: nat, lookup: EmailLookup, checkPassword: PasswordCheck, ops: RefreshOps)
    requires lookup.Failure? || lookup.value.None? || checkPassword(lookup.value.value.1, password).Failure?
             || checkPassword(lookup.value.value.1, password).value.Failure?
    ensures var r := ValidateJwtLogin(email, password, svc, codec, now, lookup, checkPassword, ops);
            r.exit.Return? && r.exit.value.Rejected?
            && r.exit.value.response.status == 401
            && r.exit.value.response.body == Http.ErrorJson(Errors.Message(r.exit.value.error), "/home")
            && forall c :: c in r.calls ==> c.CheckPassword?
    ensures lookup.Success? && lookup.value.None? ==>
              ValidateJwtLogin(email, password, svc, codec, now, lookup, checkPassword, ops).exit.value.error.AuthError?
    ensures lookup.Failure? ==>
              ValidateJwtLogin(email, password, svc, codec, now, lookup, checkPassword, ops).exit.value.error
              == Errors.UnexpectError(lookup.error)
  {
  }

  /** The carriers issued at login and on the refresh path carry the same
      attributes and differ only in the token they hold. */
  lemma SameCarriersOnBothPaths(email: string, password: string, svc: AuthJwt.JwtService, codec: AuthJwt.Codec,
                                now: nat, lookup: EmailLookup, checkPassword: PasswordCheck, ops: RefreshOps,
                                req: Http.Request, later: nat)
    requires ValidateJwtLogin(email, password, svc, codec, now, lookup, checkPassword, ops).exit.Return?
    requires ValidateJwtLogin(email, password, svc, codec, now, lookup, checkPassword, ops).exit.value.Issued?
    requires CheckToken(req, svc, codec, later, ops).exit.Return?
    requires CheckToken(req, svc, codec, later, ops).exit.value.value.RefreshValid?
    ensures var login := ValidateJwtLogin(email, password, svc, codec, now, lookup, checkPassword, ops).exit.value;
            var renew := CheckToken(req, svc, codec, later, ops).exit.value.value;
            login.accessCookie.(value := "") == renew.accessCookie.(value := "")
            && login.refreshCookie.(value := "") == renew.refreshCookie.(value := "")
            && login.accessCookie == Http.Cookie("access_token", login.accessCookie.value, "/", 900, true, false, Http.Lax)
            && login.refreshCookie == Http.Cookie("refresh_token", login.refreshCookie.value, "/", 604800, true, true, Http.Strict)
  {
  }
}
