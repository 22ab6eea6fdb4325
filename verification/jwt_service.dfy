/** `JwtService` of src/auth/jwt/jwt_service.rs: access-claim construction,
    the abstract token codec, and extraction of the access token from the
    `access_token` cookie. */
module AuthJwt {
  import opened Wrappers
  import Http

  /** Why a token did not verify. The kinds the resolver tells apart are
      named; everything else is `OtherError`. */
  datatype JwtError = ExpiredToken | InvalidSignature | InvalidToken | OtherError(detail: string)

  /** The claims carried by an access token; `exp` and `iat` are Unix
      seconds. */
  datatype AccessTokenClaims = AccessTokenClaims(email: string, exp: nat, iat: nat, role: Option<string>)

  /** The claims of a refresh token, as far as the handlers read them. */
  datatype RefreshTokenClaims = RefreshTokenClaims(email: string)

  /** The service holds only the signing secret. Every operation takes the
      service by value and none returns a changed one. */
  datatype JwtService = JwtService(secret: string)

  /** The signing library: `encode(claims, secret)` and
      `decode(token, secret, now)`, where `decode` checks signature and expiry
      against the clock reading `now`. */
  datatype Codec = Codec(
    encode: (AccessTokenClaims, string) -> Result<string, JwtError>,
    decode: (string, string, nat) -> Result<AccessTokenClaims, JwtError>)

  /** A call a handler makes into the token service or the credential
      check; the handlers' models record them in the order made. */
  datatype Call =
    | VerifyAccess(token: string)
    | VerifyRefresh(token: string)
    | MintAccess(email: string, role: Option<string>)
    | MintRefresh(email: string)
    | Rotate(token: string)
    | CheckPassword(hash: string)

  /** How a handler ended, with the calls it made on the way. */
  datatype Run<+T> = Run(exit: Exit<T>, calls: seq<Call>)

  /** An access token lives 15 minutes. */
  const AccessLifetimeSeconds: nat := 15 * 60

  /** Name of the cookie that carries the access token. */
  const AccessCookieName := "access_token"

  /** `JwtService::new`. */
  function New(secret: string): JwtService {
    JwtService(secret)
  }

  /** The claims `create_access_token` signs, for the clock reading `now`. */
  function AccessClaims(email: string, role: Option<string>, now: nat): AccessTokenClaims {
    AccessTokenClaims(email, now + AccessLifetimeSeconds, now, role)
  }

  /** `create_access_token`: sign the access claims with the service secret. */
  function CreateAccessToken(svc: JwtService, codec: Codec, email: string, role: Option<string>, now: nat)
    : Result<string, JwtError>
  {
    codec.encode(AccessClaims(email, role, now), svc.secret)
  }

  /** `verify_access_token`: decode with the same service secret. */
  function VerifyAccessToken(svc: JwtService, codec: Codec, token: string, now: nat)
    : Result<AccessTokenClaims, JwtError>
  {
    codec.decode(token, svc.secret, now)
  }

  /** `extract_access_token`: the value of the `access_token` cookie. */
  function ExtractAccessToken(req: Http.Request): Option<string> {
    Http.FindCookie(req.cookies, AccessCookieName)
  }

  /** A codec whose `decode` gives back the signed claims for the secret they
      were signed with, as long as they have not expired. */
  ghost predicate CodecRoundTrips(codec: Codec) {
    forall claims: AccessTokenClaims, secret: string, token: string, now: nat ::
      codec.encode(claims, secret) == Success(token) && now < claims.exp
      ==> codec.decode(token, secret, now) == Success(claims)
  }

  /** `new` keeps the secret it is given. */
  lemma NewKeepsSecret(secret: string)
    ensures New(secret).secret == secret
    ensures forall other :: New(other) == New(secret) ==> other == secret
  {
  }

  /** The claims copy the email and the role (`None` stays `None`), are
      issued at `now` and expire 900 seconds later. */
  lemma AccessClaimsRules(email: string, role: Option<string>, now: nat)
    ensures AccessClaims(email, role, now).email == email
    ensures AccessClaims(email, role, now).role == role
    ensures AccessClaims(email, role, now).iat == now
    ensures AccessClaims(email, role, now).exp == now + 900
    ensures AccessClaims(email, role, now).iat <= AccessClaims(email, role, now).exp
  {
  }

  /** Verifying a freshly created token before it expires, with the same
      service, gives back the email and the role it was created with. */
  lemma FreshAccessTokenVerifies(svc: JwtService, codec: Codec, email: string, role: Option<string>,
                                 now: nat, later: nat)
    requires CodecRoundTrips(codec)
    requires CreateAccessToken(svc, codec, email, role, now).Success?
    requires later < now + AccessLifetimeSeconds
    ensures VerifyAccessToken(svc, codec, CreateAccessToken(svc, codec, email, role, now).value, later).Success?
    ensures VerifyAccessToken(svc, codec, CreateAccessToken(svc, codec, email, role, now).value, later).value.email == email
    ensures VerifyAccessToken(svc, codec, CreateAccessToken(svc, codec, email, role, now).value, later).value.role == role
  {
    var claims := AccessClaims(email, role, now);
    var token := CreateAccessToken(svc, codec, email, role, now).value;
    assert codec.encode(claims, svc.secret) == Success(token);
    assert codec.decode(token, svc.secret, later) == Success(claims);
  }

  /** The cookie-based extraction returns the first `access_token` cookie's
      value, is `None` exactly when there is no such cookie, and never looks
      at the headers. */
  lemma ExtractReadsAccessCookie(req: Http.Request, headers: seq<Http.Header>)
    ensures ExtractAccessToken(req).None? <==> forall i :: 0 <= i < |req.cookies| ==> req.cookies[i].name != "access_token"
    ensures ExtractAccessToken(req).Some? ==>
              exists i :: 0 <= i < |req.cookies| && req.cookies[i] == Http.RequestCookie("access_token", ExtractAccessToken(req).value)
                          && forall j :: 0 <= j < i ==> req.cookies[j].name != "access_token"
    ensures ExtractAccessToken(Http.Request(req.cookies, headers)) == ExtractAccessToken(req)
  {
  }
}
