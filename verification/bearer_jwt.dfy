/** The header-based `JwtService` of src/jwt/middleware.rs. It signs and
    verifies exactly like the cookie-based service and differs only in where
    it finds the token: the `Authorization: Bearer <token>` header. */
module BearerJwt {
  import opened Wrappers
  import Http
  import AuthJwt
  import Text

  /** The exact, case-sensitive scheme prefix, with one space. */
  const BearerPrefix := "Bearer "

  /** The bytes `HeaderValue::to_str` accepts: visible ASCII and tab. */
  predicate IsVisibleAscii(b: Http.byte) {
    b == 9 || 32 <= b < 127
  }

  /** Characters whose byte `to_str` accepts. */
  predicate IsVisibleChar(c: char) {
    c == '\t' || ' ' <= c <= '~'
  }

  /** A string made only of such characters. */
  predicate IsVisibleText(s: string) {
    forall i :: 0 <= i < |s| ==> IsVisibleChar(s[i])
  }

  /** `HeaderValue::to_str`: the value as text when every byte is visible
      ASCII, `None` otherwise. */
  function ToStr(v: seq<Http.byte>): Option<string> {
    if forall i :: 0 <= i < |v| ==> IsVisibleAscii(v[i]) then
      Some(seq(|v|, i requires 0 <= i < |v| => v[i] as int as char))
    else
      None
  }

  /** The bytes of a header value holding visible text. */
  function Encode(s: string): seq<Http.byte>
    requires IsVisibleText(s)
  {
    seq(|s|, i requires 0 <= i < |s| => s[i] as int as Http.byte)
  }

  /** `str::strip_prefix`. */
  function StripPrefix(s: string, prefix: string): Option<string> {
    if prefix <= s then Some(s[|prefix|..]) else None
  }

  /** The token carried by one `Authorization` header value. */
  function TokenFromValue(v: seq<Http.byte>): Option<string> {
    match ToStr(v)
    case None => None
    case Some(s) => StripPrefix(s, BearerPrefix)
  }

  /** `extract_access_token`: the first `Authorization` header, as text, with
      the `Bearer ` prefix removed. */
  function ExtractAccessToken(req: Http.Request): Option<string> {
    match Http.FindHeader(req.headers, "Authorization")
    case None => None
    case Some(v) => TokenFromValue(v)
  }

  /** `create_access_token` of this service: the same claims, signed with the
      service secret. */
  function CreateAccessToken(svc: AuthJwt.JwtService, codec: AuthJwt.Codec, email: string,
                             role: Option<string>, now: nat): Result<string, AuthJwt.JwtError>
  {
    codec.encode(AuthJwt.AccessClaims(email, role, now), svc.secret)
  }

  /** `verify_access_token` of this service. */
  function VerifyAccessToken(svc: AuthJwt.JwtService, codec: AuthJwt.Codec, token: string, now: nat)
    : Result<AuthJwt.AccessTokenClaims, AuthJwt.JwtError>
  {
    codec.decode(token, svc.secret, now)
  }

  /** Both services mint and verify the same tokens: same claim rules (email
      copied, role unchanged, `exp = now + 900`, `iat = now`), same secret. */
  lemma SameTokensAsCookieService(svc: AuthJwt.JwtService, codec: AuthJwt.Codec, email: string,
                                  role: Option<string>, now: nat, token: string)
    ensures CreateAccessToken(svc, codec, email, role, now) == AuthJwt.CreateAccessToken(svc, codec, email, role, now)
    ensures VerifyAccessToken(svc, codec, token, now) == AuthJwt.VerifyAccessToken(svc, codec, token, now)
    ensures CreateAccessToken(svc, codec, email, role, now)
            == codec.encode(AuthJwt.AccessTokenClaims(email, now + 900, now, role), svc.secret)
  {
  }

  /** `to_str` keeps the bytes: decoding then encoding gives the value back. */
  lemma ToStrInverse(v: seq<Http.byte>)
    requires ToStr(v).Some?
    ensures IsVisibleText(ToStr(v).value)
    ensures Encode(ToStr(v).value) == v
  {
  }

  /** Encoding then `to_str` gives the text back. */
  lemma EncodeInverse(s: string)
    requires IsVisibleText(s)
    ensures ToStr(Encode(s)) == Some(s)
  {
    var v := Encode(s);
    assert forall i :: 0 <= i < |v| ==> IsVisibleAscii(v[i]);
    assert ToStr(v).value == s;
  }

  /** A header value yields token `t` exactly when it is the visible text
      `"Bearer " + t`. */
  lemma TokenFromValueIff(v: seq<Http.byte>, t: string)
    ensures TokenFromValue(v) == Some(t) <==> IsVisibleText(BearerPrefix + t) && v == Encode(BearerPrefix + t)
  {
    if TokenFromValue(v) == Some(t) {
      var s := ToStr(v).value;
      ToStrInverse(v);
      assert s == BearerPrefix + t;
    }
    if IsVisibleText(BearerPrefix + t) && v == Encode(BearerPrefix + t) {
      EncodeInverse(BearerPrefix + t);
      assert (BearerPrefix + t)[|BearerPrefix|..] == t;
    }
  }

  /** `Authorization: Bearer <t>` extracts to `t`, whatever the cookies. */
  lemma BearerHeaderRoundTrip(t: string, cookies: seq<Http.RequestCookie>)
    requires IsVisibleText(t)
    ensures IsVisibleText(BearerPrefix + t)
    ensures ExtractAccessToken(Http.Request(cookies, [Http.Header("Authorization", Encode(BearerPrefix + t))])) == Some(t)
  {
    assert IsVisibleText(BearerPrefix + t);
    TokenFromValueIff(Encode(BearerPrefix + t), t);
  }

  /** Without an `Authorization` header, in any letter case, there is no
      token. */
  lemma MissingHeaderGivesNone(req: Http.Request)
    requires forall i :: 0 <= i < |req.headers| ==> Text.AsciiLower(req.headers[i].name) != "authorization"
    ensures ExtractAccessToken(req) == None
  {
    assert Text.AsciiLower("Authorization") == "authorization";
  }

  /** The prefix match is exact: wrong case or a missing space yields
      nothing, and the bare prefix yields the empty token. */
  lemma PrefixIsExact()
    ensures TokenFromValue(Encode("bearer x")) == None
    ensures TokenFromValue(Encode("Bearer")) == None
    ensures TokenFromValue(Encode("Bearer ")) == Some("")
  {
    EncodeInverse("bearer x");
    EncodeInverse("Bearer");
    EncodeInverse("Bearer ");
    assert "b" != "B";
    assert !(BearerPrefix <= "bearer x") by { assert "bearer x"[0] != BearerPrefix[0]; }
  }

  /** A value with a byte that is not visible ASCII yields nothing, even
      after a correct prefix. */
  lemma InvisibleByteGivesNone(v: seq<Http.byte>, i: int)
    requires 0 <= i < |v| && !IsVisibleAscii(v[i])
    ensures TokenFromValue(v) == None
  {
  }

  /** A token minted by this service and sent as `Authorization: Bearer`
      verifies, before it expires, to the email and role it was minted for. */
  lemma BearerEndToEnd(svc: AuthJwt.JwtService, codec: AuthJwt.Codec, email: string, role: Option<string>,
                       now: nat, later: nat)
    requires AuthJwt.CodecRoundTrips(codec)
    requires CreateAccessToken(svc, codec, email, role, now).Success?
    requires IsVisibleText(CreateAccessToken(svc, codec, email, role, now).value)
    requires later < now + AuthJwt.AccessLifetimeSeconds
    ensures IsVisibleText(BearerPrefix + CreateAccessToken(svc, codec, email, role, now).value)
    ensures var req := Http.Request([], [Http.Header("Authorization", Encode(BearerPrefix + CreateAccessToken(svc, codec, email, role, now).value))]);
            ExtractAccessToken(req).Some?
            && VerifyAccessToken(svc, codec, ExtractAccessToken(req).value, later).Success?
            && VerifyAccessToken(svc, codec, ExtractAccessToken(req).value, later).value.email == email
            && VerifyAccessToken(svc, codec, ExtractAccessToken(req).value, later).value.role == role
  {
    var t := CreateAccessToken(svc, codec, email, role, now).value;
    BearerHeaderRoundTrip(t, []);
    AuthJwt.FreshAccessTokenVerifies(svc, codec, email, role, now, later);
  }
}
