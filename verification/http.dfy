/** The slice of actix-web the handlers touch: request cookies and headers,
    response cookies, and the responses the handlers build. */
module Http {
  import opened Wrappers
  import Text

  /** One byte of a raw header value. */
  newtype byte = x: int | 0 <= x < 256

  /** A cookie as received on a request. */
  datatype RequestCookie = RequestCookie(name: string, value: string)

  /** A header as received on a request: its name and its raw bytes. */
  datatype Header = Header(name: string, value: seq<byte>)

  /** The parts of an inbound request the authentication logic reads. */
  datatype Request = Request(cookies: seq<RequestCookie>, headers: seq<Header>)

  /** `req.cookie(name)`: the value of the first cookie called `name`. */
  function FindCookie(cs: seq<RequestCookie>, name: string): (r: Option<string>)
    ensures r.None? <==> forall i :: 0 <= i < |cs| ==> cs[i].name != name
    ensures r.Some? ==> exists i :: 0 <= i < |cs| && cs[i] == RequestCookie(name, r.value)
                                    && forall j :: 0 <= j < i ==> cs[j].name != name
  {
    if |cs| == 0 then None
    else if cs[0].name == name then Some(cs[0].value)
    else
      var rest := FindCookie(cs[1..], name);
      assert forall j :: 1 <= j < |cs| ==> cs[j] == cs[1..][j - 1];
      rest
  }

  /** `req.headers().get(name)`: the raw value of the first header whose
      name equals `name` ignoring ASCII case (header names are
      case-insensitive). */
  function FindHeader(hs: seq<Header>, name: string): (r: Option<seq<byte>>)
    ensures r.None? <==> forall i :: 0 <= i < |hs| ==> Text.AsciiLower(hs[i].name) != Text.AsciiLower(name)
    ensures r.Some? ==> exists i :: 0 <= i < |hs| && hs[i].value == r.value
                                    && Text.AsciiLower(hs[i].name) == Text.AsciiLower(name)
                                    && forall j :: 0 <= j < i ==> Text.AsciiLower(hs[j].name) != Text.AsciiLower(name)
  {
    if |hs| == 0 then None
    else if Text.AsciiLower(hs[0].name) == Text.AsciiLower(name) then Some(hs[0].value)
    else
      var rest := FindHeader(hs[1..], name);
      assert forall j :: 1 <= j < |hs| ==> hs[j] == hs[1..][j - 1];
      rest
  }

  /** The `SameSite` attribute of a response cookie. */
  datatype SameSite = Strict | Lax

  /** A cookie set on a response, with the attributes the handlers set;
      `secure` is false when the builder never called `.secure(true)`. */
  datatype Cookie = Cookie(
    name: string,
    value: string,
    path: string,
    maxAgeSeconds: nat,
    httpOnly: bool,
    secure: bool,
    sameSite: SameSite)

  /** Status codes the handlers answer with. */
  const Ok: nat := 200
  const SeeOther: nat := 303
  const BadRequest: nat := 400
  const Unauthorized: nat := 401
  const InternalServerError: nat := 500

  /** Level of a flash message. */
  datatype FlashLevel = FlashError | FlashInfo

  /** A flash message: a level and its text. */
  datatype FlashMessage = FlashMessage(level: FlashLevel, content: string)

  /** What a response carries in its body. */
  datatype Body =
    | Empty
    | Html(template: string)
    | PlainText(text: string)
    | ErrorJson(error: string, redirect: string)
    | RegisterJson(success: bool, message: string)

  /** A response: status, optional `Location` header, optional outgoing flash
      message, body. */
  datatype Response = Response(status: nat, location: Option<string>, flash: Option<FlashMessage>, body: Body)

  /** `HttpResponse::SeeOther()` with a `Location` header. */
  function SeeOtherTo(location: string): Response {
    Response(SeeOther, Some(location), None, Empty)
  }
}
