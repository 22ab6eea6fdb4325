/** `reject_anonymous_users` and `EmailInfo` of
    src/auth/middleware/session_middleware.rs. src/session/middleware.rs is a
    verbatim copy of the same gate and is modelled by the same members. */
module SessionGate {
  import opened Wrappers
  import Http
  import Errors

  /** The email of the logged-in user, attached to the request. `Display` and
      `Deref` both expose the wrapped string. */
  datatype EmailInfo = EmailInfo(inner: string) {
    function Display(): string { inner }
    function Deref(): string { inner }
  }

  /** Reading `email` from the session: a read error, no email, or the email. */
  type SessionRead = Result<Option<string>, Errors.ErrorValue>

  /** The gate either calls the next handler once with `EmailInfo` attached,
      or answers with a response and the error behind it. */
  datatype GateOutcome = Continue(info: EmailInfo) | Respond(response: Http.Response, error: Errors.ErrorValue)

  /** The error behind the redirect of an anonymous user. */
  const NotLoggedIn := Errors.ErrorValue("The user has not logged in", None)

  /** `reject_anonymous_users`. Building the typed session cannot fail (it
      is `ready(Ok(..))`), so only the email read is an input. */
  function RejectAnonymousUsers(session: SessionRead): (r: GateOutcome)
    ensures r.Continue? <==> session.Success? && session.value.Some?
    ensures r.Continue? ==> r.info.Display() == session.value.value && r.info.Deref() == session.value.value
    ensures session.Failure? ==> r == Respond(Http.Response(Http.InternalServerError, None, None, Http.Empty), session.error)
    ensures session == Success(None) ==> r.response == Http.Response(303, Some("/home"), None, Http.Empty)
  {
    match session
    case Failure(e) => Respond(Http.Response(Http.InternalServerError, None, None, Http.Empty), e)
    case Success(Some(email)) => Continue(EmailInfo(email))
    case Success(None) => Respond(Http.SeeOtherTo("/home"), NotLoggedIn)
  }

  /** The gate's decision table: an email continues with exactly that email,
      no email is a 303 to `/home`, a read error is a 500; the next handler
      is never reached on the last two. */
  lemma SessionGateDecision(session: SessionRead, email: string)
    ensures RejectAnonymousUsers(session) == Continue(EmailInfo(email)) <==> session == Success(Some(email))
    ensures RejectAnonymousUsers(session).Respond? ==> RejectAnonymousUsers(session).response.status in {303, 500}
    ensures RejectAnonymousUsers(session).Respond? && RejectAnonymousUsers(session).response.status == 303
            <==> session == Success(None)
  {
  }

  /** `EmailInfo` is a transparent wrapper: its display and its deref are the
      wrapped string, so wrapping is invertible. */
  lemma EmailInfoIsTransparent(s: string, info: EmailInfo)
    ensures EmailInfo(s).Display() == s && EmailInfo(s).Deref() == s
    ensures EmailInfo(info.Display()) == info && EmailInfo(info.Deref()) == info
  {
  }
}
