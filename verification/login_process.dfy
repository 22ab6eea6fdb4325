/** src/routes/login/login_process.rs: the name-based `login` handler, its
    `LoginError` variants and their redirect, and the file's own copy of
    `error_chain_fmt` (the same formatter as src/error.rs). */
module LoginProcess {
  import opened Wrappers
  import Http
  import Errors

  /** The error variants of this handler; each wraps its source error. */
  datatype LoginError =
    | AuthError(cause: Errors.ErrorValue)
    | UnexpectError(cause: Errors.ErrorValue)
    | TemplateError(cause: Errors.ErrorValue)

  /** The fixed `Display` text of each variant. */
  function Message(e: LoginError): string {
    match e
    case AuthError(_) => "Authentication failed"
    case UnexpectError(_) => "Something went wrong"
    case TemplateError(_) => "Template rendering error"
  }

  /** A `LoginError` seen as a `std::error::Error`. */
  function AsErrorValue(e: LoginError): Errors.ErrorValue {
    Errors.ErrorValue(Message(e), Some(e.cause))
  }

  /** `login_redirect`: a 303 to `/home` carrying the error's text as an
      error flash message. */
  function LoginRedirect(e: LoginError): Http.Response {
    Http.Response(Http.SeeOther, Some("/home"), Some(Http.FlashMessage(Http.FlashError, Message(e))), Http.Empty)
  }

  /** A row of `test_table`: id, name and the nullable `cntn` column. */
  datatype Row = Row(id: string, username: string, cntn: Option<string>)

  /** What `login` answers: the rendered success page for a row, or a
      redirect carrying the error. */
  datatype LoginOutcome = SuccessPage(row: Row) | Redirect(response: Http.Response, error: LoginError)

  /** `login`, given the result of the name query and the result of rendering
      the success page (`None` when it rendered). */
  function Login(query: Result<Option<Row>, Errors.ErrorValue>, renderError: Option<Errors.ErrorValue>): (r: LoginOutcome)
    ensures r.SuccessPage? ==> query == Success(Some(r.row)) && renderError.None?
    ensures r.Redirect? ==> r.response.status == 303 && r.response.location == Some("/home")
                            && r.response.flash == Some(Http.FlashMessage(Http.FlashError, Message(r.error)))
    ensures r.Redirect? && r.error.TemplateError? ==> query.Success? && query.value.Some? && renderError == Some(r.error.cause)
  {
    match query
    case Success(Some(row)) =>
      (match renderError
       case None => SuccessPage(row)
       case Some(e) => Redirect(LoginRedirect(TemplateError(e)), TemplateError(e)))
    case Success(None) =>
      var e := AuthError(Errors.ErrorValue("No such user", None));
      Redirect(LoginRedirect(e), e)
    case Failure(q) => Redirect(LoginRedirect(AuthError(q)), AuthError(q))
  }

  /** Each variant's text is fixed and tells the variants apart. */
  lemma MessagesAreFixed(a: LoginError, b: LoginError)
    ensures Message(a) == Message(b) <==>
              ((a.AuthError? && b.AuthError?) || (a.UnexpectError? && b.UnexpectError?)
               || (a.TemplateError? && b.TemplateError?))
    ensures a.AuthError? ==> Message(a) == "Authentication failed"
  {
  }

  /** Every error answer is a 303 to `/home` flashing the error's own text. */
  lemma RedirectShape(e: LoginError)
    ensures LoginRedirect(e).status == 303 && LoginRedirect(e).location == Some("/home")
    ensures LoginRedirect(e).flash == Some(Http.FlashMessage(Http.FlashError, Message(e)))
  {
  }

  /** Only a found row renders the success page; no row and a failed query
      are both authentication failures; a failed render of a found row is a
      template error. Every failure is answered by `login_redirect`. */
  lemma LoginOutcomes(query: Result<Option<Row>, Errors.ErrorValue>, renderError: Option<Errors.ErrorValue>)
    ensures Login(query, renderError).SuccessPage? <==> query.Success? && query.value.Some? && renderError.None?
    ensures Login(query, renderError).SuccessPage? ==> Login(query, renderError).row == query.value.value
    ensures (query.Failure? || query.value.None?) ==> Login(query, renderError).error.AuthError?
    ensures query.Failure? ==> Login(query, renderError).error == AuthError(query.error)
    ensures Login(query, renderError).Redirect? ==>
              Login(query, renderError).response == LoginRedirect(Login(query, renderError).error)
  {
  }

  /** `Debug for LoginError` runs this file's `error_chain_fmt`, which writes
      the same format as the one of src/error.rs: the variant's text, a
      blank line, then one "Caused by" block per error on the source chain. */
  method Debug(e: LoginError) returns (out: string)
    ensures out == Message(e) + "\n\n" + Errors.CausedBy(e.cause.display) + Errors.Blocks(Errors.Causes(e.cause))
  {
    out := Errors.ErrorChainFmt(AsErrorValue(e));
    Errors.BlocksCons(e.cause.display, Errors.Causes(e.cause));
  }
}
