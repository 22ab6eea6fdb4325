# rust_web request authentication, modelled in Dafny

This project models the part of the `rust_web` actix-web application that
decides who a request belongs to, and what the login and sign-up endpoints
answer. It covers:

- **The JWT service.** This is `JwtService` (src/auth/jwt/jwt_service.rs). It builds the access-token claims with a
  15-minute lifetime, encodes and decodes them with the service's secret,
  and reads the `access_token` cookie. The header-based copy
  (src/jwt/middleware.rs) reads `Authorization: Bearer <token>`.
- **The carrier resolver `check_token`** (src/routes/login/validate_jwt.rs). A
  verifying access cookie wins. An expired one falls through to the refresh
  cookie. Any other access failure stops with `InvalidToken`. A verifying
  refresh cookie mints a new access token and rotates the refresh token. With
  no cookie at all, the request is a `Guest`.
- **The JWT login `validate_jwt`.** It looks the email up, checks the password
  on the blocking pool, and only then issues the two cookies.
- **The gates.** `jwt_auth_middleware` answers 401 or passes the verified claims on.
  `reject_anonymous_users` passes the session email on, answers 303 to
  `/home`, or answers 500.
- **The home handlers** `home_session` and `home_jwt`.
- **The name-based login handler** `login` with its `LoginError`, and
  `login_redirect`.
- **The error types** `ApiError`, `LoginError` and `error_chain_fmt`.
- **Registration.** The `register` and `registration` handlers, and the browser
  form logic of static/js/registration.js: the nickname check, the password
  match indicator, the password policy, and the order of the sign-up gates.
- **Configuration.** The environment selection and the Postgres connect options
  of src/configuration.rs.

Everything is a pure function over immutable data, except a few loops written
as methods. Three kinds of input are parameters rather than code:

- **Token library.** The token library (`jsonwebtoken`) is a pair of functions, `AuthJwt.Codec`.
  `AuthJwt.CodecRoundTrips` states the one property the model relies on:
  decoding what was encoded with the same secret gives the claims back until
  they expire.
- **Refresh-token operations.** The refresh-token operations that `check_token` and `validate_jwt` call
  are the parameter `ValidateJwt.RefreshOps`.
- **Clock.** The clock is one reading `now` in seconds.

Every run of a handler also returns the list of calls it made into these
operations (`AuthJwt.Run`). This lets the model state that a carrier was never
consulted, or that nothing was minted. An `.expect` that fails is
`Exit.Panic` with the source's own message.

Three behaviours of the code are worth stating plainly:

- The refresh cookie lives 7 days.
- An access token that fails for any reason other than expiry ends the
  resolution with `InvalidToken`; only an expired one moves on to the refresh
  cookie.
- `home_jwt` has no refresh step: an expired access cookie there is a 401.

## Model

| member | source | states |
|---|---|---|
| Text.LowerOfCasing | src/configuration.rs:111 | lowercasing any ASCII casing of a lowercase word gives that word back |
| Text.FindSubstring | src/routes/login/registration.rs:75 | the scan answers true exactly when the pattern occurs at some position of the text |
| Http.FindCookie | src/auth/jwt/jwt_service.rs:73 | cookie lookup returns the value of the first cookie with that name, and `None` exactly when no cookie has it |
| Http.FindHeader | src/jwt/middleware.rs:69-70 | header lookup matches names regardless of ASCII case and returns the first matching value, `None` exactly when none matches |
| Errors.ErrorChainFmt | src/error.rs:23-34 | the output is the error's text and a blank line, then one `Caused by:\n\t<cause>\n` block per error on the source chain, in order; with no source it is the text and the blank line alone |
| Errors.BlocksAppend | src/error.rs:29-32 | the blocks of two cause lists are the concatenation of their blocks, so the formatter can write them one cause at a time |
| Errors.MessageIdentifiesVariant | src/error.rs:2-14 | each `ApiError` variant has its fixed text, and two errors have the same text exactly when they are the same variant |
| Errors.Debug | src/error.rs:16-20 | `Debug` of an `ApiError` is its text, a blank line, then its cause and the cause's own chain as "Caused by" blocks |
| AuthJwt.NewKeepsSecret | src/auth/jwt/jwt_service.rs:31-33 | `new` stores the given secret, and different secrets give different services |
| AuthJwt.AccessClaimsRules | src/auth/jwt/jwt_service.rs:35-53 | created claims copy the email and role, are issued now, and expire 15 minutes later |
| AuthJwt.FreshAccessTokenVerifies | src/auth/jwt/jwt_service.rs:35-67 | a token this service created verifies, before it expires, to the email and role it was created for |
| AuthJwt.ExtractReadsAccessCookie | src/auth/jwt/jwt_service.rs:69-74 | the token is the first `access_token` cookie's value, `None` exactly when there is none, and the headers are never read |
| BearerJwt.SameTokensAsCookieService | src/jwt/middleware.rs:39-89 | the header-based service mints and verifies exactly the tokens the cookie-based one does |
| BearerJwt.ToStrInverse | src/jwt/middleware.rs:71 | a header value that `to_str` accepts is visible ASCII and encodes back to the same bytes |
| BearerJwt.EncodeInverse | src/jwt/middleware.rs:71 | `to_str` of encoded visible text gives the text back |
| BearerJwt.TokenFromValueIff | src/jwt/middleware.rs:69-74 | a header value yields token `t` exactly when it is the visible text `Bearer ` followed by `t` |
| BearerJwt.BearerHeaderRoundTrip | src/jwt/middleware.rs:65-75 | a request with `Authorization: Bearer t` extracts `t`, whatever its cookies |
| BearerJwt.MissingHeaderGivesNone | src/jwt/middleware.rs:70 | with no `Authorization` header, in any letter case, there is no token |
| BearerJwt.PrefixIsExact | src/jwt/middleware.rs:73 | the prefix is case-sensitive and needs the space; the bare prefix gives the empty token |
| BearerJwt.InvisibleByteGivesNone | src/jwt/middleware.rs:71-72 | a header value with a byte outside visible ASCII yields no token |
| BearerJwt.BearerEndToEnd | src/jwt/middleware.rs:44-89 | a token minted here and sent as a bearer header verifies, before expiry, to its email and role |
| ValidateJwt.LoginRedirect | src/routes/login/process.rs:190-197 | a failed JWT login is answered with a 401, no Location and no flash, and a JSON body pointing the client at `/home` |
| ValidateJwt.LoginRedirectIdentifiesVariant | src/routes/login/process.rs:190-197 | two errors get the same answer exactly when they are the same `ApiError` variant; the cause never reaches the client |
| ValidateJwt.ValidateJwtLogin | src/routes/login/validate_jwt.rs:18-70 | cookies are issued only for the submitted email, and only after a row was found and its password check passed; the run gets past the password check exactly in that case; every rejection is `login_redirect` of its error; a panic carries one of the two minting messages |
| ValidateJwt.CheckToken | src/routes/login/validate_jwt.rs:84-142 | the resolver never returns an error; it can only panic, and only with one of its two minting messages |
| ValidateJwt.AccessCarrierWins | src/routes/login/validate_jwt.rs:90-93 | a verifying access cookie gives `AccessValid` with its email after one verification, and the refresh cookie is not consulted |
| ValidateJwt.ExpiredAccessFallsThrough | src/routes/login/validate_jwt.rs:94-96 | an expired access cookie hands the decision to the refresh step; with no refresh cookie the result is `Guest` |
| ValidateJwt.BadAccessCarrierStops | src/routes/login/validate_jwt.rs:97-100 | any other access failure gives `InvalidToken` with nothing else called |
| ValidateJwt.RefreshCarrierRenews | src/routes/login/validate_jwt.rs:105-127 | a verifying refresh cookie gives `RefreshValid` for its email, with a new 15-minute access cookie minted with role admin and the rotated 7-day refresh cookie |
| ValidateJwt.BadRefreshCarrierRejected | src/routes/login/validate_jwt.rs:129-137 | a refresh cookie that fails to verify, for any reason, gives `InvalidToken`, and nothing is minted or rotated |
| ValidateJwt.NoCarrierIsGuest | src/routes/login/validate_jwt.rs:141 | no carrier at all gives `Guest` with nothing called |
| ValidateJwt.ResolverAuthenticatesOnlyVerified | src/routes/login/validate_jwt.rs:84-142 | an authenticated email is always the email of claims that verified; `Guest` exactly when no access cookie was usable and no refresh cookie was present |
| ValidateJwt.MintingNeedsVerifiedRefresh | src/routes/login/validate_jwt.rs:105-111 | the resolver mints and rotates only after the refresh cookie verified, only for that cookie's email and token, and never mints a refresh token |
| ValidateJwt.TokensOnlyAfterPasswordCheck | src/routes/login/validate_jwt.rs:28-59 | login mints tokens and issues cookies only after a row was found and the password check succeeded, and for the submitted email |
| ValidateJwt.FailedLoginIssuesNothing | src/routes/login/validate_jwt.rs:28-69 | an unknown email, a failed query or a failed password check gives a 401 JSON redirect to `/home` with no token created |
| ValidateJwt.SameCarriersOnBothPaths | src/routes/login/validate_jwt.rs:42-54 | the cookies issued at login and on renewal have the same attributes and differ only in their token |
| JwtMiddleware.JwtAuthMiddleware | src/auth/middleware/jwt_middleware.rs:14-33 | the gate never panics; it passes on exactly the claims the extracted cookie verified to; it rejects as missing exactly when no cookie token was found, and as bad only with the verifier's own error |
| JwtMiddleware.GateDecision | src/auth/middleware/jwt_middleware.rs:14-33 | the next handler runs exactly when a cookie token was extracted and verified, and it receives those claims; otherwise the answer is a 401 |
| JwtMiddleware.VerifiesOnlyExtractedToken | src/auth/middleware/jwt_middleware.rs:22-26 | at most one verification happens, and only of the extracted token |
| JwtMiddleware.BearerHeaderIsNotRead | src/auth/middleware/jwt_middleware.rs:22 | a request carrying its token only in an `Authorization: Bearer` header is rejected as missing a token |
| SessionGate.RejectAnonymousUsers | src/auth/middleware/session_middleware.rs:37-57 | the gate continues exactly when the session holds an email, with that email attached; no email is a 303 to `/home`, a read error a 500 |
| SessionGate.SessionGateDecision | src/session/middleware.rs:33-53 | the same decision holds for the duplicate gate: continue exactly on an email, 303 exactly on no email |
| SessionGate.EmailInfoIsTransparent | src/auth/middleware/session_middleware.rs:20-35 | `EmailInfo` displays and dereferences to the wrapped email, so wrapping is invertible |
| Home.HomeSession | src/routes/login/home.rs:23-39 | a user page is shown exactly when the session read gives a non-empty email, and for that email; otherwise the guest page, or 500 if it fails to render |
| Home.HomeSessionGuestCases | src/routes/login/home.rs:27-29 | a session read error, no email and an empty email all show the guest page |
| Home.HomeJwt | src/routes/login/home.rs:41-64 | a user page is shown only for the email of claims that verified; the answer is 401 exactly when a cookie was present and failed to verify; only access verifications are called |
| Home.HomeJwtDecision | src/routes/login/home.rs:41-64 | no cookie shows the guest page with nothing verified; otherwise only the cookie's token is verified, any failure (expiry included) is a 401, and success shows the claims' user |
| Configuration.TryFrom | src/configuration.rs:107-120 | a parsed environment's name is the lowercased input; a failure happens only when the lowercased input names neither environment, and its text starts with the lowercased input |
| Configuration.AsStrNames | src/configuration.rs:98-105 | `as_str` gives `local` or `production`, and distinct environments get distinct names |
| Configuration.TryFromAsStr | src/configuration.rs:98-120 | parsing an environment's name gives the environment back |
| Configuration.TryFromSuccessIff | src/configuration.rs:110-113 | parsing succeeds with an environment exactly when the lowercased input is its name |
| Configuration.TryFromIgnoresCase | src/configuration.rs:111 | any ASCII casing of an environment name parses to that environment |
| Configuration.TryFromRejects | src/configuration.rs:114-117 | any other input fails with its lowercased text followed by the fixed explanation |
| Configuration.EnvironmentSelection | src/configuration.rs:72-77 | an unset variable selects `local`; a set one starts exactly when it parses, with the parsed environment |
| Configuration.ConfigurationFilesOrder | src/configuration.rs:78-87 | `base.yaml` is layered first, then `<environment>.yaml` |
| Configuration.SslModeChoice | src/configuration.rs:40-55 | SSL is required exactly when `require_ssl` is set and preferred otherwise; host, user, password and port are carried over |
| Configuration.WithDbExtendsWithoutDb | src/configuration.rs:58-64 | `with_db` is `without_db` plus the database name and trace-level statement logging, nothing else |
| LoginProcess.Login | src/routes/login/login_process.rs:36-63 | the success page is rendered only for the row the query found, when rendering succeeded; every other answer is a 303 to `/home` flashing the error's text; a template error arises only from a found row whose render failed, and carries that render error |
| LoginProcess.MessagesAreFixed | src/routes/login/login_process.rs:142-150 | each `LoginError` variant has its fixed text, and the texts tell the variants apart |
| LoginProcess.RedirectShape | src/routes/login/login_process.rs:114-121 | every error answer is a 303 to `/home` that flashes the error's text |
| LoginProcess.LoginOutcomes | src/routes/login/login_process.rs:36-63 | only a found row that renders gives the success page; no row and a failed query are both `AuthError` (the latter keeping the query error); every failure goes through `login_redirect` |
| LoginProcess.Debug | src/routes/login/login_process.rs:152-170 | `Debug` of a `LoginError` is its text, a blank line, then its cause chain as "Caused by" blocks |
| Registration.Register | src/routes/login/registration.rs:53-87 | success exactly when the status is 200; a hash failure is a 500 with nothing inserted; otherwise the hashed password is inserted; an insert error is a 400 whose message names a duplicate exactly when the error text contains "duplicate" |
| Registration.Registration | src/routes/login/registration.rs:29-42 | the message is the content of the last flash message, or empty when there is none; the answer is 200 exactly when the template rendered, and 500 otherwise |
| Signup.TrimStart | static/js/registration.js:5 | the result is a suffix of the input that does not start with white space, and everything dropped is white space |
| Signup.TrimEnd | static/js/registration.js:5 | the result is a prefix of the input that does not end with white space, and everything dropped is white space |
| Signup.TrimEmptyIff | static/js/registration.js:5-8 | a nickname counts as not entered exactly when all its characters are white space |
| Signup.TrimKeepsInner | static/js/registration.js:5 | trimming leaves a text with no white space at either end unchanged |
| Signup.MatchesPasswordPolicy | static/js/registration.js:104-105 | the scan accepts exactly the passwords of eight or more allowed characters with a letter, a digit and one of `@$!%*#?&` |
| Signup.PolicyExamples | static/js/registration.js:104 | one password meets the policy, and one breaks each rule in turn |
| Signup.CheckNickname | static/js/registration.js:4-36 | the nickname becomes checked only when it is not blank and is available; a blank nickname leaves the check as it was |
| Signup.NicknameEdited | static/js/registration.js:39-45 | editing the nickname withdraws the check and clears its status |
| Signup.ConfirmEdited | static/js/registration.js:62-82 | the indicator is empty exactly when the confirmation is empty, and otherwise says "match" exactly when the two passwords are equal |
| Signup.HandleSignup | static/js/registration.js:85-132 | the form is submitted exactly when the nickname is checked, the passwords match and the policy holds, with the email, name, nickname and password; otherwise the first failing gate, in that order, picks the alert |
| Signup.EditAfterCheckBlocks | static/js/registration.js:38-45 | after an edit the nickname is unchecked again, and from a fresh page a check succeeds exactly on a non-blank available nickname |
| Signup.BlankNicknameNeverChecked | static/js/registration.js:8-12 | a blank nickname is never checked from a fresh page and its status asks for a nickname |

## Left out

- The token library: signing, the header and the claim validation of `jsonwebtoken` are the parameter `AuthJwt.Codec`; only the round trip `AuthJwt.CodecRoundTrips` is assumed where a lemma needs it.
- The refresh-token operations of `JwtService` (extract, verify, create, rotate) are not part of this model; they are the parameter `ValidateJwt.RefreshOps`, and the refresh claims hold only the email.
- The error texts of `JwtError` and of the token library are the parameter `errorText` of `JwtMiddleware.RejectionResponse`.
- AuthJwt.AccessClaimsRules: one clock reading `now` is used for both `exp` and `iat`. The source reads the clock twice, and `as usize` truncation is not modelled. The `.expect("valid timestamp")` panic of `create_access_token`, reachable only when adding 15 minutes overflows chrono's last representable date, is not modelled either, so the panic messages stated for `ValidateJwt.CheckToken` and `ValidateJwt.ValidateJwtLogin` hold only below that date.
- The database: `validate_email_query`, `login_process`, `insert_user`, `hash_password` and `verify_password_hash` are parameters (their results), not code.
- `get_user_information_jwt` and `get_user_information_session` (rendering a user's page, and their own errors) are not part of this model. `ValidateJwt.LoginJwt.Issued` and `Home.HomeOutcome.ShowUser` stop at the point where they are called.
- Template rendering (askama) is not modelled; its outcome is a parameter of the handlers that render (whether it succeeded, and its error where the handler keeps it). The page content itself is not modelled.
- `logout` is not modelled: the one in src/routes/login/login_process.rs only renders a template, and the one src/routes/login/mod.rs re-exports, from src/routes/login/process.rs, deletes the session email first.
- Logging is not modelled: the `println!` calls of `check_token` and `home_jwt`, and the `tracing` events of `register` and the instrumented handlers, have no effect on any answer.
- `e401`, `e500` and `see_other` are imported from `crate::error` by the handlers but are not defined in src/error.rs; they are represented by the status and location they produce, and their body is taken to be empty (`Http.Empty`), which is an assumption.
- Configuration.TryFrom: `to_lowercase` is modelled on ASCII letters only, not the full Unicode lowercase mapping. Which inputs parse is unaffected, since no non-ASCII character lowercases to a letter of `local` or `production`.
- Configuration.TryFromRejects: the error text echoes the ASCII-lowercased input, while the source echoes the Unicode-lowercased one; for an input such as "ÉTÉ" the source's message begins "été" and the model's "Été".
- Loading the YAML files, `current_dir` and reading the process environment are I/O. Only which files are layered in which order, and the variable's value, are modelled.
- The random nickname availability of static/js/registration.js is the parameter `Signup.Availability`. The DOM, colours, `alert` and `window.close` are left out; alerts are results.
- `togglePasswordVisibility` only switches an input's type and label, and is not modelled.
- Concurrency (`spawn_blocking`, `.await`) is not modelled. A join failure is one of the outcomes of the password check parameter.
- Parsing of the `Cookie` header is not modelled; a request holds its parsed cookies.
- `JwtError`, and the `ApiError::Unauthorized` and `ApiError::InternalServerError` variants used in src/routes/login/home.rs, are not defined in src/error.rs. `JwtError` is modelled with the variants `check_token` matches on, plus one catch-all. The home handlers' 401 and 500 are outcomes, not `ApiError` values.
- Configuration.SslModeChoice: `database == None` says that `without_db` selects no database itself. The defaults that `PgConnectOptions::new()` reads from `PGDATABASE` and the other `PG*` environment variables are not modelled.
