/** `ApiError` and the source-chain formatter `error_chain_fmt` of src/error.rs. */
module Errors {
  import opened Wrappers

  /** Any Rust error as seen through `std::error::Error`: what `Display`
      prints, and the error returned by `source()`, if any. */
  datatype ErrorValue = ErrorValue(display: string, source: Option<ErrorValue>)

  /** First line written for the error itself: `writeln!(f, "{}\n", e)`. */
  function Header(e: ErrorValue): string {
    e.display + "\n\n"
  }

  /** The block written for one cause: `writeln!(f, "Caused by:\n\t{}", cause)`. */
  function CausedBy(d: string): string {
    "Caused by:\n\t" + d + "\n"
  }

  /** The cause blocks for a list of displays, in list order. */
  function Blocks(ds: seq<string>): string {
    if |ds| == 0 then "" else CausedBy(ds[0]) + Blocks(ds[1..])
  }

  /** Blocks of a concatenation is the concatenation of the blocks. */
  lemma {:induction false} BlocksAppend(xs: seq<string>, ys: seq<string>)
    ensures Blocks(xs + ys) == Blocks(xs) + Blocks(ys)
    decreases |xs|
  {
    if |xs| == 0 {
      assert xs + ys == ys;
    } else {
      assert (xs + ys)[1..] == xs[1..] + ys;
      BlocksAppend(xs[1..], ys);
    }
  }

  /** The displays of the chain starting at `o`, outermost first. */
  function ChainFrom(o: Option<ErrorValue>): seq<string>
    decreases o
  {
    match o
    case None => []
    case Some(c) => [c.display] + ChainFrom(c.source)
  }

  /** The displays of the source chain of `e`, outermost cause first;
      `e` itself is not part of it. */
  function Causes(e: ErrorValue): seq<string> {
    ChainFrom(e.source)
  }

  /** Blocks of a list headed by `d`. */
  lemma BlocksCons(d: string, xs: seq<string>)
    ensures Blocks([d] + xs) == CausedBy(d) + Blocks(xs)
  {
    assert ([d] + xs)[1..] == xs;
  }

  /** `error_chain_fmt`: the header for `e`, then one "Caused by" block per
      error on its source chain, walking `source()` until it is `None`. */
  method ErrorChainFmt(e: ErrorValue) returns (out: string)
    ensures out == Header(e) + Blocks(Causes(e))
    ensures Header(e) <= out
    ensures e.source.None? ==> out == e.display + "\n\n"
  {
    out := Header(e);
    var current := e.source;
    while current.Some?
      invariant out + Blocks(ChainFrom(current)) == Header(e) + Blocks(Causes(e))
      invariant Header(e) <= out
      decreases current
    {
      var cause := current.value;
      BlocksCons(cause.display, ChainFrom(cause.source));
      assert out + Blocks(ChainFrom(current)) == (out + CausedBy(cause.display)) + Blocks(ChainFrom(cause.source));
      out := out + CausedBy(cause.display);
      current := cause.source;
    }
  }

  /** The error variants of src/error.rs; each wraps the error it was made
      from, which is its `source()`. */
  datatype ApiError =
    | AuthError(cause: ErrorValue)
    | InvalidCredentials(cause: ErrorValue)
    | UnexpectError(cause: ErrorValue)
    | TemplateError(cause: ErrorValue)
    | JoinError(cause: ErrorValue)

  /** The fixed `Display` text of each variant. */
  function Message(a: ApiError): string {
    match a
    case AuthError(_) => "Authentication failed"
    case InvalidCredentials(_) => "Invalid Password."
    case UnexpectError(_) => "Something went wrong"
    case TemplateError(_) => "Template rendering error"
    case JoinError(_) => "JoinHandle error"
  }

  /** Two errors of the same variant, whatever they wrap. */
  predicate SameVariant(a: ApiError, b: ApiError) {
    (a.AuthError? && b.AuthError?) || (a.InvalidCredentials? && b.InvalidCredentials?)
    || (a.UnexpectError? && b.UnexpectError?) || (a.TemplateError? && b.TemplateError?)
    || (a.JoinError? && b.JoinError?)
  }

  /** The display text depends on the variant only, and tells variants apart. */
  lemma MessageIdentifiesVariant(a: ApiError, b: ApiError)
    ensures Message(a) == Message(b) <==> SameVariant(a, b)
    ensures a.AuthError? ==> Message(a) == "Authentication failed"
    ensures a.InvalidCredentials? ==> Message(a) == "Invalid Password."
  {
  }

  /** An `ApiError` seen as a `std::error::Error`. */
  function AsErrorValue(a: ApiError): ErrorValue {
    ErrorValue(Message(a), Some(a.cause))
  }

  /** `Debug for ApiError`: exactly `error_chain_fmt` of the error, so the
      variant's message heads the output and the wrapped error is the first
      "Caused by" block. */
  method Debug(a: ApiError) returns (out: string)
    ensures out == Message(a) + "\n\n" + CausedBy(a.cause.display) + Blocks(Causes(a.cause))
  {
    out := ErrorChainFmt(AsErrorValue(a));
    assert Causes(AsErrorValue(a)) == [a.cause.display] + Causes(a.cause);
    BlocksAppend([a.cause.display], Causes(a.cause));
    assert Blocks([a.cause.display]) == CausedBy(a.cause.display) + Blocks([]);
  }
}
