/** Failure-carrying values shared by every module of the model.

    Python raises; the model returns. `Error` keeps the exception classes the
    scraper distinguishes: Playwright's `TimeoutError` (the only one some
    fallbacks catch), `RuntimeError`, `ValueError`, `AssertionError`, and any
    other failure coming out of the browser. */
module Wrappers {

  datatype Option<+T> = None | Some(value: T)

  datatype Error =
    | Timeout(what: string)
    | RuntimeError(msg: string)
    | ValueError(msg: string)
    | AssertionError(msg: string)
    | BrowserError(msg: string)

  datatype Result<+T> = Ok(value: T) | Err(error: Error)

  /** The outcome of an action that returns nothing: it completed or it raised. */
  datatype Outcome = Pass | Fail(error: Error)
  {
    /** True when the action raised Playwright's TimeoutError. */
    predicate TimedOut() { Fail? && error.Timeout? }
  }
}
