/** The failures the user agent raises or passes to its error hook: the
    `ConnectionError` hierarchy of the source plus the foreign exceptions the
    orchestrator catches. */
module Errors {
  import opened Wrappers
  import Urls

  /** Which budget a `RetriesExceeded` reports. */
  datatype Limit = RedirectLimit(maxRedirects: int) | RetryLimit(maxRetries: int)

  datatype Failure =
    /** `gevent.Timeout` raised while the transport was waiting. */
    | Timeout
    /** Any other exception raised by the transport call. */
    | TransportError(reason: string)
    /** `BadStatusCode(url, status_code)`. */
    | BadStatusCode(url: Urls.UrlLike, status: int)
    /** `RetriesExceeded(url, ...)`, with the `original` keyword when one was given. */
    | RetriesExceeded(url: Urls.UrlLike, limit: Limit, original: Option<Failure>)
    /** `NotImplementedError` from request construction. */
    | NotImplemented
    /** `UnboundLocalError`: `urlopen` reports the retry limit with the error
        `e` of the last attempt, which is unbound when no attempt ran. */
    | UnboundLocal
}
