/**
 * The anti-CSRF token cache of `src/utils/csrf.js`: one module-level cell,
 * written by a fetch from `GET /csrf-token` and by an explicit set.
 */
module Csrf {
  import opened Wrappers

  /**
   * What `GET /csrf-token` produced. `Fetched` carries `response.data.csrfToken`
   * (absent when the body has no such field); `FetchFailed` stands for every
   * error thrown inside the `try` (a failed request or a missing body).
   */
  datatype FetchOutcome = Fetched(csrfToken: Option<string>) | FetchFailed

  /** The value `fetchCSRFToken` resolves to: the fetched token, or null on failure. */
  function FetchResult(outcome: FetchOutcome): Option<string> {
    match outcome
    case Fetched(t) => t
    case FetchFailed => None
  }

  /** The cell after a fetch: overwritten on success, untouched on failure. */
  function AfterFetch(cached: Option<string>, outcome: FetchOutcome): Option<string> {
    match outcome
    case Fetched(t) => t
    case FetchFailed => cached
  }

  class TokenCache {
    var token: Option<string>

    /** Before any fetch or set the cell holds null. */
    constructor ()
      ensures token == None
    {
      token := None;
    }

    /** `getCSRFToken`: a read of the cell and nothing else. */
    function Get(): Option<string>
      reads this
    {
      token
    }

    /** `setCSRFToken`: the last write wins. */
    method Set(t: Option<string>)
      modifies this
      ensures token == t
      ensures Get() == t
    {
      token := t;
    }

    /**
     * `fetchCSRFToken`: never throws. On success it stores the fetched value
     * and returns that same value; on failure it returns null and leaves the
     * cached token as it was.
     */
    method Fetch(outcome: FetchOutcome) returns (r: Option<string>)
      modifies this
      ensures r == FetchResult(outcome)
      ensures token == AfterFetch(old(token), outcome)
      ensures outcome.Fetched? ==> r == token
      ensures outcome.FetchFailed? ==> r == None && token == old(token)
    {
      match outcome
      case Fetched(t) =>
        token := t;
        r := token;
      case FetchFailed =>
        r := None;
    }
  }
}
