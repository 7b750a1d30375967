/**
 * The request/response interceptor chain of `src/api/client.js`.
 *
 * Outbound, every non-GET request carries the anti-CSRF header, fetching a
 * token first when the cache is empty. Inbound, each failure is classified
 * once (`Classify`) and exactly one recovery policy is applied. Ordinary 401s
 * share a single in-flight `/auth/refresh` through the coordinator state
 * `isRefreshing` / `refreshPromise`, modelled as explicit events: a failure
 * joins the refresh (`OnError`), and the refresh settles (`RefreshSettles`).
 */
module Interceptor {
  import opened Wrappers
  import opened Text
  import Csrf
  import AuthStore

  const REFRESH_ROUTE := "/auth/refresh"
  const LOGIN_ROUTE := "/auth/login"
  const CSRF_ROUTE := "/csrf-token"
  const IDLE_TIMEOUT_CODE := "SESSION_IDLE_TIMEOUT"
  const PASSWORD_EXPIRED_CODE := "PASSWORD_EXPIRED"
  const IDLE_DEFAULT_MESSAGE := "Session expired due to inactivity."

  /**
   * A request config as the interceptors see it: the HTTP verb as axios
   * spells it ("get", "post", ...), the URL (absent when unset), the
   * `x-csrf-token` header, and the single `_retry` flag shared by every
   * recovery category.
   */
  datatype Request = Request(verb: string, url: Option<string>, csrfHeader: Option<string>, retried: bool)

  /** The parts of a failed response the policy reads: status, `data.code`, `data.message`. */
  datatype ErrorResponse = ErrorResponse(status: int, code: Option<string>, message: Option<string>)

  /** An axios error: its request config and its response, each possibly absent. */
  datatype HttpError = HttpError(config: Option<Request>, response: Option<ErrorResponse>)

  /** `config.url?.includes(route)`: an absent URL includes nothing. */
  predicate UrlIncludes(url: Option<string>, route: string) {
    url.Some? && Contains(url.value, route)
  }

  /** `REFRESH_META_ROUTES.some(...)`: the routes that never fetch a token first. */
  predicate IsMetaRoute(url: Option<string>) {
    UrlIncludes(url, REFRESH_ROUTE) || UrlIncludes(url, CSRF_ROUTE)
  }

  // ---------------------------------------------------------------- request phase

  /** A token is fetched first for a non-GET, non-meta request when the cache holds no truthy token. */
  predicate NeedsTokenFetch(req: Request, cached: Option<string>) {
    req.verb != "get" && !Truthy(cached) && !IsMetaRoute(req.url)
  }

  /** The token the request phase ends up holding: the cached one, or the fetch's result. */
  function TokenAfterRequestPhase(req: Request, cached: Option<string>, fetch: Csrf.FetchOutcome): Option<string> {
    if NeedsTokenFetch(req, cached) then Csrf.FetchResult(fetch) else cached
  }

  /** The config that goes out: a non-GET request gets the header iff the token is truthy. */
  function WithCsrfHeader(req: Request, token: Option<string>): (out: Request)
    ensures out.verb == req.verb && out.url == req.url && out.retried == req.retried
  {
    if req.verb != "get" && Truthy(token) then req.(csrfHeader := token) else req
  }

  /** GET requests pass through the request phase unchanged and never fetch a token. */
  lemma GetPassesThrough(req: Request, cached: Option<string>, fetch: Csrf.FetchOutcome)
    requires req.verb == "get"
    ensures !NeedsTokenFetch(req, cached)
    ensures WithCsrfHeader(req, TokenAfterRequestPhase(req, cached, fetch)) == req
  {
  }

  /**
   * A non-GET request carries the header exactly when a truthy token is held
   * after the (possible) fetch; with an empty cache on a business route, that
   * token is the fetched one.
   */
  lemma NonGetCarriesTokenIffPresent(req: Request, cached: Option<string>, fetch: Csrf.FetchOutcome)
    requires req.verb != "get"
    ensures var t := TokenAfterRequestPhase(req, cached, fetch);
      Truthy(t) ==> WithCsrfHeader(req, t).csrfHeader == t
    ensures var t := TokenAfterRequestPhase(req, cached, fetch);
      !Truthy(t) ==> WithCsrfHeader(req, t) == req
    ensures !Truthy(cached) && !IsMetaRoute(req.url) ==>
      TokenAfterRequestPhase(req, cached, fetch) == Csrf.FetchResult(fetch)
  {
  }

  // ---------------------------------------------------------------- classification

  /** The closed set of failure categories, in the order the response interceptor tests them. */
  datatype Failure =
    | Unrecoverable                // no config, or the request was already retried
    | UnauthorizedIdle(message: string)
    | Unauthorized                 // eligible for the shared refresh
    | UnauthorizedAuthRoute        // a 401 from /auth/refresh or /auth/login
    | ForbiddenPasswordExpired
    | ForbiddenCsrf
    | Other

  predicate HasStatus(e: HttpError, status: int) {
    e.response.Some? && e.response.value.status == status
  }

  /** `message?.toLowerCase().includes("csrf")`. */
  predicate MentionsCsrf(message: Option<string>) {
    message.Some? && Contains(Lower(message.value), "csrf")
  }

  /** The one classifier: which recovery policy the response interceptor applies. */
  function Classify(e: HttpError): Failure {
    if e.config.None? || e.config.value.retried then Unrecoverable
    else if HasStatus(e, 401) then
      var r := e.response.value;
      if r.code == Some(IDLE_TIMEOUT_CODE) then
        UnauthorizedIdle(if Truthy(r.message) then r.message.value else IDLE_DEFAULT_MESSAGE)
      else if !UrlIncludes(e.config.value.url, REFRESH_ROUTE) && !UrlIncludes(e.config.value.url, LOGIN_ROUTE) then
        Unauthorized
      else
        UnauthorizedAuthRoute
    else if HasStatus(e, 403) && e.response.value.code == Some(PASSWORD_EXPIRED_CODE) then
      ForbiddenPasswordExpired
    else if HasStatus(e, 403) && MentionsCsrf(e.response.value.message) && !UrlIncludes(e.config.value.url, CSRF_ROUTE) then
      ForbiddenCsrf
    else
      Other
  }

  /** `originalRequest._retry = true`, seen on the error that carries it. */
  function MarkRetried(e: HttpError): HttpError
    requires e.config.Some?
  {
    e.(config := Some(e.config.value.(retried := true)))
  }

  /** A failure without config, or of a request already retried, is never recovered. */
  lemma RetriedIsRejected(e: HttpError)
    requires e.config.None? || e.config.value.retried
    ensures Classify(e) == Unrecoverable
  {
  }

  /**
   * The idle-timeout code is tested before the generic 401 path: such a
   * failure is never routed to the refresh, whatever its URL.
   */
  lemma IdleTimeoutPrecedesRefresh(e: HttpError)
    requires e.config.Some? && !e.config.value.retried
    requires HasStatus(e, 401) && e.response.value.code == Some(IDLE_TIMEOUT_CODE)
    ensures Classify(e).UnauthorizedIdle?
    ensures Classify(e) != Unauthorized
  {
  }

  /**
   * The refresh path is taken exactly for a fresh 401 without the idle code
   * whose URL is neither the refresh nor the login endpoint.
   */
  lemma RefreshPathIff(e: HttpError)
    ensures Classify(e) == Unauthorized <==>
      && e.config.Some? && !e.config.value.retried
      && HasStatus(e, 401) && e.response.value.code != Some(IDLE_TIMEOUT_CODE)
      && !UrlIncludes(e.config.value.url, REFRESH_ROUTE)
      && !UrlIncludes(e.config.value.url, LOGIN_ROUTE)
  {
  }

  /** A 401 from the refresh or the login endpoint is rejected without refresh or resend. */
  lemma AuthRouteUnauthorizedIsRejected(e: HttpError)
    requires e.config.Some? && !e.config.value.retried
    requires HasStatus(e, 401) && e.response.value.code != Some(IDLE_TIMEOUT_CODE)
    requires UrlIncludes(e.config.value.url, REFRESH_ROUTE) || UrlIncludes(e.config.value.url, LOGIN_ROUTE)
    ensures Classify(e) == UnauthorizedAuthRoute
  {
  }

  /** A 403 with PASSWORD_EXPIRED is handled as such even when its message mentions CSRF. */
  lemma PasswordExpiredPrecedesCsrf(e: HttpError)
    requires e.config.Some? && !e.config.value.retried
    requires HasStatus(e, 403) && e.response.value.code == Some(PASSWORD_EXPIRED_CODE)
    ensures Classify(e) == ForbiddenPasswordExpired
  {
  }

  /** Lower-casing preserves an occurrence of an upper-case pattern as its lower-cased form. */
  lemma {:induction false} LowerPreservesContains(s: string, sub: string)
    requires Contains(s, sub)
    ensures Contains(Lower(s), Lower(sub))
  {
    ContainsIffOccurs(s, sub);
    var i :| OccursAt(s, sub, i);
    assert Lower(s)[i..i + |sub|] == Lower(sub) by {
      forall k | 0 <= k < |sub| ensures Lower(s)[i + k] == Lower(sub)[k] {
        assert s[i + k] == s[i..i + |sub|][k];
      }
    }
    assert OccursAt(Lower(s), Lower(sub), i);
    ContainsIffOccurs(Lower(s), Lower(sub));
  }

  /**
   * CSRF detection ignores case: a fresh 403 without PASSWORD_EXPIRED whose
   * message contains "CSRF" on a URL other than /csrf-token is a CSRF failure.
   */
  lemma CsrfDetectionIgnoresCase(e: HttpError)
    requires e.config.Some? && !e.config.value.retried
    requires HasStatus(e, 403) && e.response.value.code != Some(PASSWORD_EXPIRED_CODE)
    requires e.response.value.message.Some? && Contains(e.response.value.message.value, "CSRF")
    requires !UrlIncludes(e.config.value.url, CSRF_ROUTE)
    ensures Classify(e) == ForbiddenCsrf
  {
    LowerPreservesContains(e.response.value.message.value, "CSRF");
    assert Lower("CSRF") == "csrf";
  }

  /** Statuses other than 401 and 403 are always propagated unchanged. */
  lemma OtherStatusesAreRejected(e: HttpError)
    requires !HasStatus(e, 401) && !HasStatus(e, 403)
    ensures Classify(e) == Unrecoverable || Classify(e) == Other
  {
  }

  // ---------------------------------------------------------------- single-flight refresh

  /**
   * The refresh coordinator: `isRefreshing`, the requests suspended on the
   * shared `refreshPromise` (the leader first), and how many refresh calls
   * were issued and have settled.
   */
  datatype Coordinator = Coordinator(isRefreshing: bool, waiters: seq<Request>, issued: nat, settled: nat)

  const Idle := Coordinator(false, [], 0, 0)

  /** At most one refresh is in flight, and only then are requests waiting on it. */
  ghost predicate SingleFlight(c: Coordinator) {
    && c.issued == c.settled + (if c.isRefreshing then 1 else 0)
    && (c.isRefreshing <==> c.waiters != [])
  }

  /** Every request in `reqs` carries the `_retry` flag. */
  predicate AllMarked(reqs: seq<Request>) {
    forall i :: 0 <= i < |reqs| ==> reqs[i].retried
  }

  /**
   * An ordinary 401 joins the refresh: with one in flight it waits on the
   * shared promise; otherwise it becomes the leader and issues the call.
   */
  function JoinRefresh(c: Coordinator, req: Request): Coordinator {
    if c.isRefreshing then c.(waiters := c.waiters + [req])
    else Coordinator(true, [req], c.issued + 1, c.settled)
  }

  /** The refresh settles: the state is reset before any waiter resumes. */
  function Settle(c: Coordinator): Coordinator
    requires c.isRefreshing
  {
    Coordinator(false, [], c.issued, c.settled + 1)
  }

  /** Several 401s observed one after the other, before the refresh settles. */
  function JoinAll(c: Coordinator, reqs: seq<Request>): Coordinator
    decreases |reqs|
  {
    if reqs == [] then c else JoinAll(JoinRefresh(c, reqs[0]), reqs[1..])
  }

  lemma JoinKeepsSingleFlight(c: Coordinator, req: Request)
    requires SingleFlight(c)
    ensures SingleFlight(JoinRefresh(c, req)) && JoinRefresh(c, req).isRefreshing
  {
  }

  lemma SettleKeepsSingleFlight(c: Coordinator)
    requires SingleFlight(c) && c.isRefreshing
    ensures SingleFlight(Settle(c)) && Settle(c).waiters == []
  {
  }

  /**
   * Single flight: any number of 401s arriving while no refresh settles
   * issue at most one refresh call (exactly one when none was in flight), and
   * every one of them waits on it, in arrival order.
   */
  lemma {:induction false} JoinAllSharesOneRefresh(c: Coordinator, reqs: seq<Request>)
    requires SingleFlight(c) && reqs != []
    ensures var d := JoinAll(c, reqs);
      && SingleFlight(d) && d.isRefreshing
      && d.waiters == c.waiters + reqs
      && d.issued == c.issued + (if c.isRefreshing then 0 else 1)
      && d.settled == c.settled
    decreases |reqs|
  {
    var c' := JoinRefresh(c, reqs[0]);
    JoinKeepsSingleFlight(c, reqs[0]);
    assert c'.waiters == c.waiters + [reqs[0]];
    if |reqs| > 1 {
      JoinAllSharesOneRefresh(c', reqs[1..]);
      assert c.waiters + [reqs[0]] + reqs[1..] == c.waiters + reqs;
    } else {
      assert reqs == [reqs[0]];
    }
  }

  /**
   * Once a refresh has settled, the next 401 starts a genuinely new refresh
   * rather than reusing the settled outcome.
   */
  lemma NextFailureAfterSettleStartsNewRefresh(c: Coordinator, req: Request)
    requires SingleFlight(c) && c.isRefreshing
    ensures JoinRefresh(Settle(c), req).issued == c.issued + 1
    ensures JoinRefresh(Settle(c), req).waiters == [req]
  {
  }

  /**
   * Two requests failing with 401 in the same tick: one refresh call is
   * issued, and when it settles both are released together.
   */
  lemma TwoUnauthorizedShareOneRefresh(a: Request, b: Request)
    ensures JoinAll(Idle, [a, b]).isRefreshing
    ensures JoinAll(Idle, [a, b]).issued == 1
    ensures JoinAll(Idle, [a, b]).waiters == [a, b]
    ensures Settle(JoinAll(Idle, [a, b])) == Coordinator(false, [], 1, 1)
  {
    JoinAllSharesOneRefresh(Idle, [a, b]);
  }

  // ---------------------------------------------------------------- the session client

  /** Browser side effects the interceptor performs, in order. */
  datatype Effect =
    | RedirectToLoginWithMessage(message: string)   // window.location.href = /login?message=...
    | RedirectToLogin                               // window.location.href = /login
    | AlertPasswordExpired
    | RedirectToChangePassword

  /** What becomes of the failed request's promise. */
  datatype Reaction =
    | Rejected(error: HttpError)     // rejects with this error
    | AwaitingRefresh                // suspended on the shared refresh promise
    | Resend(request: Request)       // `apiClient(originalRequest)`

  function IdleLogoutEffects(path: string, message: string): seq<Effect> {
    if path != "/login" then [RedirectToLoginWithMessage(message)] else []
  }

  function RefreshFailureEffects(path: string): seq<Effect> {
    if path != "/login" && path != "/register" then [RedirectToLogin] else []
  }

  function PasswordExpiredEffects(path: string): seq<Effect> {
    if path != "/change-password" then [AlertPasswordExpired, RedirectToChangePassword] else []
  }

  /**
   * The apiClient instance with its module state: the token cache it reads,
   * the auth store it clears, the refresh coordinator and the effect log.
   */
  class SessionClient {
    const csrf: Csrf.TokenCache
    const auth: AuthStore.Store
    var isRefreshing: bool
    var waiters: seq<Request>
    var refreshCalls: nat
    var refreshesSettled: nat
    var effects: seq<Effect>

    function Coord(): Coordinator
      reads this
    {
      Coordinator(isRefreshing, waiters, refreshCalls, refreshesSettled)
    }

    /** Single flight holds, and every request waiting on the refresh is already marked `_retry`. */
    ghost predicate Valid()
      reads this
    {
      SingleFlight(Coord()) && AllMarked(waiters)
    }

    constructor (cache: Csrf.TokenCache, store: AuthStore.Store)
      ensures csrf == cache && auth == store
      ensures Valid() && Coord() == Idle && effects == []
    {
      csrf, auth := cache, store;
      isRefreshing, waiters := false, [];
      refreshCalls, refreshesSettled := 0, 0;
      effects := [];
    }

    /**
     * The request interceptor: fetches a token first when `NeedsTokenFetch`
     * holds (using `fetch` as the outcome of that GET), then attaches the
     * token held afterwards if it is truthy.
     */
    method PrepareRequest(req: Request, fetch: Csrf.FetchOutcome) returns (out: Request)
      modifies csrf
      ensures out == WithCsrfHeader(req, TokenAfterRequestPhase(req, old(csrf.token), fetch))
      ensures NeedsTokenFetch(req, old(csrf.token)) ==> csrf.token == Csrf.AfterFetch(old(csrf.token), fetch)
      ensures !NeedsTokenFetch(req, old(csrf.token)) ==> csrf.token == old(csrf.token)
    {
      out := req;
      if req.verb != "get" {
        var token := csrf.Get();
        if !Truthy(token) && !IsMetaRoute(req.url) {
          token := csrf.Fetch(fetch);
        }
        if Truthy(token) {
          out := req.(csrfHeader := token);
        }
      }
    }

    /**
     * The response interceptor's error handler. `path` is the current
     * `window.location.pathname`; `fetch` is the outcome of the token refetch,
     * used only on the CSRF path.
     */
    method OnError(e: HttpError, path: string, fetch: Csrf.FetchOutcome) returns (r: Reaction)
      requires Valid()
      modifies this, csrf, auth
      ensures Valid()
      ensures Classify(e) in {Unrecoverable, UnauthorizedAuthRoute, Other} ==>
        && r == Rejected(e)
        && Coord() == old(Coord()) && effects == old(effects)
        && unchanged(csrf) && unchanged(auth)
      ensures Classify(e).UnauthorizedIdle? ==>
        && r == Rejected(e)
        && auth.user == None && !auth.isAuthenticated
        && auth.storage == old(auth.storage) - {AuthStore.USER_KEY}
        && effects == old(effects) + IdleLogoutEffects(path, Classify(e).message)
        && Coord() == old(Coord()) && unchanged(csrf)
      ensures Classify(e) == Unauthorized ==>
        && r == AwaitingRefresh
        && Coord() == JoinRefresh(old(Coord()), e.config.value.(retried := true))
        && effects == old(effects)
        && unchanged(csrf) && unchanged(auth)
      ensures Classify(e) == ForbiddenPasswordExpired ==>
        && r == Rejected(MarkRetried(e))
        && effects == old(effects) + PasswordExpiredEffects(path)
        && Coord() == old(Coord()) && unchanged(csrf) && unchanged(auth)
      ensures Classify(e) == ForbiddenCsrf ==>
        && r == Resend(e.config.value.(retried := true))
        && (forall response :: Classify(HttpError(Some(r.request), response)) == Unrecoverable)
        && csrf.token == Csrf.AfterFetch(old(csrf.token), fetch)
        && Coord() == old(Coord()) && effects == old(effects) && unchanged(auth)
    {
      var f := Classify(e);
      match f
      case Unrecoverable =>
        r := Rejected(e);
      case UnauthorizedAuthRoute =>
        r := Rejected(e);
      case Other =>
        r := Rejected(e);
      case UnauthorizedIdle(message) =>
        auth.Logout();
        effects := effects + IdleLogoutEffects(path, message);
        r := Rejected(e);
      case Unauthorized =>
        var marked := e.config.value.(retried := true);
        if isRefreshing {
          waiters := waiters + [marked];
        } else {
          isRefreshing := true;
          refreshCalls := refreshCalls + 1;
          waiters := [marked];
        }
        r := AwaitingRefresh;
      case ForbiddenPasswordExpired =>
        effects := effects + PasswordExpiredEffects(path);
        r := Rejected(MarkRetried(e));
      case ForbiddenCsrf =>
        var _ := csrf.Fetch(fetch);
        r := Resend(e.config.value.(retried := true));
    }

    /**
     * The shared refresh settles (`ok` is whether `POST /auth/refresh`
     * succeeded). The coordinator is reset first; on success every waiter is
     * resent once, on failure the user is cleared, the page is sent to
     * /login unless it is on /login or /register, and every waiter rejects
     * with the refresh error.
     */
    method RefreshSettles(ok: bool, path: string) returns (resent: seq<Request>, rejected: seq<Request>)
      requires Valid() && isRefreshing
      modifies this, auth
      ensures Valid() && Coord() == Settle(old(Coord()))
      ensures forall i, response :: 0 <= i < |resent| ==> Classify(HttpError(Some(resent[i]), response)) == Unrecoverable
      ensures ok ==> resent == old(waiters) && rejected == [] && effects == old(effects) && unchanged(auth)
      ensures !ok ==>
        && resent == [] && rejected == old(waiters)
        && auth.user == None && !auth.isAuthenticated
        && auth.storage == old(auth.storage) - {AuthStore.USER_KEY}
        && effects == old(effects) + RefreshFailureEffects(path)
    {
      var released := waiters;
      if ok {
        resent, rejected := released, [];
      } else {
        auth.ClearUser();
        effects := effects + RefreshFailureEffects(path);
        resent, rejected := [], released;
      }
      isRefreshing, waiters := false, [];
      refreshesSettled := refreshesSettled + 1;
    }
  }

  /**
   * No request is resent twice. Both resending policies send the request
   * marked `_retry` (the refresh by way of the waiting list, whose requests
   * are all marked), so whatever the request's next failure, it is rejected
   * unchanged rather than recovered again.
   */
  lemma ResentRequestsAreNotRetriedAgain(c: Coordinator, e: HttpError, response: Option<ErrorResponse>)
    requires AllMarked(c.waiters) && e.config.Some?
    requires Classify(e) == Unauthorized || Classify(e) == ForbiddenCsrf
    ensures var req := e.config.value.(retried := true);
      && Classify(HttpError(Some(req), response)) == Unrecoverable
      && AllMarked(JoinRefresh(c, req).waiters)
      && forall i :: 0 <= i < |JoinRefresh(c, req).waiters| ==>
        Classify(HttpError(Some(JoinRefresh(c, req).waiters[i]), response)) == Unrecoverable
  {
    var req := e.config.value.(retried := true);
    var w := JoinRefresh(c, req).waiters;
    assert w == c.waiters + [req] || w == [req];
    forall i | 0 <= i < |w| ensures w[i].retried {
      if w == [req] || i == |w| - 1 {
      } else {
        assert w[i] == c.waiters[i];
      }
    }
  }
}
