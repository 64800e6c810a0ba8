/**
 * The interceptors of the shared HTTP client (src/lib/api/client.ts): the
 * request side attaches the session token as a bearer credential, the
 * response side normalises error messages and revokes the session on 401.
 * The transport itself is not modelled; the browser window is an explicit
 * object, absent during server-side rendering.
 */
module ApiClient {
  import opened Wrappers
  import opened JsStrings
  import opened Cookies
  import Session
  import UriComponent
  import Routes

  const AUTHORIZATION := "Authorization"
  const BEARER_PREFIX := "Bearer "
  const FALLBACK_MESSAGE := "An unexpected error occurred"
  const UNAUTHORIZED := 401

  /** The pages a 401 does not redirect away from; matched as prefixes of the current path. */
  const AUTH_PAGES: seq<string> := ["/login", "/register", "/forgot-password"]

  /** The start of the redirect URL; the encoded current path follows it. */
  const LOGIN_REDIRECT_PREFIX := Routes.LOGIN + "?callbackUrl="

  type Headers = map<string, string>

  // ---------------------------------------------------------------------------
  // Request interceptor
  // ---------------------------------------------------------------------------

  /**
   * The headers after the request interceptor: a non-empty token and an
   * existing headers object give `Authorization: Bearer <token>`; otherwise
   * the headers are left alone. No other header is ever touched.
   */
  function WithBearer(headers: Option<Headers>, token: Option<string>): (r: Option<Headers>)
    ensures r.Some? <==> headers.Some?
    ensures r.Some? ==> r.value - {AUTHORIZATION} == headers.value - {AUTHORIZATION}
    ensures IsTruthy(token) && headers.Some? ==>
      AUTHORIZATION in r.value && r.value[AUTHORIZATION] == "Bearer " + token.value
    ensures !IsTruthy(token) ==> r == headers
  {
    if IsTruthy(token) && headers.Some? then
      var h := headers.value;
      var r := h[AUTHORIZATION := BEARER_PREFIX + token.value];
      assert r - {AUTHORIZATION} == h - {AUTHORIZATION};
      Some(r)
    else headers
  }

  /** Running the interceptor a second time with the same cookie changes nothing more. */
  lemma WithBearerIdempotent(headers: Option<Headers>, token: Option<string>)
    ensures WithBearer(WithBearer(headers, token), token) == WithBearer(headers, token)
  {
    if IsTruthy(token) && headers.Some? {
      var r := headers.value[AUTHORIZATION := BEARER_PREFIX + token.value];
      assert r[AUTHORIZATION := BEARER_PREFIX + token.value] == r;
    }
  }

  /** The request configuration axios hands to the interceptor. */
  class RequestConfig {
    var httpMethod: string
    var url: string
    var headers: Option<Headers>

    constructor (httpMethod: string, url: string, headers: Option<Headers>)
      ensures this.httpMethod == httpMethod && this.url == url && this.headers == headers
    {
      this.httpMethod, this.url, this.headers := httpMethod, url, headers;
    }
  }

  /** The request interceptor: reads the cookie and updates the configuration's headers in place. */
  method InterceptRequest(jar: CookieJar, config: RequestConfig) returns (r: RequestConfig)
    modifies config`headers
    ensures r == config
    ensures config.headers == WithBearer(old(config.headers), jar.Get(Session.TOKEN_KEY))
  {
    var token := jar.Get(Session.TOKEN_KEY);
    if IsTruthy(token) && config.headers.Some? {
      config.headers := Some(config.headers.value[AUTHORIZATION := BEARER_PREFIX + token.value]);
    }
    r := config;
  }

  // ---------------------------------------------------------------------------
  // Response interceptor: the pure rules
  // ---------------------------------------------------------------------------

  /**
   * What the interceptor reads of an AxiosError: the HTTP status if a
   * response arrived, the payload's `message` field if present, and the
   * transport error's own message.
   */
  datatype AxiosError = AxiosError(status: Option<int>, payloadMessage: Option<string>, message: string)

  /** JavaScript's `a || b` on optional strings. */
  function Or(a: Option<string>, b: Option<string>): Option<string> {
    if IsTruthy(a) then a else b
  }

  /** `data?.message || error.message || 'An unexpected error occurred'`. */
  function NormalizeMessage(payloadMessage: Option<string>, errorMessage: string): (m: string)
    ensures m != ""
    ensures IsTruthy(payloadMessage) ==> m == payloadMessage.value
    ensures !IsTruthy(payloadMessage) && errorMessage != "" ==> m == errorMessage
    ensures !IsTruthy(payloadMessage) && errorMessage == "" ==> m == "An unexpected error occurred"
  {
    Or(Or(payloadMessage, Some(errorMessage)), Some(FALLBACK_MESSAGE)).value
  }

  /** `authPages.some((page) => currentPath.startsWith(page))`. */
  predicate IsAuthPage(currentPath: string) {
    SomeStartsWith(currentPath, AUTH_PAGES)
  }

  /** `/login?callbackUrl=${encodeURIComponent(currentPath)}`. */
  function LoginRedirectUrl(currentPath: string): string {
    LOGIN_REDIRECT_PREFIX + UriComponent.Encode(currentPath)
  }

  /** What handling one failed response amounts to. */
  datatype ErrorHandling = ErrorHandling(rejected: AxiosError, removeToken: bool, redirectTo: Option<string>)

  /**
   * The response interceptor's error branch. `window` is the browser's
   * current pathname, or `None` when no window exists.
   */
  function HandleError(error: AxiosError, window: Option<string>): (h: ErrorHandling)
    ensures h.rejected == error.(message := NormalizeMessage(error.payloadMessage, error.message))
    ensures h.removeToken <==> error.status == Some(401)
    ensures h.redirectTo.Some? <==> error.status == Some(401) && window.Some? && !IsAuthPage(window.value)
    ensures h.redirectTo.Some? ==> h.redirectTo.value == LoginRedirectUrl(window.value)
  {
    var currentPath := if window.Some? then window.value else "";
    var message := NormalizeMessage(error.payloadMessage, error.message);
    if error.status == Some(UNAUTHORIZED) then
      var isAuthPage := IsAuthPage(currentPath);
      var redirect := if window.Some? && !isAuthPage then Some(LoginRedirectUrl(currentPath)) else None;
      ErrorHandling(error.(message := message), true, redirect)
    else
      ErrorHandling(error.(message := message), false, None)
  }

  // ---------------------------------------------------------------------------
  // Properties of the rules
  // ---------------------------------------------------------------------------

  /** The auth-page test is a prefix match: `/login-help` counts, the feed and the home page do not. */
  lemma AuthPageExamples()
    ensures IsAuthPage("/login") && IsAuthPage("/register") && IsAuthPage("/forgot-password")
    ensures IsAuthPage("/login-help") && IsAuthPage("/register/step-2")
    ensures !IsAuthPage("/feed") && !IsAuthPage("/") && !IsAuthPage("") && !IsAuthPage("/me")
  {
  }

  /** The redirect URL goes to the login page and its `callbackUrl` decodes to the path it came from. */
  lemma {:induction false} RedirectCarriesPath(currentPath: string)
    ensures StartsWith(LoginRedirectUrl(currentPath), "/login?")
    ensures var value := LoginRedirectUrl(currentPath)[|LOGIN_REDIRECT_PREFIX|..];
      && UriComponent.Decode(value) == Some(currentPath)
      && (forall i :: 0 <= i < |value| ==> value[i] != '&' && value[i] != '#' && value[i] != '?')
  {
    var url := LoginRedirectUrl(currentPath);
    assert url[..|LOGIN_REDIRECT_PREFIX|] == LOGIN_REDIRECT_PREFIX;
    assert url[..7] == LOGIN_REDIRECT_PREFIX[..7];
    assert url[|LOGIN_REDIRECT_PREFIX|..] == UriComponent.Encode(currentPath);
    UriComponent.EncodeRoundTrip(currentPath);
  }

  /** The page a 401 redirects to is an auth page, so a 401 received there redirects no further. */
  lemma RedirectTargetIsAuthPage(error: AxiosError)
    ensures !HandleError(error, Some("/login")).redirectTo.Some?
  {
  }

  /** Non-401 failures, 5xx included, touch neither the cookie nor the location. */
  lemma OtherFailuresHaveNoSideEffects(error: AxiosError, window: Option<string>)
    requires error.status != Some(401)
    ensures !HandleError(error, window).removeToken
    ensures HandleError(error, window).redirectTo == None
    ensures HandleError(error, window).rejected.status == error.status
  {
  }

  /** Handling a 401 removes the token even when the request was a failed login made from the login page. */
  lemma FailedLoginStillClearsToken(payloadMessage: Option<string>, errorMessage: string)
    ensures var h := HandleError(AxiosError(Some(401), payloadMessage, errorMessage), Some("/login"));
      h.removeToken && h.redirectTo == None
  {
  }

  /** The redirect URL for the feed page. */
  lemma FeedRedirectUrl()
    ensures LoginRedirectUrl("/feed") == "/login?callbackUrl=%2Ffeed"
  {
    UriComponent.EncodeExample();
    assert LOGIN_REDIRECT_PREFIX == "/login?callbackUrl=";
  }

  /** A 401 while reading the profile from the feed clears the session and sends the user to log in. */
  lemma ProfileUnauthorizedExample()
    ensures HandleError(AxiosError(Some(401), Some("Unauthorized"), "Request failed with status code 401"), Some("/feed"))
         == ErrorHandling(AxiosError(Some(401), Some("Unauthorized"), "Unauthorized"), true,
                          Some("/login?callbackUrl=%2Ffeed"))
  {
    var error := AxiosError(Some(401), Some("Unauthorized"), "Request failed with status code 401");
    var h := HandleError(error, Some("/feed"));
    AuthPageExamples();
    FeedRedirectUrl();
    assert h.rejected == AxiosError(Some(401), Some("Unauthorized"), "Unauthorized");
    assert h.redirectTo == Some("/login?callbackUrl=%2Ffeed");
  }

  /** The path of a relative URL without a fragment: everything before its first `?`. */
  function PathOf(url: string): (p: string)
    ensures |p| <= |url| && p == url[..|p|]
    ensures '?' !in p
    ensures p == url || url[|p|] == '?'
  {
    if url == [] || url[0] == '?' then [] else [url[0]] + PathOf(url[1..])
  }

  lemma {:induction false} PathOfQuery(path: string, query: string)
    requires '?' !in path
    ensures PathOf(path + "?" + query) == path
  {
    if path != [] {
      assert (path + "?" + query)[1..] == path[1..] + "?" + query;
      PathOfQuery(path[1..], query);
    }
  }

  /** Whatever the current path, the redirect URL's path is the login page. */
  lemma RedirectPathIsLogin(currentPath: string)
    ensures PathOf(LoginRedirectUrl(currentPath)) == Routes.LOGIN
  {
    var encoded := UriComponent.Encode(currentPath);
    var query := "callbackUrl=" + encoded;
    assert LOGIN_REDIRECT_PREFIX == Routes.LOGIN + "?" + "callbackUrl=";
    assert LoginRedirectUrl(currentPath) == Routes.LOGIN + "?" + query;
    assert '?' !in Routes.LOGIN;
    PathOfQuery(Routes.LOGIN, query);
  }

  // ---------------------------------------------------------------------------
  // Response interceptor: the effects
  // ---------------------------------------------------------------------------

  /** The browser window: its current pathname and the URLs passed to `location.replace`, in order. */
  class BrowserWindow {
    var pathname: string
    var replacedWith: seq<string>

    constructor (pathname: string)
      ensures this.pathname == pathname && replacedWith == []
    {
      this.pathname, replacedWith := pathname, [];
    }

    /** `window.location.replace(url)`: starts a navigation; the page keeps its pathname until it unloads. */
    method Replace(url: string)
      modifies this
      ensures pathname == old(pathname) && replacedWith == old(replacedWith) + [url]
    {
      replacedWith := replacedWith + [url];
    }
  }

  /** How an axios call ended before the response interceptor. */
  datatype Outcome<R> = Fulfilled(response: R) | Failed(error: AxiosError)

  /** The promise the interceptor returns. */
  datatype Settled<R> = Resolved(value: R) | Rejected(reason: AxiosError)

  /** The current pathname as the interceptor reads it, `None` when there is no window. */
  function CurrentPath(window: BrowserWindow?): Option<string>
    reads window
  {
    if window == null then None else Some(window.pathname)
  }

  /**
   * The response interceptor: success passes through untouched; every
   * failure is rejected again with its normalised message, after the 401
   * rule has removed the cookie and possibly started the redirect.
   */
  method InterceptResponse<R>(jar: CookieJar, window: BrowserWindow?, outcome: Outcome<R>) returns (settled: Settled<R>)
    modifies jar, window
    ensures outcome.Fulfilled? ==> settled == Resolved(outcome.response) && jar.store == old(jar.store)
    ensures outcome.Fulfilled? && window != null ==> window.replacedWith == old(window.replacedWith)
    ensures outcome.Failed? ==>
      var h := HandleError(outcome.error, old(CurrentPath(window)));
      && settled == Rejected(h.rejected)
      && jar.store == (if h.removeToken then Session.WithoutSession(old(jar.store)) else old(jar.store))
      && (window != null ==> window.replacedWith == old(window.replacedWith) + (if h.redirectTo.Some? then [h.redirectTo.value] else []))
    ensures window != null ==> window.pathname == old(window.pathname)
  {
    match outcome
    case Fulfilled(response) =>
      settled := Resolved(response);
    case Failed(error) =>
      var currentPath := if window != null then window.pathname else "";
      var message := NormalizeMessage(error.payloadMessage, error.message);
      var rejected := error.(message := message);
      if error.status == Some(UNAUTHORIZED) {
        jar.Remove(Session.TOKEN_KEY);
        var isAuthPage := IsAuthPage(currentPath);
        if window != null && !isAuthPage {
          window.Replace(LoginRedirectUrl(currentPath));
        }
      }
      settled := Rejected(rejected);
  }

  /**
   * Two requests that both fail with 401, handled one after the other: the
   * cookie ends as after one, both are rejected as `HandleError` says, the
   * page stays where it is, and either both start the same redirect (on a
   * page other than an auth page) or neither does.
   */
  method UnauthorizedTwice<R>(jar: CookieJar, window: BrowserWindow?, first: AxiosError, second: AxiosError)
    returns (a: Settled<R>, b: Settled<R>)
    requires first.status == Some(401) && second.status == Some(401)
    modifies jar, window
    ensures jar.store == Session.WithoutSession(old(jar.store))
    ensures a == Rejected(HandleError(first, old(CurrentPath(window))).rejected)
    ensures b == Rejected(HandleError(second, old(CurrentPath(window))).rejected)
    ensures window != null ==> window.pathname == old(window.pathname)
    ensures window != null ==>
      window.replacedWith == old(window.replacedWith) +
        (if IsAuthPage(old(window.pathname)) then []
         else [LoginRedirectUrl(old(window.pathname)), LoginRedirectUrl(old(window.pathname))])
  {
    a := InterceptResponse(jar, window, Failed(first));
    b := InterceptResponse(jar, window, Failed(second));
    Session.ClearSessionIdempotent(old(jar.store));
  }
}
