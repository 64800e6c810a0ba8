/**
 * How the shared `token` cookie ties the pieces together: the login flow
 * writes it, the request interceptor and the edge guard read it, and logout
 * and the 401 rule remove it.
 */
module SessionFlow {
  import opened Wrappers
  import opened Cookies
  import opened Session
  import Routes
  import Proxy
  import ApiClient

  /** The navigation request the browser makes for `pathname` with the current cookies. */
  function NavigationTo(pathname: string, store: Store): Proxy.Request {
    Proxy.Request(pathname, RequestCookies(store))
  }

  /** After a login stores a non-empty token, every request carries exactly that bearer token. */
  lemma LoginThenBearer(store: Store, token: string, headers: ApiClient.Headers)
    requires token != ""
    ensures var r := ApiClient.WithBearer(Some(headers), Lookup(WithSession(store, token), TOKEN_KEY));
      r.Some? && r.value[ApiClient.AUTHORIZATION] == "Bearer " + token
  {
  }

  /** After logout the interceptor leaves the headers as the caller wrote them. */
  lemma LogoutThenNoBearer(store: Store, headers: Option<ApiClient.Headers>)
    ensures ApiClient.WithBearer(headers, Lookup(WithoutSession(store), TOKEN_KEY)) == headers
  {
  }

  /** After logout every protected page sends the user to log in, and the login page is shown. */
  lemma LogoutThenGuardRedirects(store: Store, pathname: string)
    requires Proxy.IsProtectedPath(pathname)
    ensures Proxy.Guard(NavigationTo(pathname, WithoutSession(store)))
         == Proxy.Redirect(Proxy.Location(Routes.LOGIN, Some(pathname)))
    ensures Proxy.Guard(NavigationTo(Routes.LOGIN, WithoutSession(store))) == Proxy.Next
  {
    assert Proxy.RawToken(NavigationTo(pathname, WithoutSession(store))) == None;
    Proxy.ProtectedNeedsToken(NavigationTo(pathname, WithoutSession(store)));
    Proxy.AuthOnlyNeedsNoToken(NavigationTo(Routes.LOGIN, WithoutSession(store)));
  }

  /** A well-formed token, once stored, opens the protected pages and closes the auth-only ones. */
  lemma LoginThenGuardAdmits(store: Store, token: string, pathname: string)
    requires Proxy.IsValidJwtStructure(token)
    ensures Proxy.IsProtectedPath(pathname) ==> Proxy.Guard(NavigationTo(pathname, WithSession(store, token))) == Proxy.Next
    ensures Proxy.IsAuthOnlyPath(pathname) ==>
      Proxy.Guard(NavigationTo(pathname, WithSession(store, token))) == Proxy.Redirect(Proxy.Location(Routes.FEED, None))
  {
    var request := NavigationTo(pathname, WithSession(store, token));
    assert Proxy.RawToken(request) == Some(token);
    assert token != "" by { Proxy.MalformedTokens(); }
    if Proxy.IsProtectedPath(pathname) {
      Proxy.ProtectedNeedsToken(request);
    }
    if Proxy.IsAuthOnlyPath(pathname) {
      Proxy.AuthOnlyNeedsNoToken(request);
    }
  }

  /** Every page the guard keeps signed-in users away from is one the 401 rule does not redirect from. */
  lemma AuthOnlyRoutesAreAuthPages(pathname: string)
    requires Proxy.IsAuthOnlyPath(pathname)
    ensures ApiClient.IsAuthPage(pathname)
  {
  }

  /**
   * A 401 from a page other than an auth page redirects to a URL whose path
   * is the login page; the cookie is gone by then, so the guard lets that
   * navigation through, and a further 401 there does not redirect again.
   */
  lemma UnauthorizedLandsOnLogin(store: Store, error: ApiClient.AxiosError, window: Option<string>)
    requires error.status == Some(401)
    ensures ApiClient.HandleError(error, window).removeToken
    ensures window.Some? && !ApiClient.IsAuthPage(window.value) ==>
      var url := ApiClient.HandleError(error, window).redirectTo;
      && url.Some?
      && ApiClient.PathOf(url.value) == Routes.LOGIN
      && Proxy.Guard(NavigationTo(ApiClient.PathOf(url.value), WithoutSession(store))) == Proxy.Next
    ensures ApiClient.HandleError(error, Some(Routes.LOGIN)).redirectTo == None
  {
    LogoutThenGuardRedirects(store, Routes.HOME);
    ApiClient.RedirectTargetIsAuthPage(error);
    if window.Some? && !ApiClient.IsAuthPage(window.value) {
      ApiClient.RedirectPathIsLogin(window.value);
    }
  }
}
