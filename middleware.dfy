/**
 * The route guard: decides for each request path, from the request's
 * cookies, whether it passes, is sent to the login page or to the dashboard,
 * or is a logout.
 */
module Middleware {
  import opened Text

  const AuthCookieName := "auth_session"
  const UserCookieName := "user_data"
  /** The older session cookie, still read as a fallback. */
  const FallbackCookieName := "auth"

  const LoginPath := "/auth/login"
  const LogoutPath := "/auth/logout"
  const DashboardPath := "/dashboard"

  /** The request's cookies, by name. */
  type Cookies = map<string, string>

  /** `NextResponse.next()`, or a redirect that also deletes some cookies. */
  datatype Response = Next | Redirect(location: string, deleted: set<string>)

  /** `request.cookies.get(name)?.value` is a non-empty string. */
  predicate HasValue(cookies: Cookies, name: string) {
    name in cookies && cookies[name] != ""
  }

  /** The session cookie's value, or failing that the fallback's, is non-empty. */
  predicate IsLoggedIn(cookies: Cookies) {
    HasValue(cookies, AuthCookieName) || HasValue(cookies, FallbackCookieName)
  }

  predicate IsAuthPage(pathname: string) {
    StartsWith(pathname, "/auth") || pathname == "/login"
  }

  predicate IsApiRoute(pathname: string) {
    StartsWith(pathname, "/api")
  }

  predicate IsPublicFile(pathname: string) {
    StartsWith(pathname, "/_next") || '.' in pathname || StartsWith(pathname, "/favicon.ico")
  }

  predicate IsRootPage(pathname: string) {
    pathname == "/"
  }

  /** Paths the guard lets through without looking at the cookies. */
  predicate Skipped(pathname: string) {
    IsApiRoute(pathname) || IsPublicFile(pathname) || IsRootPage(pathname)
  }

  /** `middleware`, as written. */
  function Decide(pathname: string, cookies: Cookies): (r: Response)
    ensures Skipped(pathname) ==> r == Next
    ensures r.Redirect? ==> r.location == LoginPath || r.location == DashboardPath
    ensures r.Redirect? && r.deleted != {} ==> pathname == LogoutPath
  {
    if Skipped(pathname) then Next
    else if pathname == LogoutPath then Redirect(LoginPath, {AuthCookieName, UserCookieName})
    else if !IsLoggedIn(cookies) && !IsAuthPage(pathname) then Redirect(LoginPath, {})
    else if IsLoggedIn(cookies) && IsAuthPage(pathname) then Redirect(DashboardPath, {})
    else Next
  }

  /** The cookies the browser sends next, once it has applied the response. */
  function AfterResponse(cookies: Cookies, r: Response): (next: Cookies)
    ensures r.Redirect? ==> next.Keys == cookies.Keys - r.deleted
    ensures forall name :: name in next ==> name in cookies && next[name] == cookies[name]
    ensures r.Next? ==> next == cookies
  {
    if r.Redirect? then map name | name in cookies && name !in r.deleted :: cookies[name] else cookies
  }

  /** The logout path always redirects to the login page and deletes the
      session and user cookies, whatever the login state. */
  lemma LogoutRedirectsToLogin(cookies: Cookies)
    ensures Decide(LogoutPath, cookies) == Redirect(LoginPath, {AuthCookieName, UserCookieName})
  {
    assert !Skipped(LogoutPath) by {
      assert LogoutPath[..4] != "/api" && LogoutPath[..6] != "/_next" && LogoutPath[..12] != "/favicon.ico";
      assert forall k :: 0 <= k < |LogoutPath| ==> LogoutPath[k] != '.';
    }
  }

  /** How a path the guard does not skip is handled. */
  lemma GuardedPaths(pathname: string, cookies: Cookies)
    requires !Skipped(pathname) && pathname != LogoutPath
    ensures !IsLoggedIn(cookies) && !IsAuthPage(pathname) ==> Decide(pathname, cookies) == Redirect(LoginPath, {})
    ensures IsLoggedIn(cookies) && IsAuthPage(pathname) ==> Decide(pathname, cookies) == Redirect(DashboardPath, {})
    ensures Decide(pathname, cookies) == Next <==> IsLoggedIn(cookies) != IsAuthPage(pathname)
  {
  }

  lemma LoginPageIsGuarded()
    ensures !Skipped(LoginPath) && IsAuthPage(LoginPath) && LoginPath != LogoutPath
  {
    assert LoginPath[..4] != "/api" && LoginPath[..6] != "/_next" && LoginPath[..11] != "/favicon.ic";
    assert forall k :: 0 <= k < |LoginPath| ==> LoginPath[k] != '.';
    assert LoginPath[..5] == "/auth";
  }

  lemma DashboardIsGuarded()
    ensures !Skipped(DashboardPath) && !IsAuthPage(DashboardPath) && DashboardPath != LogoutPath
  {
    assert DashboardPath[..4] != "/api" && DashboardPath[..6] != "/_next" && DashboardPath[..5] != "/auth";
    assert forall k :: 0 <= k < |DashboardPath| ==> DashboardPath[k] != '.';
  }

  /** No redirect loop: the login page lets a logged-out user through, and the
      dashboard lets a logged-in user through. */
  lemma NoRedirectLoop(cookies: Cookies)
    ensures !IsLoggedIn(cookies) ==> Decide(LoginPath, cookies) == Next
    ensures IsLoggedIn(cookies) ==> Decide(DashboardPath, cookies) == Next
  {
    LoginPageIsGuarded();
    DashboardIsGuarded();
  }

  /** Every redirect other than logout settles: following it with the cookies
      the browser then holds, the guard lets the request through. */
  lemma RedirectsSettle(pathname: string, cookies: Cookies)
    requires pathname != LogoutPath
    requires Decide(pathname, cookies).Redirect?
    ensures Decide(Decide(pathname, cookies).location,
                   AfterResponse(cookies, Decide(pathname, cookies))) == Next
  {
    LoginPageIsGuarded();
    DashboardIsGuarded();
  }

  /** Logout leaves the fallback cookie in place: a user whose session rests
      on it is still logged in when the login page is requested and is sent
      back to the dashboard. */
  lemma LogoutKeepsFallbackSession(cookies: Cookies)
    requires HasValue(cookies, FallbackCookieName)
    ensures var r := Decide(LogoutPath, cookies);
            var after := AfterResponse(cookies, r);
            r.Redirect? && r.location == LoginPath && IsLoggedIn(after)
            && Decide(LoginPath, after) == Redirect(DashboardPath, {})
  {
    LogoutRedirectsToLogin(cookies);
    LoginPageIsGuarded();
    var after := AfterResponse(cookies, Decide(LogoutPath, cookies));
    assert FallbackCookieName in after;
  }

  /** The guard with logout also deleting the fallback cookie. */
  function DecideFixed(pathname: string, cookies: Cookies): (r: Response)
    ensures Skipped(pathname) ==> r == Next
    ensures r.Redirect? ==> r.location == LoginPath || r.location == DashboardPath
  {
    if !Skipped(pathname) && pathname == LogoutPath then
      Redirect(LoginPath, {AuthCookieName, UserCookieName, FallbackCookieName})
    else Decide(pathname, cookies)
  }

  /** With the fallback cookie deleted too, logout logs the user out, and
      every redirect, logout included, settles on the page it points to. */
  lemma FixedRedirectsSettle(pathname: string, cookies: Cookies)
    requires DecideFixed(pathname, cookies).Redirect?
    ensures pathname == LogoutPath ==>
              !IsLoggedIn(AfterResponse(cookies, DecideFixed(pathname, cookies)))
    ensures DecideFixed(DecideFixed(pathname, cookies).location,
                        AfterResponse(cookies, DecideFixed(pathname, cookies))) == Next
  {
    LoginPageIsGuarded();
    DashboardIsGuarded();
    if pathname != LogoutPath {
      RedirectsSettle(pathname, cookies);
    }
  }
}
