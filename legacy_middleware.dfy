/**
 * The older route guard: login state is the mere presence of an `auth`
 * cookie, and neither the root page nor logout is treated specially.
 */
module LegacyMiddleware {
  import opened Text

  const SessionCookieName := "auth"
  const LoginPath := "/auth/login"
  const DashboardPath := "/dashboard"

  type Cookies = map<string, string>

  datatype Response = Next | Redirect(location: string)

  /** `request.cookies.get('auth')` is a cookie object, truthy whatever its value. */
  predicate IsLoggedIn(cookies: Cookies) {
    SessionCookieName in cookies
  }

  predicate IsAuthPage(pathname: string) {
    StartsWith(pathname, "/auth") || pathname == "/login"
  }

  predicate Skipped(pathname: string) {
    StartsWith(pathname, "/api") || StartsWith(pathname, "/_next") || '.' in pathname
  }

  /** `middleware` of the older guard. */
  function Decide(pathname: string, cookies: Cookies): (r: Response)
    ensures Skipped(pathname) ==> r == Next
    ensures !Skipped(pathname) ==> (r == Next <==> IsLoggedIn(cookies) != IsAuthPage(pathname))
    ensures r.Redirect? ==> (r.location == LoginPath <==> !IsLoggedIn(cookies))
    ensures r.Redirect? && IsLoggedIn(cookies) ==> r.location == DashboardPath
  {
    if Skipped(pathname) then Next
    else if !IsLoggedIn(cookies) && !IsAuthPage(pathname) then Redirect(LoginPath)
    else if IsLoggedIn(cookies) && IsAuthPage(pathname) then Redirect(DashboardPath)
    else Next
  }

  /** The session cookie counts even when its value is empty. */
  lemma EmptyCookieCountsAsSession(pathname: string)
    requires !Skipped(pathname) && IsAuthPage(pathname)
    ensures Decide(pathname, map[SessionCookieName := ""]) == Redirect(DashboardPath)
  {
  }

  /** The root page is not exempt: a logged-out visit goes to the login page. */
  lemma RootIsGuarded(cookies: Cookies)
    requires !IsLoggedIn(cookies)
    ensures Decide("/", cookies) == Redirect(LoginPath)
  {
    assert !StartsWith("/", "/auth") && !StartsWith("/", "/api") && !StartsWith("/", "/_next");
  }

  /** A logged-in user cannot reach the logout page: like every auth page it
      sends them to the dashboard. */
  lemma LogoutUnreachableWhenLoggedIn(cookies: Cookies)
    requires IsLoggedIn(cookies)
    ensures Decide("/auth/logout", cookies) == Redirect(DashboardPath)
  {
    var p := "/auth/logout";
    assert p[..5] == "/auth" && p[..4][2] != "/api"[2] && p[..6][1] != "/_next"[1];
    assert forall k :: 0 <= k < |p| ==> p[k] != '.';
  }

  /** No redirect loop: both redirect targets let the redirected user through. */
  lemma NoRedirectLoop(cookies: Cookies)
    ensures !IsLoggedIn(cookies) ==> Decide(LoginPath, cookies) == Next
    ensures IsLoggedIn(cookies) ==> Decide(DashboardPath, cookies) == Next
  {
    assert LoginPath[..5] == "/auth" && LoginPath[..4][2] != "/api"[2] && LoginPath[..6][1] != "/_next"[1];
    assert forall k :: 0 <= k < |LoginPath| ==> LoginPath[k] != '.';
    assert DashboardPath[..5] != "/auth" && DashboardPath[..4] != "/api" && DashboardPath[..6] != "/_next";
    assert forall k :: 0 <= k < |DashboardPath| ==> DashboardPath[k] != '.';
  }
}
