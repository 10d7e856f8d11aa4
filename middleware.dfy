/** The request guard that runs before every matched route (middleware.ts): protected
    paths need a session, and a signed-in user is sent away from the sign-in and
    sign-up pages. */
module Middleware {
  import opened Common

  const ProtectedRoutes: seq<string> := ["/dashboard", "/subscription", "/api/swap/image", "/api/status", "/api/result"]
  const SignInPage := "/auth/signin"
  const SignUpPage := "/auth/signup"
  const Dashboard := "/dashboard"
  const LoginRequired := "請先登入"

  /** What the guard answers: pass the request on, a 401 JSON error, or a redirect to
      `path` carrying a `callbackUrl` query parameter when one is set. */
  datatype Decision =
    | Next
    | Unauthorized(error: string)
    | Redirect(path: string, callbackUrl: Option<string>)

  /** `routes.some(route => pathname.startsWith(route))`. */
  function AnyPrefix(routes: seq<string>, pathname: string): (b: bool)
    ensures b <==> exists i :: 0 <= i < |routes| && StartsWith(pathname, routes[i])
  {
    if routes == [] then false
    else
      var b := StartsWith(pathname, routes[0]) || AnyPrefix(routes[1..], pathname);
      assert forall i :: 1 <= i < |routes| ==> routes[1..][i - 1] == routes[i];
      assert !b ==> forall i :: 0 <= i < |routes| ==> !StartsWith(pathname, routes[i]) by {
        if !b {
          forall i | 0 <= i < |routes| ensures !StartsWith(pathname, routes[i]) {
            if i > 0 {
              assert routes[1..][i - 1] == routes[i];
            }
          }
        }
      }
      b
  }

  predicate IsProtected(pathname: string)
  {
    AnyPrefix(ProtectedRoutes, pathname)
  }

  predicate IsAuthPage(pathname: string)
  {
    StartsWith(pathname, SignInPage) || StartsWith(pathname, SignUpPage)
  }

  /** The guard's decision for a path, given whether a session exists. */
  function Decide(pathname: string, signedIn: bool): (d: Decision)
    ensures IsProtected(pathname) && !signedIn && StartsWith(pathname, "/api/") ==> d == Unauthorized(LoginRequired)
    ensures IsProtected(pathname) && !signedIn && !StartsWith(pathname, "/api/") ==>
      d == Redirect(SignInPage, Some(pathname))
    ensures signedIn && IsAuthPage(pathname) ==> d == Redirect(Dashboard, None)
    ensures d == Next <==> (signedIn || !IsProtected(pathname)) && !(signedIn && IsAuthPage(pathname))
  {
    if IsProtected(pathname) && !signedIn then
      if StartsWith(pathname, "/api/") then Unauthorized(LoginRequired)
      else Redirect(SignInPage, Some(pathname))
    else if signedIn && IsAuthPage(pathname) then Redirect(Dashboard, None)
    else Next
  }

  lemma PrefixOf(p: string, rest: string)
    ensures StartsWith(p + rest, p)
  {
    assert (p + rest)[..|p|] == p;
  }

  /** The match is on plain prefixes: any path that merely begins with a protected
      route's text, such as `/dashboardx`, is protected too. */
  lemma ProtectedByPrefix(rest: string)
    ensures IsProtected(Dashboard + rest)
  {
    PrefixOf(Dashboard, rest);
    assert StartsWith(Dashboard + rest, ProtectedRoutes[0]);
  }

  /** A path outside the protected routes is never refused: it passes, or a signed-in
      user on an authentication page is sent to the dashboard. */
  lemma UnprotectedNeverRefused(pathname: string, signedIn: bool)
    requires !IsProtected(pathname)
    ensures Decide(pathname, signedIn) == Next || Decide(pathname, signedIn) == Redirect(Dashboard, None)
  {
  }

  lemma SignInPageUnprotected()
    ensures !IsProtected(SignInPage)
  {
    forall i | 0 <= i < |ProtectedRoutes| ensures !StartsWith(SignInPage, ProtectedRoutes[i]) {
      var k := if i < 2 then 1 else 2;
      assert SignInPage[k] != ProtectedRoutes[i][k];
    }
  }

  lemma DashboardIsNotAuthPage()
    ensures !IsAuthPage(Dashboard)
  {
    assert Dashboard[1] == 'd' && SignInPage[1] == 'a' && SignUpPage[1] == 'a';
  }

  /** Every redirect lands on a page the guard lets through in the same session state,
      so the guard never sends a browser round a loop. */
  lemma RedirectsSettle(pathname: string, signedIn: bool)
    requires Decide(pathname, signedIn).Redirect?
    ensures Decide(Decide(pathname, signedIn).path, signedIn) == Next
  {
    SignInPageUnprotected();
    DashboardIsNotAuthPage();
  }
}
