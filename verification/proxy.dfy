/**
 * The route guard run before matching pages: signed-out visitors are sent from the dashboard
 * to the login page, signed-in visitors from the login and signup pages to the dashboard.
 * The session lookup is an input; a lookup that throws lets the request through.
 */
module Proxy {
  import opened Text

  /** What `getSession` yields: a session, none, or an exception. */
  datatype SessionLookup = HasSession | NoSession | LookupThrew

  datatype Decision = Next | Redirect(location: string)

  const LoginRedirect: string := "/login?redirect=/dashboard"
  const DashboardRedirect: string := "/dashboard"

  /** The matcher `['/dashboard/:path*', '/login', '/signup']`: the dashboard and everything below it, and the two auth pages. */
  predicate Matches(path: string)
  {
    path == "/dashboard" || StartsWith(path, "/dashboard/") || path == "/login" || path == "/signup"
  }

  predicate IsAuthPage(path: string)
  {
    path == "/login" || path == "/signup"
  }

  /** The guard's decision for a matched request. */
  function Guard(path: string, lookup: SessionLookup): (d: Decision)
    ensures d == Redirect(LoginRedirect) <==> StartsWith(path, "/dashboard") && lookup == NoSession
    ensures d == Redirect(DashboardRedirect) <==> IsAuthPage(path) && lookup == HasSession
    ensures d.Redirect? ==> d.location in {LoginRedirect, DashboardRedirect}
    ensures lookup == LookupThrew ==> d == Next
  {
    if lookup == LookupThrew then Next
    else if StartsWith(path, "/dashboard") && lookup == NoSession then Redirect(LoginRedirect)
    else if IsAuthPage(path) && lookup == HasSession then Redirect(DashboardRedirect)
    else Next
  }

  /** A request as a whole: paths outside the matcher never reach the guard. */
  function Route(path: string, lookup: SessionLookup): (d: Decision)
    ensures !Matches(path) ==> d == Next
    ensures Matches(path) ==> d == Guard(path, lookup)
  {
    if Matches(path) then Guard(path, lookup) else Next
  }

  /** The path part of a location: everything before the first `?`. */
  function Pathname(location: string): string
  {
    Split(location, '?')[0]
  }

  /** Every dashboard page, at any depth, sends a signed-out visitor to the login page. */
  lemma DashboardNeedsSession(sub: string)
    ensures Route("/dashboard", NoSession) == Redirect(LoginRedirect)
    ensures Route("/dashboard/" + sub, NoSession) == Redirect(LoginRedirect)
  {
    assert ("/dashboard/" + sub)[..|"/dashboard/"|] == "/dashboard/";
    assert ("/dashboard/" + sub)[..|"/dashboard"|] == "/dashboard";
  }

  /** Signed in, a dashboard page passes; signed out, the auth pages pass. */
  lemma SignedInPassesDashboard(path: string)
    ensures StartsWith(path, "/dashboard") ==> Route(path, HasSession) == Next
    ensures IsAuthPage(path) ==> Route(path, NoSession) == Next
  {
  }

  lemma LoginRedirectPath()
    ensures Pathname(LoginRedirect) == "/login"
  {
    var rest := "redirect=/dashboard";
    assert LoginRedirect == "/login" + ['?'] + rest;
    SplitPrefix("/login", rest, '?');
    assert Split(LoginRedirect, '?')[0] == "/login";
  }

  lemma DashboardRedirectPath()
    ensures Pathname(DashboardRedirect) == "/dashboard"
  {
    SplitCount(DashboardRedirect, '?');
  }

  /** The redirect targets, followed with the same session, are let through: the guard never loops. */
  lemma RedirectSettles(path: string, lookup: SessionLookup)
    ensures Route(path, lookup).Redirect? ==>
      var target := Pathname(Route(path, lookup).location);
      Matches(target) && Route(target, lookup) == Next
  {
    LoginRedirectPath();
    DashboardRedirectPath();
    var d := Route(path, lookup);
    if d == Redirect(LoginRedirect) {
      assert lookup == NoSession;
      assert !StartsWith("/login", "/dashboard");
      assert Route("/login", lookup) == Next;
    } else if d == Redirect(DashboardRedirect) {
      assert lookup == HasSession;
      assert Route("/dashboard", lookup) == Next;
    }
  }
}
