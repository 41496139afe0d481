/**
 * The edge middleware that guards the admin area: a request is signed in
 * when its session cookie is present with a non-empty value; signed-out
 * requests under `/admin` go to `/login`, and signed-in requests for
 * `/login` go to `/admin`.
 */
module RouteGuard {
  import opened Entities
  import Text

  const SessionCookieName: string := "swalaxon_session"
  const AdminPrefix: string := "/admin"
  const LoginPath: string := "/login"

  /** A request as the middleware sees it: its path and the session cookie's value, if sent. */
  datatype Request = Request(pathname: string, sessionCookie: Option<string>)

  datatype Decision = Redirect(location: string) | Next

  /** `verifySession`: only presence and non-emptiness of the cookie value are checked. */
  function IsAuthenticated(req: Request): (b: bool)
    ensures b ==> req.sessionCookie.Some?
    ensures req.sessionCookie == Some("") ==> !b
  {
    req.sessionCookie.Some? && |req.sessionCookie.value| > 0
  }

  predicate IsAdminRoute(pathname: string) {
    Text.StartsWith(pathname, AdminPrefix)
  }

  /** `middleware(request)` */
  function Middleware(req: Request): (d: Decision)
    ensures d.Redirect? ==> d.location == LoginPath || d.location == AdminPrefix
  {
    var authed := IsAuthenticated(req);
    if IsAdminRoute(req.pathname) && !authed then Redirect(LoginPath)
    else if req.pathname == LoginPath && authed then Redirect(AdminPrefix)
    else Next
  }

  // ---------------------------------------------------------------------
  // Properties

  /** Signed-out requests are sent to the login page exactly when they ask for the admin area. */
  lemma SignedOutAdminGoesToLogin(req: Request)
    requires !IsAuthenticated(req)
    ensures Middleware(req) == Redirect(LoginPath) <==> IsAdminRoute(req.pathname)
    ensures !IsAdminRoute(req.pathname) ==> Middleware(req) == Next
  {
  }

  /** Signed-in requests are redirected only from the login page, and then to the admin area. */
  lemma SignedInOnlyLoginRedirects(req: Request)
    requires IsAuthenticated(req)
    ensures Middleware(req).Redirect? <==> req.pathname == LoginPath
    ensures Middleware(req).Redirect? ==> Middleware(req).location == AdminPrefix
  {
  }

  /** An empty cookie value counts as signed out, like a missing cookie. */
  lemma EmptyCookieIsSignedOut(pathname: string)
    ensures Middleware(Request(pathname, Some(""))) == Middleware(Request(pathname, None))
  {
  }

  /** The target of a redirect is let through on the next request with the same cookie: no redirect loop. */
  lemma NoRedirectLoop(req: Request)
    requires Middleware(req).Redirect?
    ensures Middleware(Request(Middleware(req).location, req.sessionCookie)) == Next
  {
    assert !IsAdminRoute(LoginPath) by {
      assert LoginPath[1] != AdminPrefix[1];
    }
    assert IsAdminRoute(AdminPrefix);
  }

  /**
   * A request carrying a non-empty session cookie is let into the admin
   * area; only the login page sends it on, to the admin area.
   */
  lemma CookieHolderPasses(p: string, v: string)
    requires |v| > 0
    ensures Middleware(Request(p, Some(v))) == (if p == LoginPath then Redirect(AdminPrefix) else Next)
  {
    if p == LoginPath {
      assert !IsAdminRoute(LoginPath) by {
        assert LoginPath[1] != AdminPrefix[1];
      }
    }
  }

  /** A request without a session cookie is sent to the login page exactly when it asks for the admin area. */
  lemma NoCookieGuarded(p: string)
    ensures Middleware(Request(p, None)) == (if IsAdminRoute(p) then Redirect(LoginPath) else Next)
  {
  }

  /** Public pages are never redirected, whatever the cookie. */
  lemma PublicPagesPass(req: Request)
    requires !IsAdminRoute(req.pathname) && req.pathname != LoginPath
    ensures Middleware(req) == Next
  {
  }
}
