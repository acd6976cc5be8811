/** The three authorization gates side by side: the edge gate (middleware.ts),
    the server helper `requireAdmin` (src/lib/auth.ts) and the client gate
    `ProtectedRoute`. They agree on anonymous callers and on admins; they do
    not agree on a signed-in non-admin. */
module Gates {
  import opened Wrappers
  import opened JsSemantics
  import opened Session
  import Auth
  import Middleware
  import ProtectedRoute

  /** The admin genre page. */
  const GenresPath := "/admin/genres"

  /** The client user the page sees carries the session's admin claim,
      as `/api/auth/me` reports it. */
  predicate SameAdminClaim(session: SessionData, user: ProtectedRoute.ClientUser) {
    user.isAdmin == Truthy(session.isAdmin)
  }

  /** A signed-in non-admin on an admin path: the edge gate sends them to
      "/login", `requireAdmin` to "/unauthorized", and the genre page's own
      gate, which keeps the default `requireAdmin`, shows the page. */
  lemma NonAdminGatesDisagree(pathname: string, session: SessionData, user: ProtectedRoute.ClientUser)
    requires StartsWith(pathname, "/admin")
    requires Truthy(session.isLoggedIn) && !Truthy(session.isAdmin)
    requires SameAdminClaim(session, user)
    ensures Middleware.Gate(pathname, session) == Middleware.RedirectTo("/login")
    ensures Auth.RequireAdmin(session) == Auth.Redirected("/unauthorized")
    ensures ProtectedRoute.Outcome(false, Some(user), ProtectedRoute.DefaultRequireAdmin)
            == ProtectedRoute.RouteOutcome(None, ProtectedRoute.Children)
    ensures ProtectedRoute.Outcome(false, Some(user), true).push == Some("/unauthorized")
  {
  }

  /** An anonymous caller is sent to "/login" by all three. */
  lemma AnonymousGatesAgree(pathname: string, session: SessionData, requireAdmin: bool)
    requires StartsWith(pathname, "/admin")
    requires !Truthy(session.isLoggedIn)
    ensures Middleware.Gate(pathname, session) == Middleware.RedirectTo("/login")
    ensures Auth.RequireAdmin(session) == Auth.Redirected("/login")
    ensures ProtectedRoute.Outcome(false, None, requireAdmin).push == Some("/login")
  {
  }

  /** A signed-in admin passes all three. */
  lemma AdminGatesAgree(pathname: string, session: SessionData, user: ProtectedRoute.ClientUser, requireAdmin: bool)
    requires Truthy(session.isLoggedIn) && Truthy(session.isAdmin)
    requires SameAdminClaim(session, user)
    ensures Middleware.Gate(pathname, session) == Middleware.Continue
    ensures Auth.RequireAdmin(session) == Auth.Allowed(session)
    ensures ProtectedRoute.Outcome(false, Some(user), requireAdmin).shows == ProtectedRoute.Children
  {
  }

  /** The genre page is behind the matcher, so on the edge only admins reach
      it, although its own gate would show it to any signed-in user. */
  lemma GenresPageIsEdgeGated(session: SessionData)
    ensures Middleware.Covered(GenresPath)
    ensures Middleware.Gate(GenresPath, session) == Middleware.Continue
            <==> Truthy(session.isLoggedIn) && Truthy(session.isAdmin)
  {
    assert "/admin/" <= GenresPath;
    Middleware.CoveredIsAdminSection(GenresPath);
    Middleware.CoveredPathsAreGated(GenresPath, session);
  }
}
