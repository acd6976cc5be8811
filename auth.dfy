/** The server-side helpers of src/lib/auth.ts: `getSession` and the
    `requireAuth` / `requireAdmin` decision chain. A Next.js `redirect()` throws;
    here it is the `Redirected` result. */
module Auth {
  import opened Wrappers
  import opened JsSemantics
  import opened Session

  /** What `getSession` does to the loaded claims: a falsy `isLoggedIn`
      (absent or false) becomes the default `false`; nothing else changes. */
  function Normalize(s: SessionData): (r: SessionData)
    ensures Truthy(r.isLoggedIn) <==> Truthy(s.isLoggedIn)
    ensures !Truthy(s.isLoggedIn) ==> r.isLoggedIn == Some(false)
    ensures Truthy(s.isLoggedIn) ==> r == s
    ensures r.(isLoggedIn := s.isLoggedIn) == s
  {
    if !Truthy(s.isLoggedIn) then s.(isLoggedIn := DefaultSession.isLoggedIn) else s
  }

  /** `getSession`: loads the handle and writes `isLoggedIn` in place. The
      write is never saved, so the cookie is unchanged. */
  method GetSession(requestCookie: Option<SessionData>) returns (session: SessionHandle)
    ensures fresh(session)
    ensures session.Data() == Normalize(Open(requestCookie))
    ensures session.cookie == requestCookie
  {
    session := new SessionHandle.Load(requestCookie);
    if !Truthy(session.isLoggedIn) {
      session.isLoggedIn := DefaultSession.isLoggedIn;
    }
  }

  /** The outcome of a server-side guard: the session, or the redirect it throws. */
  datatype Guard = Allowed(session: SessionData) | Redirected(location: string)

  /** `requireAuth`, on the claims the request's cookie carries. */
  function RequireAuth(loaded: SessionData): (g: Guard)
    ensures g.Redirected? <==> !Truthy(loaded.isLoggedIn)
    ensures g.Redirected? ==> g.location == "/login"
    ensures g.Allowed? ==> g.session == loaded
  {
    var session := Normalize(loaded);
    if !Truthy(session.isLoggedIn) then Redirected("/login") else Allowed(session)
  }

  /** `requireAdmin`: `requireAuth` first, then the admin claim. */
  function RequireAdmin(loaded: SessionData): (g: Guard)
    ensures g == Redirected("/login") <==> !Truthy(loaded.isLoggedIn)
    ensures g == Redirected("/unauthorized") <==> Truthy(loaded.isLoggedIn) && !Truthy(loaded.isAdmin)
    ensures g.Allowed? <==> Truthy(loaded.isLoggedIn) && Truthy(loaded.isAdmin)
    ensures g.Allowed? ==> g == RequireAuth(loaded) && g.session == loaded
  {
    match RequireAuth(loaded)
    case Redirected(location) => Redirected(location)
    case Allowed(session) =>
      if !Truthy(session.isAdmin) then Redirected("/unauthorized") else Allowed(session)
  }
}
