/** The edge gate of middleware.ts and its route matcher. The gate reads the
    session claims and never saves them; the redirect is a path, without the
    origin `new URL` adds. */
module Middleware {
  import opened Wrappers
  import opened JsSemantics
  import opened Session

  datatype EdgeResult = Continue | RedirectTo(location: string)

  /** `middleware`, for a request path and the claims of its cookie. */
  function Gate(pathname: string, session: SessionData): (r: EdgeResult)
    ensures !StartsWith(pathname, "/admin") ==> r == Continue
    ensures StartsWith(pathname, "/admin") && Truthy(session.isLoggedIn) && Truthy(session.isAdmin)
            ==> r == Continue
    ensures r == RedirectTo("/login")
            <==> StartsWith(pathname, "/admin") && !(Truthy(session.isLoggedIn) && Truthy(session.isAdmin))
    ensures r == Continue || r == RedirectTo("/login")
  {
    if StartsWith(pathname, "/admin") && (!Truthy(session.isLoggedIn) || !Truthy(session.isAdmin)) then
      RedirectTo("/login")
    else
      Continue
  }

  /** The gate sees only the path and the two flags: sessions that agree on
      whether they are logged in and admin get the same answer. */
  lemma GateDependsOnlyOnFlags(pathname: string, s: SessionData, t: SessionData)
    requires Truthy(s.isLoggedIn) == Truthy(t.isLoggedIn)
    requires Truthy(s.isAdmin) == Truthy(t.isAdmin)
    ensures Gate(pathname, s) == Gate(pathname, t)
  {
  }

  /** `config.matcher`. */
  const Matcher: seq<string> := ["/admin/:path*"]

  /** The suffix of a pattern that stands for zero or more path segments. */
  const AnySegments := "/:path*"

  /** Does a pattern of the form `base + "/:path*"` match `pathname`? It matches
      `base` itself and everything below `base + "/"`. */
  predicate PatternMatches(pattern: string, pathname: string) {
    |AnySegments| <= |pattern| && pattern[|pattern| - |AnySegments|..] == AnySegments
    && var base := pattern[..|pattern| - |AnySegments|];
       pathname == base || StartsWith(pathname, base + "/")
  }

  /** The middleware runs only for paths the matcher covers. */
  predicate Covered(pathname: string) {
    exists pattern :: pattern in Matcher && PatternMatches(pattern, pathname)
  }

  lemma CoveredIsAdminSection(pathname: string)
    ensures Covered(pathname) <==> pathname == "/admin" || StartsWith(pathname, "/admin/")
  {
    assert Matcher[0] == "/admin/:path*";
    assert Matcher[0][..|Matcher[0]| - |AnySegments|] == "/admin";
    if pathname == "/admin" || StartsWith(pathname, "/admin/") {
      assert PatternMatches(Matcher[0], pathname);
    }
  }

  /** Every covered path passes the gate's own prefix test, so behind the
      matcher the gate decides on the flags alone. */
  lemma CoveredPathsAreGated(pathname: string, session: SessionData)
    requires Covered(pathname)
    ensures StartsWith(pathname, "/admin")
    ensures Gate(pathname, session) == Continue <==> Truthy(session.isLoggedIn) && Truthy(session.isAdmin)
  {
    CoveredIsAdminSection(pathname);
    if StartsWith(pathname, "/admin/") {
      assert pathname[..6] == "/admin/"[..6];
    }
  }

  /** The prefix test alone also gates "/administrator", but the matcher never
      sends that path to the middleware. */
  lemma AdministratorPrefixQuirk(session: SessionData)
    requires !(Truthy(session.isLoggedIn) && Truthy(session.isAdmin))
    ensures Gate("/administrator", session) == RedirectTo("/login")
    ensures !Covered("/administrator")
  {
    assert "/admin" <= "/administrator";
    CoveredIsAdminSection("/administrator");
    assert "/administrator"[6] != "/admin/"[6];
  }
}
