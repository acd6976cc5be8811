/** The session record, its defaults, the cookie policy (src/lib/session.ts) and
    the per-request session object that iron-session hands to a handler.
    Sealing and unsealing the cookie are not modelled: the cookie carries the
    record as it is. */
module Session {
  import opened Wrappers
  import opened JsSemantics

  /** `SessionData`: every claim is optional. */
  datatype SessionData = SessionData(
    userId: Option<string>,
    isAdmin: Option<bool>,
    email: Option<string>,
    username: Option<string>,
    createdAt: Option<string>,
    isLoggedIn: Option<bool>)

  /** What iron-session yields for a request without a cookie, and what
      `destroy` leaves behind: an object with no fields at all. */
  const Empty := SessionData(None, None, None, None, None, None)

  /** `defaultSession`. */
  const DefaultSession := SessionData(Some(""), Some(false), Some(""), Some(""), Some(""), Some(false))

  /** The defaults describe an anonymous, non-admin caller whose string claims are all empty. */
  lemma DefaultSessionIsAnonymous()
    ensures !Truthy(DefaultSession.isLoggedIn) && DefaultSession.isLoggedIn == Some(false)
    ensures !Truthy(DefaultSession.isAdmin) && DefaultSession.isAdmin == Some(false)
    ensures forall claim :: claim in [DefaultSession.userId, DefaultSession.email,
                                      DefaultSession.username, DefaultSession.createdAt]
                            ==> claim == Some("") && !Present(claim)
  {
  }

  datatype SameSite = Lax | Strict | NoSameSite

  datatype CookieOptions = CookieOptions(
    secure: bool, maxAge: nat, sameSite: SameSite, httpOnly: bool, path: string)

  datatype SessionOptions = SessionOptions(
    password: string, cookieName: string, cookieOptions: CookieOptions)

  const SecondsPerWeek: nat := 60 * 60 * 24 * 7

  /** `sessionOptions`, for the values the environment gives `SESSION_PASSWORD`
      and `NODE_ENV`. */
  function Options(sessionPassword: string, nodeEnv: string): (o: SessionOptions)
    ensures o.password == sessionPassword && o.cookieName == "ex-libris"
    ensures o.cookieOptions.secure <==> nodeEnv == "production"
    ensures o.cookieOptions.maxAge == 604800
    ensures o.cookieOptions.httpOnly && o.cookieOptions.sameSite == Lax && o.cookieOptions.path == "/"
  {
    SessionOptions(sessionPassword, "ex-libris",
      CookieOptions(nodeEnv == "production", SecondsPerWeek, Lax, true, "/"))
  }

  /** Reading a request's cookie: no cookie gives the empty object. */
  function Open(cookie: Option<SessionData>): (s: SessionData)
    ensures cookie.None? ==> s == Empty
    ensures cookie.Some? ==> s == cookie.value
  {
    match cookie
    case None => Empty
    case Some(data) => data
  }

  /** The object `getIronSession` returns: the claims as mutable fields, and the
      cookie the browser will hold once the response is sent. Assignments to the
      fields reach the cookie only through `Save`. */
  class SessionHandle {
    var userId: Option<string>
    var isAdmin: Option<bool>
    var email: Option<string>
    var username: Option<string>
    var createdAt: Option<string>
    var isLoggedIn: Option<bool>
    var cookie: Option<SessionData>

    /** The claims currently held in memory. */
    function Data(): SessionData
      reads this
    {
      SessionData(userId, isAdmin, email, username, createdAt, isLoggedIn)
    }

    /** `getIronSession`: the fields come from the request's cookie, which is
        left as it was. */
    constructor Load(requestCookie: Option<SessionData>)
      ensures Data() == Open(requestCookie)
      ensures cookie == requestCookie
    {
      var data := Open(requestCookie);
      userId, isAdmin, email, username := data.userId, data.isAdmin, data.email, data.username;
      createdAt, isLoggedIn := data.createdAt, data.isLoggedIn;
      cookie := requestCookie;
    }

    /** `session.save()`: the whole record is written to the cookie. */
    method Save()
      modifies this
      ensures Data() == old(Data())
      ensures cookie == Some(Data())
    {
      cookie := Some(Data());
    }

    /** `session.destroy()`: every field is deleted and the cookie expires. */
    method Destroy()
      modifies this
      ensures Data() == Empty
      ensures cookie == None
    {
      userId, isAdmin, email, username, createdAt, isLoggedIn := None, None, None, None, None, None;
      cookie := None;
    }
  }
}
