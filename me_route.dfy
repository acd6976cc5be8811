/** `GET /api/auth/me` (src/app/api/auth/me/route.ts): answers from the
    session's claims alone, without reading the store. */
module MeRoute {
  import opened Wrappers
  import opened JsSemantics
  import opened Http
  import opened Session

  /** The user object of the response; a claim that is absent from the session
      is absent from the JSON. */
  datatype MeUser = MeUser(id: Option<string>, username: Option<string>, email: Option<string>,
                           isAdmin: Option<bool>, createdAt: Option<string>)

  datatype MeJson = NotLoggedIn(isLoggedIn: bool) | CurrentUser(user: MeUser)

  function Get(session: SessionData): (r: Reply<MeJson>)
    ensures r.status == 401 <==> !Truthy(session.isLoggedIn)
    ensures r.status == 401 ==> r.body == NotLoggedIn(false)
    ensures r.status != 401 ==> r.status == 200 && r.body.CurrentUser?
    ensures r.body.CurrentUser? ==>
              r.body.user.id == session.userId && r.body.user.username == session.username
              && r.body.user.email == session.email && r.body.user.isAdmin == session.isAdmin
              && r.body.user.createdAt == session.createdAt
  {
    if !Truthy(session.isLoggedIn) then
      Reply(401, NotLoggedIn(false))
    else
      Reply(200, CurrentUser(MeUser(session.userId, session.username, session.email,
                                    session.isAdmin, session.createdAt)))
  }
}
