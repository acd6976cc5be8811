/** `POST /api/auth/login` (src/app/api/auth/login/route.ts). The bcrypt
    primitive is the parameter `hash`: `compare(p, h)` holds when `h == hash(p)`. */
module LoginRoute {
  import opened Wrappers
  import opened JsSemantics
  import opened Http
  import opened Session
  import opened Users

  /** The parsed JSON body; `None` when the body is not a JSON object and
      `req.json()` throws. */
  datatype LoginRequest = LoginRequest(identifier: Option<string>, password: Option<string>)

  /** The public part of a user that the success response carries. */
  datatype PublicUser = PublicUser(id: string, username: string, email: string, isAdmin: bool)

  datatype LoginJson = LoginError(error: string) | LoginSuccess(message: string, user: PublicUser)

  /** A handler run: the response, the claims in memory afterwards and whether
      they were saved to the cookie. */
  datatype LoginOutcome = LoginOutcome(reply: Reply<LoginJson>, session: SessionData, saved: bool)

  /** `{ OR: [{ email: identifier }, { username: identifier }] }`. */
  predicate MatchesIdentifier(u: User, identifier: string) {
    u.email == identifier || u.username == identifier
  }

  /** Row `i` is the first row the lookup for `identifier` can return. */
  predicate FirstMatch(users: seq<User>, identifier: string, i: int) {
    0 <= i < |users| && MatchesIdentifier(users[i], identifier)
    && forall j :: 0 <= j < i ==> !MatchesIdentifier(users[j], identifier)
  }

  predicate PasswordMatches(hash: string -> string, password: string, u: User) {
    u.password == hash(password)
  }

  /** The claims a successful login writes; `createdAt` keeps its old value. */
  function SignedIn(session: SessionData, u: User): SessionData {
    session.(userId := Some(u.id), username := Some(u.username), email := Some(u.email),
             isAdmin := Some(u.isAdmin), isLoggedIn := Some(true))
  }

  /** Responses and session effects of the handler, for the store's rows and
      the claims the request's cookie carries. */
  function Handle(users: seq<User>, request: Option<LoginRequest>, hash: string -> string,
                  session: SessionData): (r: LoginOutcome)
    ensures r.saved <==> r.reply.status == 200
    ensures !r.saved ==> r.session == session && r.reply.body.LoginError?
    ensures request.None? ==> r.reply == Reply(500, LoginError("Internal server error"))
    ensures request.Some? && !(Present(request.value.identifier) && Present(request.value.password))
            ==> r.reply == Reply(400, LoginError("Enter missing field(s)"))
    ensures r.reply == Reply(401, LoginError("Invalid credentials"))
            <==> request.Some? && Present(request.value.identifier) && Present(request.value.password)
                 && forall i :: 0 <= i < |users| ==> !MatchesIdentifier(users[i], request.value.identifier.value)
    ensures r.reply == Reply(401, LoginError("Password incorrect"))
            <==> request.Some? && Present(request.value.identifier) && Present(request.value.password)
                 && exists i :: FirstMatch(users, request.value.identifier.value, i)
                                && !PasswordMatches(hash, request.value.password.value, users[i])
    ensures r.saved
            <==> request.Some? && Present(request.value.identifier) && Present(request.value.password)
                 && exists i :: FirstMatch(users, request.value.identifier.value, i)
                                && PasswordMatches(hash, request.value.password.value, users[i])
    ensures r.saved ==>
              exists i :: FirstMatch(users, request.value.identifier.value, i)
                && r.session == SignedIn(session, users[i])
                && r.reply == Reply(200, LoginSuccess("Login successful",
                     PublicUser(users[i].id, users[i].username, users[i].email, users[i].isAdmin)))
    ensures r.reply.status in {200, 400, 401, 500}
  {
    if request.None? then
      LoginOutcome(Reply(500, LoginError("Internal server error")), session, false)
    else
      var body := request.value;
      if !Present(body.identifier) || !Present(body.password) then
        LoginOutcome(Reply(400, LoginError("Enter missing field(s)")), session, false)
      else
        var identifier := body.identifier.value;
        match FindFirst(users, u => MatchesIdentifier(u, identifier))
        case None =>
          LoginOutcome(Reply(401, LoginError("Invalid credentials")), session, false)
        case Some(u) =>
          if !PasswordMatches(hash, body.password.value, u) then
            LoginOutcome(Reply(401, LoginError("Password incorrect")), session, false)
          else
            LoginOutcome(Reply(200, LoginSuccess("Login successful",
                                                 PublicUser(u.id, u.username, u.email, u.isAdmin))),
                         SignedIn(session, u), true)
  }

  /** The handler as written: early returns, then the session fields one by
      one, then `save`. */
  method Post(store: UserStore, session: SessionHandle, request: Option<LoginRequest>, hash: string -> string)
    returns (reply: Reply<LoginJson>)
    modifies session
    ensures var r := Handle(store.users, request, hash, old(session.Data()));
            reply == r.reply && session.Data() == r.session
            && session.cookie == (if r.saved then Some(r.session) else old(session.cookie))
  {
    if request.None? {
      return Reply(500, LoginError("Internal server error"));
    }
    var body := request.value;
    if !Present(body.identifier) || !Present(body.password) {
      return Reply(400, LoginError("Enter missing field(s)"));
    }
    var identifier := body.identifier.value;
    var user := FindFirst(store.users, u => MatchesIdentifier(u, identifier));
    if user.None? {
      return Reply(401, LoginError("Invalid credentials"));
    }
    var u := user.value;
    if !PasswordMatches(hash, body.password.value, u) {
      return Reply(401, LoginError("Password incorrect"));
    }
    session.userId := Some(u.id);
    session.username := Some(u.username);
    session.email := Some(u.email);
    session.isAdmin := Some(u.isAdmin);
    session.isLoggedIn := Some(true);
    session.Save();
    reply := Reply(200, LoginSuccess("Login successful", PublicUser(u.id, u.username, u.email, u.isAdmin)));
  }
}
