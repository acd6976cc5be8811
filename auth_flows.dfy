/** Properties of the auth routes used one after another by a browser, which
    sends back on each request the cookie the previous response left it. */
module AuthFlows {
  import opened Wrappers
  import opened JsSemantics
  import opened Http
  import opened Session
  import opened Users
  import LoginRoute
  import RegisterRoute
  import MeRoute
  import LogoutRoute

  /** A successful login and then `me` on the cookie it saved: `me` echoes the
      claims login wrote, and the `createdAt` the session already had. */
  lemma LoginThenMe(users: seq<User>, request: Option<LoginRoute.LoginRequest>, hash: string -> string,
                    session: SessionData)
    requires LoginRoute.Handle(users, request, hash, session).saved
    ensures var out := LoginRoute.Handle(users, request, hash, session);
            var u := out.reply.body.user;
            out.reply.body.LoginSuccess?
            && MeRoute.Get(Open(Some(out.session)))
               == Reply(200, MeRoute.CurrentUser(MeRoute.MeUser(Some(u.id), Some(u.username), Some(u.email),
                                                                Some(u.isAdmin), session.createdAt)))
  {
  }

  /** The same, with the handlers as written: one request logs in, the next
      asks who is logged in. A failed login leaves `me`'s answer as it was. */
  method SignInThenFetchMe(store: UserStore, browserCookie: Option<SessionData>,
                           request: Option<LoginRoute.LoginRequest>, hash: string -> string)
    returns (login: Reply<LoginRoute.LoginJson>, me: Reply<MeRoute.MeJson>)
    ensures login.status == 200 ==>
              login.body.LoginSuccess?
              && me == Reply(200, MeRoute.CurrentUser(MeRoute.MeUser(
                         Some(login.body.user.id), Some(login.body.user.username), Some(login.body.user.email),
                         Some(login.body.user.isAdmin), Open(browserCookie).createdAt)))
    ensures login.status != 200 ==> me == MeRoute.Get(Open(browserCookie))
  {
    var session := new SessionHandle.Load(browserCookie);
    login := LoginRoute.Post(store, session, request, hash);
    var next := new SessionHandle.Load(session.cookie);
    me := MeRoute.Get(next.Data());
  }

  /** Logout and then `me`: whatever the session was, `me` answers 401. */
  method SignOutThenFetchMe(browserCookie: Option<SessionData>)
    returns (logout: Reply<LogoutRoute.LogoutJson>, me: Reply<MeRoute.MeJson>)
    ensures logout == Reply(200, LogoutRoute.LogoutJson("Logged out"))
    ensures me == Reply(401, MeRoute.NotLoggedIn(false))
  {
    var session := new SessionHandle.Load(browserCookie);
    logout := LogoutRoute.Post(session);
    var next := new SessionHandle.Load(session.cookie);
    me := MeRoute.Get(next.Data());
  }

  /** Logging out twice: the second logout, on the cookie the first left,
      answers the same and leaves the same session and cookie. */
  method SignOutTwice(browserCookie: Option<SessionData>)
    returns (first: Reply<LogoutRoute.LogoutJson>, second: Reply<LogoutRoute.LogoutJson>,
             firstCookie: Option<SessionData>, secondCookie: Option<SessionData>,
             firstClaims: SessionData, secondClaims: SessionData)
    ensures first == second
    ensures firstCookie == secondCookie == None
    ensures firstClaims == secondClaims == Empty
  {
    var session := new SessionHandle.Load(browserCookie);
    first := LogoutRoute.Post(session);
    firstCookie, firstClaims := session.cookie, session.Data();
    var again := new SessionHandle.Load(session.cookie);
    second := LogoutRoute.Post(again);
    secondCookie, secondClaims := again.cookie, again.Data();
  }

  /** A registration with an unused email, id and username succeeds, and a
      login with the same email and password then signs in the new user, unless
      an older user has that email as username (the lookup matches either
      column). */
  lemma RegisterThenLogin(users: seq<User>, username: string, email: string, password: string,
                          hash: string -> string, newId: string, now: string, session: SessionData)
    requires username != "" && email != "" && password != ""
    requires !RegisterRoute.EmailTaken(users, email)
    requires !RegisterRoute.CreateRejected(users, User(newId, username, email, hash(password), false, now))
    requires forall i :: 0 <= i < |users| ==> users[i].username != email
    ensures var registered := RegisterRoute.Handle(users, Some(RegisterRoute.RegisterRequest(Some(username), Some(email), Some(password))),
                                                   hash, newId, now);
            var out := LoginRoute.Handle(registered.users, Some(LoginRoute.LoginRequest(Some(email), Some(password))), hash, session);
            registered.reply.status == 201
            && out.saved
            && out.session == LoginRoute.SignedIn(session, User(newId, username, email, hash(password), false, now))
  {
    var request := RegisterRoute.RegisterRequest(Some(username), Some(email), Some(password));
    var registered := RegisterRoute.Handle(users, Some(request), hash, newId, now);
    var u := User(newId, username, email, hash(password), false, now);
    assert RegisterRoute.NewUser(request, hash, newId, now) == u;
    assert registered.users == users + [u];
    var users' := users + [u];
    var lookup := (v: User) => LoginRoute.MatchesIdentifier(v, email);
    FindFirstAppended(users, u, lookup);
    var k :| 0 <= k < |users'| && users'[k] == u && lookup(u) && forall j :: 0 <= j < k ==> !lookup(users'[j]);
    assert LoginRoute.FirstMatch(users', email, k);
    var out := LoginRoute.Handle(users', Some(LoginRoute.LoginRequest(Some(email), Some(password))), hash, session);
    assert out.saved by {
      assert LoginRoute.PasswordMatches(hash, password, users'[k]);
    }
    var i :| LoginRoute.FirstMatch(users', email, i) && out.session == LoginRoute.SignedIn(session, users'[i]);
    assert i == k;
  }

  /** The hash the two concrete examples below use. */
  function Tagged(p: string): string {
    p + "#"
  }

  const Ada := User("1", "b@x.com", "a@x.com", Tagged("pw-a"), false, "t1")
  const Bob := User("2", "bob", "b@x.com", Tagged("pw-b"), false, "t2")

  lemma AdaRegisters()
    ensures RegisterRoute.Handle([], Some(RegisterRoute.RegisterRequest(Some("b@x.com"), Some("a@x.com"), Some("pw-a"))),
                                 Tagged, "1", "t1").users == [Ada]
  {
  }

  lemma BobRegisters()
    ensures RegisterRoute.Handle([Ada], Some(RegisterRoute.RegisterRequest(Some("bob"), Some("b@x.com"), Some("pw-b"))),
                                 Tagged, "2", "t2").users == [Ada, Bob]
  {
    assert "b@x.com"[0] != "a@x.com"[0];
    assert !RegisterRoute.EmailTaken([Ada], "b@x.com");
    assert !RegisterRoute.CreateRejected([Ada], Bob);
  }

  /** Two registrations that the register route accepts, after which the
      second user cannot log in with their email: the lookup finds the first
      user, whose username is that email, and the password check fails. */
  lemma EmailLoginReachesAnotherUser()
    ensures var first := RegisterRoute.Handle([], Some(RegisterRoute.RegisterRequest(Some("b@x.com"), Some("a@x.com"), Some("pw-a"))),
                                              Tagged, "1", "t1");
            var second := RegisterRoute.Handle(first.users, Some(RegisterRoute.RegisterRequest(Some("bob"), Some("b@x.com"), Some("pw-b"))),
                                               Tagged, "2", "t2");
            first.reply.status == 201 && second.reply.status == 201 && Valid(second.users)
            && LoginRoute.Handle(second.users, Some(LoginRoute.LoginRequest(Some("b@x.com"), Some("pw-b"))), Tagged, Empty).reply
               == Reply(401, LoginRoute.LoginError("Password incorrect"))
  {
    AdaRegisters();
    BobRegisters();
    assert LoginRoute.FirstMatch([Ada, Bob], "b@x.com", 0);
    assert !LoginRoute.PasswordMatches(Tagged, "pw-b", Ada) by {
      assert Tagged("pw-a")[3] != Tagged("pw-b")[3];
    }
  }

  /** The rows after "alice" signs up. */
  function Alice(hash: string -> string): User {
    User("u1", "alice", "a@x.com", hash("secret123"), false, "t0")
  }

  lemma AliceSignsUp(hash: string -> string)
    ensures RegisterRoute.Handle([], Some(RegisterRoute.RegisterRequest(Some("alice"), Some("a@x.com"), Some("secret123"))),
                                 hash, "u1", "t0")
            == RegisterRoute.RegisterOutcome([Alice(hash)],
                 Reply(201, RegisterRoute.Registered("User registered successfully", "u1", "a@x.com")))
  {
    assert [] + [Alice(hash)] == [Alice(hash)];
  }

  lemma SecondSignUpRefused(hash: string -> string)
    ensures RegisterRoute.Handle([Alice(hash)], Some(RegisterRoute.RegisterRequest(Some("alice2"), Some("a@x.com"), Some("other"))),
                                 hash, "u2", "t1").reply.status == 409
  {
    assert RegisterRoute.EmailTaken([Alice(hash)], "a@x.com") by {
      assert [Alice(hash)][0].email == "a@x.com";
    }
  }

  lemma AliceSignsIn(hash: string -> string)
    ensures LoginRoute.Handle([Alice(hash)], Some(LoginRoute.LoginRequest(Some("a@x.com"), Some("secret123"))), hash, Empty)
            == LoginRoute.LoginOutcome(
                 Reply(200, LoginRoute.LoginSuccess("Login successful", LoginRoute.PublicUser("u1", "alice", "a@x.com", false))),
                 LoginRoute.SignedIn(Empty, Alice(hash)), true)
  {
    assert LoginRoute.FirstMatch([Alice(hash)], "a@x.com", 0);
  }

  /** The sign-up half of the scenario: "alice" registers, then a second
      registration with her email is refused and leaves her row as it was. */
  method SignUp(store: UserStore, hash: string -> string) returns (statuses: seq<nat>)
    requires store.users == []
    modifies store
    ensures statuses == [201, 409]
    ensures store.users == [Alice(hash)]
  {
    AliceSignsUp(hash);
    SecondSignUpRefused(hash);
    var registered := RegisterRoute.Post(store, Some(RegisterRoute.RegisterRequest(Some("alice"), Some("a@x.com"), Some("secret123"))),
                                         hash, "u1", "t0");
    assert store.users == [Alice(hash)];
    var duplicate := RegisterRoute.Post(store, Some(RegisterRoute.RegisterRequest(Some("alice2"), Some("a@x.com"), Some("other"))),
                                        hash, "u2", "t1");
    statuses := [registered.status, duplicate.status];
  }

  /** The sign-in half: login with the email as identifier, `me`, logout,
      `me`, from a browser without a cookie. `me` reports no `createdAt`,
      since login does not write one. */
  method SignInAndOut(store: UserStore, hash: string -> string)
    returns (statuses: seq<nat>, meAfterLogin: Reply<MeRoute.MeJson>)
    requires store.users == [Alice(hash)]
    ensures statuses == [200, 200, 200, 401]
    ensures meAfterLogin.body == MeRoute.CurrentUser(MeRoute.MeUser(Some("u1"), Some("alice"), Some("a@x.com"),
                                                                    Some(false), None))
  {
    AliceSignsIn(hash);
    var browser: Option<SessionData> := None;
    var loginSession := new SessionHandle.Load(browser);
    var login := LoginRoute.Post(store, loginSession, Some(LoginRoute.LoginRequest(Some("a@x.com"), Some("secret123"))), hash);
    browser := loginSession.cookie;
    assert browser == Some(LoginRoute.SignedIn(Empty, Alice(hash)));
    meAfterLogin := MeRoute.Get(Open(browser));
    var logoutSession := new SessionHandle.Load(browser);
    var logout := LogoutRoute.Post(logoutSession);
    browser := logoutSession.cookie;
    var meAfterLogout := MeRoute.Get(Open(browser));
    statuses := [login.status, meAfterLogin.status, logout.status, meAfterLogout.status];
  }

  /** The whole sign-up and sign-in scenario on an empty store. */
  method Scenario(hash: string -> string)
    returns (statuses: seq<nat>, meAfterLogin: Reply<MeRoute.MeJson>, rows: seq<User>)
    ensures statuses == [201, 409, 200, 200, 200, 401]
    ensures meAfterLogin.body == MeRoute.CurrentUser(MeRoute.MeUser(Some("u1"), Some("alice"), Some("a@x.com"),
                                                                    Some(false), None))
    ensures rows == [User("u1", "alice", "a@x.com", hash("secret123"), false, "t0")]
  {
    var store := new UserStore([]);
    var signUp := SignUp(store, hash);
    var signIn;
    signIn, meAfterLogin := SignInAndOut(store, hash);
    statuses := signUp + signIn;
    rows := store.users;
  }
}
