/** `POST /api/auth/register` (src/app/api/auth/register/route.ts). The
    database generates the new row's id and creation time: here they are the
    parameters `newId` and `now`. `create` refuses a row that breaks a unique
    column other than email (the handler checks email itself); the refusal
    is thrown and answered with 500. */
module RegisterRoute {
  import opened Wrappers
  import opened JsSemantics
  import opened Http
  import opened Users

  datatype RegisterRequest = RegisterRequest(username: Option<string>, email: Option<string>, password: Option<string>)

  /** The 400 response has a `message`, the 409 and 500 responses an `error`. */
  datatype RegisterJson =
    | RegisterMessage(message: string)
    | RegisterError(error: string)
    | Registered(message: string, id: string, email: string)

  predicate EmailTaken(users: seq<User>, email: string) {
    exists i :: 0 <= i < |users| && users[i].email == email
  }

  /** The row `create` would insert: hashed password, not an admin. */
  function NewUser(body: RegisterRequest, hash: string -> string, newId: string, now: string): User
    requires Present(body.username) && Present(body.email) && Present(body.password)
  {
    User(newId, body.username.value, body.email.value, hash(body.password.value), false, now)
  }

  /** Would `create` hit the id or username unique index? */
  predicate CreateRejected(users: seq<User>, u: User) {
    exists i :: 0 <= i < |users| && (users[i].id == u.id || users[i].username == u.username)
  }

  /** A handler run: the rows afterwards and the response. */
  datatype RegisterOutcome = RegisterOutcome(users: seq<User>, reply: Reply<RegisterJson>)

  /** The request carries all three fields, each non-empty. */
  predicate Complete(request: Option<RegisterRequest>) {
    request.Some? && Present(request.value.username) && Present(request.value.email)
    && Present(request.value.password)
  }

  function Handle(users: seq<User>, request: Option<RegisterRequest>, hash: string -> string,
                  newId: string, now: string): (r: RegisterOutcome)
    ensures r.reply.status != 201 ==> r.users == users
    ensures r.reply.status == 400 <==> request.Some? && !Complete(request)
    ensures r.reply.status == 400 ==> r.reply.body == RegisterMessage("Missing fields")
    ensures r.reply.status == 409 <==> Complete(request) && EmailTaken(users, request.value.email.value)
    ensures r.reply.status == 409 ==> r.reply.body == RegisterError("User already exisits")
    ensures r.reply.status == 201
            <==> Complete(request) && !EmailTaken(users, request.value.email.value)
                 && !CreateRejected(users, NewUser(request.value, hash, newId, now))
    ensures r.reply.status == 201 ==>
              Complete(request)
              && r.users == users + [User(newId, request.value.username.value, request.value.email.value,
                                          hash(request.value.password.value), false, now)]
              && r.reply.body == Registered("User registered successfully", newId, request.value.email.value)
    ensures r.reply.status == 500 ==> r.reply.body == RegisterError("Something went wrong")
    ensures r.reply.status in {201, 400, 409, 500}
    ensures Valid(users) ==> Valid(r.users)
  {
    if request.None? then
      RegisterOutcome(users, Reply(500, RegisterError("Something went wrong")))
    else
      var body := request.value;
      if !Present(body.username) || !Present(body.email) || !Present(body.password) then
        RegisterOutcome(users, Reply(400, RegisterMessage("Missing fields")))
      else
        var email := body.email.value;
        match FindFirst(users, (u: User) => u.email == email)
        case Some(_) =>
          RegisterOutcome(users, Reply(409, RegisterError("User already exisits")))
        case None =>
          var u := NewUser(body, hash, newId, now);
          if CreateRejected(users, u) then
            RegisterOutcome(users, Reply(500, RegisterError("Something went wrong")))
          else
            RegisterOutcome(users + [u], Reply(201, Registered("User registered successfully", u.id, u.email)))
  }

  /** The handler as written: validation, the duplicate-email lookup, then the insert. */
  method Post(store: UserStore, request: Option<RegisterRequest>, hash: string -> string,
              newId: string, now: string) returns (reply: Reply<RegisterJson>)
    modifies store
    ensures RegisterOutcome(store.users, reply) == Handle(old(store.users), request, hash, newId, now)
  {
    if request.None? {
      return Reply(500, RegisterError("Something went wrong"));
    }
    var body := request.value;
    if !Present(body.username) || !Present(body.email) || !Present(body.password) {
      return Reply(400, RegisterMessage("Missing fields"));
    }
    var email := body.email.value;
    var existingUser := FindFirst(store.users, (u: User) => u.email == email);
    if existingUser.Some? {
      return Reply(409, RegisterError("User already exisits"));
    }
    var hashedPassword := hash(body.password.value);
    var newUser := User(newId, body.username.value, email, hashedPassword, false, now);
    if CreateRejected(store.users, newUser) {
      return Reply(500, RegisterError("Something went wrong"));
    }
    store.users := store.users + [newUser];
    reply := Reply(201, Registered("User registered successfully", newUser.id, newUser.email));
  }
}
