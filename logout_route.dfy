/** `POST /api/auth/logout` (src/app/api/auth/logout/route.ts). */
module LogoutRoute {
  import opened Wrappers
  import opened Http
  import opened Session

  datatype LogoutJson = LogoutJson(message: string)

  /** The handler: whatever the session held, it is destroyed and the reply is
      the same. */
  method Post(session: SessionHandle) returns (reply: Reply<LogoutJson>)
    modifies session
    ensures reply == Reply(200, LogoutJson("Logged out"))
    ensures session.Data() == Empty && session.cookie == None
  {
    reply := Reply(200, LogoutJson("Logged out"));
    session.Destroy();
  }
}
