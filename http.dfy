/** The shape of a JSON response from a route handler: a status code and a body. */
module Http {

  datatype Reply<+B> = Reply(status: nat, body: B)
}
