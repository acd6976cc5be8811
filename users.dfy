/** The credential store behind the auth routes: the `user` table seen through
    the database client. Its rows are kept in insertion order, which is the
    order a query without `orderBy` returns them in here. */
module Users {
  import opened Wrappers

  /** A row of the user table; `password` holds the bcrypt hash. */
  datatype User = User(id: string, username: string, email: string, password: string, isAdmin: bool, createdAt: string)

  /** The table's unique columns: id, email and username. */
  predicate Valid(users: seq<User>) {
    forall i, j :: 0 <= i < j < |users| ==>
      users[i].id != users[j].id && users[i].email != users[j].email && users[i].username != users[j].username
  }

  /** The first row satisfying `where`, as `findFirst` / `findUnique` return it. */
  function FindFirst(users: seq<User>, where: User -> bool): (r: Option<User>)
    ensures r.None? <==> forall i :: 0 <= i < |users| ==> !where(users[i])
    ensures r.Some? ==> exists i :: 0 <= i < |users| && users[i] == r.value && where(r.value)
                                    && forall j :: 0 <= j < i ==> !where(users[j])
  {
    if users == [] then None
    else if where(users[0]) then Some(users[0])
    else
      var r := FindFirst(users[1..], where);
      assert r.None? ==> forall i :: 0 <= i < |users| ==> !where(users[i]) by {
        if r.None? {
          forall i | 0 <= i < |users| ensures !where(users[i]) {
            if i > 0 { assert users[i] == users[1..][i - 1]; }
          }
        }
      }
      assert r.Some? ==> exists i :: 0 <= i < |users| && users[i] == r.value && where(r.value)
                                    && forall j :: 0 <= j < i ==> !where(users[j]) by {
        if r.Some? {
          var k :| 0 <= k < |users[1..]| && users[1..][k] == r.value && where(r.value)
                   && forall j :: 0 <= j < k ==> !where(users[1..][j]);
          assert users[k + 1] == r.value;
          forall j | 0 <= j < k + 1 ensures !where(users[j]) {
            if j > 0 { assert users[j] == users[1..][j - 1]; }
          }
        }
      }
      r
  }

  /** A row appended behind rows none of which satisfies `where` is the first
      one that does. */
  lemma {:induction false} FindFirstAppended(users: seq<User>, u: User, where: User -> bool)
    requires forall i :: 0 <= i < |users| ==> !where(users[i])
    requires where(u)
    ensures FindFirst(users + [u], where) == Some(u)
  {
    if users != [] {
      assert (users + [u])[1..] == users[1..] + [u];
      FindFirstAppended(users[1..], u, where);
    }
  }

  /** The store the routes read and write. */
  class UserStore {
    var users: seq<User>

    constructor (users: seq<User>)
      ensures this.users == users
    {
      this.users := users;
    }
  }
}
