/** The user handlers of server/src/routes/users.ts: the admin-only list
    and the admin-or-self gate on reading one user. */
module UserRoutes {
  import opened Js
  import opened ServerModel
  import opened AuthMiddleware

  const SelfOrAdminOnly := "Forbidden: You can only view your own details or you must be an admin."

  /** The columns `GET /:id` selects: never the stored credential. */
  datatype PublicUser = PublicUser(id: string, name: string, email: string, role: string,
                                   avatarUrl: Option<string>, createdAt: int)

  function Public(u: UserRow): PublicUser {
    PublicUser(u.id, u.name, u.email, u.role, u.avatarUrl, u.createdAt)
  }

  /** GET /api/users: admins only; each listed entry carries the user id. */
  function ListUsers(users: seq<UserRow>, user: Option<Claims>): (reply: Reply<seq<string>>)
    ensures reply.code == 403 <==> user.None? || user.value.role != AdminRole
    ensures reply.code == 403 ==> reply == Message(403, InsufficientRoleMessage)
    ensures reply.code != 403 ==> (
      reply.Payload? && reply.code == 200 && |reply.value| == |users| &&
      forall i | 0 <= i < |users| :: reply.value[i] == users[i].id)
  {
    if AuthorizeRole([AdminRole], user) == Refused then Message(403, InsufficientRoleMessage)
    else Payload(200, seq(|users|, i requires 0 <= i < |users| => users[i].id))
  }

  /** The gate of `GET /:id`: an admin, or the user asking about themself. */
  predicate AdminOrSelf(user: Claims, requestedId: string) {
    user.role == AdminRole || user.userId == requestedId
  }

  /** GET /api/users/:id. The gate comes before the lookup, so a refused
      request learns nothing about whether the id exists. */
  function GetUser(users: seq<UserRow>, user: Option<Claims>, requestedId: string): (reply: Reply<PublicUser>)
    ensures user == None ==> reply == Status(401)
    ensures user.Some? && !AdminOrSelf(user.value, requestedId) ==> reply == Message(403, SelfOrAdminOnly)
    ensures user.Some? && AdminOrSelf(user.value, requestedId) ==>
      if FindFirst(users, UserId, requestedId).None? then reply == Message(404, "User not found")
      else reply == Payload(200, Public(FindFirst(users, UserId, requestedId).value))
  {
    if user == None then Status(401)
    else if user.value.role != AdminRole && user.value.userId != requestedId then Message(403, SelfOrAdminOnly)
    else
      match FindFirst(users, UserId, requestedId)
      case None => Message(404, "User not found")
      case Some(u) => Payload(200, Public(u))
  }

  /** The tables agree except possibly in the stored credentials. */
  predicate SameButCredentials(a: seq<UserRow>, b: seq<UserRow>) {
    |a| == |b| && forall i | 0 <= i < |a| :: b[i] == a[i].(passwordHash := b[i].passwordHash)
  }

  /** The answer never depends on the stored credentials. */
  lemma {:induction false} GetUserIgnoresCredentials(a: seq<UserRow>, b: seq<UserRow>, user: Option<Claims>, requestedId: string)
    requires SameButCredentials(a, b)
    ensures GetUser(a, user, requestedId) == GetUser(b, user, requestedId)
  {
    FindIgnoresCredentials(a, b, requestedId);
  }

  lemma {:induction false} FindIgnoresCredentials(a: seq<UserRow>, b: seq<UserRow>, id: string)
    requires SameButCredentials(a, b)
    ensures FindFirst(a, UserId, id).None? == FindFirst(b, UserId, id).None?
    ensures FindFirst(a, UserId, id).Some? ==>
      Public(FindFirst(a, UserId, id).value) == Public(FindFirst(b, UserId, id).value)
  {
    if a != [] {
      assert b[0] == a[0].(passwordHash := b[0].passwordHash);
      assert SameButCredentials(a[1..], b[1..]) by {
        forall i | 0 <= i < |a[1..]| ensures b[1..][i] == a[1..][i].(passwordHash := b[1..][i].passwordHash) {
          assert b[1..][i] == b[i + 1] && a[1..][i] == a[i + 1];
        }
      }
      FindIgnoresCredentials(a[1..], b[1..], id);
    }
  }
}
