/** GET /api/users/:id: a read-only profile lookup that never reveals the
    password. */
module UserRoutes {
  import opened Base
  import opened Http
  import opened UserSchema

  /** A user document as selected with `-password`: every field but the password. */
  datatype PublicUser = PublicUser(
    id: ObjectId,
    name: string,
    email: string,
    bio: string,
    avatarUrl: Option<string>,
    createdAt: int)

  function WithoutPassword(u: User): (p: PublicUser)
    ensures p.id == u.id && p.name == u.name && p.email == u.email
    ensures p.bio == u.bio && p.avatarUrl == u.avatarUrl && p.createdAt == u.createdAt
  {
    PublicUser(u.id, u.name, u.email, u.bio, u.avatarUrl, u.createdAt)
  }

  /** `findById`: the stored user carrying `id`, if any. */
  function FindById(users: seq<User>, id: ObjectId): (r: Option<User>)
    ensures r.Some? ==> r.value in users && r.value.id == id
    ensures r.None? ==> forall i :: 0 <= i < |users| ==> users[i].id != id
  {
    if |users| == 0 then None
    else if users[0].id == id then Some(users[0])
    else FindById(users[1..], id)
  }

  /** With distinct ids the lookup returns the one user carrying the id. */
  lemma FindByIdFindsStored(users: seq<User>, k: int)
    requires 0 <= k < |users|
    requires forall i, j :: 0 <= i < j < |users| ==> users[i].id != users[j].id
    ensures FindById(users, users[k].id) == Some(users[k])
  {
  }

  /** The route handler. `caller` is the identity the `auth` middleware
      resolved (None: it rejected the request). `dbFault` stands for a store
      failure other than the ObjectId cast error. */
  function GetUser(caller: Option<ObjectId>, users: seq<User>, param: IdParam, dbFault: bool)
    : (r: Response<PublicUser>)
    ensures caller.None? <==> r == AuthRejected
    ensures caller.Some? && param.Malformed? ==> r == NotFound(UserNotFoundMsg)
    ensures caller.Some? && param.WellFormed? && dbFault ==> r == ServerError(ServerErrorText)
    ensures caller.Some? && param.WellFormed? && !dbFault ==>
      (r == NotFound(UserNotFoundMsg) <==> forall i :: 0 <= i < |users| ==> users[i].id != param.id)
    ensures caller.Some? && param.WellFormed? && !dbFault ==> r.Ok? || r == NotFound(UserNotFoundMsg)
    ensures r.Ok? ==>
      exists i :: 0 <= i < |users| && users[i].id == param.id && r.body == WithoutPassword(users[i])
  {
    if caller.None? then AuthRejected
    else match param
      case Malformed(_) => NotFound(UserNotFoundMsg)
      case WellFormed(id) =>
        if dbFault then ServerError(ServerErrorText)
        else
          match FindById(users, id)
          case None => NotFound(UserNotFoundMsg)
          case Some(u) => Ok(WithoutPassword(u))
  }

  /** For a stored user the route answers with that user's public view. */
  lemma GetUserFindsStored(caller: ObjectId, users: seq<User>, k: int)
    requires 0 <= k < |users|
    requires forall i, j :: 0 <= i < j < |users| ==> users[i].id != users[j].id
    ensures GetUser(Some(caller), users, WellFormed(users[k].id), false) == Ok(WithoutPassword(users[k]))
  {
  }
}
