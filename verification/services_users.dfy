/** The user endpoints: look a user up, add one, and the two endpoints
    that are not written yet. Rows are converted back into payloads with
    re-validation; a stored row that no longer validates is answered with
    an internal server error. */
module UserServices {
  import opened Wrappers
  import opened Tables
  import opened Types
  import opened Errors
  import DbError
  import DbUsers

  datatype GetUserPayload = GetUserPayload(id: nat)
  datatype UploadAvatarPayload = UploadAvatarPayload(id: nat, avatar: string)

  type ResponseResult<T> = Result<T, ResponseError>

  /** A stored user as a response: its payload, or an internal error when
      it no longer validates. */
  function Respond(v: Rules, r: Result<User, DbError.Error>): (out: ResponseResult<UserPayload>)
    ensures r.Err? ==> out == Err(DbError.ToResponse(r.error))
    ensures r.Ok? ==> (out.Ok? <==> v.username(r.value.username))
    ensures out.Ok? ==> Ok(out.value) == UserToPayload(v, r.value)
  {
    match r
    case Err(e) => Err(DbError.ToResponse(e))
    case Ok(u) =>
      match UserToPayload(v, u)
      case Ok(p) => Ok(p)
      case Err(_) => Err(InternalServerError)
  }

  /** `get_user`: the stored user's payload; a missing user is reported
      as missing content. */
  function GetUser(users: DbUsers.Users, p: GetUserPayload, v: Rules, f: Faults)
    : (r: ResponseResult<UserPayload>)
    ensures r.Ok? <==> !f.connect && !f.statement && p.id in users && v.username(users[p.id].username)
    ensures r.Ok? ==> r.value.id == users[p.id].id && r.value.username == users[p.id].username
    ensures r.Ok? ==> UserToPayload(v, users[p.id]) == Ok(r.value)
    ensures r == Err(ContentRequestError(MissingContent)) <==> !f.connect && !f.statement && p.id !in users
    ensures r.Err? && r != Err(ContentRequestError(MissingContent)) ==> r == Err(InternalServerError)
  {
    Respond(v, DbUsers.GetUser(users, p.id, f))
  }

  /** `add_user`: stores the user under the requested id and answers with
      its payload; a taken id is an internal server error. */
  function AddUser(users: DbUsers.Users, p: AddUserPayload, v: Rules, f: Faults)
    : (r: (DbUsers.Users, ResponseResult<UserPayload>))
    requires DbUsers.Wf(users)
    requires v.username(p.username)
    ensures DbUsers.Wf(r.0)
    ensures r.1.Ok? <==> !f.connect && !f.statement && !f.reread && p.id !in users
    ensures r.1.Ok? ==> r.1.value == UserPayload(p.id, p.username, None, None)
    ensures r.1.Err? ==> r.1 == Err(InternalServerError)
    ensures p.id in users ==> r.0 == users
    ensures f.connect || f.statement ==> r.0 == users
    ensures !f.connect && !f.statement && p.id !in users ==> r.0 == users[p.id := User(p.id, p.username, None, None)]
  {
    var (users', res) := DbUsers.InsertUser(users, p.id, p.username, f);
    (users', Respond(v, res))
  }

  /** `edit_user`: not written yet; always an internal server error, and
      the store is not touched. */
  function EditUser(users: DbUsers.Users, p: EditUserPayload): (r: (DbUsers.Users, ResponseResult<UserPayload>))
    ensures r.0 == users && r.1 == Err(InternalServerError)
  {
    (users, Err(InternalServerError))
  }

  /** `upload_avatar`: not written yet; always an internal server error,
      and the store is not touched. */
  function UploadAvatar(users: DbUsers.Users, p: UploadAvatarPayload): (r: (DbUsers.Users, ResponseResult<UserPayload>))
    ensures r.0 == users && r.1 == Err(InternalServerError)
  {
    (users, Err(InternalServerError))
  }

  /** Adding a user and then looking it up returns the payload the add
      returned. */
  lemma AddThenGet(users: DbUsers.Users, p: AddUserPayload, v: Rules)
    requires DbUsers.Wf(users) && v.username(p.username) && p.id !in users
    ensures var (users', added) := AddUser(users, p, v, NoFaults);
      added.Ok? && GetUser(users', GetUserPayload(p.id), v, NoFaults) == added
  {
  }
}
