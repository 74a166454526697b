/** The user table and its store operations, in the older style: each
    public operation opens its own connection and fails with the older
    `DbError.Error`. User ids are chosen by the caller, not the store. */
module DbUsers {
  import opened Wrappers
  import opened Tables
  import opened Types
  import opened DbError

  type Users = map<nat, User>

  predicate Wf(u: Users) {
    forall k :: k in u ==> u[k].id == k
  }

  /** `insert_user`: insert under the caller's id, then reread by that id.
      Inserting an id that is already taken fails like any other failed
      INSERT, with `Database`, and stores nothing. */
  function InsertUser(u: Users, id: nat, username: string, f: Faults): (r: (Users, Result<User, Error>))
    requires Wf(u)
    ensures Wf(r.0)
    ensures f.connect ==> r == (u, Err(Connection))
    ensures !f.connect && (f.statement || id in u) ==> r == (u, Err(Database))
    ensures !f.connect && !f.statement && id !in u ==> r.0 == u[id := User(id, username, None, None)]
    ensures r.1.Ok? <==> !f.connect && !f.statement && !f.reread && id !in u
    ensures r.1.Ok? ==> r.1.value == User(id, username, None, None)
    ensures !f.connect && !f.statement && id !in u && f.reread ==> r.1 == Err(Database)
    ensures r.1.Err? ==> r.1.error != NotFound
  {
    if f.connect then (u, Err(Connection))
    else if f.statement || id in u then (u, Err(Database))
    else
      var u' := u[id := User(id, username, None, None)];
      if f.reread then (u', Err(Database)) else (u', Ok(u'[id]))
  }

  /** `get_user_con`: the user under `id`. */
  function GetUserCon(u: Users, id: nat, queryFails: bool): (r: Result<User, Error>)
    ensures queryFails ==> r == Err(Database)
    ensures !queryFails && id !in u ==> r == Err(NotFound)
    ensures !queryFails && id in u ==> r == Ok(u[id])
  {
    if queryFails then Err(Database)
    else if id in u then Ok(u[id])
    else Err(NotFound)
  }

  /** `get_user`: connect, then `get_user_con`. */
  function GetUser(u: Users, id: nat, f: Faults): (r: Result<User, Error>)
    ensures f.connect ==> r == Err(Connection)
    ensures !f.connect && f.statement ==> r == Err(Database)
    ensures r.Ok? <==> !f.connect && !f.statement && id in u
    ensures r.Ok? ==> r.value == u[id]
    ensures r == Err(NotFound) <==> !f.connect && !f.statement && id !in u
  {
    if f.connect then Err(Connection)
    else GetUserCon(u, id, f.statement)
  }

  /** `delete_user`: removes the user; deleting no row is `NotFound`. */
  function DeleteUser(u: Users, id: nat, f: Faults): (r: (Users, Result<nat, Error>))
    requires Wf(u)
    ensures Wf(r.0)
    ensures f.connect ==> r == (u, Err(Connection))
    ensures !f.connect && f.statement ==> r == (u, Err(Database))
    ensures !f.connect && !f.statement && id !in u ==> r == (u, Err(NotFound))
    ensures !f.connect && !f.statement && id in u ==> r.0 == u - {id} && r.1 == Ok(1)
    ensures r.1.Ok? ==> id !in r.0 && id in u
  {
    if f.connect then (u, Err(Connection))
    else if f.statement then (u, Err(Database))
    else if id !in u then (u, Err(NotFound))
    else (u - {id}, Ok(1))
  }

  /** `delete_all_users`: empties the table, returns the count removed. */
  function DeleteAllUsers(u: Users, f: Faults): (r: (Users, Result<nat, Error>))
    ensures f.connect ==> r == (u, Err(Connection))
    ensures !f.connect && f.statement ==> r == (u, Err(Database))
    ensures !f.connect && !f.statement ==> r == (map[], Ok(|u|))
  {
    if f.connect then (u, Err(Connection))
    else if f.statement then (u, Err(Database))
    else (map[], Ok(|u|))
  }

  /** `get_update_result`: a failed UPDATE is `Database`, zero updated rows
      is `NotFound`, otherwise the user is reread by id. */
  function GetUpdateResult(updated: Result<nat, ()>, u: Users, id: nat, rereadFails: bool)
    : (r: Result<User, Error>)
    ensures updated.Err? ==> r == Err(Database)
    ensures updated == Ok(0) ==> r == Err(NotFound)
    ensures updated.Ok? && updated.value > 0 ==> r == GetUserCon(u, id, rereadFails)
  {
    match updated
    case Err(_) => Err(Database)
    case Ok(n) => if n == 0 then Err(NotFound) else GetUserCon(u, id, rereadFails)
  }

  /** An UPDATE of the user with this id, changing it by `change`, followed
      by `get_update_result`. */
  function UpdateWith(u: Users, id: nat, change: User -> User, f: Faults): (r: (Users, Result<User, Error>))
  {
    if f.connect then (u, Err(Connection))
    else if f.statement then (u, GetUpdateResult(Err(()), u, id, f.reread))
    else if id !in u then (u, GetUpdateResult(Ok(0), u, id, f.reread))
    else
      var u' := u[id := change(u[id])];
      (u', GetUpdateResult(Ok(1), u', id, f.reread))
  }

  /** `update_user`: writes the given user's username over the stored one,
      and its description and avatar where they are present (an absent
      optional column is skipped by the changeset, not cleared). */
  function UpdateUser(u: Users, user: User, f: Faults): (r: (Users, Result<User, Error>))
    requires Wf(u)
    ensures Wf(r.0)
    ensures f.connect ==> r == (u, Err(Connection))
    ensures !f.connect && f.statement ==> r == (u, Err(Database))
    ensures !f.connect && !f.statement && user.id !in u ==> r == (u, Err(NotFound))
    ensures !f.connect && !f.statement && user.id in u ==>
      r.0 == u[user.id := ApplyUser(u[user.id].(username := user.username),
                                    Types.UpdateUser(user.id, user.description, user.avatar))]
    ensures r.1.Ok? <==> !f.connect && !f.statement && !f.reread && user.id in u
    ensures !f.connect && !f.statement && user.id in u && f.reread ==> r.1 == Err(Database)
    ensures r.1.Ok? ==> r.1 == Ok(r.0[user.id])
    ensures r.1.Ok? ==> r.1.value.id == user.id && r.1.value.username == user.username
    ensures r.1.Ok? ==> r.1.value.description == (if user.description.Some? then user.description else u[user.id].description)
    ensures r.1.Ok? ==> r.1.value.avatar == (if user.avatar.Some? then user.avatar else u[user.id].avatar)
  {
    UpdateWith(u, user.id, (row: User) => ApplyUser(row.(username := user.username),
                                                    Types.UpdateUser(user.id, user.description, user.avatar)), f)
  }

  /** `update_user_username`: changes only the username. */
  function UpdateUserUsername(u: Users, id: nat, username: string, f: Faults): (r: (Users, Result<User, Error>))
    requires Wf(u)
    ensures Wf(r.0)
    ensures f.connect ==> r == (u, Err(Connection))
    ensures !f.connect && f.statement ==> r == (u, Err(Database))
    ensures !f.connect && !f.statement && id !in u ==> r == (u, Err(NotFound))
    ensures !f.connect && !f.statement && id in u ==> r.0 == u[id := u[id].(username := username)]
    ensures r.1.Ok? <==> !f.connect && !f.statement && !f.reread && id in u
    ensures !f.connect && !f.statement && id in u && f.reread ==> r.1 == Err(Database)
    ensures r.1.Ok? ==> r.1.value == u[id].(username := username)
  {
    UpdateWith(u, id, (row: User) => row.(username := username), f)
  }

  /** `update_user_description`: changes only the description. */
  function UpdateUserDescription(u: Users, id: nat, description: string, f: Faults): (r: (Users, Result<User, Error>))
    requires Wf(u)
    ensures Wf(r.0)
    ensures f.connect ==> r == (u, Err(Connection))
    ensures !f.connect && f.statement ==> r == (u, Err(Database))
    ensures !f.connect && !f.statement && id !in u ==> r == (u, Err(NotFound))
    ensures !f.connect && !f.statement && id in u ==> r.0 == u[id := u[id].(description := Some(description))]
    ensures r.1.Ok? <==> !f.connect && !f.statement && !f.reread && id in u
    ensures !f.connect && !f.statement && id in u && f.reread ==> r.1 == Err(Database)
    ensures r.1.Ok? ==> r.1.value == u[id].(description := Some(description))
  {
    UpdateWith(u, id, (row: User) => row.(description := Some(description)), f)
  }

  /** `update_user_avatar`: changes only the avatar. */
  function UpdateUserAvatar(u: Users, id: nat, avatar: string, f: Faults): (r: (Users, Result<User, Error>))
    requires Wf(u)
    ensures Wf(r.0)
    ensures f.connect ==> r == (u, Err(Connection))
    ensures !f.connect && f.statement ==> r == (u, Err(Database))
    ensures !f.connect && !f.statement && id !in u ==> r == (u, Err(NotFound))
    ensures !f.connect && !f.statement && id in u ==> r.0 == u[id := u[id].(avatar := Some(avatar))]
    ensures r.1.Ok? <==> !f.connect && !f.statement && !f.reread && id in u
    ensures !f.connect && !f.statement && id in u && f.reread ==> r.1 == Err(Database)
    ensures r.1.Ok? ==> r.1.value == u[id].(avatar := Some(avatar))
  {
    UpdateWith(u, id, (row: User) => row.(avatar := Some(avatar)), f)
  }

  /** Description and avatar updates are the edit changeset applied to the
      stored user, and neither touches the username. */
  lemma UpdatesApplyChangesets(u: Users, id: nat, s: string)
    requires Wf(u) && id in u
    ensures UpdateUserDescription(u, id, s, NoFaults).1
         == Ok(ApplyUser(u[id], UserUpdate(EditUserPayload(id, Some(s), None))))
    ensures UpdateUserAvatar(u, id, s, NoFaults).1
         == Ok(ApplyUser(u[id], UserUpdate(EditUserPayload(id, None, Some(s)))))
    ensures UpdateUserDescription(u, id, s, NoFaults).1.value.username == u[id].username
  {
  }

  /** Insert then get, and delete then get: a user added under a free id
      reads back; once deleted, reading it is `NotFound`. */
  lemma InsertDeleteGet(u: Users, id: nat, username: string)
    requires Wf(u) && id !in u
    ensures var ins := InsertUser(u, id, username, NoFaults);
      && GetUser(ins.0, id, NoFaults) == ins.1
      && GetUser(DeleteUser(ins.0, id, NoFaults).0, id, NoFaults) == Err(NotFound)
  {
  }
}
