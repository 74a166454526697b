/** The RPC entry points the server answers: `add_user` and the
    `content_request` dispatch. Each request first takes a connection from
    the pool; failing to get one is an internal server error. */
module Services {
  import opened Wrappers
  import opened Tables
  import opened Errors
  import opened Store
  import Types
  import DbError
  import DbUsers
  import DbCategories
  import DbSearch
  import UserServices
  import CategoryServices

  /** The edit-user request of this entry point carries one description. */
  datatype EditUserRequest = EditUserRequest(id: nat, description: string)

  datatype ContentRequest =
    | AddCategory(addCategory: Types.AddCategoryPayload)
    | EditCategory(editCategory: Types.EditCategoryPayload)
    | HideCategory(hideCategory: Types.HideCategoryPayload)
    | AddThread(addThread: Types.AddThreadPayload)
    | EditThread(editThread: Types.EditThreadPayload)
    | HideThread(hideThread: Types.HideThreadPayload)
    | AddComment(addComment: Types.AddCommentPayload)
    | EditComment(editComment: Types.EditCommentPayload)
    | HideComment(hideComment: Types.HideCommentPayload)
    | EditUser(editUser: EditUserRequest)
    | UploadAvatar(uploadAvatar: UserServices.UploadAvatarPayload)
    | Search(search: DbSearch.SearchPayload)

  datatype ContentSuccess = Category(category: Types.CategoryPayload)

  type ResponseResult<T> = Result<T, ResponseError>

  /** The requests whose handler performs a store call. */
  predicate TouchesStore(req: ContentRequest) {
    req.AddCategory? || req.HideCategory? || req.EditUser? || req.UploadAvatar?
  }

  /** `add_user`: insert the user and answer with its payload. */
  function AddUserRpc(db: Db, p: Types.AddUserPayload, v: Types.Rules, poolFails: bool, f: Faults)
    : (r: (Db, ResponseResult<Types.UserPayload>))
    requires Wf(db)
    requires v.username(p.username)
    ensures Wf(r.0)
    ensures poolFails ==> r == (db, Err(InternalServerError))
    ensures r.1.Ok? <==> !poolFails && !f.connect && !f.statement && !f.reread && p.id !in db.users
    ensures r.1.Ok? ==> r.1.value == Types.UserPayload(p.id, p.username, None, None)
    ensures r.1.Ok? ==> r.0 == db.(users := db.users[p.id := Types.User(p.id, p.username, None, None)])
    ensures !poolFails && (f.connect || f.statement || p.id in db.users) ==> r.0 == db
    ensures !poolFails && !f.connect && !f.statement && p.id !in db.users ==>
      r.0 == db.(users := db.users[p.id := Types.User(p.id, p.username, None, None)])
    ensures r.1.Err? ==> r.1 == Err(InternalServerError)
    ensures r.0.categories == db.categories && r.0.threads == db.threads && r.0.comments == db.comments
  {
    if poolFails then (db, Err(InternalServerError))
    else
      var (users', res) := UserServices.AddUser(db.users, p, v, f);
      (db.(users := users'), res)
  }

  /** `content_request`: the dispatch table. Only adding a category can
      succeed. Hiding a category, editing a user and uploading an avatar
      perform their update, ignore its outcome and answer with an internal
      server error; every other request answers so without a store call. */
  function ContentRequestRpc(db: Db, req: ContentRequest, v: Types.Rules, poolFails: bool, f: Faults)
    : (r: (Db, ResponseResult<ContentSuccess>))
    requires Wf(db)
    requires req.AddCategory? ==> v.title(req.addCategory.title) && v.description(req.addCategory.description)
    ensures Wf(r.0)
    ensures poolFails ==> r == (db, Err(InternalServerError))
    ensures r.1.Ok? ==> req.AddCategory? && !poolFails
    ensures !req.AddCategory? ==> r.1 == Err(InternalServerError)
    ensures !TouchesStore(req) ==> r.0 == db
    ensures r.1.Ok? ==> r.1.value.category.title == req.addCategory.title
    ensures r.1.Ok? ==> r.1.value.category.description == req.addCategory.description
    ensures r.1.Ok? ==> !r.1.value.category.hidden
    ensures req.AddCategory? && !poolFails ==> (r.1.Ok? <==> !f.connect && !f.statement && !f.reread)
    ensures r.1.Ok? ==> r.1.value.category.id == db.categories.next
    ensures req.AddCategory? && !poolFails && !f.connect && !f.statement ==>
      r.0 == db.(categories := r.0.categories)
      && r.0.categories.rows == db.categories.rows[db.categories.next :=
           Types.Category(db.categories.next, req.addCategory.title, req.addCategory.description, false)]
    ensures req.AddCategory? && !poolFails && !f.connect && !f.statement && f.reread ==>
      r.1 == Err(ContentRequestError(MissingContent))
    ensures req.AddCategory? && !poolFails && (f.connect || f.statement) ==> r == (db, Err(InternalServerError))
    ensures req.HideCategory? && !poolFails ==>
      r.0 == db.(categories := DbCategories.UpdateCategoryHidden(db.categories, req.hideCategory.id, req.hideCategory.hide, f).0)
    ensures req.EditUser? && !poolFails ==>
      r.0 == db.(users := DbUsers.UpdateUserDescription(db.users, req.editUser.id, req.editUser.description, f).0)
    ensures req.UploadAvatar? && !poolFails ==>
      r.0 == db.(users := DbUsers.UpdateUserAvatar(db.users, req.uploadAvatar.id, req.uploadAvatar.avatar, f).0)
  {
    if poolFails then (db, Err(InternalServerError))
    else
      match req
      case AddCategory(p) =>
        var (t', res) := CategoryServices.AddCategory(db.categories, p, v, f);
        (db.(categories := t'), match res
                                case Ok(c) => Ok(Category(c))
                                case Err(e) => Err(e))
      case EditCategory(_) => (db, Err(InternalServerError))
      case HideCategory(p) =>
        var (t', _) := DbCategories.UpdateCategoryHidden(db.categories, p.id, p.hide, f);
        (db.(categories := t'), Err(InternalServerError))
      case AddThread(_) => (db, Err(InternalServerError))
      case EditThread(_) => (db, Err(InternalServerError))
      case HideThread(_) => (db, Err(InternalServerError))
      case AddComment(_) => (db, Err(InternalServerError))
      case EditComment(_) => (db, Err(InternalServerError))
      case HideComment(_) => (db, Err(InternalServerError))
      case EditUser(p) =>
        var (u', _) := DbUsers.UpdateUserDescription(db.users, p.id, p.description, f);
        (db.(users := u'), Err(InternalServerError))
      case UploadAvatar(p) =>
        var (u', _) := DbUsers.UpdateUserAvatar(db.users, p.id, p.avatar, f);
        (db.(users := u'), Err(InternalServerError))
      case Search(_) => (db, Err(InternalServerError))
  }

  /** Hiding a category through the dispatch really hides it, although the
      client is told the request failed. */
  lemma HideCategoryTakesEffect(db: Db, p: Types.HideCategoryPayload, v: Types.Rules)
    requires Wf(db) && p.id in db.categories.rows
    ensures var r := ContentRequestRpc(db, HideCategory(p), v, false, NoFaults);
      && r.1 == Err(InternalServerError)
      && r.0.categories.rows[p.id].hidden == p.hide
  {
  }
}
