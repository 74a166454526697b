/** The category endpoints. Only adding a category is written; the other
    four answer with an internal server error without touching the store. */
module CategoryServices {
  import opened Wrappers
  import opened Tables
  import opened Types
  import opened Errors
  import DbError
  import DbCategories

  datatype GetCategoryPayload = GetCategoryPayload(id: nat, includeHidden: bool)
  datatype GetHiddenPayload = GetHiddenPayload(includeHidden: bool)

  type ResponseResult<T> = Result<T, ResponseError>

  /** A stored category as a response: its payload, or an internal error
      when it no longer validates. */
  function Respond(v: Rules, r: Result<Category, DbError.Error>): (out: ResponseResult<CategoryPayload>)
    ensures r.Err? ==> out == Err(DbError.ToResponse(r.error))
    ensures r.Ok? ==> (out.Ok? <==> v.title(r.value.title) && v.description(r.value.description))
    ensures out.Ok? ==> out.value == CategoryPayload(r.value.id, r.value.title, r.value.description, r.value.hidden)
  {
    match r
    case Err(e) => Err(DbError.ToResponse(e))
    case Ok(c) =>
      match CategoryToPayload(v, c)
      case Ok(p) => Ok(p)
      case Err(_) => Err(InternalServerError)
  }

  /** `add_category`: stores a new, visible category and answers with its
      payload; a store failure goes through the error translation. */
  function AddCategory(t: Table<Category>, p: AddCategoryPayload, v: Rules, f: Faults)
    : (r: (Table<Category>, ResponseResult<CategoryPayload>))
    requires DbCategories.Wf(t)
    requires v.title(p.title) && v.description(p.description)
    ensures DbCategories.Wf(r.0)
    ensures r.1.Ok? <==> !f.connect && !f.statement && !f.reread
    ensures r.1.Ok? ==> r.1.value == CategoryPayload(t.next, p.title, p.description, false)
    ensures !f.connect && !f.statement ==> r.0.rows == t.rows[t.next := Category(t.next, p.title, p.description, false)]
    ensures !f.connect && !f.statement && f.reread ==> r.1 == Err(ContentRequestError(MissingContent))
    ensures f.connect || f.statement ==> r == (t, Err(InternalServerError))
  {
    var ins := CategoryInsert(p);
    var (t', res) := DbCategories.InsertCategory(t, ins.title, ins.description, f);
    if res.Ok? then
      assert res.value.id == t.next by { assert t.next in t'.rows; }
      (t', Respond(v, res))
    else (t', Respond(v, res))
  }

  /** `get_category`: not written yet. */
  function GetCategory(t: Table<Category>, p: GetCategoryPayload): (r: (Table<Category>, ResponseResult<CategoryPayload>))
    ensures r == (t, Err(InternalServerError))
  {
    (t, Err(InternalServerError))
  }

  /** `get_categories`: not written yet. */
  function GetCategories(t: Table<Category>, p: GetHiddenPayload)
    : (r: (Table<Category>, ResponseResult<seq<CategoryPayload>>))
    ensures r == (t, Err(InternalServerError))
  {
    (t, Err(InternalServerError))
  }

  /** `edit_category`: not written yet. */
  function EditCategory(t: Table<Category>, p: EditCategoryPayload): (r: (Table<Category>, ResponseResult<CategoryPayload>))
    ensures r == (t, Err(InternalServerError))
  {
    (t, Err(InternalServerError))
  }

  /** `hide_category`: not written yet. */
  function HideCategory(t: Table<Category>, p: HideCategoryPayload): (r: (Table<Category>, ResponseResult<CategoryPayload>))
    ensures r == (t, Err(InternalServerError))
  {
    (t, Err(InternalServerError))
  }

  /** Adding a category and then reading back the id it was given returns
      the new, visible row, and the answer is that row's payload. */
  lemma AddThenGet(t: Table<Category>, p: AddCategoryPayload, v: Rules)
    requires DbCategories.Wf(t)
    requires v.title(p.title) && v.description(p.description)
    ensures var (t', added) := AddCategory(t, p, v, NoFaults);
      && DbCategories.GetCategory(t', t.next, NoFaults) == Ok(Category(t.next, p.title, p.description, false))
      && added == Ok(CategoryPayload(t.next, p.title, p.description, false))
  {
  }
}
