/** The category table and its store operations, in the older style: each
    public operation opens its own connection, and failures are the older
    `DbError.Error` (`Connection`, `Database`, `NotFound`). */
module DbCategories {
  import opened Wrappers
  import opened Tables
  import opened Types
  import opened DbError

  predicate Wf(t: Table<Category>) {
    KeysBelowNext(t) && forall k :: k in t.rows ==> t.rows[k].id == k
  }

  /** The row an INSERT of a title and description creates. */
  function NewRow(t: Table<Category>, title: string, description: string): Category {
    Category(t.next, title, description, false)
  }

  /** `insert_category`: insert, then reread the row with the greatest id.
      Any failure of the reread is reported as `NotFound`. */
  function InsertCategory(t: Table<Category>, title: string, description: string, f: Faults)
    : (r: (Table<Category>, Result<Category, Error>))
    requires Wf(t)
    ensures Wf(r.0)
    ensures f.connect ==> r == (t, Err(Connection))
    ensures !f.connect && f.statement ==> r == (t, Err(Database))
    ensures !f.connect && !f.statement ==> r.0.rows == t.rows[t.next := NewRow(t, title, description)]
    ensures !f.connect && !f.statement && f.reread ==> r.1 == Err(NotFound)
    ensures r.1.Ok? <==> !f.connect && !f.statement && !f.reread
    ensures r.1.Ok? ==> r.1.value.id in r.0.rows && forall k :: k in r.0.rows ==> k <= r.1.value.id
    ensures r.1.Ok? ==> r.1.value.title == title && r.1.value.description == description && !r.1.value.hidden
  {
    if f.connect then (t, Err(Connection))
    else if f.statement then (t, Err(Database))
    else
      var t' := Append(t, NewRow(t, title, description));
      if f.reread then (t', Err(NotFound))
      else
        AppendedIsGreatest(t, NewRow(t, title, description));
        match Greatest(t'.rows)
        case Some(k) => (t', Ok(t'.rows[k]))
        case None => (t', Err(NotFound))
  }

  /** `get_category_con`: the row under `id`, hidden or not. */
  function GetCategoryCon(t: Table<Category>, id: nat, queryFails: bool): (r: Result<Category, Error>)
    ensures queryFails ==> r == Err(Database)
    ensures !queryFails && id !in t.rows ==> r == Err(NotFound)
    ensures !queryFails && id in t.rows ==> r == Ok(t.rows[id])
  {
    if queryFails then Err(Database)
    else if id in t.rows then Ok(t.rows[id])
    else Err(NotFound)
  }

  /** `get_category`: connect, then `get_category_con`. */
  function GetCategory(t: Table<Category>, id: nat, f: Faults): (r: Result<Category, Error>)
    ensures f.connect ==> r == Err(Connection)
    ensures !f.connect && f.statement ==> r == Err(Database)
    ensures !f.connect && !f.statement && id !in t.rows ==> r == Err(NotFound)
    ensures r.Ok? <==> !f.connect && !f.statement && id in t.rows
    ensures r.Ok? ==> r.value == t.rows[id]
  {
    if f.connect then Err(Connection)
    else GetCategoryCon(t, id, f.statement)
  }

  /** `get_all_categories`: all rows, or only the unhidden ones; no limit. */
  function GetAllCategories(t: Table<Category>, includeHidden: bool, f: Faults)
    : (r: Result<map<nat, Category>, Error>)
    ensures f.connect ==> r == Err(Connection)
    ensures !f.connect && f.statement ==> r == Err(Database)
    ensures r.Ok? <==> !f.connect && !f.statement
    ensures r.Ok? && includeHidden ==> r.value == t.rows
    ensures r.Ok? ==> forall k :: k in r.value <==> k in t.rows && (includeHidden || !t.rows[k].hidden)
    ensures r.Ok? ==> forall k :: k in r.value ==> r.value[k] == t.rows[k]
  {
    if f.connect then Err(Connection)
    else if f.statement then Err(Database)
    else if includeHidden then Ok(t.rows)
    else Ok(Where(t.rows, (c: Category) => !c.hidden))
  }

  /** `delete_all_categories`: empties the table, returns the count removed. */
  function DeleteAllCategories(t: Table<Category>, f: Faults): (r: (Table<Category>, Result<nat, Error>))
    ensures f.connect ==> r == (t, Err(Connection))
    ensures !f.connect && f.statement ==> r == (t, Err(Database))
    ensures !f.connect && !f.statement ==> r.0.rows == map[] && r.0.next == t.next && r.1 == Ok(|t.rows|)
  {
    if f.connect then (t, Err(Connection))
    else if f.statement then (t, Err(Database))
    else (Table(map[], t.next), Ok(|t.rows|))
  }

  /** `get_update_result`: a failed UPDATE is `Database`, zero updated rows
      is `NotFound`, otherwise the row is reread by id. `updated` is the
      UPDATE's outcome: the number of rows it changed, or its failure. */
  function GetUpdateResult(updated: Result<nat, ()>, t: Table<Category>, id: nat, rereadFails: bool)
    : (r: Result<Category, Error>)
    ensures updated.Err? ==> r == Err(Database)
    ensures updated == Ok(0) ==> r == Err(NotFound)
    ensures updated.Ok? && updated.value > 0 ==> r == GetCategoryCon(t, id, rereadFails)
  {
    match updated
    case Err(_) => Err(Database)
    case Ok(n) => if n == 0 then Err(NotFound) else GetCategoryCon(t, id, rereadFails)
  }

  /** An UPDATE of the row with this id, changing it by `change`, followed
      by `get_update_result`. Only the id is matched. */
  function UpdateWith(t: Table<Category>, id: nat, change: Category -> Category, f: Faults)
    : (r: (Table<Category>, Result<Category, Error>))
  {
    if f.connect then (t, Err(Connection))
    else if f.statement then (t, GetUpdateResult(Err(()), t, id, f.reread))
    else if id !in t.rows then (t, GetUpdateResult(Ok(0), t, id, f.reread))
    else
      var t' := t.(rows := t.rows[id := change(t.rows[id])]);
      (t', GetUpdateResult(Ok(1), t', id, f.reread))
  }

  /** `update_category`: writes title, description and hidden flag of the
      given row over the stored row with the same id. */
  function UpdateCategory(t: Table<Category>, c: Category, f: Faults)
    : (r: (Table<Category>, Result<Category, Error>))
    requires Wf(t)
    ensures Wf(r.0)
    ensures f.connect ==> r == (t, Err(Connection))
    ensures !f.connect && f.statement ==> r == (t, Err(Database))
    ensures !f.connect && !f.statement && c.id !in t.rows ==> r == (t, Err(NotFound))
    ensures !f.connect && !f.statement && c.id in t.rows ==> r.0.rows == t.rows[c.id := c]
    ensures r.1.Ok? <==> !f.connect && !f.statement && !f.reread && c.id in t.rows
    ensures !f.connect && !f.statement && c.id in t.rows && f.reread ==> r.1 == Err(Database)
    ensures r.1.Ok? ==> r.1.value == c
  {
    UpdateWith(t, c.id, (row: Category) => row.(title := c.title, description := c.description, hidden := c.hidden), f)
  }

  /** `update_category_title`: changes only the title. */
  function UpdateCategoryTitle(t: Table<Category>, id: nat, title: string, f: Faults)
    : (r: (Table<Category>, Result<Category, Error>))
    requires Wf(t)
    ensures Wf(r.0)
    ensures f.connect ==> r == (t, Err(Connection))
    ensures !f.connect && f.statement ==> r == (t, Err(Database))
    ensures !f.connect && !f.statement && id !in t.rows ==> r == (t, Err(NotFound))
    ensures !f.connect && !f.statement && id in t.rows ==> r.0.rows == t.rows[id := t.rows[id].(title := title)]
    ensures r.1.Ok? <==> !f.connect && !f.statement && !f.reread && id in t.rows
    ensures !f.connect && !f.statement && id in t.rows && f.reread ==> r.1 == Err(Database)
    ensures r.1.Ok? ==> r.1.value == t.rows[id].(title := title)
  {
    UpdateWith(t, id, (row: Category) => row.(title := title), f)
  }

  /** `update_category_description`: changes only the description. */
  function UpdateCategoryDescription(t: Table<Category>, id: nat, description: string, f: Faults)
    : (r: (Table<Category>, Result<Category, Error>))
    requires Wf(t)
    ensures Wf(r.0)
    ensures f.connect ==> r == (t, Err(Connection))
    ensures !f.connect && f.statement ==> r == (t, Err(Database))
    ensures !f.connect && !f.statement && id !in t.rows ==> r == (t, Err(NotFound))
    ensures !f.connect && !f.statement && id in t.rows ==> r.0.rows == t.rows[id := t.rows[id].(description := description)]
    ensures r.1.Ok? <==> !f.connect && !f.statement && !f.reread && id in t.rows
    ensures !f.connect && !f.statement && id in t.rows && f.reread ==> r.1 == Err(Database)
    ensures r.1.Ok? ==> r.1.value == t.rows[id].(description := description)
  {
    UpdateWith(t, id, (row: Category) => row.(description := description), f)
  }

  /** `update_category_hidden`: changes only the hidden flag. */
  function UpdateCategoryHidden(t: Table<Category>, id: nat, hidden: bool, f: Faults)
    : (r: (Table<Category>, Result<Category, Error>))
    requires Wf(t)
    ensures Wf(r.0)
    ensures f.connect ==> r == (t, Err(Connection))
    ensures !f.connect && f.statement ==> r == (t, Err(Database))
    ensures !f.connect && !f.statement && id !in t.rows ==> r == (t, Err(NotFound))
    ensures !f.connect && !f.statement && id in t.rows ==> r.0.rows == t.rows[id := t.rows[id].(hidden := hidden)]
    ensures r.1.Ok? <==> !f.connect && !f.statement && !f.reread && id in t.rows
    ensures !f.connect && !f.statement && id in t.rows && f.reread ==> r.1 == Err(Database)
    ensures r.1.Ok? ==> r.1.value == t.rows[id].(hidden := hidden)
  {
    UpdateWith(t, id, (row: Category) => row.(hidden := hidden), f)
  }

  /** The single-column updates are the edit and hide changesets applied
      to the stored row: a description-only edit keeps title and hidden. */
  lemma UpdatesApplyChangesets(t: Table<Category>, id: nat, s: string, h: HideCategoryPayload)
    requires Wf(t) && id in t.rows && h.id in t.rows
    ensures UpdateCategoryTitle(t, id, s, NoFaults).1
         == Ok(ApplyCategory(t.rows[id], CategoryEdit(EditCategoryPayload(id, Some(s), None))))
    ensures UpdateCategoryDescription(t, id, s, NoFaults).1
         == Ok(ApplyCategory(t.rows[id], CategoryEdit(EditCategoryPayload(id, None, Some(s)))))
    ensures UpdateCategoryHidden(t, h.id, h.hide, NoFaults).1
         == Ok(ApplyCategory(t.rows[h.id], CategoryHide(h)))
  {
  }

  /** Insert then get: the category just added reads back with the title
      and description it was given. */
  lemma InsertThenGet(t: Table<Category>, title: string, description: string)
    requires Wf(t)
    ensures var r := InsertCategory(t, title, description, NoFaults);
      && r.1.Ok?
      && GetCategory(r.0, r.1.value.id, NoFaults) == r.1
      && r.1.value == Category(t.next, title, description, false)
  {
    var r := InsertCategory(t, title, description, NoFaults);
    assert r.1.value.id == t.next by {
      assert t.next in r.0.rows;
    }
  }

  /** A hidden category is still returned by id, and by the listing that
      includes hidden rows, but not by the plain listing. */
  lemma HiddenCategoryVisibility(t: Table<Category>, id: nat)
    requires Wf(t) && id in t.rows
    ensures var t' := UpdateCategoryHidden(t, id, true, NoFaults).0;
      && GetCategory(t', id, NoFaults) == Ok(t.rows[id].(hidden := true))
      && id in GetAllCategories(t', true, NoFaults).value
      && id !in GetAllCategories(t', false, NoFaults).value
  {
  }
}
