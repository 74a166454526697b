/** Stored rows, the payloads a client sees, and the changesets that
    requests turn into. Field validation (usernames, titles, descriptions,
    comment contents) belongs to a library this model does not include, so
    its rules are a parameter: `Rules`. */
module Types {
  import opened Wrappers

  type Timestamp = int

  /** Which strings each validated field type accepts. */
  datatype Rules = Rules(
    username: string -> bool,
    title: string -> bool,
    description: string -> bool,
    content: string -> bool)

  /** The validated field a conversion rejected. */
  datatype Field = Username | Title | Description | Content

  datatype ValidationError = ValidationError(field: Field)

  // ----- Rows, as the store returns them -----

  datatype User = User(id: nat, username: string, description: Option<string>, avatar: Option<string>)

  datatype Category = Category(id: nat, title: string, description: string, hidden: bool)

  datatype Thread = Thread(
    id: nat, categoryId: nat, userId: nat,
    title: string, description: string, timestamp: Timestamp, hidden: bool)

  datatype Comment = Comment(
    id: nat, threadId: nat, parentId: Option<nat>, userId: nat,
    content: string, timestamp: Timestamp, hidden: bool)

  // ----- Payloads sent to clients; every text field is validated -----

  datatype UserPayload = UserPayload(id: nat, username: string, description: Option<string>, avatar: Option<string>)

  datatype CategoryPayload = CategoryPayload(id: nat, title: string, description: string, hidden: bool)

  datatype ThreadPayload = ThreadPayload(
    id: nat, categoryId: nat, userId: nat,
    title: string, description: string, timestamp: Timestamp, hidden: bool)

  datatype CommentPayload = CommentPayload(
    id: nat, threadId: nat, parentId: Option<nat>, userId: nat,
    content: string, timestamp: Timestamp, hidden: bool)

  // ----- Request payloads (already validated on arrival) -----

  datatype AddUserPayload = AddUserPayload(id: nat, username: string)
  datatype EditUserPayload = EditUserPayload(id: nat, description: Option<string>, avatar: Option<string>)

  datatype AddCategoryPayload = AddCategoryPayload(title: string, description: string)
  datatype EditCategoryPayload = EditCategoryPayload(id: nat, title: Option<string>, description: Option<string>)
  datatype HideCategoryPayload = HideCategoryPayload(id: nat, hide: bool)

  datatype AddThreadPayload = AddThreadPayload(categoryId: nat, userId: nat, title: string, description: string)
  datatype EditThreadPayload = EditThreadPayload(id: nat, title: Option<string>, description: Option<string>)
  datatype HideThreadPayload = HideThreadPayload(id: nat, hide: bool)

  datatype AddCommentPayload = AddCommentPayload(threadId: nat, userId: nat, parentId: Option<nat>, content: string)
  datatype EditCommentPayload = EditCommentPayload(id: nat, content: string)
  datatype HideCommentPayload = HideCommentPayload(id: nat, hide: bool)

  // ----- Changesets: `None` leaves a column as it is -----

  datatype InsertUser = InsertUser(id: nat, username: string)
  datatype UpdateUser = UpdateUser(id: nat, description: Option<string>, avatar: Option<string>)

  datatype InsertCategory = InsertCategory(title: string, description: string)
  datatype UpdateCategory = UpdateCategory(id: nat, title: Option<string>, description: Option<string>, hidden: Option<bool>)

  datatype InsertThread = InsertThread(categoryId: nat, userId: nat, title: string, description: string)
  datatype UpdateThread = UpdateThread(id: nat, title: Option<string>, description: Option<string>, hidden: Option<bool>)

  datatype InsertComment = InsertComment(threadId: nat, userId: nat, parentId: Option<nat>, content: string)
  datatype UpdateComment = UpdateComment(id: nat, content: Option<string>, hidden: Option<bool>)

  // ----- Row -> payload: stored text is re-validated -----

  /** A stored user becomes a payload unless its username no longer
      validates; a description that no longer validates is dropped. */
  function UserToPayload(v: Rules, u: User): (r: Result<UserPayload, ValidationError>)
    ensures r.Err? <==> !v.username(u.username)
    ensures r.Err? ==> r.error == ValidationError(Username)
    ensures r.Ok? ==> r.value.id == u.id && r.value.username == u.username && r.value.avatar == u.avatar
    ensures r.Ok? ==> (r.value.description.Some? <==> u.description.Some? && v.description(u.description.value))
    ensures r.Ok? && r.value.description.Some? ==> r.value.description == u.description
  {
    if !v.username(u.username) then Err(ValidationError(Username))
    else
      var description :=
        match u.description
        case Some(d) => if v.description(d) then Some(d) else None
        case None => None;
      Ok(UserPayload(u.id, u.username, description, u.avatar))
  }

  /** A stored category becomes a payload iff its title and description
      both validate; the title is checked first. */
  function CategoryToPayload(v: Rules, c: Category): (r: Result<CategoryPayload, ValidationError>)
    ensures r.Ok? <==> v.title(c.title) && v.description(c.description)
    ensures r.Err? ==> r.error == ValidationError(if v.title(c.title) then Description else Title)
    ensures r.Ok? ==> r.value == CategoryPayload(c.id, c.title, c.description, c.hidden)
  {
    if !v.title(c.title) then Err(ValidationError(Title))
    else if !v.description(c.description) then Err(ValidationError(Description))
    else Ok(CategoryPayload(c.id, c.title, c.description, c.hidden))
  }

  /** A stored thread becomes a payload iff its title and description both
      validate; ids, timestamp and hidden flag are copied. */
  function ThreadToPayload(v: Rules, t: Thread): (r: Result<ThreadPayload, ValidationError>)
    ensures r.Ok? <==> v.title(t.title) && v.description(t.description)
    ensures r.Err? ==> r.error == ValidationError(if v.title(t.title) then Description else Title)
    ensures r.Ok? ==> r.value.id == t.id && r.value.categoryId == t.categoryId && r.value.userId == t.userId
    ensures r.Ok? ==> r.value.title == t.title && r.value.description == t.description
    ensures r.Ok? ==> r.value.timestamp == t.timestamp && r.value.hidden == t.hidden
  {
    if !v.title(t.title) then Err(ValidationError(Title))
    else if !v.description(t.description) then Err(ValidationError(Description))
    else Ok(ThreadPayload(t.id, t.categoryId, t.userId, t.title, t.description, t.timestamp, t.hidden))
  }

  /** A stored comment becomes a payload iff its content validates; the
      optional parent keeps its shape and value. */
  function CommentToPayload(v: Rules, c: Comment): (r: Result<CommentPayload, ValidationError>)
    ensures r.Ok? <==> v.content(c.content)
    ensures r.Err? ==> r.error == ValidationError(Content)
    ensures r.Ok? ==> r.value.parentId == c.parentId
    ensures r.Ok? ==> r.value.id == c.id && r.value.threadId == c.threadId && r.value.userId == c.userId
    ensures r.Ok? ==> r.value.content == c.content && r.value.timestamp == c.timestamp && r.value.hidden == c.hidden
  {
    if !v.content(c.content) then Err(ValidationError(Content))
    else Ok(CommentPayload(c.id, c.threadId, MapOption(c.parentId, (p: nat) => p), c.userId, c.content, c.timestamp, c.hidden))
  }

  // ----- Request payload -> changeset -----

  function UserInsert(p: AddUserPayload): InsertUser {
    InsertUser(p.id, p.username)
  }

  function UserUpdate(p: EditUserPayload): UpdateUser {
    UpdateUser(p.id, p.description, p.avatar)
  }

  function CategoryInsert(p: AddCategoryPayload): InsertCategory {
    InsertCategory(p.title, p.description)
  }

  function CategoryEdit(p: EditCategoryPayload): UpdateCategory {
    UpdateCategory(p.id, p.title, p.description, None)
  }

  function CategoryHide(p: HideCategoryPayload): UpdateCategory {
    UpdateCategory(p.id, None, None, Some(p.hide))
  }

  function ThreadInsert(p: AddThreadPayload): InsertThread {
    InsertThread(p.categoryId, p.userId, p.title, p.description)
  }

  function ThreadEdit(p: EditThreadPayload): UpdateThread {
    UpdateThread(p.id, p.title, p.description, None)
  }

  function ThreadHide(p: HideThreadPayload): UpdateThread {
    UpdateThread(p.id, None, None, Some(p.hide))
  }

  function CommentInsert(p: AddCommentPayload): InsertComment {
    InsertComment(p.threadId, p.userId, p.parentId, p.content)
  }

  function CommentEdit(p: EditCommentPayload): UpdateComment {
    UpdateComment(p.id, Some(p.content), None)
  }

  function CommentHide(p: HideCommentPayload): UpdateComment {
    UpdateComment(p.id, None, Some(p.hide))
  }

  // ----- Applying a changeset to a row (`AsChangeset`: `None` skips a column) -----

  function Or<T>(o: Option<T>, keep: T): T {
    match o
    case Some(x) => x
    case None => keep
  }

  function ApplyUser(u: User, c: UpdateUser): User {
    u.(description := if c.description.Some? then c.description else u.description,
       avatar := if c.avatar.Some? then c.avatar else u.avatar)
  }

  function ApplyCategory(row: Category, c: UpdateCategory): Category {
    row.(title := Or(c.title, row.title), description := Or(c.description, row.description),
         hidden := Or(c.hidden, row.hidden))
  }

  function ApplyThread(row: Thread, c: UpdateThread): Thread {
    row.(title := Or(c.title, row.title), description := Or(c.description, row.description),
         hidden := Or(c.hidden, row.hidden))
  }

  function ApplyComment(row: Comment, c: UpdateComment): Comment {
    row.(content := Or(c.content, row.content), hidden := Or(c.hidden, row.hidden))
  }

  // ----- What each request does to a stored row -----

  /** Editing a user never changes its username or id: the changeset has
      no slot for them. A given description or avatar replaces the stored
      one; an absent one leaves it. */
  lemma EditUserKeepsUsername(u: User, p: EditUserPayload)
    ensures ApplyUser(u, UserUpdate(p)).username == u.username
    ensures ApplyUser(u, UserUpdate(p)).id == u.id
    ensures ApplyUser(u, UserUpdate(p)).description == (if p.description.Some? then p.description else u.description)
    ensures ApplyUser(u, UserUpdate(p)).avatar == (if p.avatar.Some? then p.avatar else u.avatar)
  {
  }

  /** Editing a category changes only the given text fields and never the
      hidden flag. */
  lemma EditCategoryKeepsHidden(row: Category, p: EditCategoryPayload)
    ensures CategoryEdit(p).hidden.None? && CategoryEdit(p).id == p.id
    ensures ApplyCategory(row, CategoryEdit(p)).hidden == row.hidden
    ensures ApplyCategory(row, CategoryEdit(p)).id == row.id
    ensures ApplyCategory(row, CategoryEdit(p)).title == (if p.title.Some? then p.title.value else row.title)
    ensures ApplyCategory(row, CategoryEdit(p)).description == (if p.description.Some? then p.description.value else row.description)
  {
  }

  /** Hiding a category changes only the hidden flag. */
  lemma HideCategoryOnlyHides(row: Category, p: HideCategoryPayload)
    ensures CategoryHide(p).title.None? && CategoryHide(p).description.None?
    ensures CategoryHide(p).hidden == Some(p.hide) && CategoryHide(p).id == p.id
    ensures ApplyCategory(row, CategoryHide(p)) == row.(hidden := p.hide)
  {
  }

  /** Editing a thread changes only the given text fields and never the
      hidden flag. */
  lemma EditThreadKeepsHidden(row: Thread, p: EditThreadPayload)
    ensures ThreadEdit(p).hidden.None? && ThreadEdit(p).id == p.id
    ensures ApplyThread(row, ThreadEdit(p)).hidden == row.hidden
    ensures ApplyThread(row, ThreadEdit(p)).title == (if p.title.Some? then p.title.value else row.title)
    ensures ApplyThread(row, ThreadEdit(p)).description == (if p.description.Some? then p.description.value else row.description)
    ensures ApplyThread(row, ThreadEdit(p)).(title := row.title, description := row.description) == row
  {
  }

  /** Hiding a thread changes only the hidden flag. */
  lemma HideThreadOnlyHides(row: Thread, p: HideThreadPayload)
    ensures ThreadHide(p).title.None? && ThreadHide(p).description.None?
    ensures ThreadHide(p).hidden == Some(p.hide) && ThreadHide(p).id == p.id
    ensures ApplyThread(row, ThreadHide(p)) == row.(hidden := p.hide)
  {
  }

  /** Editing a comment always sets its content and never its hidden flag;
      hiding it sets only the flag. */
  lemma CommentChangesets(row: Comment, e: EditCommentPayload, h: HideCommentPayload)
    ensures CommentEdit(e).content == Some(e.content) && CommentEdit(e).hidden.None?
    ensures CommentHide(h).content.None? && CommentHide(h).hidden == Some(h.hide)
    ensures ApplyComment(row, CommentEdit(e)) == row.(content := e.content)
    ensures ApplyComment(row, CommentHide(h)) == row.(hidden := h.hide)
  {
  }

  /** The add requests copy their validated fields into the insert
      changesets unchanged, so whatever validated on arrival is stored. */
  lemma InsertsCopyFields(u: AddUserPayload, c: AddCategoryPayload, t: AddThreadPayload, m: AddCommentPayload)
    ensures UserInsert(u).id == u.id && UserInsert(u).username == u.username
    ensures CategoryInsert(c).title == c.title && CategoryInsert(c).description == c.description
    ensures ThreadInsert(t).categoryId == t.categoryId && ThreadInsert(t).userId == t.userId
    ensures ThreadInsert(t).title == t.title && ThreadInsert(t).description == t.description
    ensures CommentInsert(m).threadId == m.threadId && CommentInsert(m).userId == m.userId
    ensures CommentInsert(m).parentId == m.parentId && CommentInsert(m).content == m.content
  {
  }

  /** Round trip: a category whose title and description validated on the
      way in converts back to a payload carrying the same text. */
  lemma CategoryRoundTrip(v: Rules, p: AddCategoryPayload, id: nat, hidden: bool)
    requires v.title(p.title) && v.description(p.description)
    ensures CategoryToPayload(v, Category(id, CategoryInsert(p).title, CategoryInsert(p).description, hidden))
         == Ok(CategoryPayload(id, p.title, p.description, hidden))
  {
  }
}
