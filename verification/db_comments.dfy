/** The comment table and its store operations. Every failure is an
    internal `Error`: a failing statement is a `QueryError`, a row that is
    absent or filtered out is `ContentNotFound`. */
module DbComments {
  import opened Wrappers
  import opened Tables
  import opened Types
  import opened Errors

  /** Keys are below the AUTO_INCREMENT counter and every row sits under
      its own id. */
  predicate Wf(t: Table<Comment>) {
    KeysBelowNext(t) && forall k :: k in t.rows ==> t.rows[k].id == k
  }

  /** The `hidden = false` filter, applied unless hidden rows are asked for. */
  predicate Visible(c: Comment, includeHidden: bool) {
    includeHidden || !c.hidden
  }

  /** The row an INSERT creates: the store assigns id and timestamp, and
      the hidden flag defaults to false. */
  function NewRow(t: Table<Comment>, c: InsertComment, now: Timestamp): Comment {
    Comment(t.next, c.threadId, c.parentId, c.userId, c.content, now, false)
  }

  /** `insert_comment`: insert, then reread the row with the greatest id.
      A failed insert (a dangling foreign key, say) is a `QueryError`; a
      failed reread is reported as `ContentNotFound`, after the row was
      stored. */
  function InsertComment(t: Table<Comment>, c: InsertComment, now: Timestamp, f: Faults)
    : (r: (Table<Comment>, Result<Comment, Error>))
    requires Wf(t)
    ensures Wf(r.0)
    ensures f.statement ==> r.0 == t && r.1 == Err(FromKind(QueryError))
    ensures !f.statement ==> r.0.rows == t.rows[t.next := NewRow(t, c, now)] && t.next !in t.rows
    ensures !f.statement && f.reread ==> r.1 == Err(FromKind(ContentNotFound))
    ensures r.1.Ok? <==> !f.statement && !f.reread
    ensures r.1.Ok? ==> r.1.value.id in r.0.rows && forall k :: k in r.0.rows ==> k <= r.1.value.id
    ensures r.1.Ok? ==> r.1.value.content == c.content && r.1.value.threadId == c.threadId
    ensures r.1.Ok? ==> r.1.value.userId == c.userId && r.1.value.parentId == c.parentId
    ensures r.1.Ok? ==> r.1.value.timestamp == now && !r.1.value.hidden
  {
    if f.statement then (t, Err(FromKind(QueryError)))
    else
      var t' := Append(t, NewRow(t, c, now));
      if f.reread then (t', Err(FromKind(ContentNotFound)))
      else
        AppendedIsGreatest(t, NewRow(t, c, now));
        match Greatest(t'.rows)
        case Some(k) => (t', Ok(t'.rows[k]))
        case None => (t', Err(FromKind(ContentNotFound)))
  }

  /** `get_comment`: the row under `id`, unless the query fails, the id is
      absent, or the row is hidden and hidden rows were not asked for. */
  function GetComment(t: Table<Comment>, id: nat, includeHidden: bool, queryFails: bool)
    : (r: Result<Comment, Error>)
    ensures r.Ok? <==> !queryFails && id in t.rows && Visible(t.rows[id], includeHidden)
    ensures r.Ok? ==> r.value == t.rows[id]
    ensures r.Err? ==> Kind(r.error) == (if queryFails then QueryError else ContentNotFound)
  {
    if queryFails then Err(FromKind(QueryError))
    else if id in t.rows && Visible(t.rows[id], includeHidden) then Ok(t.rows[id])
    else Err(FromKind(ContentNotFound))
  }

  /** `get_all_comments`: every visible row, with no row limit. */
  function GetAllComments(t: Table<Comment>, includeHidden: bool, queryFails: bool)
    : (r: Result<map<nat, Comment>, Error>)
    ensures r.Err? <==> queryFails
    ensures r.Err? ==> Kind(r.error) == QueryError
    ensures r.Ok? ==> forall k :: k in r.value <==> k in t.rows && Visible(t.rows[k], includeHidden)
    ensures r.Ok? ==> forall k :: k in r.value ==> r.value[k] == t.rows[k]
  {
    if queryFails then Err(FromKind(QueryError))
    else Ok(Where(t.rows, (c: Comment) => Visible(c, includeHidden)))
  }

  /** `get_comments_in_thread`: the visible rows of one thread, no limit. */
  function GetCommentsInThread(t: Table<Comment>, threadId: nat, includeHidden: bool, queryFails: bool)
    : (r: Result<map<nat, Comment>, Error>)
    ensures r.Err? <==> queryFails
    ensures r.Err? ==> Kind(r.error) == QueryError
    ensures r.Ok? ==> forall k :: k in r.value <==>
      k in t.rows && t.rows[k].threadId == threadId && Visible(t.rows[k], includeHidden)
    ensures r.Ok? ==> forall k :: k in r.value ==> r.value[k] == t.rows[k]
  {
    if queryFails then Err(FromKind(QueryError))
    else Ok(Where(t.rows, (c: Comment) => c.threadId == threadId && Visible(c, includeHidden)))
  }

  /** `delete_all_comments`: empties the table and reports how many rows
      it removed. */
  function DeleteAllComments(t: Table<Comment>, queryFails: bool): (r: (Table<Comment>, Result<nat, Error>))
    ensures queryFails ==> r.0 == t && r.1.Err? && Kind(r.1.error) == QueryError
    ensures !queryFails ==> r.0.rows == map[] && r.0.next == t.next && r.1 == Ok(|t.rows|)
  {
    if queryFails then (t, Err(FromKind(QueryError)))
    else (Table(map[], t.next), Ok(|t.rows|))
  }

  /** The shared tail of both updates. The id is the primary key, so an
      update matches no row exactly when the id is absent, which is
      `ContentNotFound`; otherwise the row is reread with hidden rows included. */
  function UpdateResult(t: Table<Comment>, t': Table<Comment>, id: nat, f: Faults)
    : (r: (Table<Comment>, Result<Comment, Error>))
  {
    if f.statement then (t, Err(FromKind(QueryError)))
    else if id !in t.rows then (t, Err(FromKind(ContentNotFound)))
    else (t', GetComment(t', id, true, f.reread))
  }

  /** `update_comment`: sets the content of the row with this id. Only the
      id is matched; the author is not checked. */
  function UpdateComment(t: Table<Comment>, id: nat, content: string, f: Faults)
    : (r: (Table<Comment>, Result<Comment, Error>))
    requires Wf(t)
    ensures Wf(r.0)
    ensures f.statement ==> r.0 == t && r.1 == Err(FromKind(QueryError))
    ensures !f.statement && id !in t.rows ==> r.0 == t && r.1 == Err(FromKind(ContentNotFound))
    ensures !f.statement && id in t.rows ==> r.0 == t.(rows := t.rows[id := t.rows[id].(content := content)])
    ensures r.1.Ok? <==> !f.statement && !f.reread && id in t.rows
    ensures !f.statement && id in t.rows && f.reread ==> r.1 == Err(FromKind(QueryError))
    ensures r.1.Ok? ==> r.1.value == t.rows[id].(content := content)
  {
    var t' := if id in t.rows then t.(rows := t.rows[id := t.rows[id].(content := content)]) else t;
    UpdateResult(t, t', id, f)
  }

  /** `update_comment_hidden`: sets the hidden flag of the row with this id. */
  function UpdateCommentHidden(t: Table<Comment>, id: nat, hidden: bool, f: Faults)
    : (r: (Table<Comment>, Result<Comment, Error>))
    requires Wf(t)
    ensures Wf(r.0)
    ensures f.statement ==> r.0 == t && r.1 == Err(FromKind(QueryError))
    ensures !f.statement && id !in t.rows ==> r.0 == t && r.1 == Err(FromKind(ContentNotFound))
    ensures !f.statement && id in t.rows ==> r.0 == t.(rows := t.rows[id := t.rows[id].(hidden := hidden)])
    ensures r.1.Ok? <==> !f.statement && !f.reread && id in t.rows
    ensures !f.statement && id in t.rows && f.reread ==> r.1 == Err(FromKind(QueryError))
    ensures r.1.Ok? ==> r.1.value == t.rows[id].(hidden := hidden)
  {
    var t' := if id in t.rows then t.(rows := t.rows[id := t.rows[id].(hidden := hidden)]) else t;
    UpdateResult(t, t', id, f)
  }

  /** The two updates are the edit and hide changesets applied to the row. */
  lemma UpdatesApplyChangesets(t: Table<Comment>, e: EditCommentPayload, h: HideCommentPayload)
    requires Wf(t)
    ensures e.id in t.rows ==>
      UpdateComment(t, e.id, e.content, NoFaults).1 == Ok(ApplyComment(t.rows[e.id], CommentEdit(e)))
    ensures h.id in t.rows ==>
      UpdateCommentHidden(t, h.id, h.hide, NoFaults).1 == Ok(ApplyComment(t.rows[h.id], CommentHide(h)))
  {
  }

  /** A freshly inserted comment is visible: reading it back by id without
      hidden rows gives the same row. */
  lemma InsertThenGet(t: Table<Comment>, c: InsertComment, now: Timestamp)
    requires Wf(t)
    ensures var r := InsertComment(t, c, now, NoFaults);
      r.1.Ok? && GetComment(r.0, r.1.value.id, false, false) == r.1
  {
    var r := InsertComment(t, c, now, NoFaults);
    assert r.1.value.id == t.next by {
      assert t.next in r.0.rows;
    }
  }

  /** Hiding a comment makes a plain get report it missing, while a get
      with hidden rows still returns it, flagged hidden. */
  lemma HideThenGet(t: Table<Comment>, id: nat)
    requires Wf(t) && id in t.rows
    ensures var t' := UpdateCommentHidden(t, id, true, NoFaults).0;
      && GetComment(t', id, false, false) == Err(FromKind(ContentNotFound))
      && GetComment(t', id, true, false).Ok?
      && GetComment(t', id, true, false).value.hidden
  {
  }
}
