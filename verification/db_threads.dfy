/** The thread table. Only the update and the bulk delete have bodies in
    the store; inserting and reading threads are not implemented there. */
module DbThreads {
  import opened Wrappers
  import opened Tables
  import opened Types
  import opened Errors

  predicate Wf(t: Table<Thread>) {
    KeysBelowNext(t) && forall k :: k in t.rows ==> t.rows[k].id == k
  }

  /** `update_thread`: sets title and description of the row with this id
      and touches no other column. It never succeeds: a failed statement is
      a `QueryError`, and both zero and one updated rows are reported as
      `ContentNotFound`, because the reread is not written yet. */
  function UpdateThread(t: Table<Thread>, id: nat, title: string, description: string, statementFails: bool)
    : (r: (Table<Thread>, Result<Thread, Error>))
    requires Wf(t)
    ensures Wf(r.0)
    ensures r.1.Err?
    ensures Kind(r.1.error) == (if statementFails then QueryError else ContentNotFound)
    ensures statementFails || id !in t.rows ==> r.0 == t
    ensures !statementFails && id in t.rows ==>
      r.0 == t.(rows := t.rows[id := t.rows[id].(title := title, description := description)])
  {
    if statementFails then (t, Err(FromKind(QueryError)))
    else if id !in t.rows then (t, Err(FromKind(ContentNotFound)))
    else
      var t' := t.(rows := t.rows[id := t.rows[id].(title := title, description := description)]);
      (t', Err(FromKind(ContentNotFound)))
  }

  /** `delete_all_threads`: empties the table, returns the count removed. */
  function DeleteAllThreads(t: Table<Thread>, statementFails: bool): (r: (Table<Thread>, Result<nat, Error>))
    ensures statementFails ==> r.0 == t && r.1.Err? && Kind(r.1.error) == QueryError
    ensures !statementFails ==> r.0.rows == map[] && r.0.next == t.next && r.1 == Ok(|t.rows|)
  {
    if statementFails then (t, Err(FromKind(QueryError)))
    else (Table(map[], t.next), Ok(|t.rows|))
  }

  /** The update writes exactly what an edit changeset carrying both a
      title and a description would write, and keeps the hidden flag. */
  lemma UpdateIsFullEdit(t: Table<Thread>, p: EditThreadPayload)
    requires Wf(t) && p.id in t.rows && p.title.Some? && p.description.Some?
    ensures UpdateThread(t, p.id, p.title.value, p.description.value, false).0.rows[p.id]
         == ApplyThread(t.rows[p.id], ThreadEdit(p))
    ensures UpdateThread(t, p.id, p.title.value, p.description.value, false).0.rows[p.id].hidden
         == t.rows[p.id].hidden
  {
  }
}
