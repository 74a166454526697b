# Forum controller — a Dafny model

The forum controller is the back end of a small discussion forum. It
stores users, categories, threads and comments in a MySQL database and
answers RPC requests about them. This project models its core as pure
Dafny functions over an abstract store and proves what each operation
promises:

- **Store operations** (`DbUsers`, `DbCategories`, `DbThreads`,
  `DbComments`). Each table is a map from primary key to row, plus the next
  AUTO_INCREMENT key (`Tables.Table`). Users are keyed by the id the
  caller chooses. Each operation takes the table and returns the new table
  with its result. Connection, statement and reread failures are explicit
  `Faults` parameters, so every error path is modelled next to the
  success path.
- **Search** (`DbSearch`). Four `LIKE '%query%'` scans, each capped at 30
  rows and run in a fixed order. The first failing scan aborts the whole
  search. `SqlLike` gives `LIKE` a recursive definition and proves that
  `%q%` means "contains q" for a query without wildcard or escape characters.
- **Row → payload conversion and changesets** (`Types`). Stored text is
  validated again on the way out. Field validity belongs to an external
  crate, so it is an abstract `Rules` record of predicates. The
  edit/hide/add request payloads become changesets in which an absent
  column is skipped, not cleared.
- **Errors** (`Errors`, `DbError`). The internal error kinds and how they
  are translated into what a client sees. `DbError` is the older
  `Connection`/`Database`/`NotFound` error of the category and user store
  functions. It is mapped onto the internal kinds.
- **Service layer** (`UserServices`, `CategoryServices`, `Services`). The
  user and category endpoints, and the `add_user` / `content_request`
  dispatch. That dispatch is a table in which only adding a category can
  succeed, and some requests update the store and still answer
  "internal server error".
- **Inspector command language** (`Inspector`). The command and mode
  words, the mode state, the whitespace split of a line, and the
  (mode, command) dispatch of the interactive inspector.

Behaviour of the code worth knowing:

- `update_comment` and `update_comment_hidden` match on the comment id
  alone. There is no check of the editing user.
- `get_all_*` and `get_comments_in_thread` have no row limit. Only the
  search scans are capped at 30.
- `update_thread` never succeeds. Zero rows and one updated row both
  answer `ContentNotFound`, because its reread is commented out.
- The username is not immutable in the store: `update_user` and
  `update_user_username` both overwrite it.
- The category and user store functions in `src/db/categories.rs` and
  `src/db/users.rs` are an older snapshot. They open their own
  connection, use the older error type and take `i32` ids, while the
  services call them with a connection. The model keeps the older
  signatures and passes the service's faults straight through.
- `src/server/services/*.rs` call `.into()` on rows that only have a
  fallible conversion. The model takes the fallible conversion and
  answers `InternalServerError` when a stored row fails validation.
- In `src/server/services.rs` the `EditUser` request is modelled as
  carrying a single description string, which is what it hands to
  `update_user_description`.

## Model

| member | source | states |
|---|---|---|
| Types.UserToPayload | src/types.rs:18-29 | fails exactly when the stored username is invalid; id, username and avatar are copied; an invalid stored description becomes None, a valid one is kept |
| Types.CategoryToPayload | src/types.rs:74-86 | succeeds iff title and description both validate, reporting the title first; id and hidden are copied unchanged |
| Types.ThreadToPayload | src/types.rs:148-163 | succeeds iff title and description validate; ids, timestamp and hidden flag are copied unchanged |
| Types.CommentToPayload | src/types.rs:229-243 | succeeds iff the content validates; the optional parent id keeps its shape and value, the other fields are copied |
| Types.EditUserKeepsUsername | src/types.rs:31-47 | an edit-user changeset never changes id or username; a given description/avatar replaces the stored one, an absent one keeps it |
| Types.EditCategoryKeepsHidden | src/types.rs:97-106 | an edit-category changeset never touches the hidden flag and replaces only the text fields it carries |
| Types.HideCategoryOnlyHides | src/types.rs:108-117 | a hide-category changeset changes only the hidden flag |
| Types.EditThreadKeepsHidden | src/types.rs:174-183 | an edit-thread changeset never touches the hidden flag or any field other than title and description |
| Types.HideThreadOnlyHides | src/types.rs:185-194 | a hide-thread changeset changes only the hidden flag |
| Types.CommentChangesets | src/types.rs:253-271 | an edit-comment changeset always sets the content and never the flag; a hide-comment changeset sets only the flag |
| Types.InsertsCopyFields | src/types.rs:56-63 | the user, category, thread and comment add payloads are copied field for field into their insert changesets |
| Types.CategoryRoundTrip | src/types.rs:74-86 | a category whose title and description validated on arrival converts back to a payload with the same text |
| Errors.FromKind | src/error.rs:82-88 | an error raised from a kind reports that kind |
| Errors.FromContext | src/error.rs:90-94 | wrapping a context keeps the context and its kind |
| Errors.ToResponse | src/error.rs:96-107 | the client sees MissingContent exactly for ContentNotFound and an internal server error for every other kind |
| Errors.KindRoundTrip | src/error.rs:59-63 | raising a kind directly and attaching it as a context give the same error, whose kind is the kind raised |
| Errors.InternalKinds | src/error.rs:96-107 | the kinds answered with an internal server error are exactly ConnectionError, QueryError and ServerError |
| DbError.ToKind | src/db/categories.rs:9-31 | the older errors correspond to internal kinds: NotFound to ContentNotFound, Connection to ConnectionError, and never ServerError |
| DbError.ToResponse | src/server/services/users.rs:9-12 | an older store error reaches the client as MissingContent iff it is NotFound, otherwise as an internal server error |
| DbError.ToKindInjective | src/db/categories.rs:9-31 | distinct older errors map to distinct internal kinds |
| Tables.Greatest | src/db/comments.rs:33-37 | the key read by "order by id desc, first" is in the table and no key is greater; none only for an empty table |
| Tables.Append | src/db/comments.rs:25-31 | an insert stores the row under a key not in use and advances the counter, keeping all keys below it |
| Tables.AppendedIsGreatest | src/db/comments.rs:25-37 | in a sequential store the reread after an insert finds exactly the row just inserted |
| Tables.Where | src/db/search.rs:35-39 | a filter keeps exactly the rows satisfying the condition, unchanged |
| Tables.Limit | src/db/search.rs:10-15 | LIMIT n returns unchanged rows of its input, min(n, count) of them, and every kept key is below every dropped key |
| Tables.LimitKeepsAllWhenFew | src/db/search.rs:10-15 | when no more rows match than the limit, LIMIT drops nothing |
| SqlLike.Pattern | src/db/search.rs:92 | the search pattern is the query with one `%` on each side |
| SqlLike.PatternIsContains | src/db/search.rs:92-97 | for a query without `%`, `_` or a backslash, a text matches `%query%` iff it contains the query as a substring |
| DbComments.InsertComment | src/db/comments.rs:12-39 | a failed insert is a QueryError and stores nothing; otherwise the row is stored under a fresh id, and a failed reread is ContentNotFound; success returns the row with the greatest id carrying the given fields, visible |
| DbComments.GetComment | src/db/comments.rs:42-64 | succeeds iff the query runs, the id exists and the row passes the hidden filter, returning that row; otherwise QueryError or ContentNotFound |
| DbComments.GetAllComments | src/db/comments.rs:67-80 | returns exactly the rows passing the hidden filter, with no limit; a failing query is a QueryError |
| DbComments.GetCommentsInThread | src/db/comments.rs:83-103 | returns exactly the rows of that thread passing the hidden filter, with no limit |
| DbComments.DeleteAllComments | src/db/comments.rs:106-115 | empties the table without resetting the counter and reports how many rows it removed |
| DbComments.UpdateComment | src/db/comments.rs:118-138 | sets the content of the row with that id and nothing else; an absent id is ContentNotFound with no change; success rereads the changed row; a failed reread after the update is QueryError |
| DbComments.UpdateCommentHidden | src/db/comments.rs:141-161 | sets only the hidden flag of the row with that id; an absent id is ContentNotFound; the reread includes hidden rows, and a failed reread after the update is QueryError |
| DbComments.UpdatesApplyChangesets | src/db/comments.rs:118-161 | both comment updates return the stored row with the edit or hide changeset applied |
| DbComments.InsertThenGet | src/db/comments.rs:12-64 | a comment just inserted reads back by its id, even without hidden rows |
| DbComments.HideThenGet | src/db/comments.rs:141-161 | after hiding, a plain get reports ContentNotFound and a get including hidden rows returns the row flagged hidden |
| DbCategories.InsertCategory | src/db/categories.rs:6-33 | connection failure is Connection and a failed insert is Database, both with no change; otherwise the row is stored under a fresh id, a failed reread is NotFound, and success returns the greatest-id row with the given text, visible |
| DbCategories.GetCategoryCon | src/db/categories.rs:36-62 | returns the row with that id whether hidden or not; an absent id is NotFound, a failed query Database |
| DbCategories.GetCategory | src/db/categories.rs:65-72 | a failed connection is Connection, a failed query Database, an absent id NotFound; otherwise exactly the stored row |
| DbCategories.GetAllCategories | src/db/categories.rs:75-101 | returns exactly the rows passing the hidden filter (the whole table when hidden rows are asked for), with no limit |
| DbCategories.DeleteAllCategories | src/db/categories.rs:104-123 | empties the table without resetting the counter and reports how many rows it removed |
| DbCategories.GetUpdateResult | src/db/categories.rs:126-147 | a failed update is Database, zero updated rows NotFound, otherwise the row is reread by id |
| DbCategories.UpdateCategory | src/db/categories.rs:150-169 | writes the given row over the stored row with its id; an absent id is NotFound with no change; a failed reread after the update is Database; success returns the given row |
| DbCategories.UpdateCategoryTitle | src/db/categories.rs:172-188 | changes only the title of the row with that id; Connection, Database for a failed statement, NotFound with no change for an absent id, Database for a failed reread |
| DbCategories.UpdateCategoryDescription | src/db/categories.rs:191-210 | changes only the description of the row with that id; Connection, Database for a failed statement, NotFound with no change for an absent id, Database for a failed reread |
| DbCategories.UpdateCategoryHidden | src/db/categories.rs:213-229 | changes only the hidden flag of the row with that id; Connection, Database for a failed statement, NotFound with no change for an absent id, Database for a failed reread |
| DbCategories.UpdatesApplyChangesets | src/db/categories.rs:172-229 | the single-column updates return the stored row with the matching edit or hide changeset applied |
| DbCategories.InsertThenGet | src/db/categories.rs:6-72 | a category just inserted reads back by its id with the given title and description, visible |
| DbCategories.HiddenCategoryVisibility | src/db/categories.rs:75-101 | a hidden category is still returned by id and by the listing including hidden rows, but not by the plain listing |
| DbUsers.InsertUser | src/db/users.rs:6-42 | stores the user under the caller's id iff the connection and insert succeed and the id is free; a taken id is Database with no change; a failed reread is Database |
| DbUsers.GetUserCon | src/db/users.rs:45-65 | returns the user with that id; an absent id is NotFound, a failed query Database |
| DbUsers.GetUser | src/db/users.rs:68-75 | a failed connection is Connection and a failed query Database; succeeds with exactly the stored user iff both succeed and the id exists; NotFound exactly when the id is absent |
| DbUsers.DeleteUser | src/db/users.rs:78-105 | removes exactly that user and reports one row; deleting an absent id is NotFound with no change |
| DbUsers.DeleteAllUsers | src/db/users.rs:108-127 | empties the table and reports how many users it removed |
| DbUsers.GetUpdateResult | src/db/users.rs:130-148 | a failed update is Database, zero updated rows NotFound, otherwise the user is reread by id |
| DbUsers.UpdateUser | src/db/users.rs:151-167 | stores the row with the username overwritten and the description and avatar overwritten only where given, and answers that stored row; a failed reread after the update is Database; an absent id is NotFound and changes nothing |
| DbUsers.UpdateUserUsername | src/db/users.rs:170-186 | changes only the username of the user with that id; Connection, Database for a failed statement, NotFound with no change for an absent id, Database for a failed reread |
| DbUsers.UpdateUserDescription | src/db/users.rs:189-205 | sets only the description of the user with that id; Connection, Database for a failed statement, NotFound with no change for an absent id, Database for a failed reread |
| DbUsers.UpdateUserAvatar | src/db/users.rs:208-224 | sets only the avatar of the user with that id; Connection, Database for a failed statement, NotFound with no change for an absent id, Database for a failed reread |
| DbUsers.UpdatesApplyChangesets | src/db/users.rs:189-224 | the description and avatar updates return the stored user with the edit changeset applied, and keep the username |
| DbUsers.InsertDeleteGet | src/db/users.rs:6-105 | a user added under a free id reads back as returned; once deleted, reading it is NotFound |
| DbThreads.UpdateThread | src/db/threads.rs:80-104 | never succeeds: a failed statement is QueryError, otherwise ContentNotFound; title and description of an existing row are still written and nothing else changes |
| DbThreads.DeleteAllThreads | src/db/threads.rs:68-77 | empties the table without resetting the counter and reports how many rows it removed |
| DbThreads.UpdateIsFullEdit | src/db/threads.rs:80-104 | the update writes what an edit changeset with both title and description writes, and keeps the hidden flag |
| DbSearch.SearchUser | src/db/search.rs:10-21 | fails iff the scan fails (QueryError); returns at most 30 unchanged users whose username matches, min(30, matching) of them |
| DbSearch.SearchCategory | src/db/search.rs:23-45 | at most 30 unchanged categories whose title matches and that pass the hidden filter, min(30, matching) of them |
| DbSearch.SearchThread | src/db/search.rs:47-66 | at most 30 unchanged threads whose title or description matches and that pass the hidden filter, min(30, matching) of them |
| DbSearch.SearchComment | src/db/search.rs:68-86 | at most 30 unchanged comments whose content matches and that pass the hidden filter, min(30, matching) of them |
| DbSearch.Search | src/db/search.rs:89-105 | fails iff any scan fails, with QueryError and no partial result; otherwise each list is exactly what its own scan of `%query%` returns, capped at 30 separately, with nothing hidden unless asked for |
| DbSearch.UserScanIsSubstring | src/db/search.rs:10-21 | for a query without wildcard or escape characters every user the scan returns has the query in its username |
| DbSearch.CategoryScanIsSubstring | src/db/search.rs:23-45 | for a query without wildcard or escape characters every category the scan returns has the query in its title |
| DbSearch.ThreadScanIsSubstring | src/db/search.rs:47-66 | for a query without wildcard or escape characters every thread the scan returns has the query in its title or its description |
| DbSearch.CommentScanIsSubstring | src/db/search.rs:68-86 | for a query without wildcard or escape characters every comment the scan returns has the query in its content |
| DbSearch.SearchIsSubstring | src/db/search.rs:89-105 | with no failing scan the search succeeds, and for a query without wildcard or escape characters every returned row's searched text contains the query |
| DbSearch.FirstFailureAborts | src/db/search.rs:94-97 | a failing first scan aborts the search with QueryError whatever the later scans would do |
| DbSearch.SearchFindsEveryCategory | src/db/search.rs:23-45 | when no more than 30 categories match, every visible category whose title contains the query is returned |
| DbSearch.SearchFindsEveryUser | src/db/search.rs:10-21 | when no more than 30 users match, every user whose username contains the query is returned |
| DbSearch.SearchFindsEveryThread | src/db/search.rs:47-66 | when no more than 30 threads match, every thread passing the hidden filter whose title or description contains the query is returned |
| DbSearch.SearchFindsEveryComment | src/db/search.rs:68-86 | when no more than 30 comments match, every comment passing the hidden filter whose content contains the query is returned |
| UserServices.Respond | src/server/services/users.rs:9-12 | a store error goes through the error translation; a stored user answers with its payload iff its username still validates |
| UserServices.GetUser | src/server/services/users.rs:7-13 | answers exactly the payload the stored user converts to, iff it exists and validates; MissingContent exactly for an absent id; otherwise an internal server error |
| UserServices.AddUser | src/server/services/users.rs:15-21 | a free id with no connection or statement failure stores the new user (even when the reread then fails); a taken id or such a failure leaves the store unchanged; answers the new user's payload iff the reread also succeeds; every failure is an internal server error |
| UserServices.EditUser | src/server/services/users.rs:23-26 | always an internal server error, with the store unchanged |
| UserServices.UploadAvatar | src/server/services/users.rs:28-31 | always an internal server error, with the store unchanged |
| UserServices.AddThenGet | src/server/services/users.rs:7-21 | looking up a user just added answers the payload the add answered |
| CategoryServices.Respond | src/server/services/categories.rs:22-25 | a store error goes through the error translation; a stored category answers with its payload iff title and description still validate |
| CategoryServices.AddCategory | src/server/services/categories.rs:20-26 | whenever the connection and the insert succeed, a visible category with the given text is stored under the fresh id, even if the reread then fails (MissingContent); it answers that row's payload iff the reread succeeds; connection or insert failures change nothing |
| CategoryServices.AddThenGet | src/server/services/categories.rs:20-26 | after an add with no failures, reading the fresh id back gives the new visible row, and the add answered that row's payload |
| CategoryServices.GetCategory | src/server/services/categories.rs:7-10 | always an internal server error, with the store unchanged |
| CategoryServices.GetCategories | src/server/services/categories.rs:12-18 | always an internal server error, with the store unchanged |
| CategoryServices.EditCategory | src/server/services/categories.rs:28-34 | always an internal server error, with the store unchanged |
| CategoryServices.HideCategory | src/server/services/categories.rs:36-42 | always an internal server error, with the store unchanged |
| Services.AddUserRpc | src/server/services.rs:23-36 | a pool failure is an internal server error with no change; otherwise the user is stored iff its id is free and neither the connection nor the INSERT fails (a failed reread still stores it but answers an internal server error); only the user table changes |
| Services.ContentRequestRpc | src/server/services.rs:40-124 | only AddCategory can succeed: it stores a new visible category under the fresh id whenever connection and insert succeed, answers that row iff the reread succeeds, MissingContent after a failed reread, and an internal server error with no change otherwise; hide-category, edit-user and upload-avatar perform their update and still answer an internal server error; every request other than these four leaves the store unchanged and answers an internal server error |
| Services.HideCategoryTakesEffect | src/server/services.rs:77-80 | hiding a category through the dispatch hides it although the client is told the request failed |
| Inspector.ParseCmd | src/bin/inspector.rs:40-48 | a word parses to the command that displays as it; any other word is rejected with "Invalid Cmd: '<word>'" |
| Inspector.ParseMode | src/bin/inspector.rs:40-48 | a word parses to the mode that displays as it; any other word is rejected with "Invalid Mode: '<word>'" |
| Inspector.CmdRoundTrip | src/bin/inspector.rs:59-69 | parsing a command's word gives the command back, and exactly the six command words parse |
| Inspector.ModeRoundTrip | src/bin/inspector.rs:71-79 | parsing a mode's word gives the mode back, and exactly the four mode words parse |
| Inspector.WordsInjective | src/bin/inspector.rs:49-55 | distinct commands, and distinct modes, display as distinct words |
| Inspector.FirstWord | src/bin/inspector.rs:82-86 | the command word is the longest whitespace-free prefix of the line |
| Inspector.SplitWord | src/bin/inspector.rs:82 | a line with no whitespace splits into itself alone |
| Inspector.SplitAt | src/bin/inspector.rs:82 | a whitespace character separates the word before it from the words after it |
| Inspector.SplitWords | src/bin/inspector.rs:82 | a line splits into one more word than it has whitespace characters, and no word contains whitespace |
| Inspector.DefaultState | src/bin/inspector.rs:285-289 | the inspector starts in main mode |
| Inspector.TrySetMode | src/bin/inspector.rs:277-282 | a valid mode word sets the mode and returns the previous one; any other word changes nothing and returns none |
| Inspector.RouteMatchesServes | src/bin/inspector.rs:87-95 | a (mode, command) pair is routed to a handler exactly when that handler serves it; nothing is routed in main or threads mode, and delete never is |
| Inspector.CmdHandler | src/bin/inspector.rs:81-102 | an unknown first word is rejected before dispatch; a pair without a handler is "Unimplemented command '<c>' for mode '<m>'"; a pair is dispatched exactly when it is routed, to its handler with the remaining words |
| Inspector.HandleLine | src/bin/inspector.rs:304-310 | a line starting with "mode" only tries to switch to the mode named by its second word and is never dispatched; any other line goes to the command handler |
| Inspector.NoCommandsInMainOrThreads | src/bin/inspector.rs:96-100 | in main and threads mode every command line is an error |
| Inspector.SwitchToUsers | src/bin/inspector.rs:304-307 | typing "mode users" at the starting prompt switches to users mode and dispatches nothing |

## Left out

- Connection and pool setup, the RPC server and reactor, and the worker
  pool that runs each request. A failure to get a pooled connection is the
  flag `poolFails`. Concurrency is not modelled.
- Logging and tracing calls. They have no effect on results.
- The underlying error cause and backtrace carried by `Error`. Only its
  kind is modelled, because only the kind decides a response.
- The exact field validation rules. They live in an external crate that
  is not part of this model, so they are the abstract `Types.Rules`.
- Integer widths: ids are `nat`. The `u32`/`i32` columns and their
  overflow are not modelled, and neither is the requirement that ids be
  positive.
- Timestamps are opaque integers supplied by the caller, because the
  store's clock is not visible.
- Foreign keys. A dangling thread or user id on insert is one of the
  statement failures `Faults.statement` stands for.
- Tables.Limit: SQL does not say which rows `LIMIT` keeps without
  `ORDER BY`. The model keeps the smallest keys, so only the subset and
  count properties carry over to the real store.
- SqlLike.Like: no collation (case folding) and no escape character.
  MySQL's `LIKE` treats a backslash as its default escape, so the
  substring lemmas require a query without `%`, `_` or a backslash; the
  code escapes none of them.
- Tables.AppendedIsGreatest: the store is sequential. Under concurrent
  inserts the "greatest id" reread of `insert_comment` and
  `insert_category` can return another writer's row. That race is not
  modelled.
- `insert_thread`, `get_thread` and `get_all_threads` in
  `src/db/threads.rs` have no body beyond `unimplemented!()`. The stub
  service modules for threads, comments and search are the same.
- Update results assume MySQL reports the rows matched by id. An update
  that writes an unchanged value is counted as one row.
- Inspector: the `run_*` argument parsers, the RPC client calls, the
  readline editor and its history file are I/O and are not modelled. The
  split of a line is modelled on Unicode `White_Space` characters.
- Inspector.CmdHandler: "Missing argument <cmd>" cannot occur, because
  splitting any line yields at least one word, so no branch models it.
- Inspector: the prompt text is modelled (`Prompt`) but carries no
  contract.
