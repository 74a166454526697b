/** Search across the four tables: four `LIKE` scans, each capped at
    `MaxSearchLimit` rows, run in a fixed order. */
module DbSearch {
  import opened Wrappers
  import opened Tables
  import opened Types
  import opened Errors
  import opened SqlLike
  import opened Store

  const MaxSearchLimit: nat := 30

  datatype SearchPayload = SearchPayload(query: string, includeHidden: bool)

  datatype SearchResults = SearchResults(
    categories: map<nat, Category>, threads: map<nat, Thread>,
    comments: map<nat, Comment>, users: map<nat, User>)

  /** The four scans, in the order `search` runs them. */
  datatype Scan = UserScan | CategoryScan | ThreadScan | CommentScan

  predicate UserMatches(u: User, pattern: string) {
    Like(u.username, pattern)
  }

  predicate CategoryMatches(c: Category, pattern: string, includeHidden: bool) {
    (includeHidden || !c.hidden) && Like(c.title, pattern)
  }

  predicate ThreadMatches(t: Thread, pattern: string, includeHidden: bool) {
    (includeHidden || !t.hidden) && (Like(t.title, pattern) || Like(t.description, pattern))
  }

  predicate CommentMatches(c: Comment, pattern: string, includeHidden: bool) {
    (includeHidden || !c.hidden) && Like(c.content, pattern)
  }

  /** `search_user`: users by username; users have no hidden flag. */
  function SearchUser(users: map<nat, User>, pattern: string, fails: bool)
    : (r: Result<map<nat, User>, Error>)
    ensures r.Err? <==> fails
    ensures r.Err? ==> Kind(r.error) == QueryError
    ensures r.Ok? ==> |r.value| <= MaxSearchLimit
    ensures r.Ok? ==> forall k :: k in r.value ==> k in users && r.value[k] == users[k] && UserMatches(users[k], pattern)
    ensures r.Ok? ==> |r.value| == Min2(|Where(users, (u: User) => UserMatches(u, pattern))|, MaxSearchLimit)
  {
    if fails then Err(FromKind(QueryError))
    else Ok(Limit(Where(users, (u: User) => UserMatches(u, pattern)), MaxSearchLimit))
  }

  /** `search_category`: categories by title only, hidden ones only when
      asked for. */
  function SearchCategory(t: Table<Category>, pattern: string, includeHidden: bool, fails: bool)
    : (r: Result<map<nat, Category>, Error>)
    ensures r.Err? <==> fails
    ensures r.Err? ==> Kind(r.error) == QueryError
    ensures r.Ok? ==> |r.value| <= MaxSearchLimit
    ensures r.Ok? ==> forall k :: k in r.value ==>
      k in t.rows && r.value[k] == t.rows[k] && CategoryMatches(t.rows[k], pattern, includeHidden)
    ensures r.Ok? ==> (|r.value| ==
      Min2(|Where(t.rows, (c: Category) => CategoryMatches(c, pattern, includeHidden))|, MaxSearchLimit))
  {
    if fails then Err(FromKind(QueryError))
    else Ok(Limit(Where(t.rows, (c: Category) => CategoryMatches(c, pattern, includeHidden)), MaxSearchLimit))
  }

  /** `search_thread`: threads whose title or description matches. */
  function SearchThread(t: Table<Thread>, pattern: string, includeHidden: bool, fails: bool)
    : (r: Result<map<nat, Thread>, Error>)
    ensures r.Err? <==> fails
    ensures r.Err? ==> Kind(r.error) == QueryError
    ensures r.Ok? ==> |r.value| <= MaxSearchLimit
    ensures r.Ok? ==> forall k :: k in r.value ==>
      k in t.rows && r.value[k] == t.rows[k] && ThreadMatches(t.rows[k], pattern, includeHidden)
    ensures r.Ok? ==> (|r.value| ==
      Min2(|Where(t.rows, (x: Thread) => ThreadMatches(x, pattern, includeHidden))|, MaxSearchLimit))
  {
    if fails then Err(FromKind(QueryError))
    else Ok(Limit(Where(t.rows, (x: Thread) => ThreadMatches(x, pattern, includeHidden)), MaxSearchLimit))
  }

  /** `search_comment`: comments by content. */
  function SearchComment(t: Table<Comment>, pattern: string, includeHidden: bool, fails: bool)
    : (r: Result<map<nat, Comment>, Error>)
    ensures r.Err? <==> fails
    ensures r.Err? ==> Kind(r.error) == QueryError
    ensures r.Ok? ==> |r.value| <= MaxSearchLimit
    ensures r.Ok? ==> forall k :: k in r.value ==>
      k in t.rows && r.value[k] == t.rows[k] && CommentMatches(t.rows[k], pattern, includeHidden)
    ensures r.Ok? ==> (|r.value| ==
      Min2(|Where(t.rows, (c: Comment) => CommentMatches(c, pattern, includeHidden))|, MaxSearchLimit))
  {
    if fails then Err(FromKind(QueryError))
    else Ok(Limit(Where(t.rows, (c: Comment) => CommentMatches(c, pattern, includeHidden)), MaxSearchLimit))
  }

  function Min2(a: nat, b: nat): nat {
    if a < b then a else b
  }

  /** `search`: wraps the query in `%`, runs the four scans in order, and
      stops at the first scan that fails. `failing` is the set of scans
      whose query the store rejects. */
  function Search(db: Db, payload: SearchPayload, failing: set<Scan>): (r: Result<SearchResults, Error>)
    ensures r.Err? <==> UserScan in failing || CategoryScan in failing || ThreadScan in failing || CommentScan in failing
    ensures r.Err? ==> Kind(r.error) == QueryError
    ensures r.Ok? ==> |r.value.users| <= MaxSearchLimit && |r.value.categories| <= MaxSearchLimit
    ensures r.Ok? ==> |r.value.threads| <= MaxSearchLimit && |r.value.comments| <= MaxSearchLimit
    ensures r.Ok? && !payload.includeHidden ==>
      && (forall k :: k in r.value.categories ==> !r.value.categories[k].hidden)
      && (forall k :: k in r.value.threads ==> !r.value.threads[k].hidden)
      && (forall k :: k in r.value.comments ==> !r.value.comments[k].hidden)
    ensures r.Ok? ==> r.value.users == SearchUser(db.users, Pattern(payload.query), false).value
    ensures r.Ok? ==> (r.value.categories ==
      SearchCategory(db.categories, Pattern(payload.query), payload.includeHidden, false).value)
    ensures r.Ok? ==> (r.value.threads ==
      SearchThread(db.threads, Pattern(payload.query), payload.includeHidden, false).value)
    ensures r.Ok? ==> (r.value.comments ==
      SearchComment(db.comments, Pattern(payload.query), payload.includeHidden, false).value)
  {
    var pattern := Pattern(payload.query);
    var users :- SearchUser(db.users, pattern, UserScan in failing);
    var categories :- SearchCategory(db.categories, pattern, payload.includeHidden, CategoryScan in failing);
    var threads :- SearchThread(db.threads, pattern, payload.includeHidden, ThreadScan in failing);
    var comments :- SearchComment(db.comments, pattern, payload.includeHidden, CommentScan in failing);
    Ok(SearchResults(categories, threads, comments, users))
  }

  /** For a query without wildcard or escape characters, every user the scan returns
      has the query in its username. */
  lemma UserScanIsSubstring(users: map<nat, User>, q: string, fails: bool)
    requires Literal(q)
    ensures var r := SearchUser(users, Pattern(q), fails);
      r.Ok? ==> forall k :: k in r.value ==> Contains(r.value[k].username, q)
  {
    var r := SearchUser(users, Pattern(q), fails);
    if r.Ok? {
      forall k | k in r.value ensures Contains(r.value[k].username, q) {
        PatternIsContains(r.value[k].username, q);
      }
    }
  }

  /** Every category the scan returns has the query in its title. */
  lemma CategoryScanIsSubstring(t: Table<Category>, q: string, includeHidden: bool, fails: bool)
    requires Literal(q)
    ensures var r := SearchCategory(t, Pattern(q), includeHidden, fails);
      r.Ok? ==> forall k :: k in r.value ==> Contains(r.value[k].title, q)
  {
    var r := SearchCategory(t, Pattern(q), includeHidden, fails);
    if r.Ok? {
      forall k | k in r.value ensures Contains(r.value[k].title, q) {
        PatternIsContains(r.value[k].title, q);
      }
    }
  }

  /** Every thread the scan returns has the query in its title or its
      description. */
  lemma ThreadScanIsSubstring(t: Table<Thread>, q: string, includeHidden: bool, fails: bool)
    requires Literal(q)
    ensures var r := SearchThread(t, Pattern(q), includeHidden, fails);
      r.Ok? ==> forall k :: k in r.value ==> Contains(r.value[k].title, q) || Contains(r.value[k].description, q)
  {
    var r := SearchThread(t, Pattern(q), includeHidden, fails);
    if r.Ok? {
      forall k | k in r.value ensures Contains(r.value[k].title, q) || Contains(r.value[k].description, q) {
        PatternIsContains(r.value[k].title, q);
        PatternIsContains(r.value[k].description, q);
      }
    }
  }

  /** Every comment the scan returns has the query in its content. */
  lemma CommentScanIsSubstring(t: Table<Comment>, q: string, includeHidden: bool, fails: bool)
    requires Literal(q)
    ensures var r := SearchComment(t, Pattern(q), includeHidden, fails);
      r.Ok? ==> forall k :: k in r.value ==> Contains(r.value[k].content, q)
  {
    var r := SearchComment(t, Pattern(q), includeHidden, fails);
    if r.Ok? {
      forall k | k in r.value ensures Contains(r.value[k].content, q) {
        PatternIsContains(r.value[k].content, q);
      }
    }
  }

  /** The whole search: with no failing scan it succeeds, and for a query
      without wildcard or escape characters every row in every list contains the
      query in the text that list searches. */
  lemma SearchIsSubstring(db: Db, payload: SearchPayload)
    requires Literal(payload.query)
    ensures var r := Search(db, payload, {});
      && r.Ok?
      && (forall k :: k in r.value.users ==> Contains(r.value.users[k].username, payload.query))
      && (forall k :: k in r.value.categories ==> Contains(r.value.categories[k].title, payload.query))
      && (forall k :: k in r.value.threads ==>
            Contains(r.value.threads[k].title, payload.query) || Contains(r.value.threads[k].description, payload.query))
      && (forall k :: k in r.value.comments ==> Contains(r.value.comments[k].content, payload.query))
  {
    var q := payload.query;
    UserScanIsSubstring(db.users, q, false);
    CategoryScanIsSubstring(db.categories, q, payload.includeHidden, false);
    ThreadScanIsSubstring(db.threads, q, payload.includeHidden, false);
    CommentScanIsSubstring(db.comments, q, payload.includeHidden, false);
  }

  /** The first failing scan decides: a failing user scan aborts the
      search however the others would have gone, and no result at all is
      returned, not even the lists already read. */
  lemma FirstFailureAborts(db: Db, payload: SearchPayload, failing: set<Scan>)
    requires UserScan in failing
    ensures Search(db, payload, failing) == Err(FromKind(QueryError))
  {
  }

  /** Completeness: when no more categories match than the cap, every
      category whose title contains the (literal) query and that passes the
      hidden filter is returned. */
  lemma SearchFindsEveryCategory(db: Db, payload: SearchPayload, id: nat)
    requires Literal(payload.query)
    requires |Where(db.categories.rows, (c: Category) => CategoryMatches(c, Pattern(payload.query), payload.includeHidden))|
             <= MaxSearchLimit
    requires id in db.categories.rows
    requires Contains(db.categories.rows[id].title, payload.query)
    requires payload.includeHidden || !db.categories.rows[id].hidden
    ensures id in Search(db, payload, {}).value.categories
  {
    var pattern := Pattern(payload.query);
    var m := Where(db.categories.rows, (c: Category) => CategoryMatches(c, pattern, payload.includeHidden));
    PatternIsContains(db.categories.rows[id].title, payload.query);
    LimitKeepsAllWhenFew(m, MaxSearchLimit);
  }

  /** Completeness for users: when no more users match than the cap, every
      user whose username contains the (literal) query is returned. */
  lemma SearchFindsEveryUser(db: Db, payload: SearchPayload, id: nat)
    requires Literal(payload.query)
    requires |Where(db.users, (u: User) => UserMatches(u, Pattern(payload.query)))| <= MaxSearchLimit
    requires id in db.users
    requires Contains(db.users[id].username, payload.query)
    ensures id in Search(db, payload, {}).value.users
  {
    var pattern := Pattern(payload.query);
    var m := Where(db.users, (u: User) => UserMatches(u, pattern));
    PatternIsContains(db.users[id].username, payload.query);
    LimitKeepsAllWhenFew(m, MaxSearchLimit);
  }

  /** Completeness for threads: when no more threads match than the cap,
      every thread whose title or description contains the query and that
      passes the hidden filter is returned. */
  lemma SearchFindsEveryThread(db: Db, payload: SearchPayload, id: nat)
    requires Literal(payload.query)
    requires |Where(db.threads.rows, (x: Thread) => ThreadMatches(x, Pattern(payload.query), payload.includeHidden))|
             <= MaxSearchLimit
    requires id in db.threads.rows
    requires Contains(db.threads.rows[id].title, payload.query) || Contains(db.threads.rows[id].description, payload.query)
    requires payload.includeHidden || !db.threads.rows[id].hidden
    ensures id in Search(db, payload, {}).value.threads
  {
    var pattern := Pattern(payload.query);
    var m := Where(db.threads.rows, (x: Thread) => ThreadMatches(x, pattern, payload.includeHidden));
    PatternIsContains(db.threads.rows[id].title, payload.query);
    PatternIsContains(db.threads.rows[id].description, payload.query);
    LimitKeepsAllWhenFew(m, MaxSearchLimit);
  }

  /** Completeness for comments: when no more comments match than the cap,
      every comment whose content contains the query and that passes the
      hidden filter is returned. */
  lemma SearchFindsEveryComment(db: Db, payload: SearchPayload, id: nat)
    requires Literal(payload.query)
    requires |Where(db.comments.rows, (c: Comment) => CommentMatches(c, Pattern(payload.query), payload.includeHidden))|
             <= MaxSearchLimit
    requires id in db.comments.rows
    requires Contains(db.comments.rows[id].content, payload.query)
    requires payload.includeHidden || !db.comments.rows[id].hidden
    ensures id in Search(db, payload, {}).value.comments
  {
    var pattern := Pattern(payload.query);
    var m := Where(db.comments.rows, (c: Comment) => CommentMatches(c, pattern, payload.includeHidden));
    PatternIsContains(db.comments.rows[id].content, payload.query);
    LimitKeepsAllWhenFew(m, MaxSearchLimit);
  }
}
