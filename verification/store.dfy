/** The whole store the controller works on: the four tables. */
module Store {
  import opened Tables
  import opened Types
  import DbUsers
  import DbCategories
  import DbThreads
  import DbComments

  datatype Db = Db(users: map<nat, User>, categories: Table<Category>,
                   threads: Table<Thread>, comments: Table<Comment>)

  predicate Wf(db: Db) {
    && DbUsers.Wf(db.users)
    && DbCategories.Wf(db.categories)
    && DbThreads.Wf(db.threads)
    && DbComments.Wf(db.comments)
  }
}
