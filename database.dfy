/** The database the services share: the `users`, `posts` and `albums` tables,
    each a sequence of rows in store order, which the services read and update
    in place. */
module Database {
  import opened Models

  class Db {
    var users: seq<UserRow>
    var posts: seq<PostRow>
    var albums: seq<AlbumRow>

    /** The constraints the schema puts on the three tables. */
    ghost predicate Valid()
      reads this
    {
      ValidTables(users, posts, albums)
    }

    /** The database right after the migration: three empty tables. */
    constructor ()
      ensures Valid()
      ensures users == [] && posts == [] && albums == []
    {
      users, posts, albums := [], [], [];
    }
  }
}
