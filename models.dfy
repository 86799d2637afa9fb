/** The three ORM models (`User`, `Post`, `Album`): their rows as the database
    stores them (snake_case columns), the JSON schema each model declares, the
    relations between them, and the invariants the three tables keep. */
module Models {
  import opened Common
  import opened Table
  import Uuid

  datatype UserRow = UserRow(id: string, name: string, username: string, email: string)

  datatype PostRow = PostRow(id: string, user_id: string, title: string, content: string, caption: Option<string>)

  datatype AlbumRow = AlbumRow(id: string, user_id: string, name: string, description: Option<string>, genre: Option<string>)

  // The columns the tables are keyed or searched by.
  function UserKey(u: UserRow): string { u.id }
  function EmailOf(u: UserRow): string { u.email }
  function UsernameOf(u: UserRow): string { u.username }
  function PostKey(p: PostRow): string { p.id }
  function AlbumKey(a: AlbumRow): string { a.id }

  /** The `User` schema's length rules: `name` and `username` have at least one character. */
  predicate UserRowLengths(u: UserRow)
  {
    |u.name| >= 1 && |u.username| >= 1
  }

  /** The whole `User` schema: `id` in UUID format, the length rules, and
      `email` in email format (an abstract predicate `isEmail`). The three
      required properties are always present in a `UserRow`. */
  predicate UserRowSchema(u: UserRow, isEmail: string -> bool): (ok: bool)
    ensures ok ==> |u.id| == 36 && u.name != "" && u.username != "" && isEmail(u.email)
  {
    Uuid.IsUuid(u.id) && UserRowLengths(u) && isEmail(u.email)
  }

  /** The `Post` schema: `id` and `user_id` in UUID format, a non-empty
      `title`; `content` may be any string, `caption` a string or null. */
  predicate PostRowSchema(p: PostRow): (ok: bool)
    ensures ok ==> |p.id| == 36 && |p.user_id| == 36 && p.title != ""
  {
    Uuid.IsUuid(p.id) && Uuid.IsUuid(p.user_id) && |p.title| >= 1
  }

  /** The `Album` schema: `id` and `user_id` in UUID format, a non-empty
      `name`; `description` and `genre` are strings or null. */
  predicate AlbumRowSchema(a: AlbumRow): (ok: bool)
    ensures ok ==> |a.id| == 36 && |a.user_id| == 36 && a.name != ""
  {
    Uuid.IsUuid(a.id) && Uuid.IsUuid(a.user_id) && |a.name| >= 1
  }

  // The join conditions of the two HasMany relations, for one user.
  function PostOwnedBy(userId: string): PostRow -> bool { (p: PostRow) => p.user_id == userId }
  function AlbumOwnedBy(userId: string): AlbumRow -> bool { (a: AlbumRow) => a.user_id == userId }

  /** `User.posts` (HasMany, users.id = posts.user_id): the user's posts in store order. */
  function PostsOf(posts: seq<PostRow>, userId: string): (r: seq<PostRow>)
    ensures forall p :: p in r <==> p in posts && p.user_id == userId
  {
    Where(posts, PostOwnedBy(userId))
  }

  /** `User.albums` (HasMany, users.id = albums.user_id): the user's albums in store order. */
  function AlbumsOf(albums: seq<AlbumRow>, userId: string): (r: seq<AlbumRow>)
    ensures forall a :: a in r <==> a in albums && a.user_id == userId
  {
    Where(albums, AlbumOwnedBy(userId))
  }

  /** A post inserted last is its owner's last post, and nobody else's. */
  lemma PostsOfAppend(posts: seq<PostRow>, p: PostRow, userId: string)
    ensures PostsOf(posts + [p], userId) == PostsOf(posts, userId) + (if p.user_id == userId then [p] else [])
  {
    WhereAppend(posts, [p], PostOwnedBy(userId));
    assert Where([p], PostOwnedBy(userId)) == (if p.user_id == userId then [p] else []) by {
      assert [p][1..] == [];
    }
  }

  /** An album inserted last is its owner's last album, and nobody else's. */
  lemma AlbumsOfAppend(albums: seq<AlbumRow>, a: AlbumRow, userId: string)
    ensures AlbumsOf(albums + [a], userId) == AlbumsOf(albums, userId) + (if a.user_id == userId then [a] else [])
  {
    WhereAppend(albums, [a], AlbumOwnedBy(userId));
    assert Where([a], AlbumOwnedBy(userId)) == (if a.user_id == userId then [a] else []) by {
      assert [a][1..] == [];
    }
  }

  /** `Post.user` (BelongsToOne, posts.user_id = users.id). */
  function OwnerOfPost(users: seq<UserRow>, p: PostRow): (r: Option<UserRow>)
    ensures r.Some? ==> r.value in users && r.value.id == p.user_id
    ensures r.None? <==> p.user_id !in Keys(users, UserKey)
  {
    FindBy(users, UserKey, p.user_id)
  }

  /** `Album.user` (BelongsToOne, albums.user_id = users.id). */
  function OwnerOfAlbum(users: seq<UserRow>, a: AlbumRow): (r: Option<UserRow>)
    ensures r.Some? ==> r.value in users && r.value.id == a.user_id
    ensures r.None? <==> a.user_id !in Keys(users, UserKey)
  {
    FindBy(users, UserKey, a.user_id)
  }

  /** The two directions of the post relation agree: a post is among a user's
      posts exactly when that user is the post's owner. */
  lemma PostRelationsAgree(users: seq<UserRow>, posts: seq<PostRow>, u: UserRow, p: PostRow)
    requires UniqueKeys(users, UserKey)
    requires u in users && p in posts
    ensures p in PostsOf(posts, u.id) <==> OwnerOfPost(users, p) == Some(u)
  {
    var owner := OwnerOfPost(users, p);
    if p.user_id == u.id {
      assert UserKey(u) == p.user_id;
      UniqueKeyNamesOneRow(users, UserKey, owner.value, u);
    }
  }

  /** The two directions of the album relation agree. */
  lemma AlbumRelationsAgree(users: seq<UserRow>, albums: seq<AlbumRow>, u: UserRow, a: AlbumRow)
    requires UniqueKeys(users, UserKey)
    requires u in users && a in albums
    ensures a in AlbumsOf(albums, u.id) <==> OwnerOfAlbum(users, a) == Some(u)
  {
    var owner := OwnerOfAlbum(users, a);
    if a.user_id == u.id {
      assert UserKey(u) == a.user_id;
      UniqueKeyNamesOneRow(users, UserKey, owner.value, u);
    }
  }

  /** What the three tables keep between requests: primary keys, the UNIQUE
      `email` and `username` columns, the NOT NULL / schema rules of every
      row, the `uuid` columns in the lower-case form Postgres stores, and the
      foreign keys from posts and albums to users. */
  predicate ValidTables(users: seq<UserRow>, posts: seq<PostRow>, albums: seq<AlbumRow>): (ok: bool)
    ensures ok ==> forall p :: p in posts ==> OwnerOfPost(users, p).Some?
    ensures ok ==> forall a :: a in albums ==> OwnerOfAlbum(users, a).Some?
  {
    && UniqueKeys(users, UserKey)
    && UniqueKeys(users, EmailOf)
    && UniqueKeys(users, UsernameOf)
    && UniqueKeys(posts, PostKey)
    && UniqueKeys(albums, AlbumKey)
    && (forall u :: u in users ==> Uuid.IsUuid(u.id) && Uuid.IsCanonical(u.id) && UserRowLengths(u))
    && (forall p :: p in posts ==> PostRowSchema(p) && Uuid.IsCanonical(p.id) && p.user_id in Keys(users, UserKey))
    && (forall a :: a in albums ==> AlbumRowSchema(a) && Uuid.IsCanonical(a.id) && a.user_id in Keys(users, UserKey))
  }

  /** A lookup of the stored form of `id` is a lookup by UUID value: when every
      key is stored in canonical form, the stored form of `id` is a key exactly
      when some row's key names the same UUID as `id`. */
  lemma KeyLookupByValue<T>(rows: seq<T>, key: T -> string, id: string)
    requires forall x :: x in rows ==> Uuid.IsCanonical(key(x))
    ensures Uuid.Canonical(id) in Keys(rows, key) <==> exists x :: x in rows && Uuid.SameUuid(key(x), id)
  {
    if Uuid.Canonical(id) in Keys(rows, key) {
      var j :| 0 <= j < |rows| && key(rows[j]) == Uuid.Canonical(id);
      assert rows[j] in rows;
      Uuid.CanonicalForm(key(rows[j]));
      Uuid.SameUuidExactly(key(rows[j]), id);
    }
    if exists x :: x in rows && Uuid.SameUuid(key(x), id) {
      var x :| x in rows && Uuid.SameUuid(key(x), id);
      Uuid.CanonicalForm(key(x));
      Uuid.SameUuidExactly(key(x), id);
    }
  }

  /** The primary key compares values: no two users' ids name the same UUID,
      whatever the case of their digits. */
  lemma UserIdsDistinctByValue(users: seq<UserRow>, posts: seq<PostRow>, albums: seq<AlbumRow>, i: nat, j: nat)
    requires ValidTables(users, posts, albums)
    requires i < j < |users|
    ensures !Uuid.SameUuid(users[i].id, users[j].id)
  {
    assert users[i] in users && users[j] in users;
    Uuid.CanonicalForm(users[i].id);
    Uuid.CanonicalForm(users[j].id);
    Uuid.SameUuidExactly(users[i].id, users[j].id);
  }

  /** A new user whose id, email and username are all unused keeps the tables valid. */
  lemma InsertUserKeepsTables(users: seq<UserRow>, posts: seq<PostRow>, albums: seq<AlbumRow>, u: UserRow)
    requires ValidTables(users, posts, albums)
    requires Uuid.IsUuid(u.id) && Uuid.IsCanonical(u.id) && UserRowLengths(u)
    requires u.id !in Keys(users, UserKey)
    requires u.email !in Keys(users, EmailOf)
    requires u.username !in Keys(users, UsernameOf)
    ensures ValidTables(users + [u], posts, albums)
  {
    InsertKeepsUnique(users, UserKey, u);
    InsertKeepsUnique(users, EmailOf, u);
    InsertKeepsUnique(users, UsernameOf, u);
  }

  /** A new post with an unused id, an existing owner and a valid row keeps the tables valid. */
  lemma InsertPostKeepsTables(users: seq<UserRow>, posts: seq<PostRow>, albums: seq<AlbumRow>, p: PostRow)
    requires ValidTables(users, posts, albums)
    requires PostRowSchema(p) && p.user_id in Keys(users, UserKey)
    requires Uuid.IsCanonical(p.id) && p.id !in Keys(posts, PostKey)
    ensures ValidTables(users, posts + [p], albums)
  {
    InsertKeepsUnique(posts, PostKey, p);
  }

  /** A new album with an unused id, an existing owner and a valid row keeps the tables valid. */
  lemma InsertAlbumKeepsTables(users: seq<UserRow>, posts: seq<PostRow>, albums: seq<AlbumRow>, a: AlbumRow)
    requires ValidTables(users, posts, albums)
    requires AlbumRowSchema(a) && a.user_id in Keys(users, UserKey)
    requires Uuid.IsCanonical(a.id) && a.id !in Keys(albums, AlbumKey)
    ensures ValidTables(users, posts, albums + [a])
  {
    InsertKeepsUnique(albums, AlbumKey, a);
  }

  /** Replacing an album by a valid row with the same id and owner keeps the tables valid. */
  lemma ReplaceAlbumKeepsTables(users: seq<UserRow>, posts: seq<PostRow>, albums: seq<AlbumRow>, id: string, a: AlbumRow)
    requires ValidTables(users, posts, albums)
    requires a.id == id && Uuid.IsCanonical(id) && AlbumRowSchema(a) && a.user_id in Keys(users, UserKey)
    ensures ValidTables(users, posts, ReplaceBy(albums, AlbumKey, id, a))
  {
    ReplaceKeepsKeys(albums, AlbumKey, id, a);
    var r := ReplaceBy(albums, AlbumKey, id, a);
    forall x | x in r ensures AlbumRowSchema(x) && Uuid.IsCanonical(x.id) && x.user_id in Keys(users, UserKey) {
      var j :| 0 <= j < |r| && r[j] == x;
      assert albums[j] in albums;
    }
  }

  /** Deleting albums keeps the tables valid. */
  lemma DeleteAlbumKeepsTables(users: seq<UserRow>, posts: seq<PostRow>, albums: seq<AlbumRow>, id: string)
    requires ValidTables(users, posts, albums)
    ensures ValidTables(users, posts, DeleteBy(albums, AlbumKey, id))
  {
    DeleteKeepsUnique(albums, AlbumKey, id, AlbumKey);
  }
}
