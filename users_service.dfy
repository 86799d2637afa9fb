/** `UsersService`: the paginated user listing and the single-user lookup,
    both with the users' posts and albums attached, and user creation with its
    check that the email and the username are still free. */
module UsersService {
  import opened Common
  import opened Table
  import opened Models
  import opened UsersTypes
  import opened Database
  import Paging
  import Uuid

  const FindFailed: string := "Failed to find user!"
  const CreateFailed: string := "Failed to create user!"

  function EmailTaken(email: string): string
  {
    "User with email " + email + " already exists"
  }

  function UsernameTaken(username: string): string
  {
    "User with username " + username + " already exists"
  }

  /** A user with the graph `[posts, albums]` fetched: every post and every
      album whose `user_id` is the user's id, in store order. */
  function WithRelations(u: UserRow, posts: seq<PostRow>, albums: seq<AlbumRow>): (v: UserType)
    ensures v.id == u.id && v.name == u.name && v.username == u.username && v.email == u.email
    ensures v.posts.Some? && forall p :: p in v.posts.value <==> p in posts && p.user_id == u.id
    ensures v.albums.Some? && forall a :: a in v.albums.value <==> a in albums && a.user_id == u.id
  {
    UserType(u.id, u.name, u.username, u.email, Some(PostsOf(posts, u.id)), Some(AlbumsOf(albums, u.id)))
  }

  /** `findAll(page = 1, pageSize = 5)`: one page of all users, each with its
      posts and albums, or the database's error when the window is negative. */
  function FindAll(users: seq<UserRow>, posts: seq<PostRow>, albums: seq<AlbumRow>, page: Option<int>, pageSize: Option<int>)
    : (r: Result<PaginatedUsers>)
    ensures r.Ok? <==> Paging.Accepted(Coalesce(page, Paging.DefaultPage), Coalesce(pageSize, Paging.DefaultPageSize))
    ensures r.Err? ==> r.error == StorageError(Paging.NegativeWindow)
    ensures r.Ok? ==>
      var p := Coalesce(page, Paging.DefaultPage);
      var size := Coalesce(pageSize, Paging.DefaultPageSize);
      var window := Paging.Window(users, Paging.Offset(p, size), size);
      && r.value.page == p && r.value.pageSize == size
      && |r.value.data| == |window| <= size
      && (forall i :: 0 <= i < |window| ==> r.value.data[i] == WithRelations(window[i], posts, albums))
      && r.value.total == if window == [] then 0 else |users|
  {
    match Paging.ListPage(users, page, pageSize)
    case Err(e) => Err(e)
    case Ok(result) =>
      Ok(Paging.Paginated(Map(result.data, (u: UserRow) => WithRelations(u, posts, albums)), result.total, result.page, result.pageSize))
  }

  /** Every user is listed by `findAll`: user `Offset(page, pageSize) + slot`
      of the table, with `slot` below `pageSize`, is row `slot` of that page,
      with its posts and albums, and the total is the number of users. */
  lemma EveryUserIsListed(users: seq<UserRow>, posts: seq<PostRow>, albums: seq<AlbumRow>, page: int, pageSize: int, slot: nat)
    requires page >= 1 && slot < pageSize
    requires Paging.Offset(page, pageSize) + slot < |users|
    ensures var r := FindAll(users, posts, albums, Some(page), Some(pageSize));
            && r.Ok?
            && r.value.total == |users|
            && slot < |r.value.data|
            && r.value.data[slot] == WithRelations(users[Paging.Offset(page, pageSize) + slot], posts, albums)
  {
    Paging.RowIsListed(users, page, pageSize, slot);
  }

  /** The `try` block of `findOne(id)`: the read throws `fault` when it fails,
      and a missing user throws NotFound. `findById` compares uuid values, so
      the stored form of `id` is looked up. */
  function FindOneAttempt(users: seq<UserRow>, posts: seq<PostRow>, albums: seq<AlbumRow>, id: string, fault: Option<string>)
    : (r: Result<UserType>)
    ensures fault.Some? ==> r == Err(StorageError(fault.value))
    ensures fault.None? && r.Err? ==> r.error == NotFound(NotFoundMessage("User", id))
  {
    if fault.Some? then Err(StorageError(fault.value))
    else match FindBy(users, UserKey, Uuid.Canonical(id))
      case None => Err(NotFound(NotFoundMessage("User", id)))
      case Some(u) => Ok(WithRelations(u, posts, albums))
  }

  /** `findOne(id)`: the user with its posts and albums; NotFound, rethrown as
      it is, when no user has that id; a failed read becomes a BadRequest with
      the read's message, or the fallback when that is empty. The resolver has
      already rejected an `id` that is not a UUID. */
  function FindOne(users: seq<UserRow>, posts: seq<PostRow>, albums: seq<AlbumRow>, id: string, fault: Option<string>)
    : (r: Result<UserType>)
    requires Uuid.IsUuid(id)
    ensures fault.Some? ==> r == Err(BadRequest(MessageOr(fault.value, FindFailed)))
    ensures fault.None? ==> (r.Err? <==> Uuid.Canonical(id) !in Keys(users, UserKey))
    ensures fault.None? && r.Err? ==> r.error == NotFound(NotFoundMessage("User", id))
    ensures r.Ok? ==> exists u :: u in users && u.id == Uuid.Canonical(id) && r.value == WithRelations(u, posts, albums)
  {
    match FindOneAttempt(users, posts, albums, id, fault)
    case Err(e) => Err(RethrowKeepingNotFound(e, FindFailed))
    case Ok(v) => Ok(v)
  }

  /** `findOne` compares the id by value: two spellings of the same UUID, in
      whatever case, find the same user. */
  lemma FindOneComparesByValue(users: seq<UserRow>, posts: seq<PostRow>, albums: seq<AlbumRow>,
                               id: string, other: string, fault: Option<string>)
    requires Uuid.IsUuid(id) && Uuid.SameUuid(id, other)
    ensures Uuid.IsUuid(other)
    ensures var r := FindOne(users, posts, albums, id, fault);
            var s := FindOne(users, posts, albums, other, fault);
            r.Ok? == s.Ok? && (r.Ok? ==> r == s)
  {
    Uuid.SameUuidExactly(id, other);
    Uuid.CanonicalForm(id);
    Uuid.CanonicalForm(other);
  }

  /** The two reads agree: a user on any page of `findAll` is exactly what
      `findOne` returns for its id, posts and albums included. */
  lemma FindOneAgreesWithFindAll(users: seq<UserRow>, posts: seq<PostRow>, albums: seq<AlbumRow>,
                                 page: Option<int>, pageSize: Option<int>, v: UserType)
    requires ValidTables(users, posts, albums)
    requires FindAll(users, posts, albums, page, pageSize).Ok?
    requires v in FindAll(users, posts, albums, page, pageSize).value.data
    ensures Uuid.IsUuid(v.id)
    ensures FindOne(users, posts, albums, v.id, None) == Ok(v)
  {
    var r := FindAll(users, posts, albums, page, pageSize);
    var p := Coalesce(page, Paging.DefaultPage);
    var size := Coalesce(pageSize, Paging.DefaultPageSize);
    var window := Paging.Window(users, Paging.Offset(p, size), size);
    var i :| 0 <= i < |r.value.data| && r.value.data[i] == v;
    var u := window[i];
    assert u == users[Paging.Offset(p, size) + i];
    assert u in users && v == WithRelations(u, posts, albums);
    Uuid.CanonicalForm(u.id);
    var found := FindBy(users, UserKey, u.id);
    assert found.Some?;
    UniqueKeyNamesOneRow(users, UserKey, found.value, u);
  }

  /** The user that `where email = … or username = …` then `.first()`
      returns. The query has no ORDER BY, so the database may return any
      colliding user; the model takes the first one in store order. */
  function Collision(users: seq<UserRow>, input: CreateUserInput): (r: Option<UserRow>)
    ensures r.None? <==> input.email !in Keys(users, EmailOf) && input.username !in Keys(users, UsernameOf)
    ensures r.Some? ==> r.value in users && (r.value.email == input.email || r.value.username == input.username)
    ensures r.Some? ==>
              exists i :: 0 <= i < |users| && users[i] == r.value
                && (forall j :: 0 <= j < i ==> users[j].email != input.email && users[j].username != input.username)
  {
    First(users, (u: UserRow) => u.email == input.email || u.username == input.username)
  }

  /** The row `create` inserts: the input as it is, with the fresh id. */
  function NewUserRow(input: CreateUserInput, id: string): (u: UserRow)
    ensures u.id == id && u.name == input.name && u.username == input.username && u.email == input.email
  {
    UserRow(id, input.name, input.username, input.email)
  }

  /** The user `create` returns: the inserted row, with no posts or albums fetched. */
  function CreatedUser(u: UserRow): (v: UserType)
    ensures v.id == u.id && v.name == u.name && v.username == u.username && v.email == u.email
    ensures v.posts.None? && v.albums.None?
  {
    UserType(u.id, u.name, u.username, u.email, None, None)
  }

  /** A validated input gives a row that the `User` schema accepts, the email
      format included. */
  lemma NewUserRowFitsSchema(input: CreateUserInput, id: string, isEmail: string -> bool)
    requires ValidCreateUserInput(input, isEmail) && Uuid.IsUuidV4(id)
    ensures UserRowSchema(NewUserRow(input, id), isEmail)
  {
  }

  /** A validated input with a fresh id and a free email and username gives a
      row that keeps the tables valid. */
  lemma NewUserRowKeepsTables(users: seq<UserRow>, posts: seq<PostRow>, albums: seq<AlbumRow>,
                              input: CreateUserInput, id: string)
    requires ValidTables(users, posts, albums)
    requires ValidNames(input) && Uuid.IsUuidV4(id) && Uuid.IsCanonical(id) && id !in Keys(users, UserKey)
    requires Collision(users, input).None?
    ensures ValidTables(users + [NewUserRow(input, id)], posts, albums)
  {
    InsertUserKeepsTables(users, posts, albums, NewUserRow(input, id));
  }

  class UsersService {
    const db: Db

    constructor (db: Db)
      ensures this.db == db
    {
      this.db := db;
    }

    /** `create(input)`: refused with a BadRequest when the first user sharing
        the email or the username shares the email (the email message) or only
        the username (the username message); otherwise the input is inserted
        with the fresh id `newId` the database generates. `fault` is the
        message of the error the insert throws, if it fails. Every error thrown
        inside the `try` is rethrown as a BadRequest carrying its message. */
    method Create(input: CreateUserInput, isEmail: string -> bool, newId: string, fault: Option<string>) returns (r: Result<UserType>)
      requires db.Valid()
      requires ValidCreateUserInput(input, isEmail)
      requires Uuid.IsUuidV4(newId) && Uuid.IsCanonical(newId) && newId !in Keys(db.users, UserKey)
      modifies db`users
      ensures db.Valid()
      ensures var c := Collision(old(db.users), input);
              c.Some? && c.value.email == input.email ==>
                r == Err(BadRequest(EmailTaken(input.email))) && db.users == old(db.users)
      ensures var c := Collision(old(db.users), input);
              c.Some? && c.value.email != input.email ==>
                r == Err(BadRequest(UsernameTaken(input.username))) && db.users == old(db.users)
      ensures Collision(old(db.users), input).None? && fault.Some? ==>
                r == Err(BadRequest(MessageOr(fault.value, CreateFailed))) && db.users == old(db.users)
      ensures Collision(old(db.users), input).None? && fault.None? ==>
                var row := NewUserRow(input, newId);
                && db.users == old(db.users) + [row]
                && r == Ok(CreatedUser(row))
                && FindOne(db.users, db.posts, db.albums, newId, None) == Ok(WithRelations(row, db.posts, db.albums))
    {
      var existing := Collision(db.users, input);
      if existing.Some? {
        var thrown := if existing.value.email == input.email then BadRequest(EmailTaken(input.email))
                      else BadRequest(UsernameTaken(input.username));
        assert |thrown.message| > 0;
        return Err(RethrowAsBadRequest(thrown, CreateFailed));
      }
      if fault.Some? {
        return Err(RethrowAsBadRequest(StorageError(fault.value), CreateFailed));
      }
      var row := NewUserRow(input, newId);
      NewUserRowFitsSchema(input, newId, isEmail);
      NewUserRowKeepsTables(db.users, db.posts, db.albums, input, newId);
      CreatedUserIsFound(db.users, db.posts, db.albums, row);
      db.users := db.users + [row];
      r := Ok(CreatedUser(row));
    }
  }

  /** A user inserted with an unused id is what `findOne` then returns for it,
      with the posts and albums that name it. */
  lemma CreatedUserIsFound(users: seq<UserRow>, posts: seq<PostRow>, albums: seq<AlbumRow>, u: UserRow)
    requires Uuid.IsUuid(u.id) && Uuid.IsCanonical(u.id) && u.id !in Keys(users, UserKey)
    ensures FindOne(users + [u], posts, albums, u.id, None) == Ok(WithRelations(u, posts, albums))
  {
    Uuid.CanonicalForm(u.id);
    var all := users + [u];
    var found := FindBy(all, UserKey, u.id);
    assert all[|users|] == u;
    assert found.Some?;
    assert found.value !in users;
  }
}
