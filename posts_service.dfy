/** `PostsService`: the paginated post listing and post creation. */
module PostsService {
  import opened Common
  import opened Table
  import opened Models
  import opened PostsTypes
  import opened Database
  import Paging
  import Uuid

  const CreateFailed: string := "Failed to create post!"

  /** The row reshaped for the API: `user_id` becomes `userId`, and a missing
      `caption` is null. */
  function ToPostType(p: PostRow): (v: PostType)
    ensures FromPostType(v) == p
  {
    PostType(p.id, p.user_id, p.title, p.content, p.caption)
  }

  /** The row a `PostType` was made from. */
  function FromPostType(v: PostType): PostRow
  {
    PostRow(v.id, v.userId, v.title, v.content, v.caption)
  }

  /** Reshaping loses nothing: the API shape and the row determine each other. */
  lemma ReshapeRoundTrip(p: PostRow, v: PostType)
    ensures FromPostType(ToPostType(p)) == p
    ensures ToPostType(FromPostType(v)) == v
  {
  }

  /** The posts the listing runs over: when `userId` is truthy, those whose
      `user_id` is its stored form (`where` compares uuid values); every post
      otherwise. */
  function Matching(posts: seq<PostRow>, userId: Option<string>): (r: seq<PostRow>)
    ensures Truthy(userId) ==> forall p :: p in r <==> p in posts && p.user_id == Uuid.Canonical(userId.value)
    ensures !Truthy(userId) ==> r == posts
  {
    if Truthy(userId) then PostsOf(posts, Uuid.Canonical(userId.value)) else posts
  }

  /** `findPosts(userId?, page = 1, pageSize = 5)`: NotFound when a truthy
      `userId` names no user, the database's error when the window is
      negative, and otherwise one page of the matching posts. The resolver
      has already rejected a truthy `userId` that is not a UUID. */
  function FindPosts(users: seq<UserRow>, posts: seq<PostRow>, userId: Option<string>, page: Option<int>, pageSize: Option<int>)
    : (r: Result<PaginatedPosts>)
    requires Truthy(userId) ==> Uuid.IsUuid(userId.value)
    ensures Truthy(userId) && Uuid.Canonical(userId.value) !in Keys(users, UserKey) ==>
              r == Err(NotFound(NotFoundMessage("User", userId.value)))
    ensures !(Truthy(userId) && Uuid.Canonical(userId.value) !in Keys(users, UserKey)) ==>
              (r.Ok? <==> Paging.Accepted(Coalesce(page, Paging.DefaultPage), Coalesce(pageSize, Paging.DefaultPageSize)))
    ensures r.Err? && !r.error.NotFound? ==> r.error == StorageError(Paging.NegativeWindow)
    ensures r.Ok? ==>
      var p := Coalesce(page, Paging.DefaultPage);
      var size := Coalesce(pageSize, Paging.DefaultPageSize);
      var matching := Matching(posts, userId);
      var window := Paging.Window(matching, Paging.Offset(p, size), size);
      && r.value.page == p && r.value.pageSize == size
      && |r.value.data| == |window| <= size
      && (forall i :: 0 <= i < |window| ==> r.value.data[i] == ToPostType(window[i]))
      && r.value.total == if window == [] then 0 else |matching|
    ensures r.Ok? && Truthy(userId) ==> forall v :: v in r.value.data ==> v.userId == Uuid.Canonical(userId.value)
  {
    if Truthy(userId) && FindBy(users, UserKey, Uuid.Canonical(userId.value)).None? then
      Err(NotFound(NotFoundMessage("User", userId.value)))
    else
      match Paging.ListPage(Matching(posts, userId), page, pageSize)
      case Err(e) => Err(e)
      case Ok(result) => Ok(Paging.Paginated(Map(result.data, ToPostType), result.total, result.page, result.pageSize))
  }

  /** The listing compares the author's id by value: two spellings of the
      same UUID, in whatever case, list the same page. */
  lemma FindPostsComparesByValue(users: seq<UserRow>, posts: seq<PostRow>, userId: string, other: string,
                                 page: Option<int>, pageSize: Option<int>)
    requires Uuid.IsUuid(userId) && Uuid.SameUuid(userId, other)
    ensures Uuid.IsUuid(other)
    ensures var r := FindPosts(users, posts, Some(userId), page, pageSize);
            var s := FindPosts(users, posts, Some(other), page, pageSize);
            r.Ok? == s.Ok? && (r.Ok? ==> r == s)
  {
    Uuid.SameUuidExactly(userId, other);
    Uuid.CanonicalForm(userId);
    Uuid.CanonicalForm(other);
  }

  /** The row `create` stores: `caption ?? null` keeps a given caption as it
      is, the empty string included, and `user_id` is in the stored form. */
  function NewPostRow(input: CreatePostInput, id: string): (p: PostRow)
    ensures p.id == id
    ensures p.user_id == Uuid.Canonical(input.userId) && Uuid.SameUuid(p.user_id, input.userId)
    ensures p.title == input.title && p.content == input.content && p.caption == input.caption
  {
    Uuid.CanonicalForm(input.userId);
    PostRow(id, Uuid.Canonical(input.userId), input.title, input.content, input.caption)
  }

  /** A validated create input gives a row that the `Post` schema accepts. */
  lemma NewPostRowFitsSchema(input: CreatePostInput, id: string)
    requires ValidCreatePostInput(input) && Uuid.IsUuidV4(id)
    ensures PostRowSchema(NewPostRow(input, id))
  {
    Uuid.CanonicalForm(input.userId);
  }

  /** A post inserted last is found where its position puts it: when its
      owner had `Offset(page, pageSize) + slot` posts before, with `slot`
      below `pageSize`, it is row `slot` of that page of the owner's listing,
      whose total counts it. */
  lemma CreatedPostIsListed(users: seq<UserRow>, posts: seq<PostRow>, p: PostRow, page: int, pageSize: int, slot: nat)
    requires Uuid.IsUuid(p.user_id) && Uuid.IsCanonical(p.user_id) && p.user_id in Keys(users, UserKey)
    requires page >= 1 && slot < pageSize
    requires |PostsOf(posts, p.user_id)| == Paging.Offset(page, pageSize) + slot
    ensures var r := FindPosts(users, posts + [p], Some(p.user_id), Some(page), Some(pageSize));
            && r.Ok?
            && r.value.total == |PostsOf(posts, p.user_id)| + 1
            && slot < |r.value.data|
            && r.value.data[slot] == ToPostType(p)
  {
    Uuid.CanonicalForm(p.user_id);
    var n := |PostsOf(posts, p.user_id)|;
    PostsOfAppend(posts, p, p.user_id);
    var matching := PostsOf(posts + [p], p.user_id);
    assert |matching| == n + 1 && matching[n] == p;
    Paging.RowIsListed(matching, page, pageSize, slot);
    var result := Paging.ListPage(matching, Some(page), Some(pageSize)).value;
    assert |p.user_id| == 36;
    assert Matching(posts + [p], Some(p.user_id)) == matching;
    assert FindBy(users, UserKey, p.user_id).Some?;
    assert FindPosts(users, posts + [p], Some(p.user_id), Some(page), Some(pageSize))
        == Ok(Paging.Paginated(Map(result.data, ToPostType), result.total, result.page, result.pageSize));
  }

  class PostsService {
    const db: Db

    constructor (db: Db)
      ensures this.db == db
    {
      this.db := db;
    }

    /** `create(input)`: the author must exist; then one row is inserted with
        the fresh id `newId` the database generates. `fault` is the message of
        the error the insert throws, if it fails; the BadRequest carries that
        message, or the fallback when it is empty. The insert returns the
        properties it was given plus the new id, so `userId` comes back as the
        caller wrote it. */
    method Create(input: CreatePostInput, newId: string, fault: Option<string>) returns (r: Result<PostType>)
      requires db.Valid()
      requires ValidCreatePostInput(input)
      requires Uuid.IsUuidV4(newId) && Uuid.IsCanonical(newId) && newId !in Keys(db.posts, PostKey)
      modifies db`posts
      ensures db.Valid()
      ensures var owner := Uuid.Canonical(input.userId);
              owner !in Keys(db.users, UserKey) ==>
                r == Err(NotFound(NotFoundMessage("User", input.userId))) && db.posts == old(db.posts)
      ensures var owner := Uuid.Canonical(input.userId);
              owner in Keys(db.users, UserKey) && fault.Some? ==>
                r == Err(BadRequest(MessageOr(fault.value, CreateFailed))) && db.posts == old(db.posts)
      ensures var owner := Uuid.Canonical(input.userId);
              owner in Keys(db.users, UserKey) && fault.None? ==>
                var row := NewPostRow(input, newId);
                && db.posts == old(db.posts) + [row]
                && PostsOf(db.posts, owner) == PostsOf(old(db.posts), owner) + [row]
                && r == Ok(ToPostType(row).(userId := input.userId))
    {
      var user := FindBy(db.users, UserKey, Uuid.Canonical(input.userId));
      if user.None? {
        return Err(NotFound(NotFoundMessage("User", input.userId)));
      }
      if fault.Some? {
        return Err(BadRequest(MessageOr(fault.value, CreateFailed)));
      }
      var row := NewPostRow(input, newId);
      NewPostRowFitsSchema(input, newId);
      InsertPostKeepsTables(db.users, db.posts, db.albums, row);
      PostsOfAppend(db.posts, row, row.user_id);
      db.posts := db.posts + [row];
      r := Ok(ToPostType(row).(userId := input.userId));
    }
  }
}
