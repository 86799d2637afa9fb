/** `AlbumsService`: the paginated album listing, and create, update and
    delete over the albums table, each guarded by an existence check. */
module AlbumsService {
  import opened Common
  import opened Table
  import opened Models
  import opened AlbumsTypes
  import opened Database
  import Paging
  import Uuid

  const CreateFailed: string := "Failed to create album"
  const UpdateFailed: string := "Failed to update album"
  const DeleteFailed: string := "Failed to delete album"

  /** The row reshaped for the API: `user_id` becomes `userId`, and a missing
      `description` or `genre` is null. */
  function ToAlbumType(a: AlbumRow): (v: AlbumType)
    ensures FromAlbumType(v) == a
  {
    AlbumType(a.id, a.user_id, a.name, a.description, a.genre)
  }

  /** The row an `AlbumType` was made from. */
  function FromAlbumType(v: AlbumType): AlbumRow
  {
    AlbumRow(v.id, v.userId, v.name, v.description, v.genre)
  }

  /** Reshaping loses nothing: the API shape and the row determine each other. */
  lemma ReshapeRoundTrip(a: AlbumRow, v: AlbumType)
    ensures FromAlbumType(ToAlbumType(a)) == a
    ensures ToAlbumType(FromAlbumType(v)) == v
  {
  }

  /** The albums the listing runs over: when `userId` is truthy, those whose
      `user_id` is its stored form (`where` compares uuid values); every album
      otherwise. */
  function Matching(albums: seq<AlbumRow>, userId: Option<string>): (r: seq<AlbumRow>)
    ensures Truthy(userId) ==> forall a :: a in r <==> a in albums && a.user_id == Uuid.Canonical(userId.value)
    ensures !Truthy(userId) ==> r == albums
  {
    if Truthy(userId) then AlbumsOf(albums, Uuid.Canonical(userId.value)) else albums
  }

  /** `findAlbums(userId?, page = 1, pageSize = 5)`: NotFound when a truthy
      `userId` names no user, the database's error when the window is
      negative, and otherwise one page of the matching albums. The resolver
      has already rejected a truthy `userId` that is not a UUID. */
  function FindAlbums(users: seq<UserRow>, albums: seq<AlbumRow>, userId: Option<string>, page: Option<int>, pageSize: Option<int>)
    : (r: Result<PaginatedAlbums>)
    requires Truthy(userId) ==> Uuid.IsUuid(userId.value)
    ensures Truthy(userId) && Uuid.Canonical(userId.value) !in Keys(users, UserKey) ==>
              r == Err(NotFound(NotFoundMessage("User", userId.value)))
    ensures !(Truthy(userId) && Uuid.Canonical(userId.value) !in Keys(users, UserKey)) ==>
              (r.Ok? <==> Paging.Accepted(Coalesce(page, Paging.DefaultPage), Coalesce(pageSize, Paging.DefaultPageSize)))
    ensures r.Err? && !r.error.NotFound? ==> r.error == StorageError(Paging.NegativeWindow)
    ensures r.Ok? ==>
      var p := Coalesce(page, Paging.DefaultPage);
      var size := Coalesce(pageSize, Paging.DefaultPageSize);
      var matching := Matching(albums, userId);
      var window := Paging.Window(matching, Paging.Offset(p, size), size);
      && r.value.page == p && r.value.pageSize == size
      && |r.value.data| == |window| <= size
      && (forall i :: 0 <= i < |window| ==> r.value.data[i] == ToAlbumType(window[i]))
      && r.value.total == if window == [] then 0 else |matching|
    ensures r.Ok? && Truthy(userId) ==> forall v :: v in r.value.data ==> v.userId == Uuid.Canonical(userId.value)
  {
    if Truthy(userId) && FindBy(users, UserKey, Uuid.Canonical(userId.value)).None? then
      Err(NotFound(NotFoundMessage("User", userId.value)))
    else
      match Paging.ListPage(Matching(albums, userId), page, pageSize)
      case Err(e) => Err(e)
      case Ok(result) => Ok(Paging.Paginated(Map(result.data, ToAlbumType), result.total, result.page, result.pageSize))
  }

  /** The listing compares the owner's id by value: two spellings of the same
      UUID, in whatever case, list the same page. */
  lemma FindAlbumsComparesByValue(users: seq<UserRow>, albums: seq<AlbumRow>, userId: string, other: string,
                                  page: Option<int>, pageSize: Option<int>)
    requires Uuid.IsUuid(userId) && Uuid.SameUuid(userId, other)
    ensures Uuid.IsUuid(other)
    ensures var r := FindAlbums(users, albums, Some(userId), page, pageSize);
            var s := FindAlbums(users, albums, Some(other), page, pageSize);
            r.Ok? == s.Ok? && (r.Ok? ==> r == s)
  {
    Uuid.SameUuidExactly(userId, other);
    Uuid.CanonicalForm(userId);
    Uuid.CanonicalForm(other);
  }

  /** The row `create` stores: `description || null` and `genre || null`, so
      an empty string is stored as null, and `user_id` in the stored form. */
  function NewAlbumRow(input: CreateAlbumInput, id: string): (a: AlbumRow)
    ensures a.id == id && a.name == input.name
    ensures a.user_id == Uuid.Canonical(input.userId) && Uuid.SameUuid(a.user_id, input.userId)
    ensures a.description.None? <==> !Truthy(input.description)
    ensures a.genre.None? <==> !Truthy(input.genre)
    ensures a.description.Some? ==> a.description == input.description
    ensures a.genre.Some? ==> a.genre == input.genre
  {
    Uuid.CanonicalForm(input.userId);
    AlbumRow(id, Uuid.Canonical(input.userId), input.name, FalsyToNull(input.description), FalsyToNull(input.genre))
  }

  /** The patch `update` applies: each of `name`, `description` and `genre`
      takes the input's value when it is given (`??`), and `id` and `user_id`
      stay, whatever `userId` the input carries. */
  function Patch(a: AlbumRow, input: UpdateAlbumInput): (r: AlbumRow)
    ensures r.id == a.id && r.user_id == a.user_id
    ensures r.name == if input.name.Some? then input.name.value else a.name
    ensures r.description == if input.description.Some? then input.description else a.description
    ensures r.genre == if input.genre.Some? then input.genre else a.genre
  {
    AlbumRow(a.id, a.user_id, Coalesce(input.name, a.name), OrElse(input.description, a.description), OrElse(input.genre, a.genre))
  }

  /** Patching twice with the same input changes nothing more, and a patch
      that gives none of the three fields leaves the row as it was. */
  lemma PatchIsPartial(a: AlbumRow, input: UpdateAlbumInput)
    ensures Patch(Patch(a, input), input) == Patch(a, input)
    ensures input.name.None? && input.description.None? && input.genre.None? ==> Patch(a, input) == a
  {
  }

  /** A validated create input gives a row that the `Album` schema accepts. */
  lemma NewAlbumRowFitsSchema(input: CreateAlbumInput, id: string)
    requires ValidCreateAlbumInput(input) && Uuid.IsUuidV4(id)
    ensures AlbumRowSchema(NewAlbumRow(input, id))
  {
    Uuid.CanonicalForm(input.userId);
  }

  /** A validated patch of a valid row is a valid row. */
  lemma PatchFitsSchema(a: AlbumRow, input: UpdateAlbumInput)
    requires AlbumRowSchema(a) && ValidUpdateAlbumInput(input)
    ensures AlbumRowSchema(Patch(a, input))
  {
  }

  class AlbumsService {
    const db: Db

    constructor (db: Db)
      ensures this.db == db
    {
      this.db := db;
    }

    /** `create(input)`: the owner must exist; then one row is inserted with
        the fresh id `newId` the database generates. `fault` is the error the
        insert throws, if it fails. The insert returns the properties it was
        given plus the new id, so `userId` comes back as the caller wrote it. */
    method Create(input: CreateAlbumInput, newId: string, fault: Option<string>) returns (r: Result<AlbumType>)
      requires db.Valid()
      requires ValidCreateAlbumInput(input)
      requires Uuid.IsUuidV4(newId) && Uuid.IsCanonical(newId) && newId !in Keys(db.albums, AlbumKey)
      modifies db`albums
      ensures db.Valid()
      ensures var owner := Uuid.Canonical(input.userId);
              owner !in Keys(db.users, UserKey) ==>
                r == Err(NotFound(NotFoundMessage("User", input.userId))) && db.albums == old(db.albums)
      ensures var owner := Uuid.Canonical(input.userId);
              owner in Keys(db.users, UserKey) && fault.Some? ==>
                r == Err(BadRequest(CreateFailed)) && db.albums == old(db.albums)
      ensures var owner := Uuid.Canonical(input.userId);
              owner in Keys(db.users, UserKey) && fault.None? ==>
                var row := NewAlbumRow(input, newId);
                && db.albums == old(db.albums) + [row]
                && AlbumsOf(db.albums, owner) == AlbumsOf(old(db.albums), owner) + [row]
                && r == Ok(ToAlbumType(row).(userId := input.userId))
    {
      var user := FindBy(db.users, UserKey, Uuid.Canonical(input.userId));
      if user.None? {
        return Err(NotFound(NotFoundMessage("User", input.userId)));
      }
      if fault.Some? {
        return Err(BadRequest(CreateFailed));
      }
      var row := NewAlbumRow(input, newId);
      NewAlbumRowFitsSchema(input, newId);
      InsertAlbumKeepsTables(db.users, db.posts, db.albums, row);
      AlbumsOfAppend(db.albums, row, row.user_id);
      db.albums := db.albums + [row];
      r := Ok(ToAlbumType(row).(userId := input.userId));
    }

    /** `update(input)`: the album must exist; then it is patched in place,
        and the stored row is fetched back. */
    method Update(input: UpdateAlbumInput, fault: Option<string>) returns (r: Result<AlbumType>)
      requires db.Valid()
      requires ValidUpdateAlbumInput(input)
      modifies db`albums
      ensures db.Valid()
      ensures var id := Uuid.Canonical(input.id);
              id !in Keys(old(db.albums), AlbumKey) ==>
                r == Err(NotFound(NotFoundMessage("Album", input.id))) && db.albums == old(db.albums)
      ensures var id := Uuid.Canonical(input.id);
              id in Keys(old(db.albums), AlbumKey) && fault.Some? ==>
                r == Err(BadRequest(UpdateFailed)) && db.albums == old(db.albums)
      ensures var id := Uuid.Canonical(input.id);
              id in Keys(old(db.albums), AlbumKey) && fault.None? ==>
                var patched := Patch(FindBy(old(db.albums), AlbumKey, id).value, input);
                && db.albums == ReplaceBy(old(db.albums), AlbumKey, id, patched)
                && FindBy(db.albums, AlbumKey, id) == Some(patched)
                && r == Ok(ToAlbumType(patched))
    {
      Uuid.CanonicalForm(input.id);
      var id := Uuid.Canonical(input.id);
      var album := FindBy(db.albums, AlbumKey, id);
      if album.None? {
        return Err(NotFound(NotFoundMessage("Album", input.id)));
      }
      if fault.Some? {
        return Err(BadRequest(UpdateFailed));
      }
      var patched := Patch(album.value, input);
      PatchFitsSchema(album.value, input);
      ReplaceAlbumKeepsTables(db.users, db.posts, db.albums, id, patched);
      ReplaceThenFind(db.albums, AlbumKey, id, patched);
      db.albums := ReplaceBy(db.albums, AlbumKey, id, patched);
      r := Ok(ToAlbumType(patched));
    }

    /** `delete(id)`: the album must exist; then it is removed and the answer is true. */
    method Delete(id: string, fault: Option<string>) returns (r: Result<bool>)
      requires db.Valid()
      requires Uuid.IsUuid(id)
      modifies db`albums
      ensures db.Valid()
      ensures Uuid.Canonical(id) !in Keys(old(db.albums), AlbumKey) ==>
                r == Err(NotFound(NotFoundMessage("Album", id))) && db.albums == old(db.albums)
      ensures Uuid.Canonical(id) in Keys(old(db.albums), AlbumKey) && fault.Some? ==>
                r == Err(BadRequest(DeleteFailed)) && db.albums == old(db.albums)
      ensures Uuid.Canonical(id) in Keys(old(db.albums), AlbumKey) && fault.None? ==>
                && r == Ok(true)
                && db.albums == DeleteBy(old(db.albums), AlbumKey, Uuid.Canonical(id))
                && |db.albums| == |old(db.albums)| - 1
                && Uuid.Canonical(id) !in Keys(db.albums, AlbumKey)
    {
      var key := Uuid.Canonical(id);
      var album := FindBy(db.albums, AlbumKey, key);
      if album.None? {
        return Err(NotFound(NotFoundMessage("Album", id)));
      }
      if fault.Some? {
        return Err(BadRequest(DeleteFailed));
      }
      DeleteAlbumKeepsTables(db.users, db.posts, db.albums, key);
      DeleteRemovesOne(db.albums, AlbumKey, key);
      db.albums := DeleteBy(db.albums, AlbumKey, key);
      r := Ok(true);
    }
  }

  /** Deleting an album and then addressing it again, by the same id in any
      case: the second delete, and an update of that id, fail with NotFound
      and change nothing, and the album stays gone. */
  method DeleteThenLookUp(service: AlbumsService, id: string, input: UpdateAlbumInput)
    returns (second: Result<bool>, update: Result<AlbumType>)
    requires service.db.Valid() && Uuid.IsUuid(id)
    requires Uuid.Canonical(id) in Keys(service.db.albums, AlbumKey)
    requires ValidUpdateAlbumInput(input) && Uuid.SameUuid(input.id, id)
    modifies service.db`albums
    ensures second == Err(NotFound(NotFoundMessage("Album", id)))
    ensures update == Err(NotFound(NotFoundMessage("Album", input.id)))
    ensures service.db.Valid() && Uuid.Canonical(id) !in Keys(service.db.albums, AlbumKey)
    ensures service.db.albums == DeleteBy(old(service.db.albums), AlbumKey, Uuid.Canonical(id))
  {
    var first := service.Delete(id, None);
    assert first == Ok(true);
    second := service.Delete(id, None);
    Uuid.SameUuidExactly(input.id, id);
    update := service.Update(input, None);
  }
}
