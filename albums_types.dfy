/** The album shapes of the GraphQL schema: the `AlbumType` the API returns,
    its paginated envelope, and the two input types with their validation rules. */
module AlbumsTypes {
  import opened Common
  import opened Validation
  import Uuid
  import Paging

  /** `AlbumType`: `description` and `genre` are nullable, the other fields are not. */
  datatype AlbumType = AlbumType(id: string, userId: string, name: string, description: Option<string>, genre: Option<string>)

  /** `PaginatedAlbums`: `data`, and the integers `total`, `page` and `pageSize`. */
  type PaginatedAlbums = Paging.Paginated<AlbumType>

  datatype CreateAlbumInput = CreateAlbumInput(userId: string, name: string, description: Option<string>, genre: Option<string>)

  /** `PartialType(CreateAlbumInput)` plus a required `id`: every inherited
      field is optional (and keeps its rules when present). */
  datatype UpdateAlbumInput = UpdateAlbumInput(id: string, userId: Option<string>, name: Option<string>, description: Option<string>, genre: Option<string>)

  const UserIdRequired: string := "UserId is required"
  const UserIdNotUuid: string := "UserId must be a valid UUID"
  const NameRequired: string := "Album name is required"
  /** Also the message of a too-short `description` or `genre`. */
  const NameTooShort: string := "Album name must be at least 3 characters long"
  const AlbumIdRequired: string := "Album ID is required"
  const AlbumIdNotUuid: string := "Album ID must be a valid UUID"

  function UserIdMessages(s: string): (m: seq<string>)
    ensures m == [] <==> Uuid.IsUuidV4(s)
    ensures m == [] || m[0] != ""
  {
    NotEmpty(s, UserIdRequired) + UuidV4(s, UserIdNotUuid)
  }

  function NameMessages(s: string): (m: seq<string>)
    ensures m == [] <==> Length(s) >= 3
    ensures m == [] || m[0] != ""
  {
    NotEmpty(s, NameRequired) + MinLength(s, 3, NameTooShort)
  }

  /** The rules of `description` and of `genre` once present: at least 3
      characters, reported with the album-name message. */
  function TextMessages(s: string): (m: seq<string>)
    ensures m == [] <==> Length(s) >= 3
    ensures m == [] || m[0] != ""
  {
    MinLength(s, 3, NameTooShort)
  }

  function AlbumIdMessages(s: string): (m: seq<string>)
    ensures m == [] <==> Uuid.IsUuidV4(s)
    ensures m == [] || m[0] != ""
  {
    NotEmpty(s, AlbumIdRequired) + UuidV4(s, AlbumIdNotUuid)
  }

  /** An optional text field: absent, or at least 3 characters. */
  predicate ValidOptionalText(s: Option<string>)
  {
    s.Some? ==> Length(s.value) >= 3
  }

  predicate ValidCreateAlbumInput(i: CreateAlbumInput)
  {
    && i.userId != "" && Uuid.IsUuidV4(i.userId)
    && Length(i.name) >= 3
    && ValidOptionalText(i.description)
    && ValidOptionalText(i.genre)
  }

  predicate ValidUpdateAlbumInput(i: UpdateAlbumInput)
  {
    && i.id != "" && Uuid.IsUuidV4(i.id)
    && (i.userId.Some? ==> i.userId.value != "" && Uuid.IsUuidV4(i.userId.value))
    && ValidOptionalText(i.name)
    && ValidOptionalText(i.description)
    && ValidOptionalText(i.genre)
  }

  /** What class-validator reports for a `CreateAlbumInput`. */
  function ValidateCreateAlbumInput(i: CreateAlbumInput): (errors: seq<ValidationError>)
    ensures errors == [] <==> ValidCreateAlbumInput(i)
    ensures AllHaveMessages(errors)
    ensures FailingProperties(errors)
         == (if Uuid.IsUuidV4(i.userId) then {} else {"userId"})
          + (if Length(i.name) >= 3 then {} else {"name"})
          + (if ValidOptionalText(i.description) then {} else {"description"})
          + (if ValidOptionalText(i.genre) then {} else {"genre"})
    ensures !ValidOptionalText(i.description) ==> ValidationError("description", Some([NameTooShort])) in errors
    ensures !ValidOptionalText(i.genre) ==> ValidationError("genre", Some([NameTooShort])) in errors
  {
    var userId := PropertyErrors("userId", UserIdMessages(i.userId));
    var name := PropertyErrors("name", NameMessages(i.name));
    var description := PropertyErrors("description", Optional(i.description, TextMessages));
    var genre := PropertyErrors("genre", Optional(i.genre, TextMessages));
    ErrorsOfConcat(userId, name);
    ErrorsOfConcat(userId + name, description);
    ErrorsOfConcat(userId + name + description, genre);
    userId + name + description + genre
  }

  /** What class-validator reports for an `UpdateAlbumInput`: the inherited
      properties, each skipped when absent, then `id`. */
  function ValidateUpdateAlbumInput(i: UpdateAlbumInput): (errors: seq<ValidationError>)
    ensures errors == [] <==> ValidUpdateAlbumInput(i)
    ensures AllHaveMessages(errors)
    ensures FailingProperties(errors)
         == (if i.userId.None? || Uuid.IsUuidV4(i.userId.value) then {} else {"userId"})
          + (if ValidOptionalText(i.name) then {} else {"name"})
          + (if ValidOptionalText(i.description) then {} else {"description"})
          + (if ValidOptionalText(i.genre) then {} else {"genre"})
          + (if Uuid.IsUuidV4(i.id) then {} else {"id"})
  {
    var userId := PropertyErrors("userId", Optional(i.userId, UserIdMessages));
    var name := PropertyErrors("name", Optional(i.name, NameMessages));
    var description := PropertyErrors("description", Optional(i.description, TextMessages));
    var genre := PropertyErrors("genre", Optional(i.genre, TextMessages));
    var id := PropertyErrors("id", AlbumIdMessages(i.id));
    ErrorsOfConcat(userId, name);
    ErrorsOfConcat(userId + name, description);
    ErrorsOfConcat(userId + name + description, genre);
    ErrorsOfConcat(userId + name + description + genre, id);
    userId + name + description + genre + id
  }

  /** Every field of a create input, given as an update with a valid id. */
  function AsUpdate(c: CreateAlbumInput, id: string): UpdateAlbumInput
  {
    UpdateAlbumInput(id, Some(c.userId), Some(c.name), c.description, c.genre)
  }

  /** The update input relaxes the create input and nothing more: with a valid
      id, a full update is valid exactly when the same fields make a valid
      create, and an update that gives nothing but the id is valid. */
  lemma UpdateRelaxesCreate(c: CreateAlbumInput, id: string)
    requires Uuid.IsUuidV4(id)
    ensures ValidUpdateAlbumInput(AsUpdate(c, id)) <==> ValidCreateAlbumInput(c)
    ensures ValidUpdateAlbumInput(UpdateAlbumInput(id, None, None, None, None))
  {
  }
}
