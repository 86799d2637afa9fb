# Users, posts and albums GraphQL backend — a Dafny model

The system is a NestJS GraphQL server over a Postgres database that holds
three tables. Users have a name, a username and an email. Posts belong to a
user and have a title, content and an optional caption. Albums belong to a
user and have a name, an optional description and an optional genre. Three
services sit behind the resolvers:

- `AlbumsService` lists albums page by page, optionally for one user, and creates, patches and deletes albums.
- `PostsService` lists posts the same way and creates posts.
- `UsersService` lists users and looks up one user, both with their posts and albums attached. It also creates users after checking that the email and the username are free.

Around the services sit:

- the input types' validation rules;
- the ORM models' row schemas and relations;
- the global validation pipe's `exceptionFactory`, which joins validation errors into one message;
- the GraphQL module's `formatError`, which reduces every error sent to a client.

The model keeps the database as a class `Database.Db` with one sequence of
rows per table, in store order. The queries never say `ORDER BY`, so store
order is the order the model uses. The read operations are functions over
these sequences. The three mutations of albums, and the create of posts and
users, are methods of service classes that change the table they write and
keep the invariant `Models.ValidTables`. That invariant covers:

- the primary keys and the UNIQUE email and username columns;
- every row's schema, except the users' email format (`Models.ValidTables` has no email predicate; `UsersService.NewUserRowFitsSchema` shows each inserted email passes it);
- the `uuid` columns held in the lower-case form Postgres stores;
- the foreign keys from posts and albums to users.

The id columns are Postgres `uuid` columns, which compare UUID values: a text
that differs from a stored id only in the case of its hex digits names the
same row. The model looks every id up by its lower-case form,
`Uuid.Canonical`, and stores `user_id` in that form. The lemmas
`Models.KeyLookupByValue`, `AlbumsService.FindAlbumsComparesByValue`,
`PostsService.FindPostsComparesByValue` and
`UsersService.FindOneComparesByValue` state that this is comparison by value.

Null and undefined are one value, `None`. Every thrown exception is an `Err`
carrying a `NotFound`, `BadRequest` or `StorageError` with its message.

Values the model cannot compute are parameters:

- A fresh id from `gen_random_uuid()` is a parameter `newId`. It is required to be an unused version-4 UUID in lower case.
- A failing database call is a parameter `fault`, the message of the error thrown.
- The email format check is a parameter `isEmail`.

The UUID checks follow the text layout of section 3 of RFC 4122. The version-4
checks follow section 4.4 of RFC 4122.

Each service operation is modelled as the resolvers call it. The input has
already passed the `ValidationPipe`, and `ParseUUIDPipe` has already checked
an `id` or a truthy `userId`. So the operations state these facts as
preconditions. One consequence follows: the ORM's own schema check on insert
always passes. The lemmas `NewAlbumRowFitsSchema`, `NewPostRowFitsSchema` and
`NewUserRowFitsSchema` show this.

## Model

| member | source | states |
|---|---|---|
| Paging.ListPage | src/albums/albums.service.ts:10-12 | with `page` absent it is 1 and with `pageSize` absent it is 5; the query runs exactly when OFFSET `(page-1)*pageSize` and LIMIT are not negative, and otherwise fails with the database's error; the envelope echoes `page` and `pageSize` |
| Paging.AcceptedExactly | src/albums/albums.service.ts:12 | the window is accepted exactly when `pageSize >= 0` and either `page >= 1` or `pageSize == 0` |
| Paging.Window | src/albums/albums.service.ts:28-29 | OFFSET/LIMIT: at most `limit` rows, row i is row `offset + i` of the input, empty past the end |
| Paging.CountOver | src/albums/albums.service.ts:27 | `COUNT(*) OVER()`: each result row carries the size of the whole match |
| Paging.PageOf | src/albums/albums.service.ts:25-46 | `data` is the OFFSET/LIMIT window of the matching rows, at most `pageSize` of them; `total` is the match count when the page is non-empty and 0 otherwise, 0 past the end; page and pageSize echoed |
| Paging.PagesTile | src/posts/posts.service.ts:11-28 | pages 1..n together are exactly the first `n*pageSize` matching rows: no row skipped or repeated |
| Paging.AllPagesHoldEveryRow | src/users/users.service.ts:10-17 | enough pages list every matching row |
| Paging.RowOnItsPage | src/users/users.service.ts:10-17 | row i is row `i % pageSize` of page `i / pageSize + 1` |
| Paging.RowIsListed | src/albums/albums.service.ts:25-31 | row `Offset(page, pageSize) + slot` of the matching rows is row `slot` of that page, and the page's total is the match count |
| Paging.OffsetOfPage | src/posts/posts.service.ts:11 | page n starts where pages 1..n-1 end: those pages hold exactly the rows before `Offset(n, pageSize)`, or all rows when there are fewer |
| AlbumsService.Matching | src/albums/albums.service.ts:14-23 | the owner filter applies only when `userId` is truthy; then exactly the albums whose `user_id` is the stored form of `userId`, otherwise all |
| AlbumsService.FindAlbums | src/albums/albums.service.ts:10-47 | a truthy `userId` that names no user, compared by value, fails NotFound `User with ID … not found` with the id as given; otherwise a negative window fails, and a page holds the window of the matching albums reshaped, at most `pageSize` rows, every row owned by that user when filtered, `total` as in `PageOf` |
| AlbumsService.FindAlbumsComparesByValue | src/albums/albums.service.ts:17-22 | two spellings of one UUID as `userId`, differing in case, give the same page, or both fail |
| AlbumsService.ToAlbumType | src/albums/albums.service.ts:33-39 | the API row is the stored row with `user_id` renamed `userId` and nothing lost: `FromAlbumType` gives the row back |
| AlbumsService.ReshapeRoundTrip | src/albums/albums.service.ts:33-39 | the output row renames `user_id` to `userId` and keeps missing description/genre null, losing nothing |
| AlbumsService.NewAlbumRow | src/albums/albums.service.ts:58-63 | the stored row has the input's name and its owner as the stored form of `userId`, the same UUID; description/genre are null exactly when the input's is falsy (absent or "") |
| AlbumsService.Patch | src/albums/albums.service.ts:87-91 | name/description/genre take the input's value when given (`??`), else keep the row's; `id` and `user_id` never change |
| AlbumsService.PatchIsPartial | src/albums/albums.service.ts:87-91 | patching is idempotent, and a patch giving none of the three fields changes nothing |
| AlbumsService.NewAlbumRowFitsSchema | src/db/models/albums.model.ts:13-23 | a validated create input yields a row the `Album` schema accepts |
| AlbumsService.PatchFitsSchema | src/db/models/albums.model.ts:13-23 | a validated patch of a valid row is a valid row |
| AlbumsService.AlbumsService.constructor | src/albums/albums.service.ts:7-8 | the service works on the given database |
| AlbumsService.AlbumsService.Create | src/albums/albums.service.ts:49-76 | unknown owner (compared by value): NotFound, albums unchanged; insert failure: BadRequest `Failed to create album`, unchanged; otherwise exactly the new row is appended, it becomes the owner's last album, it is returned reshaped with `userId` as the caller wrote it, and the tables stay valid |
| AlbumsService.AlbumsService.Update | src/albums/albums.service.ts:78-104 | unknown id (compared by value): NotFound `Album with ID … not found`, unchanged; failure: BadRequest `Failed to update album`, unchanged; otherwise the album is replaced by its patch, other rows untouched, a lookup of the id finds the patch, the stored patch is returned, and the tables stay valid |
| AlbumsService.AlbumsService.Delete | src/albums/albums.service.ts:106-121 | unknown id (compared by value): NotFound, unchanged; failure: BadRequest `Failed to delete album`, unchanged; otherwise exactly that album is removed (one row fewer), the answer is true, a later lookup finds nothing, and the tables stay valid |
| AlbumsService.DeleteThenLookUp | src/albums/albums.service.ts:78-121 | after a delete, a second delete and an update of the same UUID, in any case, fail NotFound; the album stays gone and the tables valid |
| PostsService.Matching | src/posts/posts.service.ts:13-22 | the owner filter applies only when `userId` is truthy; then exactly the posts whose `user_id` is the stored form of `userId` |
| PostsService.FindPosts | src/posts/posts.service.ts:9-46 | as `FindAlbums`, for posts: NotFound for a truthy `userId` naming no user by value, the window of matching posts reshaped, at most `pageSize` rows, `total` and the echoed envelope |
| PostsService.FindPostsComparesByValue | src/posts/posts.service.ts:16-21 | two spellings of one UUID as `userId`, differing in case, give the same page, or both fail |
| PostsService.ToPostType | src/posts/posts.service.ts:32-38 | the API row is the stored row with `user_id` renamed `userId` and nothing lost: `FromPostType` gives the row back |
| PostsService.ReshapeRoundTrip | src/posts/posts.service.ts:32-38 | the output row renames `user_id` to `userId`, missing caption null, losing nothing |
| PostsService.NewPostRow | src/posts/posts.service.ts:57-62 | the stored row has the input's title and content, the caption as given (`??`: "" is kept), and the owner as the stored form of `userId` |
| PostsService.NewPostRowFitsSchema | src/db/models/posts.model.ts:13-23 | a validated create input yields a row the `Post` schema accepts |
| PostsService.CreatedPostIsListed | src/posts/posts.service.ts:9-79 | a post created after `Offset(page, pageSize) + slot` posts of its owner is row `slot` of that page of the owner's listing, whose total counts it |
| PostsService.PostsService.constructor | src/posts/posts.service.ts:7-8 | the service works on the given database |
| PostsService.PostsService.Create | src/posts/posts.service.ts:48-79 | unknown author (compared by value): NotFound, posts unchanged; insert failure: BadRequest with the error's message or `Failed to create post!`, unchanged; otherwise exactly the new row is appended, becomes the author's last post, is returned reshaped with `userId` as the caller wrote it, and the tables stay valid |
| UsersService.WithRelations | src/users/users.service.ts:15 | a user with `[posts, albums]` fetched carries exactly the posts and albums whose `user_id` is its id |
| UsersService.FindAll | src/users/users.service.ts:8-28 | no owner filter; the window of all users, each with its posts and albums; `total` and envelope as in `PageOf`; a negative window fails |
| UsersService.EveryUserIsListed | src/users/users.service.ts:8-28 | user `Offset(page, pageSize) + slot` of the table is row `slot` of that page, with its posts and albums, and the total is the number of users |
| UsersService.FindOneAttempt | src/users/users.service.ts:32-38 | the `try` block: a failing read throws its error, a user missing by value throws NotFound |
| UsersService.FindOne | src/users/users.service.ts:30-49 | unknown id (compared by value): NotFound `User with ID … not found`, rethrown as is; a failing read: BadRequest with its message or `Failed to find user!`; otherwise the stored user with that UUID, with its posts and albums |
| UsersService.FindOneComparesByValue | src/users/users.service.ts:33 | two spellings of one UUID, differing in case, find the same user, or both fail |
| UsersService.FindOneAgreesWithFindAll | src/users/users.service.ts:8-49 | in valid tables, every user on any page of `findAll` is exactly what `findOne` returns for its id |
| UsersService.Collision | src/users/users.service.ts:54-57 | some user with the input's email or username, none exactly when both are free; the model takes the first such user in store order |
| UsersService.NewUserRow | src/users/users.service.ts:70 | the inserted row is the input with the fresh id |
| UsersService.CreatedUser | src/users/users.service.ts:70-71 | the returned user is the inserted row, with no posts or albums fetched |
| UsersService.NewUserRowFitsSchema | src/db/models/users.model.ts:13-22 | a validated create input with a v4 id yields a row the `User` schema accepts, email format included |
| UsersService.NewUserRowKeepsTables | migrations/20251022050011_create_users_table.ts:5-10 | inserting a validated user with a fresh id and a free email and username keeps ids, emails and usernames unique and the tables valid |
| UsersService.CreatedUserIsFound | src/users/users.service.ts:70-71 | after the insert, `findOne` of the new id returns the new user with its (empty or not) posts and albums |
| UsersService.UsersService.constructor | src/users/users.service.ts:6-7 | the service works on the given database |
| UsersService.UsersService.Create | src/users/users.service.ts:51-79 | if the first colliding user shares the email: BadRequest `User with email … already exists`; otherwise if it collides: BadRequest `User with username … already exists`; insert failure: BadRequest with its message or `Failed to create user!`; the users table is unchanged on every error; otherwise exactly the new user is appended, the tables stay valid, and `findOne` finds it |
| AlbumsTypes.ValidateCreateAlbumInput | src/albums/albums.types.ts:37-61 | no errors exactly when `userId` is a non-empty v4 UUID, `name` has length >= 3, and description/genre are absent or of length >= 3; the failing properties are exactly those breaking their rules; each error has a message; a short description or genre reports the album-name message |
| AlbumsTypes.ValidateUpdateAlbumInput | src/albums/albums.types.ts:63-69 | every inherited field is optional and keeps its rule when present; `id` is required and a v4 UUID; the failing properties are exactly those breaking their rules |
| AlbumsTypes.UpdateRelaxesCreate | src/albums/albums.types.ts:64 | with a valid id, a full update is valid exactly when the same fields make a valid create, and an id-only update is valid |
| PostsTypes.ValidateCreatePostInput | src/posts/posts.types.ts:37-61 | no errors exactly when `userId` is a non-empty v4 UUID, title and content have length >= 3, and caption is absent or of length >= 3; failing properties exact; a short caption reports the content message |
| UsersTypes.ValidateCreateUserInput | src/users/users.types.ts:42-60 | no errors exactly when name and username have length >= 3 and email is non-empty and an email; failing properties exact |
| Validation.NotEmpty | src/albums/albums.types.ts:40 | `IsNotEmpty` fails exactly on "" |
| Validation.MinLength | src/albums/albums.types.ts:47 | `MinLength(n)` fails exactly when validator.js `isLength` counts fewer than n characters |
| Validation.Length | src/users/users.types.ts:47 | the `isLength` count: code points less the variation selectors U+FE0E and U+FE0F; at most the code point count, and equal to it exactly when there are none |
| Validation.UuidV4 | src/albums/albums.types.ts:41 | `IsUUID('4')` fails exactly on a non-v4 UUID |
| Uuid.IsUuid | src/albums/albums.resolver.ts:20-22 | a UUID text has 36 characters, with a hyphen exactly at positions 8, 13, 18 and 23 |
| Uuid.IsUuidV4 | src/albums/albums.types.ts:41 | a v4 UUID is a UUID text whose version nibble is 4 and whose variant nibble has top bits `10` (value 8 to 11) |
| Uuid.Canonical | migrations/20251022050011_create_users_table.ts:6 | the stored form has the same length and each character in lower case |
| Uuid.CanonicalForm | migrations/20251022050011_create_users_table.ts:6 | the stored form is in lower case, names the same UUID, is the text itself exactly when that is in lower case, and keeps the UUID layout and version |
| Uuid.SameUuidExactly | migrations/20251022050011_create_users_table.ts:6 | two texts name the same UUID exactly when their stored forms are equal |
| Validation.Email | src/users/users.types.ts:58 | `IsEmail` fails exactly when the email predicate does |
| Validation.Optional | src/albums/albums.types.ts:51 | `IsOptional` skips every rule of an absent value, and applies them to a present one |
| Validation.PropertyErrors | src/albums/albums.types.ts:44-48 | a property breaking any rule gives one error with all its messages; none otherwise |
| Models.PostsOf | src/db/models/users.model.ts:25-32 | `User.posts` is exactly the posts with `user_id` equal to the user's id |
| Models.AlbumsOf | src/db/models/users.model.ts:33-40 | `User.albums` is exactly the albums with `user_id` equal to the user's id |
| Models.UserRowSchema | src/db/models/users.model.ts:13-22 | a row the `User` schema accepts has a 36-character id, a non-empty name and username, and an email |
| Models.PostRowSchema | src/db/models/posts.model.ts:13-23 | a row the `Post` schema accepts has 36-character `id` and `user_id` and a non-empty title; content and caption are free |
| Models.AlbumRowSchema | src/db/models/albums.model.ts:13-23 | a row the `Album` schema accepts has 36-character `id` and `user_id` and a non-empty name; description and genre are free |
| Models.ValidTables | migrations/20251022050011_create_users_table.ts:4-37 | in tables that keep the constraints, every post and every album has its owner |
| Models.KeyLookupByValue | migrations/20251022050011_create_users_table.ts:6 | with keys stored in lower case, the lower-case form of an id is a key exactly when some key names the same UUID value |
| Models.UserIdsDistinctByValue | migrations/20251022050011_create_users_table.ts:6 | no two users' ids name the same UUID, whatever the case of their digits |
| Models.PostsOfAppend | src/db/models/users.model.ts:25-32 | a post appended to the table is appended to its owner's posts and to nobody else's |
| Models.AlbumsOfAppend | src/db/models/users.model.ts:33-40 | an album appended to the table is appended to its owner's albums and to nobody else's |
| Models.OwnerOfPost | src/db/models/posts.model.ts:25-34 | `Post.user` is the user whose id is the post's `user_id`, absent exactly when there is none |
| Models.OwnerOfAlbum | src/db/models/albums.model.ts:25-34 | `Album.user` is the user whose id is the album's `user_id`, absent exactly when there is none |
| Models.PostRelationsAgree | src/db/models/posts.model.ts:25-34 | with unique user ids, a post is among a user's posts exactly when that user is its owner |
| Models.AlbumRelationsAgree | src/db/models/albums.model.ts:25-34 | with unique user ids, an album is among a user's albums exactly when that user is its owner |
| Models.InsertUserKeepsTables | migrations/20251022050011_create_users_table.ts:5-10 | a user with unused id, email and username and a valid row keeps the tables valid |
| Models.InsertPostKeepsTables | src/db/models/posts.model.ts:13-23 | a post with an unused id, an existing owner and a valid row keeps the tables valid |
| Models.InsertAlbumKeepsTables | src/db/models/albums.model.ts:13-23 | an album with an unused id, an existing owner and a valid row keeps the tables valid |
| Models.ReplaceAlbumKeepsTables | src/db/models/albums.model.ts:13-23 | replacing an album by a valid row with the same id and an existing owner keeps the tables valid |
| Models.DeleteAlbumKeepsTables | migrations/20251022050011_create_users_table.ts:25-36 | deleting albums keeps the tables valid |
| Database.Db.constructor | migrations/20251022050011_create_users_table.ts:4-37 | the migrated database: three empty, valid tables |
| Table.FirstIndex | src/users/users.service.ts:54-57 | the position of the first row that matches, or the length when none does |
| Table.First | src/users/users.service.ts:54-57 | `.first()`: a matching row with no matching row before it, none exactly when no row matches |
| Table.FindBy | src/albums/albums.service.ts:80 | `findById`: a row with that key, none exactly when no row has it |
| Table.Where | src/albums/albums.service.ts:22 | `where`: exactly the rows that match, and no more rows than the table |
| Table.Keys | migrations/20251022050011_create_users_table.ts:6-9 | the values a column holds |
| Table.DeleteBy | src/albums/albums.service.ts:115 | `deleteById`: exactly the rows with other keys remain; the key is gone |
| Table.ReplaceBy | src/albums/albums.service.ts:87-91 | `patchAndFetchById`: the rows with that key become the new row, the others are untouched |
| Table.WhereAppend | src/albums/albums.service.ts:22 | filtering distributes over appending |
| Table.InsertKeepsUnique | migrations/20251022050011_create_users_table.ts:8-9 | appending a row whose key is unused keeps the column unique and adds that key |
| Table.ReplaceKeepsKeys | src/albums/albums.service.ts:87-91 | replacing by key keeps the column's values and its uniqueness |
| Table.ReplaceThenFind | src/albums/albums.service.ts:87-91 | after the replace, a lookup of the key finds the new row |
| Table.UniqueKeyNamesOneRow | migrations/20251022050011_create_users_table.ts:6 | a unique key names one row |
| Table.DeleteRemovesOne | src/albums/albums.service.ts:115 | deleting an existing unique key removes exactly one row |
| Table.WhereAll | src/albums/albums.service.ts:14 | a filter every row passes keeps the table as it is |
| Table.WhereKeepsUnique | src/albums/albums.service.ts:115 | filtering keeps a column unique |
| Table.DeleteKeepsUnique | src/albums/albums.service.ts:115 | deleting keeps every unique column unique |
| ValidationMessage.Join | src/main.ts:16-17 | `join(sep)`: "" for no parts, the part for one, and the parts' lengths plus one separator between each two |
| ValidationMessage.ConstraintText | src/main.ts:16 | an error's constraint messages joined with ", ", "" when there are none |
| ValidationMessage.ExceptionFactory | src/main.ts:14-19 | a BadRequest whose message, for one error, is that error's text, and "" for none |
| ValidationMessage.JoinAppend | src/main.ts:17 | joining two lists puts one separator between their joins |
| ValidationMessage.MessageOfConcat | src/main.ts:15-17 | the message keeps the errors in input order, separated by "; " |
| ValidationMessage.EmptySegment | src/main.ts:16 | an error without constraints contributes an empty segment ("; ; ") |
| ValidationMessage.JoinNonEmpty | src/main.ts:17 | a join whose first part is non-empty is non-empty |
| ValidationMessage.FailedValidationHasMessage | src/main.ts:14-19 | the errors the validators produce always give a non-empty message |
| GraphqlErrors.FormatError | src/graphql/graphql.module.ts:16-20 | the message is copied, `code` is a truthy `extensions.code` or `GRAPHQL_ERROR` and never empty, `locations` passes through; the record has exactly these three fields |
| GraphqlErrors.FormatErrorIdempotent | src/graphql/graphql.module.ts:16-20 | formatting a formatted error changes nothing |
| Common.Map | src/albums/albums.service.ts:33 | `map`: same length, each element transformed |
| Common.Coalesce | src/albums/albums.service.ts:88 | `a ?? b`: `a` unless it is null or undefined |
| Common.OrElse | src/albums/albums.service.ts:89-90 | `a ?? b` over nullable values |
| Common.FalsyToNull | src/albums/albums.service.ts:61-62 | `s \|\| null`: present exactly when `s` is truthy, and then `s` |
| Common.MessageOr | src/posts/posts.service.ts:74-76 | `message \|\| fallback` |
| Common.RethrowAsBadRequest | src/users/users.service.ts:72-78 | a caught error becomes a BadRequest with its message, or the fallback when that is empty |
| Common.RethrowKeepingNotFound | src/users/users.service.ts:39-48 | NotFound is rethrown as it is; any other error becomes a BadRequest as above |
| Common.RethrowKeepsBadRequest | src/users/users.service.ts:59-78 | a BadRequest with a message passes the `catch` unchanged |

## Left out

- The ORM, knex and Postgres are not modelled; their effect is modelled on sequences. The list queries have no `ORDER BY`, so the database may return rows in any order. The model uses store order, and `First` (for `.first()` in the user collision check) picks the first row in that order.
- A negative OFFSET or LIMIT fails inside the database. The model returns `StorageError(Paging.NegativeWindow)`. That message stands for the database's own text and is not that text.
- `total` comes back from Postgres as a bigint (a string in node-postgres). The model treats it as an integer.
- Paging.ListPage: an explicit GraphQL `null` for `page` or `pageSize` is treated like an absent value, so the default applies. In JavaScript a default parameter replaces only `undefined`, so the services would compute with `null`.
- Failures of the existence checks' reads (`findById` before create, update and delete; the collision lookup) are not modelled; only the guarded write (and `findOne`'s read) can fail, through `fault`.
- The resolvers are not modelled; their `ValidationPipe` and `ParseUUIDPipe` checks are preconditions of the services. The "Invalid UUID format for userId" error is not produced.
- The email format (class-validator `IsEmail` and the ORM's `format: "email"`) is the parameter `isEmail`, one predicate for both.
- `IsString` is not modelled: GraphQL has already made every field a string, so it never fails. Whitelisting (`forbidNonWhitelisted`) is not modelled either, since the inputs carry only declared fields.
- The row schemas' `minLength` counts code points, as Dafny characters do; the input validators count with validator.js `isLength`, modelled by `Validation.Length`.
- The order of the messages within one property is not modelled. The model lists them in declaration order, but TypeScript applies property decorators bottom-up, so class-validator may report them in another order, and the text `ValidationMessage.ExceptionFactory` joins may then differ in that order. The order across properties is not modelled either (the model lists properties in declaration order).
- Models.ValidTables: the users' `email` format from the `User` schema is not part of the table invariant, since the email check is a parameter of the operations that take input; `UsersService.NewUserRowFitsSchema` covers every email the model inserts.
- The UUID check accepts only the 36-character text form. Any other textual forms that the libraries accept are not modelled. Postgres would also read braced or unhyphenated UUIDs; the resolvers never let them through.
- UsersService.Collision: the collision query has no ORDER BY, so when one user has the email and another the username the database may return either, and the source's message may be either; the model takes the first in store order.
- Concurrency is not modelled: each operation is one atomic step. The race between a check and a write (two users created with the same email at once, which the UNIQUE constraint would then refuse) is not modelled.
- Logging, timestamps (`created_at`, `updated_at`), cascade deletes (no service deletes a user) and the seed data are not modelled.
- The nested `posts` and `albums` of a user are the raw rows (with `user_id`). How GraphQL then resolves their `userId` field is not modelled.
- UsersService.UsersService.Create: the ORM's `insert` returns the model instance; the model returns the inserted fields with `posts` and `albums` absent.
