/** The post shapes of the GraphQL schema: the `PostType` the API returns, its
    paginated envelope, and `CreatePostInput` with its validation rules. */
module PostsTypes {
  import opened Common
  import opened Validation
  import Uuid
  import Paging

  /** `PostType`: only `caption` is nullable. */
  datatype PostType = PostType(id: string, userId: string, title: string, content: string, caption: Option<string>)

  /** `PaginatedPosts`: `data`, a list of posts, and the integers `total`, `page` and `pageSize`. */
  type PaginatedPosts = Paging.Paginated<PostType>

  datatype CreatePostInput = CreatePostInput(userId: string, title: string, content: string, caption: Option<string>)

  const UserIdRequired: string := "UserId is required"
  const UserIdNotUuid: string := "UserId must be a valid UUID"
  const TitleRequired: string := "Title cannot be empty"
  const TitleTooShort: string := "Title must be at least 3 characters long"
  const ContentRequired: string := "Content cannot be empty"
  /** Also the message of a too-short `caption`. */
  const ContentTooShort: string := "Content must be at least 3 characters long"

  function UserIdMessages(s: string): (m: seq<string>)
    ensures m == [] <==> Uuid.IsUuidV4(s)
    ensures m == [] || m[0] != ""
  {
    NotEmpty(s, UserIdRequired) + UuidV4(s, UserIdNotUuid)
  }

  function TitleMessages(s: string): (m: seq<string>)
    ensures m == [] <==> Length(s) >= 3
    ensures m == [] || m[0] != ""
  {
    NotEmpty(s, TitleRequired) + MinLength(s, 3, TitleTooShort)
  }

  function ContentMessages(s: string): (m: seq<string>)
    ensures m == [] <==> Length(s) >= 3
    ensures m == [] || m[0] != ""
  {
    NotEmpty(s, ContentRequired) + MinLength(s, 3, ContentTooShort)
  }

  /** The rule of `caption` once present: at least 3 characters, reported with
      the content message. */
  function CaptionMessages(s: string): (m: seq<string>)
    ensures m == [] <==> Length(s) >= 3
    ensures m == [] || m[0] != ""
  {
    MinLength(s, 3, ContentTooShort)
  }

  predicate ValidCreatePostInput(i: CreatePostInput)
  {
    && i.userId != "" && Uuid.IsUuidV4(i.userId)
    && Length(i.title) >= 3
    && Length(i.content) >= 3
    && (i.caption.Some? ==> Length(i.caption.value) >= 3)
  }

  /** What class-validator reports for a `CreatePostInput`. */
  function ValidateCreatePostInput(i: CreatePostInput): (errors: seq<ValidationError>)
    ensures errors == [] <==> ValidCreatePostInput(i)
    ensures AllHaveMessages(errors)
    ensures FailingProperties(errors)
         == (if Uuid.IsUuidV4(i.userId) then {} else {"userId"})
          + (if Length(i.title) >= 3 then {} else {"title"})
          + (if Length(i.content) >= 3 then {} else {"content"})
          + (if i.caption.None? || Length(i.caption.value) >= 3 then {} else {"caption"})
    ensures i.caption.Some? && Length(i.caption.value) < 3 ==> ValidationError("caption", Some([ContentTooShort])) in errors
  {
    var userId := PropertyErrors("userId", UserIdMessages(i.userId));
    var title := PropertyErrors("title", TitleMessages(i.title));
    var content := PropertyErrors("content", ContentMessages(i.content));
    var caption := PropertyErrors("caption", Optional(i.caption, CaptionMessages));
    ErrorsOfConcat(userId, title);
    ErrorsOfConcat(userId + title, content);
    ErrorsOfConcat(userId + title + content, caption);
    userId + title + content + caption
  }
}
