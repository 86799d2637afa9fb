/** The user shapes of the GraphQL schema: the `UserType` the API returns, its
    paginated envelope, and `CreateUserInput` with its validation rules. */
module UsersTypes {
  import opened Common
  import opened Validation
  import Paging
  import Models

  /** `UserType`: `id`, `name`, `username` and `email` are required; `posts`
      and `albums` are nullable lists. The services fill them with the related
      rows exactly as the ORM fetches them. */
  datatype UserType = UserType(
    id: string, name: string, username: string, email: string,
    posts: Option<seq<Models.PostRow>>, albums: Option<seq<Models.AlbumRow>>)

  /** `PaginatedUsers`: `data`, and the integers `total`, `page` and `pageSize`. */
  type PaginatedUsers = Paging.Paginated<UserType>

  datatype CreateUserInput = CreateUserInput(name: string, username: string, email: string)

  const NameRequired: string := "Name is required"
  const NameTooShort: string := "Name must be at least 3 characters long"
  const UsernameRequired: string := "Username is required"
  const UsernameTooShort: string := "Username must be at least 3 characters long"
  const EmailRequired: string := "Email is required"
  const EmailInvalid: string := "Email must be a valid email address"

  function NameMessages(s: string): (m: seq<string>)
    ensures m == [] <==> Length(s) >= 3
    ensures m == [] || m[0] != ""
  {
    NotEmpty(s, NameRequired) + MinLength(s, 3, NameTooShort)
  }

  function UsernameMessages(s: string): (m: seq<string>)
    ensures m == [] <==> Length(s) >= 3
    ensures m == [] || m[0] != ""
  {
    NotEmpty(s, UsernameRequired) + MinLength(s, 3, UsernameTooShort)
  }

  function EmailMessages(s: string, isEmail: string -> bool): (m: seq<string>)
    ensures m == [] <==> s != "" && isEmail(s)
    ensures m == [] || m[0] != ""
  {
    NotEmpty(s, EmailRequired) + Email(s, isEmail, EmailInvalid)
  }

  /** The length rules of `name` and `username`. */
  predicate ValidNames(i: CreateUserInput)
  {
    Length(i.name) >= 3 && Length(i.username) >= 3
  }

  predicate ValidCreateUserInput(i: CreateUserInput, isEmail: string -> bool)
  {
    ValidNames(i) && i.email != "" && isEmail(i.email)
  }

  /** What class-validator reports for a `CreateUserInput`. */
  function ValidateCreateUserInput(i: CreateUserInput, isEmail: string -> bool): (errors: seq<ValidationError>)
    ensures errors == [] <==> ValidCreateUserInput(i, isEmail)
    ensures AllHaveMessages(errors)
    ensures FailingProperties(errors)
         == (if Length(i.name) >= 3 then {} else {"name"})
          + (if Length(i.username) >= 3 then {} else {"username"})
          + (if i.email != "" && isEmail(i.email) then {} else {"email"})
  {
    var name := PropertyErrors("name", NameMessages(i.name));
    var username := PropertyErrors("username", UsernameMessages(i.username));
    var email := PropertyErrors("email", EmailMessages(i.email, isEmail));
    ErrorsOfConcat(name, username);
    ErrorsOfConcat(name + username, email);
    name + username + email
  }
}
