/** Values and errors shared by every part of the model.

    JavaScript's `undefined` and `null` are both `None` here: every place the
    services read an optional value (`??`, `||`, the validators' `IsOptional`,
    GraphQL's nullable fields) treats the two alike. */
module Common {

  datatype Option<+T> = None | Some(value: T)

  /** What a call can throw, with its human-readable message: the two NestJS
      exception classes the services throw (`NotFoundException`,
      `BadRequestException`), and an error thrown from inside the ORM or the
      database, which the services catch and rewrap. */
  datatype Error = NotFound(message: string) | BadRequest(message: string) | StorageError(message: string)

  datatype Result<+T> = Ok(value: T) | Err(error: Error)

  /** `s.map(f)` on an array. */
  function Map<T, U>(s: seq<T>, f: T -> U): (r: seq<U>)
    ensures |r| == |s|
    ensures forall i :: 0 <= i < |s| ==> r[i] == f(s[i])
  {
    seq(|s|, i requires 0 <= i < |s| => f(s[i]))
  }

  /** JavaScript truthiness of an optional string: present and not "". */
  predicate Truthy(s: Option<string>)
  {
    s.Some? && s.value != ""
  }

  /** `a ?? b`: the value of `a` unless it is null or undefined. */
  function Coalesce<T>(a: Option<T>, b: T): (r: T)
    ensures a.Some? ==> r == a.value
    ensures a.None? ==> r == b
  {
    match a
    case Some(v) => v
    case None => b
  }

  /** `s || null` on an optional string: "" becomes null as well. */
  function FalsyToNull(s: Option<string>): (r: Option<string>)
    ensures r.Some? <==> Truthy(s)
    ensures r.Some? ==> r == s
  {
    if Truthy(s) then s else None
  }

  /** `message || fallback`, as the `catch` blocks build the message of the
      exception they rethrow. */
  function MessageOr(message: string, fallback: string): (r: string)
    ensures message != "" ==> r == message
    ensures message == "" ==> r == fallback
  {
    if message != "" then message else fallback
  }

  /** What a `catch (err) { throw new BadRequestException(err?.message || fallback) }`
      block makes of the error it caught. */
  function RethrowAsBadRequest(e: Error, fallback: string): (r: Error)
    ensures r.BadRequest?
    ensures e.message != "" ==> r.message == e.message
    ensures e.message == "" ==> r.message == fallback
  {
    BadRequest(MessageOr(e.message, fallback))
  }

  /** A `catch` block that rethrows a NotFoundException as it is and rewraps
      any other error as a BadRequest (`UsersService.findOne`). */
  function RethrowKeepingNotFound(e: Error, fallback: string): (r: Error)
    ensures e.NotFound? ==> r == e
    ensures !e.NotFound? ==> r == RethrowAsBadRequest(e, fallback)
  {
    if e.NotFound? then e else RethrowAsBadRequest(e, fallback)
  }

  /** `${entity} with ID ${id} not found`. */
  function NotFoundMessage(entity: string, id: string): string
  {
    entity + " with ID " + id + " not found"
  }

  /** `a ?? b` where `b` may be null too. */
  function OrElse<T>(a: Option<T>, b: Option<T>): (r: Option<T>)
    ensures a.Some? ==> r == a
    ensures a.None? ==> r == b
  {
    if a.Some? then a else b
  }

  /** Rethrowing is idempotent: a BadRequest with a message passes through unchanged. */
  lemma RethrowKeepsBadRequest(e: Error, fallback: string)
    requires e.BadRequest? && e.message != ""
    ensures RethrowAsBadRequest(e, fallback) == e
  {
  }
}
