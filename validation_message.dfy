/** The global `ValidationPipe`'s `exceptionFactory` (src/main.ts): it turns
    the list of validation errors into one `BadRequestException` whose message
    joins each error's constraint messages with ", " and the errors with "; ". */
module ValidationMessage {
  import opened Common
  import opened Validation

  /** The summed length of the parts. */
  function TotalLength(parts: seq<string>): nat
  {
    if |parts| == 0 then 0 else |parts[0]| + TotalLength(parts[1..])
  }

  /** `parts.join(sep)`. */
  function Join(parts: seq<string>, sep: string): (r: string)
    ensures |parts| == 0 ==> r == ""
    ensures |parts| == 1 ==> r == parts[0]
    ensures |parts| >= 1 ==> |r| == TotalLength(parts) + (|parts| - 1) * |sep|
  {
    if |parts| == 0 then ""
    else if |parts| == 1 then parts[0]
    else
      var rest := Join(parts[1..], sep);
      assert (|parts| - 1) * |sep| == (|parts| - 2) * |sep| + |sep|;
      parts[0] + sep + rest
  }

  /** `Object.values(err.constraints || {}).join(', ')`. */
  function ConstraintText(e: ValidationError): (r: string)
    ensures e.constraints.None? ==> r == ""
    ensures e.constraints.Some? ==> r == Join(e.constraints.value, ", ")
  {
    Join(Coalesce(e.constraints, []), ", ")
  }

  /** The `exceptionFactory`: one BadRequest carrying every error's text, in order. */
  function ExceptionFactory(errors: seq<ValidationError>): (r: Error)
    ensures r.BadRequest?
    ensures |errors| == 1 ==> r.message == ConstraintText(errors[0])
    ensures errors == [] ==> r.message == ""
  {
    BadRequest(Join(Map(errors, ConstraintText), "; "))
  }

  /** Joining two non-empty lists puts one separator between their joins. */
  lemma {:induction false} JoinAppend(a: seq<string>, b: seq<string>, sep: string)
    requires a != [] && b != []
    ensures Join(a + b, sep) == Join(a, sep) + sep + Join(b, sep)
  {
    if |a| == 1 {
      assert (a + b)[1..] == b;
    } else {
      assert (a + b)[1..] == a[1..] + b;
      JoinAppend(a[1..], b, sep);
    }
  }

  /** The message keeps the errors in input order: the message of two lists
      of errors is the first's message, "; ", then the second's. */
  lemma MessageOfConcat(first: seq<ValidationError>, second: seq<ValidationError>)
    requires first != [] && second != []
    ensures ExceptionFactory(first + second).message
         == ExceptionFactory(first).message + "; " + ExceptionFactory(second).message
  {
    assert Map(first + second, ConstraintText) == Map(first, ConstraintText) + Map(second, ConstraintText);
    JoinAppend(Map(first, ConstraintText), Map(second, ConstraintText), "; ");
  }

  /** An error without constraints contributes an empty segment between its neighbours. */
  lemma EmptySegment(before: seq<ValidationError>, property: string, after: seq<ValidationError>)
    requires before != [] && after != []
    ensures ExceptionFactory(before + [ValidationError(property, None)] + after).message
         == ExceptionFactory(before).message + "; ; " + ExceptionFactory(after).message
  {
    var e := ValidationError(property, None);
    MessageOfConcat(before, [e]);
    MessageOfConcat(before + [e], after);
  }

  /** A join whose first part is non-empty is non-empty. */
  lemma JoinNonEmpty(parts: seq<string>, sep: string)
    requires parts != [] && parts[0] != ""
    ensures Join(parts, sep) != ""
  {
    assert |Join(parts, sep)| >= |parts[0]|;
  }

  /** A failed validation never produces an empty message: the first error
      names at least one broken constraint. */
  lemma FailedValidationHasMessage(errors: seq<ValidationError>)
    requires errors != [] && AllHaveMessages(errors)
    ensures ExceptionFactory(errors).message != ""
  {
    assert errors[0] in errors;
    JoinNonEmpty(errors[0].constraints.value, ", ");
    JoinNonEmpty(Map(errors, ConstraintText), "; ");
  }
}
