/** The class-validator decorators the input types use, as checks that return
    the messages of the constraints a value breaks. Every decorator on a
    property runs (there is no stop-at-first-error), and a property that breaks
    at least one of them yields one `ValidationError` holding all their messages.

    GraphQL has already checked that each field is a string, so `IsString`
    never fails and is left out of the checks. */
module Validation {
  import opened Common
  import Uuid

  /** One entry of the list class-validator hands to the `exceptionFactory`:
      the property and the messages of its broken constraints, in the order the
      constraints ran. `constraints` may be absent (then `None`). */
  datatype ValidationError = ValidationError(property: string, constraints: Option<seq<string>>)

  /** `@IsNotEmpty({ message })` on a string. */
  function NotEmpty(s: string, message: string): (r: seq<string>)
    ensures r == [] <==> s != ""
  {
    if s == "" then [message] else []
  }

  /** The variation selectors U+FE0E and U+FE0F, which validator.js does not
      count as characters. */
  predicate IsVariationSelector(c: char)
  {
    c == '\U{FE0E}' || c == '\U{FE0F}'
  }

  /** The length validator.js `isLength` measures: code points (a surrogate
      pair is one character), less the variation selectors. */
  function Length(s: string): (n: nat)
    ensures n <= |s|
    ensures n == |s| <==> forall i :: 0 <= i < |s| ==> !IsVariationSelector(s[i])
  {
    if |s| == 0 then 0
    else (if IsVariationSelector(s[0]) then 0 else 1) + Length(s[1..])
  }

  /** `@MinLength(n, { message })`, which measures with `isLength`. */
  function MinLength(s: string, n: nat, message: string): (r: seq<string>)
    ensures r == [] <==> Length(s) >= n
  {
    if Length(s) < n then [message] else []
  }

  /** `@IsUUID('4', { message })`. */
  function UuidV4(s: string, message: string): (r: seq<string>)
    ensures r == [] <==> Uuid.IsUuidV4(s)
  {
    if Uuid.IsUuidV4(s) then [] else [message]
  }

  /** `@IsEmail({}, { message })`, over the abstract email predicate. */
  function Email(s: string, isEmail: string -> bool, message: string): (r: seq<string>)
    ensures r == [] <==> isEmail(s)
  {
    if isEmail(s) then [] else [message]
  }

  /** `@IsOptional()`: a null or absent value skips every other check of the property. */
  function Optional(value: Option<string>, messages: string -> seq<string>): (r: seq<string>)
    ensures value.None? ==> r == []
    ensures value.Some? ==> r == messages(value.value)
  {
    match value
    case None => []
    case Some(s) => messages(s)
  }

  /** The errors one property contributes: none when all its constraints hold. */
  function PropertyErrors(property: string, messages: seq<string>): (r: seq<ValidationError>)
    ensures r == [] <==> messages == []
    ensures r != [] ==> r == [ValidationError(property, Some(messages))]
    ensures FailingProperties(r) == if messages == [] then {} else {property}
    ensures messages == [] || messages[0] != "" ==> AllHaveMessages(r)
  {
    if messages == [] then [] else [ValidationError(property, Some(messages))]
  }

  /** The errors of several properties, listed one after the other. */
  lemma ErrorsOfConcat(a: seq<ValidationError>, b: seq<ValidationError>)
    ensures FailingProperties(a + b) == FailingProperties(a) + FailingProperties(b)
    ensures AllHaveMessages(a) && AllHaveMessages(b) ==> AllHaveMessages(a + b)
  {
    assert forall e :: e in a + b <==> e in a || e in b;
  }

  /** The properties that have an error. */
  function FailingProperties(errors: seq<ValidationError>): (ps: set<string>)
    ensures forall e :: e in errors ==> e.property in ps
    ensures forall p :: p in ps ==> exists e :: e in errors && e.property == p
  {
    set e | e in errors :: e.property
  }

  /** Every error the checks above produce names at least one broken constraint. */
  predicate AllHaveMessages(errors: seq<ValidationError>)
  {
    forall e :: e in errors ==> e.constraints.Some? && e.constraints.value != [] && e.constraints.value[0] != ""
  }
}
