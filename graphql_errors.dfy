/** The GraphQL module's `formatError`: every error sent to a client is reduced
    to its message, a code, and its source locations. */
module GraphqlErrors {
  import opened Common

  datatype Location = Location(line: int, column: int)

  /** The part of `error.extensions` that is read: `code`, when there is one. */
  datatype Extensions = Extensions(code: Option<string>)

  datatype GraphQLError = GraphQLError(message: string, extensions: Option<Extensions>, locations: Option<seq<Location>>)

  /** The record `formatError` builds: exactly these three fields. */
  datatype FormattedError = FormattedError(message: string, code: string, locations: Option<seq<Location>>)

  const DefaultCode: string := "GRAPHQL_ERROR"

  /** `error.extensions?.code`, or absent when there are no extensions. */
  function CodeOf(e: GraphQLError): Option<string>
  {
    if e.extensions.Some? then e.extensions.value.code else None
  }

  /** `{ message: error.message, code: error.extensions?.code || 'GRAPHQL_ERROR',
      locations: error?.locations }`. */
  function FormatError(e: GraphQLError): (r: FormattedError)
    ensures r.message == e.message
    ensures r.locations == e.locations
    ensures Truthy(CodeOf(e)) ==> r.code == CodeOf(e).value
    ensures !Truthy(CodeOf(e)) ==> r.code == DefaultCode
    ensures r.code != ""
  {
    var code := CodeOf(e);
    FormattedError(e.message, if Truthy(code) then code.value else DefaultCode, e.locations)
  }

  /** A formatted error read back as a GraphQL error with its code in the extensions. */
  function AsGraphQLError(f: FormattedError): GraphQLError
  {
    GraphQLError(f.message, Some(Extensions(Some(f.code))), f.locations)
  }

  /** Formatting is idempotent: a formatted error formats to itself. */
  lemma FormatErrorIdempotent(e: GraphQLError)
    ensures FormatError(AsGraphQLError(FormatError(e))) == FormatError(e)
  {
  }
}
