/** Small shared vocabulary: optional values, results, HTTP error bodies and
    the JavaScript notion of a "truthy" string. */
module Common {

  datatype Option<+T> = None | Some(value: T)

  datatype Result<+T, +E> = Success(value: T) | Failure(error: E)

  /** The JSON error body `{ message, code }` of a mock handler, with its HTTP status.
      The human-readable message is not modelled. */
  datatype ApiError = ApiError(status: nat, code: string)

  /** `if (s)` on a `string | null` value: null and the empty string are falsy. */
  predicate Truthy(s: Option<string>) {
    s.Some? && s.value != ""
  }
}
