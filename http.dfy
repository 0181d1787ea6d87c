/**
 * What the API route handlers receive and answer, as far as their logic
 * depends on it.
 */
module Http {
  import opened Store

  /**
   * A route's answer: the created record as JSON (status 200), or a status
   * code with an error message.
   */
  datatype Response<+T> = Json(record: T) | Error(status: int, message: string)

  /**
   * A string field of a JSON body in a condition: absent (None) and the
   * empty string are falsy, every other string is truthy.
   */
  predicate Truthy(field: Option<string>)
  {
    field.Some? && field.value != ""
  }
}
