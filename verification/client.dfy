/** What the browser stores see of an HTTP call: the response data, or a
    failure carrying the error body's fields (absent when no response
    arrived) and the exception's own message. */
module Client {
  import opened Strings

  /** The `message` and `error` fields of an error response body. */
  datatype ErrorBody = ErrorBody(message: Option<string>, error: Option<string>)

  const NoBody := ErrorBody(None, None)

  datatype Response<T> = Success(data: T) | Failure(body: ErrorBody, exception: string)

  /** `a || b` on an optional string. */
  function Or(a: Option<string>, b: string): (r: string)
    ensures Truthy(a) ==> r == a.value
    ensures !Truthy(a) ==> r == b
  {
    if Truthy(a) then a.value else b
  }

  /** What a store keeps in browser storage: the user and the token. */
  datatype Saved<U> = Saved(user: Option<U>, token: Option<string>)

  /** The `Authorization` header a token gives. */
  function Bearer(token: string): string {
    "Bearer " + token
  }
}
