/** The structured error every adapter raises: a kind from a closed set, a message, the
    provider it concerns and, for HTTP failures, the upstream status. */
module Errors {
  import opened Base

  /** `VALIDATION` is raised by this toolkit itself; the other kinds are whatever the
      status classifier hands back (its mapping is a parameter of the HTTP model). */
  datatype ErrorKind =
    | Validation
    | RateLimited
    | AuthFailed
    | NotFound
    | ClientError
    | ServerError
    | Unknown

  datatype KitError = KitError(
    kind: ErrorKind,
    message: string,
    provider: Option<string>,
    upstreamStatus: Option<int>
  )

  function ValidationError(message: string, provider: string): KitError {
    KitError(Validation, message, Some(provider), None)
  }
}
