/** Optional values and the outcome of a call to the remote catalog service. */
module Wrappers {

  /** A value that may be missing (`undefined` on the JavaScript side). */
  datatype Option<+T> = None | Some(value: T)

  /** What an HTTP request to the catalog service came back with: the response
      body on success, nothing on a transport or server failure. */
  datatype Reply<+T> = Success(data: T) | Failure
}
