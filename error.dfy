/**
 * `ApiError` of packages/core/src/error.ts: the one error type the client
 * rejects with. It is generic in the request configuration it carries, so
 * that this module does not depend on the client's types.
 */
module Errors {
  import opened Outcomes
  import opened Values

  /** The class's `name` field. */
  const Name: string := "ApiError"

  datatype ApiError<+C> = ApiError(
    message: string,
    status: int,
    statusText: string,
    data: Data,
    config: Option<C>,
    isTimeout: bool,
    isNetworkError: bool,
    isAborted: bool)
  {
    predicate Is4xx() { 400 <= status < 500 }
    predicate Is5xx() { status >= 500 }
    predicate IsUnauthorized() { status == 401 }
    predicate IsForbidden() { status == 403 }
    predicate IsNotFound() { status == 404 }

    /** `toJSON()`: every field except the configuration. */
    function ToJson(): (j: ErrorJson)
      ensures j.name == Name && j.message == message && j.status == status && j.statusText == statusText
      ensures j.data == data && j.isTimeout == isTimeout && j.isNetworkError == isNetworkError && j.isAborted == isAborted
    {
      ErrorJson(Name, message, status, statusText, data, isTimeout, isNetworkError, isAborted)
    }
  }

  /** The object `toJSON()` returns. */
  datatype ErrorJson = ErrorJson(
    name: string,
    message: string,
    status: int,
    statusText: string,
    data: Data,
    isTimeout: bool,
    isNetworkError: bool,
    isAborted: bool)

  /** `new ApiError(message, status, statusText, data, config)` with the flags left at their defaults. */
  function NewApiError<C>(message: string, status: int, statusText: string, data: Data, config: Option<C>): (e: ApiError<C>)
    ensures e.message == message && e.status == status && e.statusText == statusText
    ensures e.data == data && e.config == config
    ensures !e.isTimeout && !e.isNetworkError && !e.isAborted
  {
    ApiError(message, status, statusText, data, config, false, false, false)
  }

  // ---------------------------------------------------------------- properties

  /** The status classes do not overlap, and each named status lies in the client-error class. */
  lemma StatusClasses<C>(e: ApiError<C>)
    ensures !(e.Is4xx() && e.Is5xx())
    ensures e.IsUnauthorized() || e.IsForbidden() || e.IsNotFound() ==> e.Is4xx()
    ensures e.Is4xx() <==> 400 <= e.status <= 499
  {
  }

  /** A status of 0, as the client gives network, timeout-free abort and validation errors, is in
      neither class; 408, the timeout status, is a client error. */
  lemma SyntheticStatuses<C>(e: ApiError<C>)
    ensures e.status == 0 ==> !e.Is4xx() && !e.Is5xx()
    ensures e.status == 408 ==> e.Is4xx() && !e.IsUnauthorized() && !e.IsForbidden() && !e.IsNotFound()
  {
  }

  /** `toJSON()` leaves the configuration out: errors that differ only in it serialize alike,
      and errors that serialize alike differ at most in it. */
  lemma ToJsonIgnoresConfig<C>(e: ApiError<C>, f: ApiError<C>)
    ensures e.ToJson() == f.ToJson() <==> e.(config := f.config) == f
  {
  }
}
