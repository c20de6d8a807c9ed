/** The values that flow through gateway authentication: request headers,
    exceptions, authentication results and settled futures. */
module AuthTypes {

  /** The request's DittoHeaders, as a mapping from header name to value. */
  type Headers = map<string, string>

  /** The part of the inbound request that the authentication chain reads. */
  datatype RequestContext = RequestContext(uri: string)

  /** A Java Throwable, split by whether it is a DittoRuntimeException (a
      domain error that carries the headers it answers) or any other
      exception (an internal failure). */
  datatype Throwable =
    | DittoRuntime(exceptionName: string, message: string, headers: Headers)
    | Unexpected(exceptionName: string, message: string)
  {
    predicate IsDittoRuntimeException() {
      DittoRuntime?
    }
  }

  /** The Throwables that are DittoRuntimeExceptions. */
  type DittoRuntimeException = t: Throwable | t.IsDittoRuntimeException()
    witness DittoRuntime("GatewayAuthenticationFailedException", "Unauthorized.", map[])

  /** What the authentication chain decides: the caller is authenticated
      (with the headers enriched by the chain and the resolved subjects), or
      authentication failed for a reason. Both kinds carry headers. */
  datatype AuthenticationResult =
    | Success(headers: Headers, authorizationSubjects: seq<string>)
    | Failure(headers: Headers, reasonOfFailure: Throwable)
  {
    predicate IsSuccess() {
      Success?
    }
  }

  /** A future once it has settled (a Scala Try): it completed normally
      with a value, or it failed with a cause. */
  datatype Outcome<+T> = Completed(value: T) | Failed(cause: Throwable)
}
