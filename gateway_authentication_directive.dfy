/** The gateway authentication directive: it runs the authentication chain,
    gates the chain's result on the header validator, and turns the settled
    outcome into exactly one terminal action: run the inner route, rethrow a
    domain error (with an authentication-failure span), or throw the
    configured default-unauthorized error. */
module GatewayAuth {
  import opened Wrappers
  import opened AuthTypes
  import opened Tracing

  /** Settles the authentication of one request. */
  type AuthenticationChain = (RequestContext, Headers) -> Outcome<AuthenticationResult>

  /** Checks headers (their size, for one); a failed outcome rejects them. */
  type HeadersValidator = Headers -> Outcome<Headers>

  /** Builds the error thrown when the failure must not be disclosed. */
  type UnauthorizedFactory = Headers -> DittoRuntimeException

  /** A configured directive: its two final fields. */
  datatype Directive = Directive(
    authenticationChain: AuthenticationChain,
    defaultUnauthorizedExceptionFactory: UnauthorizedFactory)

  /** The NullPointerException a constructor throws, naming the argument. */
  datatype NullArgument = NullArgument(argumentName: string)

  /** The exception failure handling throws: the domain error itself, or the
      default-unauthorized error that masks any other cause. */
  datatype Thrown =
    | Rethrow(exception: DittoRuntimeException)
    | DefaultUnauthorized(exception: DittoRuntimeException)

  /** What failure handling ends in: it always throws, and it may have
      emitted a span on the way. */
  datatype FailureHandling = FailureHandling(thrown: Thrown, span: Option<Span>)

  /** The one thing a request's authentication ends in. */
  datatype Terminal<R> = Inner(route: R) | Throws(thrown: Thrown)

  /** A terminal action together with the span emitted on the way, if any. */
  datatype Handled<R> = Handled(terminal: Terminal<R>, span: Option<Span>)

  /** Failure handling's throw, as the terminal action of a request. */
  function AsHandled<R>(f: FailureHandling): Handled<R> {
    Handled(Throws(f.thrown), f.span)
  }

  /** The default factory: a GatewayAuthenticationFailedException with the
      message "Unauthorized." carrying the given headers. */
  function DefaultUnauthorizedException(dittoHeaders: Headers): DittoRuntimeException {
    DittoRuntime("GatewayAuthenticationFailedException", "Unauthorized.", dittoHeaders)
  }

  /** The two-argument constructor: both arguments are checked for null, the
      chain first. */
  function New(authenticationChain: Option<AuthenticationChain>, factory: Option<UnauthorizedFactory>)
    : (r: Result<Directive, NullArgument>)
    ensures r.Ok? <==> authenticationChain.Some? && factory.Some?
    ensures authenticationChain.None? ==> r == Err(NullArgument("authenticationChain"))
    ensures authenticationChain.Some? && factory.None? ==>
      r == Err(NullArgument("defaultUnauthorizedExceptionFactory"))
    ensures r.Ok? ==>
      && r.value.authenticationChain == authenticationChain.value
      && r.value.defaultUnauthorizedExceptionFactory == factory.value
  {
    match authenticationChain
    case None => Err(NullArgument("authenticationChain"))
    case Some(chain) =>
      match factory
      case None => Err(NullArgument("defaultUnauthorizedExceptionFactory"))
      case Some(f) => Ok(Directive(chain, f))
  }

  /** The one-argument constructor: the chain is checked for null and the
      default factory is supplied. */
  function NewWithDefaultFactory(authenticationChain: Option<AuthenticationChain>)
    : (r: Result<Directive, NullArgument>)
    ensures r.Ok? <==> authenticationChain.Some?
    ensures authenticationChain.None? ==> r == Err(NullArgument("authenticationChain"))
    ensures r.Ok? ==> r.value.authenticationChain == authenticationChain.value
    ensures r.Ok? ==>
      forall h :: r.value.defaultUnauthorizedExceptionFactory(h)
        == DittoRuntime("GatewayAuthenticationFailedException", "Unauthorized.", h)
  {
    New(authenticationChain, Some(DefaultUnauthorizedException))
  }

  /** The chain's future composed with the validator: the validator runs only
      when the chain completed normally, it is given the result's headers, and
      on its success the chain's result is passed on unchanged. */
  function ThenValidate(chainOutcome: Outcome<AuthenticationResult>, validator: HeadersValidator)
    : (r: Outcome<AuthenticationResult>)
    ensures chainOutcome.Failed? ==> r == chainOutcome
    ensures chainOutcome.Completed? ==> (r.Completed? <==> validator(chainOutcome.value.headers).Completed?)
    ensures r.Completed? ==> r == chainOutcome
    ensures chainOutcome.Completed? && validator(chainOutcome.value.headers).Failed? ==>
      r == Failed(validator(chainOutcome.value.headers).cause)
  {
    match chainOutcome
    case Failed(c) => Failed(c)
    case Completed(authRes) =>
      match validator(authRes.headers)
      case Failed(c) => Failed(c)
      case Completed(_) => Completed(authRes)
  }

  /** The span recorded when a domain error is rethrown: prepared from the
      request headers, started, tagged as not successful and erroneous,
      marked failed with the cause, and finished. */
  function AuthFailureSpan(dittoHeaders: Headers, reasonOfFailure: Throwable): (s: Span)
    ensures s.operation == FilterAuth && s.headers == dittoHeaders
    ensures IsComplete(s) && Starts(s.events) == 1 && Finishes(s.events) == 1
    ensures Tag(AuthSuccess, false) in s.events && Tag(AuthError, true) in s.events
    ensures TagAsFailed(reasonOfFailure) in s.events
    ensures forall e | e in s.events && e.Tag? :: e == Tag(AuthSuccess, false) || e == Tag(AuthError, true)
    ensures forall e | e in s.events && e.TagAsFailed? :: e.cause == reasonOfFailure
  {
    var events := [Start, Tag(AuthSuccess, false), Tag(AuthError, true), TagAsFailed(reasonOfFailure), Finish];
    assert Replay(Started, events[4..]) == Some(Finished);
    assert events[3..][1..] == events[4..];
    assert Replay(Started, events[3..]) == Some(Finished);
    assert events[2..][1..] == events[3..];
    assert Replay(Started, events[2..]) == Some(Finished);
    assert events[1..][1..] == events[2..];
    assert Replay(Started, events[1..]) == Some(Finished);
    var s := Span(FilterAuth, dittoHeaders, events);
    CompletedStartsAndFinishesOnce(s);
    s
  }

  /** Failure handling: a DittoRuntimeException is rethrown as it is, with
      the authentication-failure span; any other cause is masked by the
      default-unauthorized error built from the request headers, with no
      span. */
  function HandleFailedAuthentication(d: Directive, reasonOfFailure: Throwable, dittoHeaders: Headers)
    : (f: FailureHandling)
    ensures f.thrown.Rethrow? <==> reasonOfFailure.IsDittoRuntimeException()
    ensures f.thrown.Rethrow? ==> f.thrown.exception == reasonOfFailure
    ensures f.thrown.DefaultUnauthorized? ==>
      f.thrown.exception == d.defaultUnauthorizedExceptionFactory(dittoHeaders)
      && f.thrown.exception != reasonOfFailure
    ensures f.span.Some? <==> f.thrown.Rethrow?
    ensures f.span.Some? ==> f.span.value == AuthFailureSpan(dittoHeaders, reasonOfFailure)
  {
    if reasonOfFailure.IsDittoRuntimeException() then
      FailureHandling(Rethrow(reasonOfFailure), Some(AuthFailureSpan(dittoHeaders, reasonOfFailure)))
    else
      FailureHandling(DefaultUnauthorized(d.defaultUnauthorizedExceptionFactory(dittoHeaders)), None)
  }

  /** Classification of the settled outcome: the inner route runs only when
      the future completed normally with a successful result; a failed
      result's reason and a failed future's cause take the same failure path
      with the same request headers. */
  function HandleAuthenticationTry<R>(d: Directive, authenticationResultTry: Outcome<AuthenticationResult>,
                                      dittoHeaders: Headers, inner: AuthenticationResult -> R)
    : (h: Handled<R>)
    ensures h.terminal.Inner? <==> authenticationResultTry.Completed? && authenticationResultTry.value.IsSuccess()
    ensures h.terminal.Inner? ==> h.terminal.route == inner(authenticationResultTry.value) && h.span.None?
    ensures authenticationResultTry.Completed? && !authenticationResultTry.value.IsSuccess() ==>
      h == AsHandled(HandleFailedAuthentication(d, authenticationResultTry.value.reasonOfFailure, dittoHeaders))
    ensures authenticationResultTry.Failed? ==>
      h == AsHandled(HandleFailedAuthentication(d, authenticationResultTry.cause, dittoHeaders))
  {
    match authenticationResultTry
    case Completed(authenticationResult) =>
      if authenticationResult.IsSuccess() then Handled(Inner(inner(authenticationResult)), None)
      else AsHandled(HandleFailedAuthentication(d, authenticationResult.reasonOfFailure, dittoHeaders))
    case Failed(cause) => AsHandled(HandleFailedAuthentication(d, cause, dittoHeaders))
  }

  /** Reference definition, read straight off the two stages: why the request
      is rejected, or None when access is granted. A failed chain gives its
      cause; otherwise a failed validation gives the validator's cause, even
      over a failed result's own reason; otherwise a failed result gives its
      reason. */
  function RejectionReason(chainOutcome: Outcome<AuthenticationResult>, validator: HeadersValidator)
    : Option<Throwable>
  {
    if chainOutcome.Failed? then Some(chainOutcome.cause)
    else if validator(chainOutcome.value.headers).Failed? then Some(validator(chainOutcome.value.headers).cause)
    else if chainOutcome.value.Failure? then Some(chainOutcome.value.reasonOfFailure)
    else None
  }

  /** Authentication of one request: the chain, then the validator, then the
      classification. Access is granted exactly when nothing rejects the
      request; the inner route then gets the chain's own result; a domain
      error is rethrown as it is and traced; any other cause is masked. */
  function Authenticate<R>(d: Directive, request: RequestContext, dittoHeaders: Headers,
                           validator: HeadersValidator, inner: AuthenticationResult -> R)
    : (h: Handled<R>)
    ensures var chainOutcome := d.authenticationChain(request, dittoHeaders);
      var reason := RejectionReason(chainOutcome, validator);
      && (h.terminal.Inner? <==> reason.None?)
      && (h.terminal.Inner? ==> chainOutcome.Completed? && chainOutcome.value.IsSuccess()
                                && h.terminal.route == inner(chainOutcome.value) && h.span.None?)
      && (reason.Some? && reason.value.IsDittoRuntimeException() ==>
            h.terminal == Throws(Rethrow(reason.value)) && h.span == Some(AuthFailureSpan(dittoHeaders, reason.value)))
      && (reason.Some? && !reason.value.IsDittoRuntimeException() ==>
            h.terminal == Throws(DefaultUnauthorized(d.defaultUnauthorizedExceptionFactory(dittoHeaders)))
            && h.span.None?)
    ensures h.span.Some? ==> IsComplete(h.span.value)
  {
    var authenticationResult := ThenValidate(d.authenticationChain(request, dittoHeaders), validator);
    HandleAuthenticationTry(d, authenticationResult, dittoHeaders, inner)
  }

  /** A failed chain is never validated: the validator does not affect the
      outcome, and the chain's cause is what is handled. */
  lemma ValidatorSkippedOnChainFailure<R>(d: Directive, request: RequestContext, dittoHeaders: Headers,
                                          v1: HeadersValidator, v2: HeadersValidator,
                                          inner: AuthenticationResult -> R)
    requires d.authenticationChain(request, dittoHeaders).Failed?
    ensures Authenticate(d, request, dittoHeaders, v1, inner) == Authenticate(d, request, dittoHeaders, v2, inner)
    ensures Authenticate(d, request, dittoHeaders, v1, inner)
      == AsHandled(HandleFailedAuthentication(d, d.authenticationChain(request, dittoHeaders).cause, dittoHeaders))
  {
  }

  /** The validator is consulted on the chain result's headers and nothing
      else: two validators that agree there give the same outcome. */
  lemma ValidatorSeesResultHeaders<R>(d: Directive, request: RequestContext, dittoHeaders: Headers,
                                      v1: HeadersValidator, v2: HeadersValidator,
                                      inner: AuthenticationResult -> R)
    requires var c := d.authenticationChain(request, dittoHeaders);
      c.Completed? ==> v1(c.value.headers) == v2(c.value.headers)
    ensures Authenticate(d, request, dittoHeaders, v1, inner) == Authenticate(d, request, dittoHeaders, v2, inner)
  {
  }

  /** The inner route is not consulted unless access is granted. */
  lemma InnerOnlyOnAccess<R>(d: Directive, request: RequestContext, dittoHeaders: Headers,
                             validator: HeadersValidator, i1: AuthenticationResult -> R,
                             i2: AuthenticationResult -> R)
    requires RejectionReason(d.authenticationChain(request, dittoHeaders), validator).Some?
    ensures Authenticate(d, request, dittoHeaders, validator, i1) == Authenticate(d, request, dittoHeaders, validator, i2)
  {
  }
}
