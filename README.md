# Gateway authentication directive — a Dafny model

This project models how the gateway's authentication directive
(`GatewayAuthenticationDirective`) settles the authentication of one HTTP
request. The directive runs the authentication chain. When the chain's future
completes normally, it runs the DittoHeaders validator on the result's
headers and passes the chain's result on unchanged. It then classifies the
settled outcome into exactly one terminal action:

- run the inner route with the authentication result (the only way to access),
- rethrow the same `DittoRuntimeException` and record an authentication-failure trace span, or
- throw the default-unauthorized exception. The configured factory builds it from the *request* headers, so an internal failure is never shown to the caller.

The model is pure. Futures and `Try` become a settled `Outcome` (`Completed`
or `Failed`). The chain, the validator, the inner route and the
default-unauthorized factory become function values. The terminal action is
the `Terminal` datatype. The span is the recorded list of calls made on it,
replayed against a lifecycle state machine: prepared, started, tags, finished.
`RejectionReason` is a reference definition of when and why a request is
rejected, read straight off the two stages. `Authenticate` is proved against
it. Because every member is a function, running `Authenticate` twice on the
same inputs gives the same outcome.

Files:
- `wrappers.dfy`: `Option` (Java's nullable reference) and `Result`.
- `auth_types.dfy`: headers, `Throwable` split into DittoRuntimeException and other exceptions, `AuthenticationResult`, `Outcome`.
- `tracing.dfy`: span events, the lifecycle state machine `Replay`, and the lemmas that a complete span is started once and finished once.
- `gateway_authentication_directive.dfy`: the constructors, the chain-then-validator composition, failure handling, classification, and `Authenticate`.

## Model

| member | source | states |
|---|---|---|
| `GatewayAuth.New` | gateway/service/src/main/java/org/eclipse/ditto/gateway/service/endpoints/directives/auth/GatewayAuthenticationDirective.java:69-75 | construction succeeds exactly when both arguments are present; a null chain is reported first, then a null factory; on success both fields hold the given arguments |
| `GatewayAuth.NewWithDefaultFactory` | gateway/service/src/main/java/org/eclipse/ditto/gateway/service/endpoints/directives/auth/GatewayAuthenticationDirective.java:55-59 | rejects only a null chain; the supplied factory (`DefaultUnauthorizedException`) maps any headers to a GatewayAuthenticationFailedException with message "Unauthorized." carrying those headers |
| `GatewayAuth.ThenValidate` | gateway/service/src/main/java/org/eclipse/ditto/gateway/service/endpoints/directives/auth/GatewayAuthenticationDirective.java:90-95 | a failed chain passes through unvalidated; after a normal completion the outcome succeeds iff the validator accepts the result's headers, and then it is the chain's own result; a validator failure becomes the failure, even replacing a failed result's reason |
| `GatewayAuth.AuthFailureSpan` | gateway/service/src/main/java/org/eclipse/ditto/gateway/service/endpoints/directives/auth/GatewayAuthenticationDirective.java:127-132 | the span is prepared with the request headers and the auth-filter operation, follows the full lifecycle, is started and finished exactly once, and carries AUTH_SUCCESS=false, AUTH_ERROR=true and the failure cause, and no other tag and no other failure cause |
| `GatewayAuth.HandleFailedAuthentication` | gateway/service/src/main/java/org/eclipse/ditto/gateway/service/endpoints/directives/auth/GatewayAuthenticationDirective.java:120-143 | always throws, never yields a route; rethrows exactly when the cause is a DittoRuntimeException, and then throws that same cause; otherwise throws the factory's exception for the request headers, which is never the cause; a span is emitted iff it rethrows, and it is the auth-failure span |
| `GatewayAuth.HandleAuthenticationTry` | gateway/service/src/main/java/org/eclipse/ditto/gateway/service/endpoints/directives/auth/GatewayAuthenticationDirective.java:105-118 | the inner route runs iff the outcome completed normally with a successful result; it gets that result and no span is emitted; a failed result's reason and a failed future's cause take the same failure path with the same request headers |
| `GatewayAuth.Authenticate` | gateway/service/src/main/java/org/eclipse/ditto/gateway/service/endpoints/directives/auth/GatewayAuthenticationDirective.java:85-103 | access is granted iff the reference `RejectionReason` finds no rejection, and then the inner route gets the chain's own successful result; a domain-error rejection is rethrown as it is, with the auth-failure span; any other rejection becomes the default-unauthorized error for the request headers, with no span; any emitted span is complete |
| `GatewayAuth.ValidatorSkippedOnChainFailure` | gateway/service/src/main/java/org/eclipse/ditto/gateway/service/endpoints/directives/auth/GatewayAuthenticationDirective.java:90-95 | when the chain's future fails, the validator does not affect the outcome, and the chain's cause goes straight to failure handling |
| `GatewayAuth.ValidatorSeesResultHeaders` | gateway/service/src/main/java/org/eclipse/ditto/gateway/service/endpoints/directives/auth/GatewayAuthenticationDirective.java:92-94 | the validator is consulted only on the chain result's headers: validators that agree there give the same outcome |
| `GatewayAuth.InnerOnlyOnAccess` | gateway/service/src/main/java/org/eclipse/ditto/gateway/service/endpoints/directives/auth/GatewayAuthenticationDirective.java:110-113 | when the request is rejected, the inner route has no influence on the outcome |
| `Tracing.StartedToFinished` | gateway/service/src/main/java/org/eclipse/ditto/gateway/service/endpoints/directives/auth/GatewayAuthenticationDirective.java:128-132 | calls that take a started span to finished contain no further start and exactly one finish, and that finish is the last call |
| `Tracing.CompletedStartsAndFinishesOnce` | gateway/service/src/main/java/org/eclipse/ditto/gateway/service/endpoints/directives/auth/GatewayAuthenticationDirective.java:127-132 | a span that follows the lifecycle starts first, is started once and finished once, and is finished last, so no span is left started but unfinished |

## Left out

- Pekko-HTTP routing (`extractRequestContext`, `Directives.onComplete`, `Route`): the route is an opaque value returned by the inner function, and the request context is reduced to its URI.
- `CompletableFuture` scheduling and non-blocking completion: only the settled outcomes of the chain and the validator are modelled. A future that never settles is not represented.
- Exception wrapping by the future library (such as `CompletionException`): the cause delivered to the `Try` is taken as given.
- The internals of the authentication chain and of the DittoHeaders validator: they are arbitrary function values.
- Logging (the debug and warn records): they do not affect the outcome. The request URI is used only for them, so it is not passed to failure handling.
- The tracing backend: the span is only the record of the calls made on it. The operation-name string `TraceUtils.FILTER_AUTH_METRIC_NAME` is not part of this model and stands as the constant `FilterAuth`.
- Object identity: "the same exception object is rethrown" is stated as value equality of the thrown exception and the cause.
- Null checks on the arguments of `authenticate` (headers, validator, inner route): `authenticate` does not check its arguments, so no such check is modelled.
- Exceptions thrown synchronously by the chain, the inner route or the factory: the chain, `inner` and the default-unauthorized factory are total functions here, so three Java paths cannot happen in the model. They are `authenticationChain.authenticate` throwing before it returns a future (which leaves `authenticate` unmasked and untraced), `inner.apply` throwing, and the factory throwing or returning null (where `throw null` raises a NullPointerException instead of a DittoRuntimeException). "Only the domain error or the default-unauthorized error escapes" holds only under these assumptions. A validator that throws is covered, because it runs inside the composed future and becomes a failed outcome.
- `GatewayAuth.New`: the NullPointerException message text of `checkNotNull` is not part of this model; the error records only the argument name.
- "Applied once": a pure function value cannot count its calls, so the inner route's single application is stated as the terminal action holding `inner(result)`.
