/**
 * Properties of the social-graph client: the error codes its callers see,
 * and the one breaker its three operations share.
 */
module SocialGraphClientProperties {
  import opened Results
  import opened Clock
  import opened CircuitBreaker
  import opened SocialGraphClient
  import CircuitBreakerProperties

  /** The client's breaker as created at start-up satisfies the policy. */
  lemma ServiceBreakerIsValid(t0: nat)
    ensures Valid(New(ServiceSettings, t0))
    ensures New(ServiceSettings, t0).settings == ServiceSettings
  {
  }

  /**
   * A failed RPC is reported as 503 wrapping the request's 500; the 500 is
   * never the code the caller sees.
   */
  lemma {:induction false} RpcFailureIsReportedAs503<T>(b: Breaker, request: Request, message: string, now: nat)
    requires Valid(b) && b.state == Closed
    ensures var c := Guarded<T>(b, Connected, request, Err(message), now);
            && c.result == Err(AppError(503, Wrapped(AppError(500, RpcFailed(message)))))
            && c.sent == Some(request)
            && c.breaker.state == Open
  {
    CircuitBreakerProperties.TripsOnFirstFailure<T, AppError>(b, now, AppError(500, RpcFailed(message)));
  }

  /**
   * The three operations share one breaker: after any of them fails, every
   * operation is refused with 503, without sending its RPC, until the
   * timeout has passed.
   */
  lemma {:induction false} FailureOpensBreakerForAll<A, B>(
    b: Breaker, r1: Request, message: string, t1: nat, r2: Request, reply2: Result<B, string>, t2: nat)
    requires Valid(b) && b.state == Closed
    requires t2 <= t1 + b.settings.timeout
    ensures var first := Guarded<A>(b, Connected, r1, Err(message), t1);
            var second := Guarded(first.breaker, Connected, r2, reply2, t2);
            && second.result == Err(AppError(503, Refused(OpenState)))
            && second.sent == None
            && second.breaker == first.breaker
  {
    CircuitBreakerProperties.TripsOnFirstFailure<A, AppError>(b, t1, AppError(500, RpcFailed(message)));
    var first := Guarded<A>(b, Connected, r1, Err(message), t1);
    CircuitBreakerProperties.OpenRejectsUntilTimeout(first.breaker, t2, RequestError(reply2));
  }

  /** For instance, a failed GetMyFollowers makes the next CheckVisibility fail fast. */
  lemma {:induction false} FollowersFailureBlocksVisibility(
    b: Breaker, auth: Username, target: Username, message: string, t1: nat, reply: Result<bool, string>, t2: nat)
    requires Valid(b) && b.state == Closed
    requires t2 <= t1 + 5 * Second
    requires b.settings == ServiceSettings
    ensures var first := GetMyFollowers(b, auth, Connected, Err(message), t1);
            var second := CheckVisibility(first.breaker, auth, target, Connected, reply, t2);
            && first.result.Err? && first.result.error.code == 503
            && second.result == Err(AppError(503, Refused(OpenState)))
            && second.sent == None
  {
    FailureOpensBreakerForAll<seq<Username>, bool>(
      b, Request(GetMyFollowersRpc, map["authUsername" := auth]), message, t1,
      Request(CheckVisibilityRpc(target), map["authUsername" := auth]), reply, t2);
  }

  /**
   * The first failure of a freshly started client is logged once, under the
   * breaker's name "SocialGraph", as the line OnStateChange prints.
   */
  lemma {:induction false} ServiceTripIsLogged(t0: nat, auth: Username, target: Username, message: string, now: nat)
    ensures var c := CheckVisibility(New(ServiceSettings, t0), auth, target, Connected, Err(message), now);
            && c.log == [StateChange("SocialGraph", Closed, Open)]
            && LogLine(c.log[0]) == "Circuit Breaker '" + "SocialGraph" + "' changed from '" + "closed" + "' to '" + "open" + "'\n"
  {
    var b := New(ServiceSettings, t0);
    CircuitBreakerProperties.TripsOnFirstFailure<bool, AppError>(b, now, AppError(500, RpcFailed(message)));
    assert StateName(Closed) == "closed" && StateName(Open) == "open";
  }

  /**
   * As written, a failed dial ends the process where the operation meant to
   * answer 500: the handler's 500 is never returned.
   */
  lemma {:induction false} DialFailureExitsInsteadOf500<T>(b: Breaker, request: Request, message: string, reply: Result<T, string>, now: nat)
    ensures GuardedAsWritten(b, DialError(message), request, reply, now) == Exited(FatalLine(message))
    ensures Guarded(b, DialError(message), request, reply, now).result == Err(AppError(500, DialFailed(message)))
  {
  }

  /**
   * With the dial error handled as the operations intend, a failed dial is a
   * 500 that neither consults nor changes the breaker, so it cannot open it
   * for the other operations.
   */
  lemma {:induction false} DialFailureLeavesBreakerClosed<T>(
    b: Breaker, r1: Request, message: string, reply1: Result<T, string>, t1: nat, r2: Request, value: bool, t2: nat)
    requires Valid(b) && b.state == Closed
    ensures var first := Guarded(b, DialError(message), r1, reply1, t1);
            var second := Guarded(first.breaker, Connected, r2, Ok(value), t2);
            && first.result == Err(AppError(500, DialFailed(message)))
            && first.breaker == b
            && second.result == Ok(value) && second.sent == Some(r2)
  {
    CircuitBreakerProperties.ClosedSuccessStaysClosed<bool, AppError>(b, t2, value);
  }
}
