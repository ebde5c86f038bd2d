/**
 * The earlier social-graph client, which offered CheckVisibility alone over a
 * breaker named "SocialGraphCircuitBreaker". Its CheckVisibility is the one
 * of SocialGraphClient; what differs is the breaker it is given.
 */
module LegacySocialGraphClient {
  import opened Results
  import opened Clock
  import opened CircuitBreaker
  import opened SocialGraphClient
  import CircuitBreakerProperties

  /** The settings the earlier CircuitBreaker() passes to gobreaker. */
  const LegacySettings := Settings("SocialGraphCircuitBreaker", 1, 0, 5 * Second)

  /** The earlier client's breaker as created at start-up. */
  function NewLegacyBreaker(t0: nat): (b: Breaker)
    ensures Valid(b) && b.state == Closed
    ensures b.settings == LegacySettings
  {
    New(LegacySettings, t0)
  }

  /**
   * The first failed CheckVisibility trips the earlier breaker: the caller
   * sees 503, the RPC carried the caller as authUsername metadata, and the
   * change is logged under the breaker's name.
   */
  lemma {:induction false} LegacyFirstFailureTrips(t0: nat, auth: Username, target: Username, message: string, now: nat)
    ensures var c := CheckVisibility(NewLegacyBreaker(t0), auth, target, Connected, Err(message), now);
            && c.result == Err(AppError(503, Wrapped(AppError(500, RpcFailed(message)))))
            && c.sent == Some(Request(CheckVisibilityRpc(target), map["authUsername" := auth]))
            && c.breaker.state == Open
            && c.log == [StateChange("SocialGraphCircuitBreaker", Closed, Open)]
  {
    var b := NewLegacyBreaker(t0);
    CircuitBreakerProperties.TripsOnFirstFailure<bool, AppError>(b, now, AppError(500, RpcFailed(message)));
  }

  /**
   * After that trip, CheckVisibility is refused with 503 and sends nothing
   * for 5 seconds; after them one probe is sent, and its answer is returned
   * unchanged and closes the breaker.
   */
  lemma {:induction false} LegacyOpenForFiveSeconds(
    t0: nat, auth: Username, target: Username, message: string, now: nat, later: nat, visible: bool)
    ensures var tripped := CheckVisibility(NewLegacyBreaker(t0), auth, target, Connected, Err(message), now).breaker;
            var c := CheckVisibility(tripped, auth, target, Connected, Ok(visible), later);
            && (later <= now + 5 * Second ==> c.result == Err(AppError(503, Refused(OpenState))) && c.sent == None)
            && (later > now + 5 * Second ==> c.result == Ok(visible) && c.sent.Some? && c.breaker.state == Closed)
  {
    var b := NewLegacyBreaker(t0);
    CircuitBreakerProperties.TripsOnFirstFailure<bool, AppError>(b, now, AppError(500, RpcFailed(message)));
    var tripped := CheckVisibility(b, auth, target, Connected, Err(message), now).breaker;
    if later <= now + 5 * Second {
      CircuitBreakerProperties.OpenRejectsUntilTimeout(tripped, later, RequestError<bool>(Ok(visible)));
    } else {
      CircuitBreakerProperties.ProbeAfterTimeout(tripped, later, RequestError<bool>(Ok(visible)));
    }
  }

  /**
   * As written, the earlier client's getgRPCConnection ends the process on a
   * dial error, so CheckVisibility never answers 500.
   */
  lemma {:induction false} LegacyDialErrorExits(b: Breaker, auth: Username, target: Username, message: string, reply: Result<bool, string>, now: nat)
    requires b.settings == LegacySettings
    ensures var request := Request(CheckVisibilityRpc(target), map["authUsername" := auth]);
            GuardedAsWritten(b, DialError(message), request, reply, now) == Exited(FatalLine(message))
  {
  }

  /** As the handler intends, a dial error is a 500 and leaves the earlier breaker as it was. */
  lemma LegacyDialErrorIs500(b: Breaker, auth: Username, target: Username, message: string, reply: Result<bool, string>, now: nat)
    requires b.settings == LegacySettings
    ensures var c := CheckVisibility(b, auth, target, DialError(message), reply, now);
            c.result == Err(AppError(500, DialFailed(message))) && c.breaker == b && c.sent == None && c.log == []
  {
  }
}
