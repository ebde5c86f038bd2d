/**
 * The behaviour the social-graph policy gives the breaker: trip on the first
 * failure, refuse while open, one probe once the timeout has passed.
 */
module CircuitBreakerProperties {
  import opened Results
  import opened CircuitBreaker

  /** A single failure while closed trips the breaker open for one timeout, and is logged once. */
  lemma TripsOnFirstFailure<T, E>(b: Breaker, now: nat, failure: E)
    requires Valid(b) && b.state == Closed
    ensures var e := Execute<T, E>(b, now, Err(failure));
            && e.invoked
            && e.result == Err(RequestFailed(failure))
            && e.breaker.state == Open
            && e.breaker.expiry == Some(now + b.settings.timeout)
            && e.log == [StateChange(b.settings.name, Closed, Open)]
  {
  }

  /** A success while closed keeps the breaker closed and returns the reply unchanged. */
  lemma ClosedSuccessStaysClosed<T, E>(b: Breaker, now: nat, value: T)
    requires Valid(b) && b.state == Closed
    ensures var e := Execute<T, E>(b, now, Ok(value));
            e.invoked && e.result == Ok(value) && e.breaker.state == Closed && e.log == []
  {
  }

  /**
   * Until the timeout has passed an open breaker refuses every call without
   * running it: the outcome does not depend on the reply, and nothing changes.
   */
  lemma OpenRejectsUntilTimeout<T, E>(b: Breaker, now: nat, reply: Result<T, E>)
    requires Valid(b) && b.state == Open && now <= b.expiry.value
    ensures Execute(b, now, reply) == Executed(b, Err(Rejected(OpenState)), false, [])
  {
  }

  /**
   * Once the timeout has passed the breaker goes half-open and runs one
   * probe; its success closes the breaker and its failure reopens it for a
   * fresh timeout. Each change is logged.
   */
  lemma ProbeAfterTimeout<T, E>(b: Breaker, now: nat, reply: Result<T, E>)
    requires Valid(b) && b.state == Open && b.expiry.value < now
    ensures var e := Execute(b, now, reply);
            && e.invoked
            && (reply.Ok? ==>
                  && e.breaker.state == Closed
                  && e.log == [StateChange(b.settings.name, Open, HalfOpen), StateChange(b.settings.name, HalfOpen, Closed)])
            && (reply.Err? ==>
                  && e.breaker.state == Open
                  && e.breaker.expiry == Some(now + b.settings.timeout)
                  && e.log == [StateChange(b.settings.name, Open, HalfOpen), StateChange(b.settings.name, HalfOpen, Open)])
  {
  }

  /**
   * While the one half-open probe is running, every other call is refused
   * with ErrTooManyRequests, whenever it arrives.
   */
  lemma SingleHalfOpenProbe(b: Breaker, t1: nat, t2: nat)
    requires Valid(b)
    requires BeforeRequest(b, t1).ticket.Ok? && BeforeRequest(b, t1).breaker.state == HalfOpen
    ensures var probing := BeforeRequest(b, t1).breaker;
            BeforeRequest(probing, t2) == Admission(probing, Err(TooManyRequests), [])
  {
  }

  /**
   * Two calls admitted while closed: the first fails and trips the breaker;
   * the second then succeeds, but its ticket is from the old generation, so
   * the breaker stays open.
   */
  lemma {:induction false} LateSuccessDoesNotReclose(b: Breaker, t: nat, t1: nat, t2: nat)
    requires Valid(b) && b.state == Closed
    requires t2 <= t1 + b.settings.timeout
    ensures var first := BeforeRequest(b, t);
            var second := BeforeRequest(first.breaker, t);
            var tripped := AfterRequest(second.breaker, first.ticket.value, false, t1);
            var late := AfterRequest(tripped.breaker, second.ticket.value, true, t2);
            && first.ticket.Ok? && second.ticket.Ok?
            && tripped.breaker.state == Open
            && late == Step(tripped.breaker, [])
  {
    var first := BeforeRequest(b, t);
    var second := BeforeRequest(first.breaker, t);
    assert second.ticket == Ok(b.generation);
    var tripped := AfterRequest(second.breaker, first.ticket.value, false, t1);
    assert tripped.breaker.generation > b.generation;
  }

  /** Every Execute step logs at most the two changes Open, HalfOpen, then Closed or Open. */
  lemma {:induction false} AtMostTwoChangesPerCall<T, E>(b: Breaker, now: nat, reply: Result<T, E>)
    requires Valid(b)
    ensures |Execute(b, now, reply).log| <= 2
  {
    match b.state {
      case Closed =>
        if reply.Err? {
          TripsOnFirstFailure<T, E>(b, now, reply.error);
        }
      case Open =>
        if b.expiry.value < now {
          ProbeAfterTimeout(b, now, reply);
        } else {
          OpenRejectsUntilTimeout(b, now, reply);
        }
      case HalfOpen =>
    }
  }
}
