/**
 * The circuit breaker guarding the social-graph RPCs: the algorithm of
 * sony/gobreaker, driven by the settings both social-graph breakers pass to
 * it (one consecutive failure trips it, one half-open probe, a 5 second open
 * timeout, counts never cleared while closed, every state change logged).
 *
 * gobreaker guards its state with a mutex; each of its two critical
 * sections, BeforeRequest and AfterRequest, is one function here, and the
 * clock is an explicit `now`. A call that is still running is represented by
 * the ticket BeforeRequest handed out, so overlapping calls are sequences of
 * these steps.
 */
module CircuitBreaker {
  import opened Results
  import opened Clock

  datatype State = Closed | HalfOpen | Open

  /** gobreaker's Counts: the requests and outcomes of the current generation. */
  datatype Counts = Counts(
    requests: nat,
    totalSuccesses: nat,
    totalFailures: nat,
    consecutiveSuccesses: nat,
    consecutiveFailures: nat)

  const NoCounts := Counts(0, 0, 0, 0, 0)

  function OnRequest(c: Counts): Counts
  {
    c.(requests := c.requests + 1)
  }

  function OnSuccess(c: Counts): Counts
  {
    c.(totalSuccesses := c.totalSuccesses + 1, consecutiveSuccesses := c.consecutiveSuccesses + 1, consecutiveFailures := 0)
  }

  function OnFailure(c: Counts): Counts
  {
    c.(totalFailures := c.totalFailures + 1, consecutiveFailures := c.consecutiveFailures + 1, consecutiveSuccesses := 0)
  }

  /** gobreaker.Settings; the trip rule is ReadyToTrip below. */
  datatype Settings = Settings(name: string, maxRequests: nat, interval: nat, timeout: nat)

  /** gobreaker's timeout when the settings leave it zero. */
  const DefaultTimeout: nat := 60 * Second

  /** The ReadyToTrip of both social-graph breakers: any consecutive failure trips. */
  predicate ReadyToTrip(c: Counts): (trip: bool)
    ensures trip <==> c.consecutiveFailures != 0
    ensures c == NoCounts ==> !trip
  {
    c.consecutiveFailures > 0
  }

  /** Counts that have just recorded a failure always trip; counts that have just recorded a success never do. */
  lemma ReadyToTripAfterAnyFailure(c: Counts)
    ensures ReadyToTrip(OnFailure(c))
    ensures !ReadyToTrip(OnSuccess(c))
  {
  }

  /**
   * The breaker: settings, state, generation, counts and expiry. An expiry of
   * None is Go's zero time, which is before every instant.
   */
  datatype Breaker = Breaker(settings: Settings, state: State, generation: nat, counts: Counts, expiry: Option<nat>)

  /** One call of OnStateChange: the breaker's name and the two states. */
  datatype StateChange = StateChange(name: string, from: State, to: State)

  /** A breaker after one critical section, with the state changes it logged. */
  datatype Step = Step(breaker: Breaker, log: seq<StateChange>)

  /** The policy both social-graph breakers configure. */
  predicate SocialGraphPolicy(s: Settings)
  {
    s.maxRequests == 1 && s.interval == 0 && s.timeout > 0
  }

  /**
   * What the policy keeps true between critical sections: a closed breaker
   * has no expiry and no pending failure, an open one has an expiry, and a
   * half-open one has admitted at most one probe and recorded no success.
   */
  predicate Valid(b: Breaker)
  {
    && SocialGraphPolicy(b.settings)
    && match b.state
       case Closed => b.expiry.None? && b.counts.consecutiveFailures == 0
       case Open => b.expiry.Some?
       case HalfOpen => b.expiry.None? && b.counts.requests <= 1 && b.counts.consecutiveSuccesses == 0
  }

  /**
   * `log` leads from state `from` to state `to`, one entry per change, each
   * naming the breaker and a state different from the one before it.
   */
  predicate Chain(name: string, from: State, log: seq<StateChange>, to: State)
    decreases |log|
  {
    if log == [] then from == to
    else
      && log[0].name == name
      && log[0].from == from
      && log[0].to != from
      && Chain(name, log[0].to, log[1..], to)
  }

  lemma {:induction false} ChainAppend(name: string, a: State, l1: seq<StateChange>, b: State, l2: seq<StateChange>, c: State)
    requires Chain(name, a, l1, b) && Chain(name, b, l2, c)
    ensures Chain(name, a, l1 + l2, c)
    decreases |l1|
  {
    if l1 != [] {
      ChainAppend(name, l1[0].to, l1[1..], b, l2, c);
      assert (l1 + l2)[1..] == l1[1..] + l2;
    } else {
      assert l1 + l2 == l2;
    }
  }

  /** The instant the expiry denotes lies before `now`. */
  predicate ExpiredBy(expiry: Option<nat>, now: nat)
  {
    match expiry
    case None => true
    case Some(t) => t < now
  }

  /** toNewGeneration: a fresh generation, cleared counts and the expiry of the current state. */
  function NewGeneration(b: Breaker, now: nat): (b': Breaker)
    ensures b'.generation > b.generation && b'.counts == NoCounts
    ensures b'.state == b.state && b'.settings == b.settings
    ensures b.state == Open ==> b'.expiry == Some(now + b.settings.timeout)
    ensures b.state == Closed && b.settings.interval > 0 ==> b'.expiry == Some(now + b.settings.interval)
    ensures b.state == HalfOpen || (b.state == Closed && b.settings.interval == 0) ==> b'.expiry.None?
  {
    var expiry := match b.state
      case Closed => if b.settings.interval == 0 then None else Some(now + b.settings.interval)
      case Open => Some(now + b.settings.timeout)
      case HalfOpen => None;
    b.(generation := b.generation + 1, counts := NoCounts, expiry := expiry)
  }

  /**
   * NewCircuitBreaker: a zero MaxRequests means one and a zero Timeout means
   * the default; the breaker starts closed.
   */
  function New(s: Settings, now: nat): (b: Breaker)
    ensures b.state == Closed && b.counts == NoCounts
    ensures b.settings.name == s.name && b.settings.interval == s.interval
    ensures b.settings.maxRequests == (if s.maxRequests == 0 then 1 else s.maxRequests)
    ensures b.settings.timeout == (if s.timeout == 0 then DefaultTimeout else s.timeout)
    ensures s.maxRequests == 1 && s.interval == 0 ==> Valid(b)
  {
    var settings := s.(
      maxRequests := if s.maxRequests == 0 then 1 else s.maxRequests,
      timeout := if s.timeout == 0 then DefaultTimeout else s.timeout);
    NewGeneration(Breaker(settings, Closed, 0, NoCounts, None), now)
  }

  /** setState: a change of state starts a new generation and is logged once. */
  function SetState(b: Breaker, to: State, now: nat): (s: Step)
    ensures s.breaker.state == to && s.breaker.settings == b.settings
    ensures Chain(b.settings.name, b.state, s.log, to)
    ensures |s.log| <= 1
    ensures b.state == to ==> s == Step(b, [])
    ensures b.state != to ==>
              && s.breaker.generation > b.generation
              && s.breaker.counts == NoCounts
              && (to == Open ==> s.breaker.expiry == Some(now + b.settings.timeout))
              && (to != Open ==> s.breaker.expiry.None? || b.settings.interval > 0)
  {
    if b.state == to then Step(b, [])
    else Step(NewGeneration(b.(state := to), now), [StateChange(b.settings.name, b.state, to)])
  }

  /**
   * currentState: a closed breaker whose interval expired starts a new
   * generation; an open breaker whose timeout expired becomes half-open.
   */
  function CurrentState(b: Breaker, now: nat): (s: Step)
    ensures s.breaker.settings == b.settings
    ensures Chain(b.settings.name, b.state, s.log, s.breaker.state)
    ensures Valid(b) ==> Valid(s.breaker)
    ensures Valid(b) && b.state == Open && !ExpiredBy(b.expiry, now) ==> s == Step(b, [])
    ensures Valid(b) && b.state == Open && ExpiredBy(b.expiry, now) ==>
              && s.breaker.state == HalfOpen
              && s.breaker.counts == NoCounts
              && s.breaker.generation > b.generation
              && s.log == [StateChange(b.settings.name, Open, HalfOpen)]
    ensures Valid(b) && b.state != Open ==> s == Step(b, [])
  {
    match b.state
    case Closed =>
      if b.expiry.Some? && b.expiry.value < now then Step(NewGeneration(b, now), []) else Step(b, [])
    case Open =>
      if ExpiredBy(b.expiry, now) then SetState(b, HalfOpen, now) else Step(b, [])
    case HalfOpen => Step(b, [])
  }

  /** Why a call was refused without running: ErrOpenState or ErrTooManyRequests. */
  datatype Rejection = OpenState | TooManyRequests

  /** The outcome of beforeRequest: the ticket (generation) of an admitted call, or the refusal. */
  datatype Admission = Admission(breaker: Breaker, ticket: Result<nat, Rejection>, log: seq<StateChange>)

  /**
   * beforeRequest: an open breaker refuses, a half-open breaker refuses once
   * MaxRequests calls are admitted, anything else counts the request and
   * hands out the current generation.
   */
  function BeforeRequest(b: Breaker, now: nat): (a: Admission)
    ensures a.breaker.settings == b.settings
    ensures Chain(b.settings.name, b.state, a.log, a.breaker.state)
    ensures Valid(b) ==> Valid(a.breaker)
    ensures a.ticket.Err? ==> a.breaker == CurrentState(b, now).breaker
    ensures a.ticket == Err(OpenState) <==> CurrentState(b, now).breaker.state == Open
    ensures a.ticket.Ok? ==> a.ticket.value == a.breaker.generation && a.breaker.state != Open
    ensures Valid(b) ==>
              var cur := CurrentState(b, now).breaker;
              a.ticket.Ok? <==> cur.state == Closed || (cur.state == HalfOpen && cur.counts.requests == 0)
    ensures a.ticket.Ok? ==>
              a.breaker.counts.requests == CurrentState(b, now).breaker.counts.requests + 1
    ensures a.ticket.Ok? ==>
              && a.ticket.value == CurrentState(b, now).breaker.generation
              && a.breaker.(counts := CurrentState(b, now).breaker.counts) == CurrentState(b, now).breaker
    ensures a.log == CurrentState(b, now).log
  {
    var cur := CurrentState(b, now);
    var c := cur.breaker;
    if c.state == Open then Admission(c, Err(OpenState), cur.log)
    else if c.state == HalfOpen && c.counts.requests >= c.settings.maxRequests then Admission(c, Err(TooManyRequests), cur.log)
    else Admission(c.(counts := OnRequest(c.counts)), Ok(c.generation), cur.log)
  }

  /** onSuccess: a half-open breaker closes after MaxRequests consecutive successes. */
  function Succeeded(c: Breaker, now: nat): (s: Step)
    ensures s.breaker.settings == c.settings
    ensures Chain(c.settings.name, c.state, s.log, s.breaker.state)
    ensures SocialGraphPolicy(c.settings) && c.state != Open ==> s.breaker.state == Closed
    ensures c.state == Open ==> s == Step(c, [])
  {
    match c.state
    case Closed => Step(c.(counts := OnSuccess(c.counts)), [])
    case HalfOpen =>
      var c' := c.(counts := OnSuccess(c.counts));
      if c'.counts.consecutiveSuccesses >= c'.settings.maxRequests then SetState(c', Closed, now) else Step(c', [])
    case Open => Step(c, [])
  }

  /** onFailure: a closed breaker trips when ReadyToTrip holds; a half-open one reopens. */
  function Failed(c: Breaker, now: nat): (s: Step)
    ensures s.breaker.settings == c.settings
    ensures Chain(c.settings.name, c.state, s.log, s.breaker.state)
    ensures c.state != Open ==>
              && s.breaker.state == Open
              && s.breaker.expiry == Some(now + c.settings.timeout)
              && s.log == [StateChange(c.settings.name, c.state, Open)]
    ensures c.state == Open ==> s == Step(c, [])
  {
    match c.state
    case Closed =>
      var c' := c.(counts := OnFailure(c.counts));
      if ReadyToTrip(c'.counts) then SetState(c', Open, now) else Step(c', [])
    case HalfOpen => SetState(c, Open, now)
    case Open => Step(c, [])
  }

  /**
   * afterRequest: the outcome of a call counts only if the breaker is still
   * in the generation that admitted it.
   */
  function AfterRequest(b: Breaker, ticket: nat, success: bool, now: nat): (s: Step)
    ensures s.breaker.settings == b.settings
    ensures Chain(b.settings.name, b.state, s.log, s.breaker.state)
    ensures Valid(b) ==> Valid(s.breaker)
    ensures CurrentState(b, now).breaker.generation != ticket ==> s == CurrentState(b, now)
    ensures Valid(b) && CurrentState(b, now).breaker.generation == ticket && CurrentState(b, now).breaker.state != Open ==>
              && s.breaker.state == (if success then Closed else Open)
              && (!success ==> s.breaker.expiry == Some(now + b.settings.timeout))
  {
    var cur := CurrentState(b, now);
    var c := cur.breaker;
    if c.generation != ticket then cur
    else
      var next := if success then Succeeded(c, now) else Failed(c, now);
      ChainAppend(b.settings.name, b.state, cur.log, c.state, next.log, next.breaker.state);
      Step(next.breaker, cur.log + next.log)
  }

  /** The error Execute returns: a refusal, or the request's own error. */
  datatype ExecError<+E> = Rejected(reason: Rejection) | RequestFailed(error: E)

  /** What Execute returns, whether it ran the request, and the state changes logged. */
  datatype Executed<+T, +E> = Executed(breaker: Breaker, result: Result<T, ExecError<E>>, invoked: bool, log: seq<StateChange>)

  /**
   * Execute with a request that completes at the same instant it starts and
   * answers `reply`; a request that returns a nil error is a success.
   */
  function Execute<T, E>(b: Breaker, now: nat, reply: Result<T, E>): (e: Executed<T, E>)
    ensures e.breaker.settings == b.settings
    ensures Valid(b) ==> Valid(e.breaker)
    ensures Chain(b.settings.name, b.state, e.log, e.breaker.state)
    ensures e.invoked <==> !e.result.Err? || !e.result.error.Rejected?
    ensures e.invoked ==> e.result == match reply case Ok(v) => Ok(v) case Err(x) => Err(RequestFailed(x))
    ensures !e.invoked ==> e.breaker == CurrentState(b, now).breaker
    ensures e.invoked <==> BeforeRequest(b, now).ticket.Ok?
    ensures !e.invoked ==> e.result == Err(Rejected(BeforeRequest(b, now).ticket.error))
    ensures Valid(b) && e.invoked && reply.Ok? ==> e.breaker.state == Closed
    ensures Valid(b) && e.invoked && reply.Err? ==>
              e.breaker.state == Open && e.breaker.expiry == Some(now + b.settings.timeout)
  {
    var adm := BeforeRequest(b, now);
    match adm.ticket
    case Err(why) => Executed(adm.breaker, Err(Rejected(why)), false, adm.log)
    case Ok(g) =>
      var after := AfterRequest(adm.breaker, g, reply.Ok?, now);
      ChainAppend(b.settings.name, b.state, adm.log, adm.breaker.state, after.log, after.breaker.state);
      var result := match reply case Ok(v) => Ok(v) case Err(x) => Err(RequestFailed(x));
      Executed(after.breaker, result, true, adm.log + after.log)
  }

  /** The line OnStateChange prints, with gobreaker's names for the states. */
  function StateName(s: State): (n: string)
    ensures n == "closed" <==> s == Closed
    ensures n == "half-open" <==> s == HalfOpen
    ensures n == "open" <==> s == Open
  {
    match s
    case Closed => "closed"
    case HalfOpen => "half-open"
    case Open => "open"
  }

  const LogPrefix: string := "Circuit Breaker '"

  function LogLine(c: StateChange): (line: string)
    ensures |line| > |LogPrefix| + |c.name|
    ensures line[..|LogPrefix|] == LogPrefix
    ensures line[|LogPrefix|..|LogPrefix| + |c.name|] == c.name
    ensures line[|LogPrefix| + |c.name|..] == "' changed from '" + StateName(c.from) + "' to '" + StateName(c.to) + "'\n"
    ensures line[|line| - 1] == '\n'
  {
    var tail := "' changed from '" + StateName(c.from) + "' to '" + StateName(c.to) + "'\n";
    assert tail[|tail| - 1] == '\n';
    LogPrefix + c.name + tail
  }
}
