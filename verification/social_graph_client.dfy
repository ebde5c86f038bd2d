/**
 * The social-graph client of the tweet service: three RPCs, each behind the
 * one breaker the client owns, with the service's error codes.
 *
 * Dialling the social-graph service and the RPC itself are not modelled;
 * their outcomes are parameters (`dial`, `reply`). The request an operation
 * sends, if any, is part of its result, so "the RPC is not called" is
 * `sent == None`.
 */
module SocialGraphClient {
  import opened Results
  import opened Clock
  import opened CircuitBreaker

  type Username = string

  /** The settings CircuitBreaker() passes to gobreaker. */
  const ServiceSettings := Settings("SocialGraph", 1, 0, 5 * Second)

  /** model.TargetGroup as sent in SocialGraphTargetUsersGroup. */
  datatype TargetGroup = TargetGroup(town: string, gender: string, minAge: int, maxAge: int)

  datatype Rpc =
    | CheckVisibilityRpc(target: Username)
    | GetMyFollowersRpc
    | GetTargetGroupUserRpc(group: TargetGroup)

  /** An RPC as sent: the method with its argument, and the outgoing metadata. */
  datatype Request = Request(rpc: Rpc, metadata: map<string, string>)

  /** The outcome of dialling the social-graph service. */
  datatype Dial = Connected | DialError(message: string)

  /** app_errors.AppError: a status code and what caused it. */
  datatype AppError = AppError(code: int, cause: Cause)

  datatype Cause =
    | DialFailed(message: string)
    | RpcFailed(message: string)
    | Refused(reason: Rejection)
      /** The 503 wrapped around an error Execute returned from the request. */
    | Wrapped(inner: AppError)

  /** An operation's result, the breaker afterwards, the request sent and the state changes logged. */
  datatype Call<+T> = Call(breaker: Breaker, result: Result<T, AppError>, sent: Option<Request>, log: seq<StateChange>)

  /** The error the request closure returns when the RPC fails. */
  function RequestError<T>(reply: Result<T, string>): (r: Result<T, AppError>)
    ensures r.Ok? <==> reply.Ok?
    ensures reply.Ok? ==> r.value == reply.value
    ensures reply.Err? ==> r.error.code == 500 && r.error.cause == RpcFailed(reply.error)
  {
    match reply
    case Ok(v) => Ok(v)
    case Err(message) => Err(AppError(500, RpcFailed(message)))
  }

  /** A process-level outcome: what was returned, or the line log.Fatalf wrote before exiting. */
  datatype Process<+T> = Running(value: T) | Exited(logLine: string)

  const FatalPrefix: string := "Failed to start gRPC connection: "

  /** The line GetgRPCConnection logs through log.Fatalf when dialling fails. */
  function FatalLine(message: string): (line: string)
    ensures |line| == |FatalPrefix| + |message|
    ensures line[..|FatalPrefix|] == FatalPrefix && line[|FatalPrefix|..] == message
  {
    FatalPrefix + message
  }

  /**
   * What an operation answers once its request ran: the reply's value, or
   * the 503 Execute's error becomes, wrapping the request's 500.
   */
  function Answer<T>(reply: Result<T, string>): (r: Result<T, AppError>)
    ensures r.Ok? <==> reply.Ok?
    ensures reply.Ok? ==> r.value == reply.value
    ensures reply.Err? ==> r.error == AppError(503, Wrapped(AppError(500, RpcFailed(reply.error))))
  {
    match reply
    case Ok(v) => Ok(v)
    case Err(m) => Err(AppError(503, Wrapped(AppError(500, RpcFailed(m)))))
  }

  /**
   * An operation as written: GetgRPCConnection ends the process on a dial
   * error, so the operation's own 500 branch never runs and every error a
   * running client returns is a 503.
   */
  function GuardedAsWritten<T>(b: Breaker, dial: Dial, request: Request, reply: Result<T, string>, now: nat): (p: Process<Call<T>>)
    ensures p.Exited? <==> dial.DialError?
    ensures p.Exited? ==> p.logLine == FatalLine(dial.message)
    ensures p.Running? && p.value.result.Err? ==> p.value.result.error.code == 503
    ensures p.Running? ==> p.value == Guarded(b, dial, request, reply, now)
  {
    match dial
    case DialError(message) => Exited(FatalLine(message))
    case Connected => Running(Guarded(b, dial, request, reply, now))
  }

  /**
   * The shape all three operations share: a dial error is a 500 before the
   * breaker is consulted; otherwise the RPC runs through Execute and any
   * error Execute returns is a 503.
   */
  function Guarded<T>(b: Breaker, dial: Dial, request: Request, reply: Result<T, string>, now: nat): (c: Call<T>)
    ensures dial.DialError? ==> c == Call(b, Err(AppError(500, DialFailed(dial.message))), None, [])
    ensures dial.Connected? && c.result.Err? ==> c.result.error.code == 503
    ensures c.result.Ok? ==> reply == Ok(c.result.value) && c.sent == Some(request)
    ensures c.sent.Some? ==> c.sent == Some(request)
    ensures c.breaker.settings == b.settings
    ensures c.sent.Some? ==> c.result == Answer(reply)
    ensures dial.Connected? ==> (c.sent.Some? <==> BeforeRequest(b, now).ticket.Ok?)
    ensures dial.Connected? && c.sent.None? ==> c.result == Err(AppError(503, Refused(BeforeRequest(b, now).ticket.error)))
    ensures Valid(b) ==> Valid(c.breaker)
    ensures Chain(b.settings.name, b.state, c.log, c.breaker.state)
    ensures dial.Connected? && c.sent.None? ==> c.breaker == CurrentState(b, now).breaker
    ensures Valid(b) && c.sent.Some? ==>
              && c.breaker.state == (if reply.Ok? then Closed else Open)
              && (reply.Err? ==> c.breaker.expiry == Some(now + b.settings.timeout))
  {
    match dial
    case DialError(message) => Call(b, Err(AppError(500, DialFailed(message))), None, [])
    case Connected =>
      var e := Execute(b, now, RequestError(reply));
      var result := match e.result
        case Ok(v) => Ok(v)
        case Err(Rejected(why)) => Err(AppError(503, Refused(why)))
        case Err(RequestFailed(inner)) => Err(AppError(503, Wrapped(inner)));
      Call(e.breaker, result, if e.invoked then Some(request) else None, e.log)
  }

  /** CheckVisibility: may the caller see `target`'s tweets? */
  function CheckVisibility(b: Breaker, authUsername: Username, target: Username, dial: Dial, reply: Result<bool, string>, now: nat): (c: Call<bool>)
    ensures c.sent.Some? ==> c.sent.value == Request(CheckVisibilityRpc(target), map["authUsername" := authUsername])
    ensures c.result.Ok? ==> reply == Ok(c.result.value)
    ensures dial.DialError? ==> c.result == Err(AppError(500, DialFailed(dial.message))) && c.breaker == b && c.sent == None
    ensures dial.Connected? && c.result.Err? ==> c.result.error.code == 503
    ensures c.sent.Some? ==> c.result == Answer(reply)
    ensures dial.Connected? ==> (c.sent.Some? <==> BeforeRequest(b, now).ticket.Ok?)
    ensures dial.Connected? && c.sent.None? ==> c.result == Err(AppError(503, Refused(BeforeRequest(b, now).ticket.error)))
    ensures Valid(b) ==> Valid(c.breaker)
    ensures Chain(b.settings.name, b.state, c.log, c.breaker.state)
    ensures dial.Connected? && c.sent.None? ==> c.breaker == CurrentState(b, now).breaker
    ensures Valid(b) && c.sent.Some? ==>
              && c.breaker.state == (if reply.Ok? then Closed else Open)
              && (reply.Err? ==> c.breaker.expiry == Some(now + b.settings.timeout))
  {
    Guarded(b, dial, Request(CheckVisibilityRpc(target), map["authUsername" := authUsername]), reply, now)
  }

  /** GetMyFollowers: the caller's followers. */
  function GetMyFollowers(b: Breaker, authUsername: Username, dial: Dial, reply: Result<seq<Username>, string>, now: nat): (c: Call<seq<Username>>)
    ensures c.sent.Some? ==> c.sent.value == Request(GetMyFollowersRpc, map["authUsername" := authUsername])
    ensures c.result.Ok? ==> reply == Ok(c.result.value)
    ensures dial.DialError? ==> c.result == Err(AppError(500, DialFailed(dial.message))) && c.breaker == b && c.sent == None
    ensures dial.Connected? && c.result.Err? ==> c.result.error.code == 503
    ensures c.sent.Some? ==> c.result == Answer(reply)
    ensures dial.Connected? ==> (c.sent.Some? <==> BeforeRequest(b, now).ticket.Ok?)
    ensures dial.Connected? && c.sent.None? ==> c.result == Err(AppError(503, Refused(BeforeRequest(b, now).ticket.error)))
    ensures Valid(b) ==> Valid(c.breaker)
    ensures Chain(b.settings.name, b.state, c.log, c.breaker.state)
    ensures dial.Connected? && c.sent.None? ==> c.breaker == CurrentState(b, now).breaker
    ensures Valid(b) && c.sent.Some? ==>
              && c.breaker.state == (if reply.Ok? then Closed else Open)
              && (reply.Err? ==> c.breaker.expiry == Some(now + b.settings.timeout))
  {
    Guarded(b, dial, Request(GetMyFollowersRpc, map["authUsername" := authUsername]), reply, now)
  }

  /** GetTargetGroupUsers: the users an ad's target group selects; no caller metadata is sent. */
  function GetTargetGroupUsers(b: Breaker, group: TargetGroup, dial: Dial, reply: Result<seq<Username>, string>, now: nat): (c: Call<seq<Username>>)
    ensures c.sent.Some? ==> c.sent.value == Request(GetTargetGroupUserRpc(group), map[])
    ensures c.result.Ok? ==> reply == Ok(c.result.value)
    ensures dial.DialError? ==> c.result == Err(AppError(500, DialFailed(dial.message))) && c.breaker == b && c.sent == None
    ensures dial.Connected? && c.result.Err? ==> c.result.error.code == 503
    ensures c.sent.Some? ==> c.result == Answer(reply)
    ensures dial.Connected? ==> (c.sent.Some? <==> BeforeRequest(b, now).ticket.Ok?)
    ensures dial.Connected? && c.sent.None? ==> c.result == Err(AppError(503, Refused(BeforeRequest(b, now).ticket.error)))
    ensures Valid(b) ==> Valid(c.breaker)
    ensures Chain(b.settings.name, b.state, c.log, c.breaker.state)
    ensures dial.Connected? && c.sent.None? ==> c.breaker == CurrentState(b, now).breaker
    ensures Valid(b) && c.sent.Some? ==>
              && c.breaker.state == (if reply.Ok? then Closed else Open)
              && (reply.Err? ==> c.breaker.expiry == Some(now + b.settings.timeout))
  {
    var tg := TargetGroup(group.town, group.gender, group.minAge, group.maxAge);
    Guarded(b, dial, Request(GetTargetGroupUserRpc(tg), map[]), reply, now)
  }
}
