/** Status handlers: each matches a set of status codes and decides what a
    failed response means for the request in flight. A client-error handler
    fails the request; an unauthorised handler (status 401, section 15.5.2
    of RFC 9110) re-authorises the session and asks for a resend; a
    rate-limit handler (status 429, section 4 of RFC 6585) waits, either for
    the `Retry-After` delay (section 10.2.3 of RFC 9110) or for the next
    value of a wait timer. */
module Status {
  import opened Wrappers
  import opened Http
  import opened Timer

  datatype Kind = ClientError | Unauthorised | RateLimit

  datatype StatusHandler = StatusHandler(kind: Kind, codes: set<int>)

  /** The client-error handler matches every 4xx status. */
  const ClientErrorCodes: set<int> := set c: int | 400 <= c < 500

  const Unauthorised401: int := 401
  const TooManyRequests429: int := 429

  /** Each handler kind with its default status codes. */
  function Default(kind: Kind): (h: StatusHandler)
    ensures h.kind == kind
  {
    match kind
    case ClientError => StatusHandler(ClientError, ClientErrorCodes)
    case Unauthorised => StatusHandler(Unauthorised, {Unauthorised401})
    case RateLimit => StatusHandler(RateLimit, {TooManyRequests429})
  }

  /** `StatusHandlerError`: the handler was given a response it does not
      match. `ResponseError`: the response is a terminal failure. */
  datatype Failure = StatusHandlerError(status: int) | ResponseError(status: int)

  /** `match(response, fail_on_error)`. */
  function Match(h: StatusHandler, r: Response, failOnError: bool): (m: Result<bool, Failure>)
    ensures m.Ok? ==> (m.value <==> r.status in h.codes)
    ensures m.Err? <==> failOnError && r.status !in h.codes
    ensures m.Err? ==> m.error == StatusHandlerError(r.status)
  {
    if r.status in h.codes then Ok(true)
    else if failOnError then Err(StatusHandlerError(r.status))
    else Ok(false)
  }

  /** What a handler may use and change: the headers the authoriser would
      give, the session's default headers, and the two timers. An absent
      component was not passed. */
  datatype Context = Context(
    authoriser: Option<Headers>,
    session: Option<Headers>,
    retryTimer: Option<Timer>,
    waitTimer: Option<Timer>)

  predicate ValidTimer(t: Option<Timer>)
  {
    t.Some? ==> Valid(t.value.schedule)
  }

  predicate ValidContext(ctx: Context)
  {
    ValidTimer(ctx.retryTimer) && ValidTimer(ctx.waitTimer)
  }

  /** A handler's decision: whether to resend at once, the updated
      collaborators, and how long it waited first. */
  datatype Handled = Handled(retry: bool, context: Context, wait: real)

  /** Whether a `Retry-After` delay is longer than what the retry timer has
      left; an absent or unbounded retry timer leaves no limit. */
  predicate ExceedsRetryBudget(retryTimer: Option<Timer>, delay: nat)
    requires ValidTimer(retryTimer)
  {
    && retryTimer.Some?
    && TotalRemaining(retryTimer.value).Some?
    && delay as real > TotalRemaining(retryTimer.value).value
  }

  /** Calling a handler on a response. */
  function Handle(h: StatusHandler, r: Response, ctx: Context): (res: Result<Handled, Failure>)
    requires ValidContext(ctx)
    ensures r.status !in h.codes ==> res == Err(StatusHandlerError(r.status))
    ensures res.Ok? ==> && res.value.context.authoriser == ctx.authoriser
                        && res.value.context.retryTimer == ctx.retryTimer
                        && res.value.context.session.Some? == ctx.session.Some?
                        && ValidContext(res.value.context)
  {
    if r.status !in h.codes then Err(StatusHandlerError(r.status))
    else match h.kind
      case ClientError => Err(ResponseError(r.status))
      case Unauthorised =>
        if ctx.authoriser.Some? && ctx.session.Some? then
          Ok(Handled(true, ctx.(session := Some(MergeHeaders(ctx.session.value, ctx.authoriser.value))), 0.0))
        else Ok(Handled(false, ctx, 0.0))
      case RateLimit =>
        match RetryAfter(r)
        case Some(delay) =>
          if ExceedsRetryBudget(ctx.retryTimer, delay) then Err(ResponseError(r.status))
          else Ok(Handled(true, ctx, delay as real))
        case None =>
          match ctx.waitTimer
          case None => Ok(Handled(false, ctx, 0.0))
          case Some(w) =>
            var w' := Increase(w).timer;
            Ok(Handled(false, ctx.(waitTimer := Some(w')), w'.value))
  }

  /** Dispatch through an ordered chain: the first handler whose codes
      contain the status decides; when none does, the response is left
      unhandled. */
  function HandleChain(chain: seq<StatusHandler>, r: Response, ctx: Context): (res: Result<Handled, Failure>)
    requires ValidContext(ctx)
    ensures (forall i :: 0 <= i < |chain| ==> r.status !in chain[i].codes) ==> res == Ok(Handled(false, ctx, 0.0))
    ensures res.Ok? ==> && res.value.context.authoriser == ctx.authoriser
                        && res.value.context.retryTimer == ctx.retryTimer
                        && res.value.context.session.Some? == ctx.session.Some?
                        && ValidContext(res.value.context)
    decreases |chain|
  {
    if |chain| == 0 then Ok(Handled(false, ctx, 0.0))
    else if r.status in chain[0].codes then Handle(chain[0], r, ctx)
    else HandleChain(chain[1..], r, ctx)
  }

  // ---------------------------------------------------------------------
  // Properties
  // ---------------------------------------------------------------------

  /** The chain's decision is the decision of its first matching handler. */
  lemma {:induction false} ChainFirstMatch(chain: seq<StatusHandler>, r: Response, ctx: Context, i: nat)
    requires ValidContext(ctx)
    requires i < |chain| && r.status in chain[i].codes
    requires forall j :: 0 <= j < i ==> r.status !in chain[j].codes
    ensures HandleChain(chain, r, ctx) == Handle(chain[i], r, ctx)
    decreases i
  {
    if i > 0 {
      ChainFirstMatch(chain[1..], r, ctx, i - 1);
    }
  }

  /** A matching client-error handler always fails the request. */
  lemma ClientErrorFails(h: StatusHandler, r: Response, ctx: Context)
    requires ValidContext(ctx) && h.kind == ClientError
    ensures Handle(h, r, ctx) == Err(if r.status in h.codes then ResponseError(r.status) else StatusHandlerError(r.status))
  {
  }

  /** A matching unauthorised handler asks for a resend exactly when both an
      authoriser and a session are given; then the session's headers carry
      every authoriser header, and nothing else changes. */
  lemma UnauthorisedDecision(h: StatusHandler, r: Response, ctx: Context)
    requires ValidContext(ctx) && h.kind == Unauthorised && r.status in h.codes
    ensures Handle(h, r, ctx).Ok?
    ensures Handle(h, r, ctx).value.retry <==> ctx.authoriser.Some? && ctx.session.Some?
    ensures !Handle(h, r, ctx).value.retry ==> Handle(h, r, ctx).value.context == ctx
    ensures Handle(h, r, ctx).value.retry ==>
      var s := Handle(h, r, ctx).value.context.session.value;
      && (forall k :: k in ctx.authoriser.value ==> k in s && s[k] == ctx.authoriser.value[k])
      && (forall k :: k in ctx.session.value && !Shadowed(ctx.authoriser.value, k) ==> k in s && s[k] == ctx.session.value[k])
      && (forall k :: k in s ==> k in ctx.authoriser.value || (k in ctx.session.value && !Shadowed(ctx.authoriser.value, k)))
    ensures Handle(h, r, ctx).value.wait == 0.0
  {
  }

  /** With a `Retry-After` header, a matching rate-limit handler fails
      exactly when the delay exceeds the retry timer's remaining total;
      otherwise it waits that delay and asks for a resend, leaving both
      timers alone. */
  lemma RateLimitWithHeader(h: StatusHandler, r: Response, ctx: Context, delay: nat)
    requires ValidContext(ctx) && h.kind == RateLimit && r.status in h.codes
    requires RetryAfter(r) == Some(delay)
    ensures Handle(h, r, ctx).Err? <==> ExceedsRetryBudget(ctx.retryTimer, delay)
    ensures Handle(h, r, ctx).Err? ==> Handle(h, r, ctx).error == ResponseError(r.status)
    ensures Handle(h, r, ctx).Ok? ==> Handle(h, r, ctx).value == Handled(true, ctx, delay as real)
  {
  }

  /** Without a `Retry-After` header, a matching rate-limit handler does not
      ask for a resend; it advances the wait timer by one increase and waits
      its new value, and never touches the retry timer. */
  lemma RateLimitWithoutHeader(h: StatusHandler, r: Response, ctx: Context)
    requires ValidContext(ctx) && h.kind == RateLimit && r.status in h.codes
    requires RetryAfter(r).None?
    ensures Handle(h, r, ctx).Ok? && !Handle(h, r, ctx).value.retry
    ensures Handle(h, r, ctx).value.context.retryTimer == ctx.retryTimer
    ensures Handle(h, r, ctx).value.context.session == ctx.session
    ensures ctx.waitTimer.Some? ==>
      && Handle(h, r, ctx).value.context.waitTimer == Some(Increase(ctx.waitTimer.value).timer)
      && Handle(h, r, ctx).value.wait == Increase(ctx.waitTimer.value).timer.value
    ensures ctx.waitTimer.None? ==> Handle(h, r, ctx).value == Handled(false, ctx, 0.0)
  {
  }

  /** Handling the same header-less rate-limited response `n` times. */
  function RateLimitRepeated(h: StatusHandler, r: Response, ctx: Context, n: nat): (c: Context)
    requires ValidContext(ctx) && h.kind == RateLimit && r.status in h.codes && RetryAfter(r).None?
    ensures ValidContext(c) && c.retryTimer == ctx.retryTimer
    decreases n
  {
    if n == 0 then ctx
    else RateLimitRepeated(h, r, Handle(h, r, ctx).value.context, n - 1)
  }

  /** Repeated header-less rate limiting drives the wait timer to its bound
      and keeps it there, never touching the retry timer. */
  lemma {:induction false} RateLimitSaturates(h: StatusHandler, r: Response, ctx: Context, n: nat)
    requires ValidContext(ctx) && h.kind == RateLimit && r.status in h.codes && RetryAfter(r).None?
    requires ctx.waitTimer.Some? && Reachable(ctx.waitTimer.value) && Bounded(ctx.waitTimer.value.schedule)
    requires n >= Count(ctx.waitTimer.value.schedule).value - ctx.waitTimer.value.counter
    ensures var w := RateLimitRepeated(h, r, ctx, n).waitTimer;
      && w.Some? && Reachable(w.value) && !CanIncrease(w.value)
      && w.value.value == ValueAt(w.value.schedule, Count(w.value.schedule).value)
    ensures RateLimitRepeated(h, r, ctx, n).retryTimer == ctx.retryTimer
    decreases n
  {
    var w := ctx.waitTimer.value;
    CanIncreaseIffBelowCount(w);
    if n == 0 {
    } else {
      var next := Handle(h, r, ctx).value.context;
      if CanIncrease(w) {
        IncreaseFollowsSchedule(w);
      }
      RateLimitSaturates(h, r, next, n - 1);
    }
  }

  // ---------------------------------------------------------------------
  // The documented cases
  // ---------------------------------------------------------------------

  function SomeRequest(): RequestInfo
  {
    RequestInfo(GET, Url("http://test.com", "/", map[]))
  }

  /** A 429 asking to retry after one second is retried when there is no
      retry timer, and fails against a retry timer with nothing left. */
  lemma RateLimitHeaderExample()
    ensures var r := Response(SomeRequest(), 429, map[RetryAfterHeader := "1"], "");
      && Handle(Default(RateLimit), r, Context(None, None, None, None)) == Ok(Handled(true, Context(None, None, None, None), 1.0))
      && Handle(Default(RateLimit), r, Context(None, None, Some(StepCountTimer(0.1, 0, 0.01)), None)) == Err(ResponseError(429))
  {
    var r := Response(SomeRequest(), 429, map[RetryAfterHeader := "1"], "");
    assert RetryAfter(r) == Some(1) by {
      HeaderFindsStored(r.headers, RetryAfterHeader, RetryAfterHeader);
    }
    var none := Context(None, None, None, None);
    assert Handle(Default(RateLimit), r, none) == Ok(Handled(true, none, 1.0)) by {
      RateLimitWithHeader(Default(RateLimit), r, none, 1);
    }
    var spent := Context(None, None, Some(StepCountTimer(0.1, 0, 0.01)), None);
    assert Handle(Default(RateLimit), r, spent) == Err(ResponseError(429)) by {
      SpentRetryTimer();
      RateLimitWithHeader(Default(RateLimit), r, spent, 1);
    }
  }

  /** A retry timer of no increases has no time left for a one-second
      delay. */
  lemma SpentRetryTimer()
    ensures ValidTimer(Some(StepCountTimer(0.1, 0, 0.01))) && ExceedsRetryBudget(Some(StepCountTimer(0.1, 0, 0.01)), 1)
  {
  }

  /** Two header-less 429s against a wait timer of two increases: the first
      moves it strictly between its initial and final values, the second
      reaches the final value; the retry timer stays at its initial value. */
  lemma RateLimitTimersExample()
    ensures
      var r := Response(SomeRequest(), 429, map[], "");
      var ctx := Context(None, None, Some(StepCountTimer(0.1, 3, 0.1)), Some(StepCountTimer(0.1, 2, 0.1)));
      var once := Handle(Default(RateLimit), r, ctx).value.context;
      var twice := Handle(Default(RateLimit), r, once).value.context;
      && 0.1 < once.waitTimer.value.value < Final(once.waitTimer.value.schedule).value
      && once.retryTimer.value.value == 0.1
      && twice.waitTimer.value.value == Final(twice.waitTimer.value.schedule).value
      && twice.retryTimer.value.value == 0.1
  {
  }

  /** The chain unauthorised, rate-limit, client-error: a 400 fails, a 401
      is retried (it reaches the unauthorised handler first even though the
      client-error codes contain it), a header-less 429 is not retried. */
  lemma ChainExample(auth: Headers, session: Headers)
    ensures
      var chain := [Default(Unauthorised), Default(RateLimit), Default(ClientError)];
      var ctx := Context(Some(auth), Some(session), None, None);
      && HandleChain(chain, Response(SomeRequest(), 400, map[], ""), ctx) == Err(ResponseError(400))
      && HandleChain(chain, Response(SomeRequest(), 401, map[], ""), ctx).Ok?
      && HandleChain(chain, Response(SomeRequest(), 401, map[], ""), ctx).value.retry
      && HandleChain(chain, Response(SomeRequest(), 429, map[], ""), ctx).Ok?
      && !HandleChain(chain, Response(SomeRequest(), 429, map[], ""), ctx).value.retry
  {
    var chain := [Default(Unauthorised), Default(RateLimit), Default(ClientError)];
    assert 400 in ClientErrorCodes && 401 in ClientErrorCodes;
  }
}
