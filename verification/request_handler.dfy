/** The request handler: sends a request through its cached session and
    drives the recovery loop. Each call works on its own fresh copy of the
    handler's retry timer. A sent request's response first goes through the
    status-handler chain: a handler that asks for it makes the request be
    sent again at once, a handler that fails ends the call. Otherwise a
    successful response is returned, and a failed one is logged and
    retried while the retry timer allows, or turned into an error when it
    does not. A transport error is retried by the same rule. The server's
    answers are given as a sequence, one per call to the server. */
module RequestHandler {
  import opened Wrappers
  import opened Http
  import opened Timer
  import Timers = Timer
  import opened Status
  import opened Repository
  import opened Registry
  import opened CachedSession

  datatype Handler = Handler(
    authoriser: Headers,              // the headers the authoriser gives
    cache: Cache,
    session: Option<Session>,         // present while the handler is entered
    headers: Headers,                 // the session's default headers
    payloadHandler: PayloadHandler,
    retryTemplate: Option<Timer>,
    waitTimer: Option<Timer>,
    chain: seq<StatusHandler>)

  predicate ValidHandler(h: Handler)
  {
    && ValidTimer(h.retryTemplate) && ValidTimer(h.waitTimer)
    && (h.retryTemplate.Some? ==> Reachable(h.retryTemplate.value))
  }

  function Create(authoriser: Headers, cache: Cache, headers: Headers, payloadHandler: PayloadHandler,
                  retryTemplate: Option<Timer>, waitTimer: Option<Timer>, chain: seq<StatusHandler>): (h: Handler)
    ensures h.session.None?
  {
    Handler(authoriser, cache, None, headers, payloadHandler, retryTemplate, waitTimer, chain)
  }

  /** Entering the handler: a cached session on the connected cache, with
      the authoriser's headers merged into the default headers and the
      handler's payload handler set on every repository. */
  function Enter(h: Handler): (r: Handler)
    ensures r.session.Some? && r.session.value.entered
    ensures r.headers == MergeHeaders(h.headers, h.authoriser)
    ensures r.session.value.cache.repos.Keys == h.cache.repos.Keys
  {
    var cache := SetPayloadHandler(h.cache, h.payloadHandler);
    h.(session := Some(CachedSession.Enter(NewSession(cache))), headers := MergeHeaders(h.headers, h.authoriser))
  }

  /** Assigning the payload handler: it reaches every repository of the
      open session's cache. */
  function AssignPayloadHandler(h: Handler, p: PayloadHandler): (r: Handler)
    ensures r.payloadHandler == p && r.session.Some? == h.session.Some?
    ensures r.session.Some? ==> r.session.value.cache.repos.Keys == h.session.value.cache.repos.Keys
  {
    match h.session
    case None => h.(payloadHandler := p)
    case Some(s) => h.(payloadHandler := p, session := Some(s.(cache := SetPayloadHandler(s.cache, p))))
  }

  /** The `retry_timer` a call uses: a fresh copy of the template. */
  function CallTimer(h: Handler): (t: Option<Timer>)
    ensures t.Some? <==> h.retryTemplate.Some?
  {
    match h.retryTemplate
    case None => None
    case Some(template) => Some(DeepCopy(template))
  }

  /** Whether the retry timer allows one more retry: it exists, can
      increase, and its value is not zero. */
  predicate HasBudget(t: Option<Timer>)
  {
    t.Some? && CanIncrease(t.value) && t.value.value != 0.0
  }

  /** What a call can end in. */
  datatype CallError =
    | RequestError(message: string)
    | ResponseFailed(failure: Failure)
    | TransportFailed(message: string)
    | CacheFailed(cacheFailure: CacheFailure)

  /** What the last attempt produced: nothing, a transport error, or a
      response. */
  datatype Attempt = NoResponse | Raised(message: string) | Answered(response: Response)

  const MaxRetries: string := "Max retries exceeded"

  /** `_retry`: with budget, the timer increases (the caller waits its
      value and resends); without, the attempt becomes the call's error. */
  function Retry(a: Attempt, t: Option<Timer>): (r: Result<Option<Timer>, CallError>)
    ensures r.Ok? <==> HasBudget(t)
    ensures r.Ok? ==> r.value == Some(Increase(t.value).timer)
    ensures r.Err? ==> r.error == match a
      case NoResponse => RequestError(MaxRetries)
      case Raised(m) => TransportFailed(m)
      case Answered(resp) => ResponseFailed(ResponseError(resp.status))
  {
    if HasBudget(t) then Ok(Some(Increase(t.value).timer))
    else match a
      case NoResponse => Err(RequestError(MaxRetries))
      case Raised(m) => Err(TransportFailed(m))
      case Answered(resp) => Err(ResponseFailed(ResponseError(resp.status)))
  }

  /** One call to the server: its answer, or a transport error. */
  datatype SendOutcome = Answer(reply: Reply) | TransportError(message: string)

  /** The state of one call: the handler, the call's retry timer, and how
      often the response chain and the response log have been used. */
  datatype Call = Call(handler: Handler, timer: Option<Timer>, handled: nat, logged: nat)

  predicate ValidCall(c: Call)
  {
    ValidHandler(c.handler) && c.handler.session.Some? && ValidTimer(c.timer)
  }

  datatype Outcome = Done(response: Response, call: Call) | Failed(failure: CallError, call: Call) | Pending(call: Call)

  function CallContext(c: Call): (ctx: Context)
    requires ValidCall(c)
    ensures ValidContext(ctx)
  {
    Context(Some(c.handler.authoriser), Some(c.handler.headers), c.timer, c.handler.waitTimer)
  }

  /** A retry after a failed attempt: fail, or loop with the increased
      timer. */
  function RetryThen(c: Call, a: Attempt, req: RequestInfo, persist: bool, outcomes: seq<SendOutcome>, sends: nat, now: int): (o: Outcome)
    requires ValidCall(c)
    ensures o.call.handler.session.Some?
    decreases sends, 2
  {
    match Retry(a, c.timer)
    case Err(f) => Failed(f, c)
    case Ok(t) => Loop(c.(timer := t), req, persist, outcomes, sends, now)
  }

  /** The call loop, allowed `sends` more sends. */
  function Loop(c: Call, req: RequestInfo, persist: bool, outcomes: seq<SendOutcome>, sends: nat, now: int): (o: Outcome)
    requires ValidCall(c)
    ensures o.call.handler.session.Some?
    decreases sends, 1
  {
    if sends == 0 then Pending(c)
    else
      var s := c.handler.session.value;
      match CachedAnswer(s, req, persist, now)
      case Err(e) => Failed(CacheFailed(e), c)
      case Ok(Some(payload)) => AfterResponse(c, CachedResponse(req, payload), req, persist, outcomes, sends - 1, now)
      case Ok(None) =>
        if |outcomes| == 0 then Pending(c)
        else match outcomes[0]
          case TransportError(m) =>
            var called := c.(handler := c.handler.(session := Some(s.(upstreamCalls := s.upstreamCalls + 1))));
            RetryThen(called, Raised(m), req, persist, outcomes[1..], sends - 1, now)
          case Answer(reply) =>
            match CachedSession.Request(s, req, persist, reply, now)
            case Err(e) => Failed(CacheFailed(e), c)
            case Ok(served) =>
              AfterResponse(c.(handler := c.handler.(session := Some(served.session))), served.response, req, persist, outcomes[1..], sends - 1, now)
  }

  /** What happens to a response: the chain decides first; then success
      ends the call, and failure is logged and retried. */
  function AfterResponse(c: Call, resp: Response, req: RequestInfo, persist: bool, outcomes: seq<SendOutcome>, sends: nat, now: int): (o: Outcome)
    requires ValidCall(c)
    ensures o.call.handler.session.Some?
    decreases sends, 3
  {
    var c1 := c.(handled := c.handled + 1);
    match HandleChain(c.handler.chain, resp, CallContext(c))
    case Err(f) => Failed(ResponseFailed(f), c1)
    case Ok(d) =>
      var c2 := c1.(handler := c.handler.(headers := d.context.session.value, waitTimer := d.context.waitTimer));
      if d.retry then Loop(c2, req, persist, outcomes, sends, now)
      else if IsOk(resp) then Done(resp, c2)
      else RetryThen(c2.(logged := c2.logged + 1), Answered(resp), req, persist, outcomes, sends, now)
  }

  /** `request(method, url, persist)`: a closed handler fails; an open one
      runs the loop on a fresh copy of its retry timer. */
  function Request(h: Handler, req: RequestInfo, persist: bool, outcomes: seq<SendOutcome>, sends: nat, now: int): (o: Outcome)
    requires ValidHandler(h)
    ensures h.session.None? ==> o.Failed? && o.failure.RequestError?
  {
    if h.session.None? then Failed(RequestError("Session is closed"), Call(h, None, 0, 0))
    else
      FreshIsReachable(h);
      Loop(Call(h, CallTimer(h), 0, 0), req, persist, outcomes, sends, now)
  }

  lemma FreshIsReachable(h: Handler)
    requires ValidHandler(h)
    ensures ValidTimer(CallTimer(h))
    ensures CallTimer(h).Some? ==> Reachable(CallTimer(h).value)
  {
    if h.retryTemplate.Some? {
      CopyAndDeepCopy(h.retryTemplate.value);
    }
  }

  // ---------------------------------------------------------------------
  // Properties
  // ---------------------------------------------------------------------

  /** Every call starts from the template's initial value, whatever the
      template has been through. */
  lemma CallTimerIsFresh(h: Handler)
    requires ValidHandler(h) && h.retryTemplate.Some?
    ensures CallTimer(h).value.value == h.retryTemplate.value.schedule.initial
    ensures CallTimer(h).value.counter == 0
    ensures CallTimer(h).value.schedule == h.retryTemplate.value.schedule
  {
    CopyAndDeepCopy(h.retryTemplate.value);
  }

  /** No handler of the chain is for this status. */
  predicate Unhandled(chain: seq<StatusHandler>, status: int)
  {
    forall i :: 0 <= i < |chain| ==> status !in chain[i].codes
  }

  /** The same failed answer, again and again: the chain leaves it alone,
      so each answer is logged and retried until the retry timer runs
      out, and the last one becomes the error. With `k` increases left,
      that is `k + 1` calls to the server, each handled and logged once,
      and the timer ends at the end of its schedule. */
  lemma {:induction false} RepeatedFailureExhaustsTimer(c: Call, req: RequestInfo, persist: bool, reply: Reply,
                                                        outcomes: seq<SendOutcome>, sends: nat, now: int, k: nat)
    requires ValidCall(c) && c.timer.Some? && Reachable(c.timer.value) && Bounded(c.timer.value.schedule)
    requires Timers.Count(c.timer.value.schedule).value == c.timer.value.counter + k
    requires forall i :: 0 <= i <= Timers.Count(c.timer.value.schedule).value ==> ValueAt(c.timer.value.schedule, i) != 0.0
    requires reply.status >= 400 && Unhandled(c.handler.chain, reply.status)
    requires CachedAnswer(c.handler.session.value, req, persist, now) == Ok(None)
    requires |outcomes| > k && forall i :: 0 <= i <= k ==> outcomes[i] == Answer(reply)
    requires sends > k
    ensures var o := Loop(c, req, persist, outcomes, sends, now);
      && o == Failed(ResponseFailed(ResponseError(reply.status)), o.call)
      && o.call.timer.Some? && o.call.timer.value.schedule == c.timer.value.schedule
      && Reachable(o.call.timer.value)
      && o.call.timer.value.counter == Timers.Count(c.timer.value.schedule).value
      && !CanIncrease(o.call.timer.value)
      && o.call.handled == c.handled + k + 1 && o.call.logged == c.logged + k + 1
      && o.call.handler.session.value.upstreamCalls == c.handler.session.value.upstreamCalls + k + 1
      && o.call.handler.session.value.cache == c.handler.session.value.cache
    decreases k
  {
    var s := c.handler.session.value;
    var t := c.timer.value;
    var served := CachedSession.Request(s, req, persist, reply, now).value;
    assert served.session.cache == s.cache;
    var c1 := c.(handler := c.handler.(session := Some(served.session)));
    assert Loop(c, req, persist, outcomes, sends, now) == AfterResponse(c1, served.response, req, persist, outcomes[1..], sends - 1, now);
    assert HandleChain(c.handler.chain, served.response, CallContext(c1)) == Ok(Handled(false, CallContext(c1), 0.0));
    var c2 := c1.(handled := c1.handled + 1, logged := c1.logged + 1);
    assert c2.handler == c1.handler.(headers := CallContext(c1).session.value, waitTimer := CallContext(c1).waitTimer);
    assert AfterResponse(c1, served.response, req, persist, outcomes[1..], sends - 1, now)
        == RetryThen(c2, Answered(served.response), req, persist, outcomes[1..], sends - 1, now);
    CanIncreaseIffBelowCount(t);
    if k == 0 {
      assert !HasBudget(c2.timer);
      assert RetryThen(c2, Answered(served.response), req, persist, outcomes[1..], sends - 1, now)
          == Failed(ResponseFailed(ResponseError(reply.status)), c2);
    } else {
      IncreaseFollowsSchedule(t);
      assert HasBudget(c2.timer);
      var c3 := c2.(timer := Some(Increase(t).timer));
      assert RetryThen(c2, Answered(served.response), req, persist, outcomes[1..], sends - 1, now)
          == Loop(c3, req, persist, outcomes[1..], sends - 1, now);
      assert CachedAnswer(c3.handler.session.value, req, persist, now) == Ok(None);
      RepeatedFailureExhaustsTimer(c3, req, persist, reply, outcomes[1..], sends - 1, now, k - 1);
    }
  }

  /** One answer from the server, when the cache has none. */
  lemma AnswerStep(c: Call, req: RequestInfo, persist: bool, reply: Reply, outcomes: seq<SendOutcome>, sends: nat, now: int)
    requires ValidCall(c) && sends >= 1 && |outcomes| >= 1 && outcomes[0] == Answer(reply)
    requires CachedAnswer(c.handler.session.value, req, persist, now) == Ok(None)
    requires CachedSession.Request(c.handler.session.value, req, persist, reply, now).Ok?
    ensures var served := CachedSession.Request(c.handler.session.value, req, persist, reply, now).value;
      && served.response == Respond(req, reply)
      && served.session.upstreamCalls == c.handler.session.value.upstreamCalls + 1
      && Loop(c, req, persist, outcomes, sends, now)
         == AfterResponse(c.(handler := c.handler.(session := Some(served.session))), served.response, req, persist, outcomes[1..], sends - 1, now)
  {
  }

  /** A response no handler is for: success ends the call, failure is
      logged and retried. */
  lemma UnhandledStep(c: Call, resp: Response, req: RequestInfo, persist: bool, outcomes: seq<SendOutcome>, sends: nat, now: int)
    requires ValidCall(c) && Unhandled(c.handler.chain, resp.status)
    ensures AfterResponse(c, resp, req, persist, outcomes, sends, now)
      == if IsOk(resp) then Done(resp, c.(handled := c.handled + 1))
         else RetryThen(c.(handled := c.handled + 1, logged := c.logged + 1), Answered(resp), req, persist, outcomes, sends, now)
  {
    var ctx := CallContext(c);
    assert HandleChain(c.handler.chain, resp, ctx) == Ok(Handled(false, ctx, 0.0));
    assert c.handler.(headers := ctx.session.value, waitTimer := ctx.waitTimer) == c.handler;
  }

  /** The handler's own retry timer, a step count timer from 0.1 by 0.1
      with three increases that has already been increased twice, does not
      limit a call: the call starts a fresh copy at 0.1, answers of 400
      are retried four times in all, and the copy ends at its final 0.4. */
  lemma UniqueRetryTimer(h: Handler, req: RequestInfo, persist: bool, reply: Reply, outcomes: seq<SendOutcome>, sends: nat, now: int)
    requires h.retryTemplate == Some(IncreaseTimes(StepCountTimer(0.1, 3, 0.1), 2))
    requires ValidTimer(h.waitTimer) && h.session.Some?
    requires reply.status == 400 && Unhandled(h.chain, 400)
    requires CachedAnswer(h.session.value, req, persist, now) == Ok(None)
    requires |outcomes| >= 4 && forall i :: 0 <= i < 4 ==> outcomes[i] == Answer(reply)
    requires sends >= 4
    ensures ValidHandler(h)
    ensures h.retryTemplate.value.value == 0.3 && CallTimer(h).value.value == 0.1
    ensures var o := Request(h, req, persist, outcomes, sends, now);
      && o == Failed(ResponseFailed(ResponseError(400)), o.call)
      && o.call.timer.Some? && o.call.timer.value.value == 0.4
      && o.call.handled == 4 && o.call.logged == 4
  {
    var sch := h.retryTemplate.value.schedule;
    assert Valid(sch);
    assert Reachable(h.retryTemplate.value);
    FreshIsReachable(h);
    forall i | 0 <= i <= Timers.Count(sch).value
      ensures ValueAt(sch, i) != 0.0
    {
      assert ValueAt(sch, i) == Iterate(sch.growth, 0.1, i);
      IterateAtLeast(sch.growth, 0.1, 0.1, i);
    }
    var c := Call(h, CallTimer(h), 0, 0);
    RepeatedFailureExhaustsTimer(c, req, persist, reply, outcomes, sends, now, 3);
    assert ValueAt(sch, 3) == 0.4;
  }

  /** A transport error without a retry timer is raised at once, without
      the response chain or the log being used. */
  lemma TransportErrorWithoutTimer(h: Handler, req: RequestInfo, persist: bool, m: string, outcomes: seq<SendOutcome>, sends: nat, now: int)
    requires ValidHandler(h) && h.session.Some? && h.retryTemplate.None?
    requires CachedAnswer(h.session.value, req, persist, now) == Ok(None)
    requires |outcomes| >= 1 && outcomes[0] == TransportError(m) && sends >= 1
    ensures var o := Request(h, req, persist, outcomes, sends, now);
      && o == Failed(TransportFailed(m), o.call)
      && o.call.handled == 0 && o.call.logged == 0
      && o.call.handler.session.value.upstreamCalls == h.session.value.upstreamCalls + 1
  {
    var s := h.session.value;
    var c := Call(h, None, 0, 0);
    var called := c.(handler := h.(session := Some(s.(upstreamCalls := s.upstreamCalls + 1))));
    assert Request(h, req, persist, outcomes, sends, now) == Loop(c, req, persist, outcomes, sends, now);
    assert Loop(c, req, persist, outcomes, sends, now) == RetryThen(called, Raised(m), req, persist, outcomes[1..], sends - 1, now);
  }

  /** A response the chain asks to resend is sent again straight away,
      without being logged or retried: here a 401 is answered by
      re-authorising, so the session's headers gain the authoriser's, and
      the second send fails with a transport error that, with no retry
      timer, ends the call. */
  lemma HandledResponseIsResent(h: Handler, req: RequestInfo, reply: Reply, m: string, outcomes: seq<SendOutcome>, sends: nat, now: int)
    requires ValidHandler(h) && h.session.Some? && h.retryTemplate.None?
    requires h.chain == [Default(Unauthorised)] && reply.status == 401
    requires CachedAnswer(h.session.value, req, false, now) == Ok(None)
    requires outcomes == [Answer(reply), TransportError(m)] && sends >= 2
    ensures var o := Request(h, req, false, outcomes, sends, now);
      && o == Failed(TransportFailed(m), o.call)
      && o.call.handled == 1 && o.call.logged == 0
      && o.call.handler.headers == MergeHeaders(h.headers, h.authoriser)
      && o.call.handler.session.value.upstreamCalls == h.session.value.upstreamCalls + 2
  {
    var c := Call(h, None, 0, 0);
    assert Request(h, req, false, outcomes, sends, now) == Loop(c, req, false, outcomes, sends, now);
    AnswerStep(c, req, false, reply, outcomes, sends, now);
    var served := CachedSession.Request(h.session.value, req, false, reply, now).value;
    var c1 := c.(handler := c.handler.(session := Some(served.session)));
    assert 401 in Default(Unauthorised).codes;
    var ctx := CallContext(c1);
    var merged := MergeHeaders(h.headers, h.authoriser);
    assert HandleChain(h.chain, served.response, ctx) == Ok(Handled(true, ctx.(session := Some(merged)), 0.0));
    var c2 := c1.(handled := 1, handler := c1.handler.(headers := merged));
    assert AfterResponse(c1, served.response, req, false, outcomes[1..], sends - 1, now)
        == Loop(c2, req, false, outcomes[1..], sends - 1, now);
    var s2 := served.session;
    var called := c2.(handler := c2.handler.(session := Some(s2.(upstreamCalls := s2.upstreamCalls + 1))));
    assert outcomes[1..][0] == TransportError(m);
    assert Loop(c2, req, false, outcomes[1..], sends - 1, now)
        == RetryThen(called, Raised(m), req, false, outcomes[2..], sends - 2, now);
  }

  /** A failed response the chain leaves alone is logged once and then
      retried; without a retry timer the retry is refused and the
      response's status becomes the error. */
  lemma FailedResponseLoggedOnce(h: Handler, req: RequestInfo, persist: bool, reply: Reply, outcomes: seq<SendOutcome>, sends: nat, now: int)
    requires ValidHandler(h) && h.session.Some? && h.retryTemplate.None?
    requires reply.status >= 400 && Unhandled(h.chain, reply.status)
    requires CachedAnswer(h.session.value, req, persist, now) == Ok(None)
    requires |outcomes| >= 1 && outcomes[0] == Answer(reply) && sends >= 1
    ensures var o := Request(h, req, persist, outcomes, sends, now);
      && o == Failed(ResponseFailed(ResponseError(reply.status)), o.call)
      && o.call.handled == 1 && o.call.logged == 1
  {
    var c := Call(h, None, 0, 0);
    assert Request(h, req, persist, outcomes, sends, now) == Loop(c, req, persist, outcomes, sends, now);
    AnswerStep(c, req, persist, reply, outcomes, sends, now);
    var served := CachedSession.Request(h.session.value, req, persist, reply, now).value;
    var c1 := c.(handler := c.handler.(session := Some(served.session)));
    UnhandledStep(c1, served.response, req, persist, outcomes[1..], sends - 1, now);
  }

  /** A successful response goes through the chain once and is returned:
      it is neither logged nor retried. */
  lemma SuccessHandledOnce(h: Handler, req: RequestInfo, persist: bool, reply: Reply, outcomes: seq<SendOutcome>, sends: nat, now: int)
    requires ValidHandler(h) && h.session.Some?
    requires reply.status < 400 && Unhandled(h.chain, reply.status)
    requires CachedAnswer(h.session.value, req, persist, now) == Ok(None)
    requires CachedSession.Request(h.session.value, req, persist, reply, now).Ok?
    requires |outcomes| >= 1 && outcomes[0] == Answer(reply) && sends >= 1
    ensures var o := Request(h, req, persist, outcomes, sends, now);
      && o == Done(Respond(req, reply), o.call)
      && o.call.handled == 1 && o.call.logged == 0
      && o.call.timer == CallTimer(h)
      && o.call.handler.session.value.upstreamCalls == h.session.value.upstreamCalls + 1
  {
    FreshIsReachable(h);
    var c := Call(h, CallTimer(h), 0, 0);
    assert Request(h, req, persist, outcomes, sends, now) == Loop(c, req, persist, outcomes, sends, now);
    AnswerStep(c, req, persist, reply, outcomes, sends, now);
    var served := CachedSession.Request(h.session.value, req, persist, reply, now).value;
    var c1 := c.(handler := c.handler.(session := Some(served.session)));
    UnhandledStep(c1, served.response, req, persist, outcomes[1..], sends - 1, now);
  }

  /** A request with a live cached row is answered from the cache: the
      server is not called and nothing from the answers is used. */
  lemma CacheHitCallsNothing(h: Handler, req: RequestInfo, outcomes: seq<SendOutcome>, sends: nat, now: int, payload: string)
    requires ValidHandler(h) && h.session.Some? && Unhandled(h.chain, 200)
    requires CachedAnswer(h.session.value, req, true, now) == Ok(Some(payload))
    requires sends >= 1
    ensures var o := Request(h, req, true, outcomes, sends, now);
      && o == Done(CachedResponse(req, payload), o.call)
      && o.call.handled == 1 && o.call.logged == 0
      && o.call.handler.session == h.session
  {
    FreshIsReachable(h);
    var c := Call(h, CallTimer(h), 0, 0);
    assert Request(h, req, true, outcomes, sends, now) == Loop(c, req, true, outcomes, sends, now);
    assert Loop(c, req, true, outcomes, sends, now) == AfterResponse(c, CachedResponse(req, payload), req, true, outcomes, sends - 1, now);
    UnhandledStep(c, CachedResponse(req, payload), req, true, outcomes, sends - 1, now);
  }

  /** Entering the handler hands its payload handler to every repository
      of the cache, and assigning another one later reaches them too. */
  lemma PayloadHandlerPropagates(h: Handler, p: PayloadHandler, n: string)
    requires n in h.cache.repos
    ensures var e := Enter(h);
      && n in e.session.value.cache.repos
      && e.session.value.cache.repos[n].settings.payloadHandler == h.payloadHandler
      && AssignPayloadHandler(e, p).session.value.cache.repos[n].settings.payloadHandler == p
  {
  }

  /** A step count timer from 0.1 with two increases, increased twice, has
      no budget left: a transport error is raised again instead of being
      retried. */
  lemma RetryWithExhaustedTimer(m: string)
    ensures var t := IncreaseTimes(StepCountTimer(0.1, 2, 0.1), 2);
      && t.value == 0.3
      && !HasBudget(Some(t)) && Retry(Raised(m), Some(t)) == Err(TransportFailed(m))
  {
  }
}
