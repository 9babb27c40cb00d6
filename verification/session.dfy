/** A session that answers from the cache when it can. A request whose
    repository holds a live row for it is served from that row without
    calling the server; otherwise the server is called, and a successful
    answer is saved. A request made with `persist` off neither reads nor
    writes the cache. */
module CachedSession {
  import opened Wrappers
  import opened Http
  import opened Keys
  import opened Repository
  import opened Registry

  /** The cache, whether the session has been entered, and how many times
      the server has been called. */
  datatype Session = Session(cache: Cache, entered: bool, upstreamCalls: nat)

  function NewSession(cache: Cache): Session
  {
    Session(cache, false, 0)
  }

  /** Entering the session connects its cache. */
  function Enter(s: Session): (r: Session)
    ensures r.entered && r.upstreamCalls == s.upstreamCalls && r.cache == Connect(s.cache)
  {
    s.(cache := Connect(s.cache), entered := true)
  }

  /** A cached answer, as the session serves it. */
  function CachedResponse(req: RequestInfo, payload: string): Response
  {
    Response(req, 200, map[], payload)
  }

  datatype Served = Served(response: Response, session: Session)

  /** The cached payload a request would be served from, if any: only with
      `persist` on, and only from the live row of the request's repository. */
  function CachedAnswer(s: Session, req: RequestInfo, persist: bool, now: int): (r: Result<Option<string>, CacheFailure>)
    ensures !persist ==> r == Ok(None)
  {
    if !persist then Ok(None)
    else
      match RepositoryForRequests(s.cache, [req])
      case Err(e) => Err(e)
      case Ok(None) => Ok(None)
      case Ok(Some(n)) =>
        match Get(s.cache.repos[n], ByRequest(req), now)
        case Err(e) => Err(RepoFailure(e))
        case Ok(p) => Ok(p)
  }

  /** `request(method, url, persist)`, where `reply` is what the server
      would answer. */
  function Request(s: Session, req: RequestInfo, persist: bool, reply: Reply, now: int): (r: Result<Served, CacheFailure>)
    ensures r.Ok? ==> r.value.session.entered == s.entered
    ensures CachedAnswer(s, req, persist, now).Err? ==> r.Err?
    ensures CachedAnswer(s, req, persist, now).Ok? && CachedAnswer(s, req, persist, now).value.Some? ==>
      r == Ok(Served(CachedResponse(req, CachedAnswer(s, req, persist, now).value.value), s))
    ensures r.Ok? && CachedAnswer(s, req, persist, now) == Ok(None) ==>
      r.value.session.upstreamCalls == s.upstreamCalls + 1 && r.value.response == Respond(req, reply)
    ensures r.Ok? && !persist ==> r.value == Served(Respond(req, reply), s.(upstreamCalls := s.upstreamCalls + 1))
    ensures r.Ok? && !IsOk(Respond(req, reply)) ==> r.value.session.cache == s.cache
    ensures r.Ok? ==> r.value.session.cache.repos.Keys == s.cache.repos.Keys && r.value.session.cache.getter == s.cache.getter
  {
    var called := s.(upstreamCalls := s.upstreamCalls + 1);
    var answer := Respond(req, reply);
    match CachedAnswer(s, req, persist, now)
    case Err(e) => Err(e)
    case Ok(Some(payload)) => Ok(Served(CachedResponse(req, payload), s))
    case Ok(None) =>
      if !persist || !IsOk(answer) then Ok(Served(answer, called))
      else
        match RepositoryForRequests(s.cache, [req])
        case Err(e) => Err(e)
        case Ok(None) => Ok(Served(answer, called))
        case Ok(Some(n)) =>
          match Save(s.cache.repos[n], FromResponse(answer), now)
          case Err(e) => Err(RepoFailure(e))
          case Ok(repo) => Ok(Served(answer, called.(cache := s.cache.(repos := s.cache.repos[n := repo]))))
  }

  // ---------------------------------------------------------------------
  // Properties
  // ---------------------------------------------------------------------

  /** The request's repository, usable, and the key it keys to. */
  predicate Routed(s: Session, req: RequestInfo, n: string)
  {
    && RepositoryForUrl(s.cache, req.url) == Ok(Some(n))
    && s.cache.repos[n].state == Open
  }

  /** A request with a live cached row is served from it, without calling
      the server and without changing the cache. */
  lemma HitServedFromCache(s: Session, req: RequestInfo, reply: Reply, now: int, n: string)
    requires Routed(s, req, n)
    requires Contains(s.cache.repos[n], ByRequest(req), now) == Ok(true)
    ensures var r := Request(s, req, true, reply, now);
      && r.Ok? && r.value.session == s
      && r.value.response.body == s.cache.repos[n].rows[RequestKey(s.cache.repos[n].settings.scheme, req).value].payload
  {
    assert RepositoryForRequests(s.cache, [req]) == Ok(Some(n));
  }

  /** A miss calls the server once; a successful answer is then cached
      under the request's key, an unsuccessful one is not. */
  lemma MissCallsAndPersists(s: Session, req: RequestInfo, reply: Reply, now: int, n: string)
    requires Routed(s, req, n) && s.cache.repos[n].expire > 0
    requires RequestKey(s.cache.repos[n].settings.scheme, req).Some?
    requires Contains(s.cache.repos[n], ByRequest(req), now) == Ok(false)
    ensures var r := Request(s, req, true, reply, now);
      && r.Ok? && r.value.response == Respond(req, reply)
      && r.value.session.upstreamCalls == s.upstreamCalls + 1
      && r.value.session.cache.repos.Keys == s.cache.repos.Keys
      && r.value.session.cache.repos[n].state == Open
      && (Contains(r.value.session.cache.repos[n], ByRequest(req), now) == Ok(true) <==> reply.status < 400)
  {
    assert RepositoryForRequests(s.cache, [req]) == Ok(Some(n));
  }

  /** The repeated-request sequence: with `persist` off the server is
      called and nothing is cached; with it on the server is called again
      and the answer cached; a third, default request is a hit, so the
      server has been called twice in all. */
  lemma RepeatedRequest(s: Session, req: RequestInfo, reply: Reply, now: int, n: string)
    requires Routed(s, req, n) && s.cache.repos[n].expire > 0
    requires RequestKey(s.cache.repos[n].settings.scheme, req).Some?
    requires Contains(s.cache.repos[n], ByRequest(req), now) == Ok(false)
    requires reply.status < 400
    ensures var first := Request(s, req, false, reply, now).value.session;
      var second := Request(first, req, true, reply, now).value.session;
      var third := Request(second, req, true, reply, now).value;
      && first.upstreamCalls == s.upstreamCalls + 1 && first.cache == s.cache
      && second.upstreamCalls == s.upstreamCalls + 2
      && Contains(second.cache.repos[n], ByRequest(req), now) == Ok(true)
      && third.session.upstreamCalls == s.upstreamCalls + 2
      && third.response.body == reply.body
  {
    var first := Request(s, req, false, reply, now).value.session;
    MissCallsAndPersists(first, req, reply, now, n);
    var second := Request(first, req, true, reply, now).value.session;
    assert RepositoryForUrl(second.cache, req.url) == Ok(Some(n));
    HitServedFromCache(second, req, reply, now, n);
  }

  /** A failed answer is not cached even with `persist` on; a later
      successful one is. */
  lemma BadResponseNotCached(s: Session, req: RequestInfo, bad: Reply, good: Reply, now: int, n: string)
    requires Routed(s, req, n) && s.cache.repos[n].expire > 0
    requires RequestKey(s.cache.repos[n].settings.scheme, req).Some?
    requires Contains(s.cache.repos[n], ByRequest(req), now) == Ok(false)
    requires bad.status == 404 && good.status == 200
    ensures var first := Request(s, req, true, bad, now).value.session;
      var second := Request(first, req, true, good, now).value.session;
      && first.upstreamCalls == s.upstreamCalls + 1
      && Contains(first.cache.repos[n], ByRequest(req), now) == Ok(false)
      && second.upstreamCalls == s.upstreamCalls + 2
      && Contains(second.cache.repos[n], ByRequest(req), now) == Ok(true)
  {
    MissCallsAndPersists(s, req, bad, now, n);
    var first := Request(s, req, true, bad, now).value.session;
    assert first.cache == s.cache;
    MissCallsAndPersists(first, req, good, now, n);
  }

  /** A repository registered on the session's cache is unusable until
      the session is entered. */
  lemma EnterProvisions(s: Session, settings: Settings, now: int)
    requires settings.name !in s.cache.repos
    ensures var c := CreateRepository(s.cache, settings).value;
      && Count(c.repos[settings.name], true, now).Err?
      && Count(Enter(s.(cache := c)).cache.repos[settings.name], true, now).Ok?
  {
  }
}
