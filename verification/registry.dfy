/** The response cache: a registry of repositories by name, plus a getter
    that picks the repository a URL belongs to. The cache-level save, get
    and delete route a request to its repository first. */
module Registry {
  import opened Wrappers
  import opened Text
  import opened Http
  import opened Keys
  import opened Repository

  /** How a URL is mapped to a repository name. */
  datatype Getter =
    | ByParentSegment  // the second-to-last path segment
    | ByResourcePath   // the resource names of a `/<version>/<kind>/<id>/<sub>` path
    | Fixed(name: string)  // every URL to one repository

  datatype Cache = Cache(repos: map<string, Repository>, getter: Option<Getter>, expire: nat)

  /** `CacheError`, an `IndexError` from a getter, or a repository's own
      error. */
  datatype CacheFailure = CacheError(reason: string) | IndexError | RepoFailure(error: RepoError)

  function Empty(getter: Option<Getter>, expire: nat): Cache
  {
    Cache(map[], getter, expire)
  }

  /** The resource-path getter: the segments after the version, with `-`
      read as `_`; one or two of them name the repository by the first,
      three or more by `<first without trailing s>_<third without trailing s>s`.
      A path with no such segment fails as an index out of range. */
  function ResourceName(path: string): (r: Result<string, CacheFailure>)
    ensures r.Err? <==> |Split(path, '/')| <= 2
  {
    var parts := Split(path, '/');
    if |parts| <= 2 then Err(IndexError)
    else
      var segs := seq(|parts| - 2, i requires 0 <= i < |parts| - 2 => ReplaceChar(parts[i + 2], '-', '_'));
      if |segs| < 3 then Ok(segs[0])
      else Ok(RStrip(segs[0], 's') + "_" + RStrip(segs[2], 's') + "s")
  }

  /** The repository a URL belongs to, by name; nothing when the getter is
      unset or names no registered repository. */
  function RepositoryForUrl(cache: Cache, url: Url): (r: Result<Option<string>, CacheFailure>)
    ensures r.Ok? && r.value.Some? ==> r.value.value in cache.repos
    ensures cache.getter.None? ==> r == Ok(None)
  {
    match cache.getter
    case None => Ok(None)
    case Some(ByParentSegment) =>
      // the segment is read once per registered repository
      var parts := Split(url.path, '/');
      if |parts| < 2 then (if |cache.repos| == 0 then Ok(None) else Err(IndexError))
      else
        var name := parts[|parts| - 2];
        Ok(if name in cache.repos then Some(name) else None)
    case Some(ByResourcePath) =>
      (match ResourceName(url.path)
       case Err(e) => Err(e)
       case Ok(name) => Ok(if name in cache.repos then Some(name) else None))
    case Some(Fixed(name)) => Ok(if name in cache.repos then Some(name) else None)
  }

  /** `get_repository_from_requests`: the one repository every request
      belongs to. Requests that belong to no repository count as a kind of
      their own, so a batch mixing them with others fails too. */
  function RepositoryForRequests(cache: Cache, reqs: seq<RequestInfo>): (r: Result<Option<string>, CacheFailure>)
    ensures cache.getter.None? ==> r == Ok(None)
    ensures r.Ok? ==> forall i :: 0 <= i < |reqs| ==> RepositoryForUrl(cache, reqs[i].url) == Ok(r.value)
    ensures r.Ok? && |reqs| == 0 ==> r.value.None?
    ensures (forall i :: 0 <= i < |reqs| ==> RepositoryForUrl(cache, reqs[i].url).Ok?) ==>
      (r.Err? <==> exists i, j :: 0 <= i < |reqs| && 0 <= j < |reqs| && RepositoryForUrl(cache, reqs[i].url) != RepositoryForUrl(cache, reqs[j].url))
    decreases |reqs|
  {
    if cache.getter.None? || |reqs| == 0 then Ok(None)
    else
      match RepositoryForUrl(cache, reqs[0].url)
      case Err(e) => Err(e)
      case Ok(first) =>
        match RepositoryForRequests(cache, reqs[1..])
        case Err(e) => Err(e)
        case Ok(rest) =>
          if |reqs| == 1 || rest == first then Ok(first)
          else
            assert RepositoryForUrl(cache, reqs[1].url) == Ok(rest);
            Err(CacheError("Too many repositories found for the given requests"))
  }

  /** `create_repository`: registers a new, unprovisioned repository under
      its settings' name; a taken name fails. */
  function CreateRepository(cache: Cache, settings: Settings): (r: Result<Cache, CacheFailure>)
    ensures r.Err? <==> settings.name in cache.repos
    ensures r.Ok? ==> && r.value.repos == cache.repos[settings.name := New(settings, cache.expire)]
                      && r.value.getter == cache.getter
  {
    if settings.name in cache.repos then Err(CacheError("Repository already exists: " + settings.name))
    else Ok(cache.(repos := cache.repos[settings.name := New(settings, cache.expire)]))
  }

  /** Awaiting or entering the cache: every repository's table is created. */
  function Connect(cache: Cache): (r: Cache)
    ensures r.repos.Keys == cache.repos.Keys && r.getter == cache.getter
    ensures forall n :: n in r.repos ==> r.repos[n] == Provision(cache.repos[n])
  {
    cache.(repos := map n | n in cache.repos :: Provision(cache.repos[n]))
  }

  /** Leaving the cache: every repository is closed. */
  function CloseAll(cache: Cache): (r: Cache)
    ensures r.repos.Keys == cache.repos.Keys
    ensures forall n :: n in r.repos ==> r.repos[n].state == Closed && r.repos[n].rows == cache.repos[n].rows
  {
    cache.(repos := map n | n in cache.repos :: Close(cache.repos[n]))
  }

  /** Every repository now (de)serialises with the given payload handler. */
  function SetPayloadHandler(cache: Cache, h: PayloadHandler): (r: Cache)
    ensures r.repos.Keys == cache.repos.Keys
    ensures forall n :: n in r.repos ==> r.repos[n].settings.payloadHandler == h
    ensures forall n :: n in r.repos ==> r.repos[n].rows == cache.repos[n].rows && r.repos[n].state == cache.repos[n].state
  {
    cache.(repos := map n | n in cache.repos :: cache.repos[n].(settings := cache.repos[n].settings.(payloadHandler := h)))
  }

  function Lift<T>(r: Result<T, RepoError>): Result<T, CacheFailure>
  {
    match r
    case Ok(v) => Ok(v)
    case Err(e) => Err(RepoFailure(e))
  }

  /** The cache-level `save_response`: saves into the response's
      repository; a response that belongs to none is not saved. */
  function SaveResponse(cache: Cache, resp: Response, now: int): (r: Result<Cache, CacheFailure>)
    ensures r.Ok? ==> r.value.repos.Keys == cache.repos.Keys && r.value.getter == cache.getter
    ensures r.Ok? && RepositoryForUrl(cache, resp.request.url) == Ok(None) ==> r.value == cache
  {
    match RepositoryForRequests(cache, [resp.request])
    case Err(e) => Err(e)
    case Ok(None) => Ok(cache)
    case Ok(Some(n)) =>
      match Save(cache.repos[n], FromResponse(resp), now)
      case Err(e) => Err(RepoFailure(e))
      case Ok(repo) => Ok(cache.(repos := cache.repos[n := repo]))
  }

  /** The cache-level `get_response`. */
  function GetResponse(cache: Cache, req: RequestInfo, now: int): (r: Result<Option<string>, CacheFailure>)
    ensures r.Ok? && RepositoryForUrl(cache, req.url) == Ok(None) ==> r.value.None?
  {
    match RepositoryForRequests(cache, [req])
    case Err(e) => Err(e)
    case Ok(None) => Ok(None)
    case Ok(Some(n)) => Lift(Get(cache.repos[n], ByRequest(req), now))
  }

  /** The cache-level `delete_response`. */
  function DeleteResponse(cache: Cache, req: RequestInfo): (r: Result<(bool, Cache), CacheFailure>)
    ensures r.Ok? ==> r.value.1.repos.Keys == cache.repos.Keys
    ensures r.Ok? && RepositoryForUrl(cache, req.url) == Ok(None) ==> r.value == (false, cache)
  {
    match RepositoryForRequests(cache, [req])
    case Err(e) => Err(e)
    case Ok(None) => Ok((false, cache))
    case Ok(Some(n)) =>
      match Delete(cache.repos[n], ByRequest(req))
      case Err(e) => Err(RepoFailure(e))
      case Ok(d) => Ok((d.removed, cache.(repos := cache.repos[n := d.repo])))
  }

  // ---------------------------------------------------------------------
  // Properties
  // ---------------------------------------------------------------------

  /** A new repository is registered under its name with its settings; it
      raises until the cache is connected, and works after. */
  lemma CreateThenConnect(cache: Cache, settings: Settings, now: int)
    requires settings.name !in cache.repos
    ensures var c := CreateRepository(cache, settings).value;
      && settings.name in c.repos && c.repos[settings.name].settings == settings
      && Count(c.repos[settings.name], true, now) == Err(NotProvisioned)
      && Count(Connect(c).repos[settings.name], true, now) == Ok(0)
    ensures CreateRepository(CreateRepository(cache, settings).value, settings).Err?
  {
  }

  /** The parent-segment getter sends `http://test.com/<name>/<id>` to the
      repository called `name`, and a URL whose parent segment names no
      repository to none. */
  lemma ParentSegmentGetter(cache: Cache, name: string, id: string, query: map<string, int>)
    requires cache.getter == Some(ByParentSegment)
    requires '/' !in name && '/' !in id
    ensures RepositoryForUrl(cache, ItemUrl(name, id, query)) == Ok(if name in cache.repos then Some(name) else None)
  {
    PathSegments("", name, id);
    assert "" + "/" + name + "/" + id == "/" + name + "/" + id;
  }

  /** A batch that mixes requests of a repository with requests of none
      fails; a batch of one repository's requests finds it. */
  lemma MixedBatchFails(cache: Cache, a: RequestInfo, b: RequestInfo, n: string)
    requires RepositoryForUrl(cache, a.url) == Ok(Some(n))
    requires RepositoryForUrl(cache, b.url) == Ok(None)
    ensures RepositoryForRequests(cache, [a, a, b]).Err?
    ensures RepositoryForRequests(cache, [a, a]) == Ok(Some(n))
    ensures RepositoryForRequests(cache, [b, b]) == Ok(None)
  {
    assert RepositoryForUrl(cache, [a, a, b][0].url) != RepositoryForUrl(cache, [a, a, b][2].url);
  }

  /** The resource-path getter on `/<version>/<kind>/<id>`: the kind, with
      dashes read as underscores. */
  lemma ResourceNameItem(version: string, kind: string, id: string)
    requires '/' !in version && '/' !in kind && '/' !in id
    ensures ResourceName("/" + version + "/" + kind + "/" + id) == Ok(ReplaceChar(kind, '-', '_'))
  {
    var parts := ["", version, kind, id];
    assert Join("/", parts[2..]) == kind + "/" + id;
    assert Join("/", parts[1..]) == version + "/" + kind + "/" + id;
    assert Join("/", parts) == "/" + version + "/" + kind + "/" + id;
    JoinThenSplit(parts, '/');
  }

  /** The resource-path getter on `/<version>/<kind>/<id>/<sub>`: the kind
      and the sub-resource, each without its trailing `s`, joined by `_`,
      with one `s` added back. */
  lemma ResourceNameSubResource(version: string, kind: string, id: string, sub: string)
    requires '/' !in version && '/' !in kind && '/' !in id && '/' !in sub
    ensures ResourceName("/" + version + "/" + kind + "/" + id + "/" + sub)
      == Ok(RStrip(ReplaceChar(kind, '-', '_'), 's') + "_" + RStrip(ReplaceChar(sub, '-', '_'), 's') + "s")
  {
    var parts := ["", version, kind, id, sub];
    assert Join("/", parts[3..]) == id + "/" + sub;
    assert Join("/", parts[2..]) == kind + "/" + id + "/" + sub;
    assert Join("/", parts[1..]) == version + "/" + kind + "/" + id + "/" + sub;
    assert Join("/", parts) == "/" + version + "/" + kind + "/" + id + "/" + sub;
    JoinThenSplit(parts, '/');
  }

  /** A path with no segment after the version fails. */
  lemma ResourceNameTooShort(version: string)
    requires '/' !in version
    ensures ResourceName("/" + version).Err?
  {
    var parts := ["", version];
    assert Join("/", parts) == "/" + version;
    JoinThenSplit(parts, '/');
  }

  /** `rstrip("s")` drops every trailing `s`: `albums` names the
      `album_...` repositories, and `class` loses its last two letters. */
  lemma RStripExamples()
    ensures RStrip("albums", 's') == "album"
    ensures RStrip("class", 's') == "cla"
  {
  }

  /** Through the cache: a saved response is found by its request, then
      deleted, after which it is gone. */
  lemma CacheRoundTrip(cache: Cache, resp: Response, n: string, now: int)
    requires RepositoryForUrl(cache, resp.request.url) == Ok(Some(n))
    requires cache.repos[n].state == Open && cache.repos[n].expire > 0
    requires RequestKey(cache.repos[n].settings.scheme, resp.request).Some?
    ensures var saved := SaveResponse(cache, resp, now).value;
      && GetResponse(saved, resp.request, now) == Ok(Some(resp.body))
      && DeleteResponse(saved, resp.request).Ok?
      && DeleteResponse(saved, resp.request).value.0
      && Contains(DeleteResponse(saved, resp.request).value.1.repos[n], ByRequest(resp.request), now) == Ok(false)
  {
    assert RepositoryForRequests(cache, [resp.request]) == Ok(Some(n));
    var saved := SaveResponse(cache, resp, now).value;
    assert RepositoryForUrl(saved, resp.request.url) == Ok(Some(n));
    assert RepositoryForRequests(saved, [resp.request]) == Ok(Some(n));
  }
}
