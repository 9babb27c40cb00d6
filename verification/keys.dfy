/** Cache keys: how a request is turned into the composite key a
    repository stores its response under. A key part that comes out `None`
    makes the request uncacheable. Three key schemes are modelled: an
    id-from-last-segment scheme, the same extended with pagination, and a
    `/<version>/<kind>/<id>` scheme for a versioned REST API. */
module Keys {
  import opened Wrappers
  import opened Text
  import opened Http

  datatype Part = PStr(s: string) | PInt(i: int) | PNull

  /** A composite key: one part per key field. */
  type Key = seq<Part>

  predicate Cacheable(k: Key)
  {
    forall i :: 0 <= i < |k| ==> k[i] != PNull
  }

  datatype KeyScheme =
    | ById       // key: the last path segment
    | Paginated  // key: the last path segment, offset, limit
    | Versioned  // key: id and version of /<version>/<kind>/<id>

  /** `fields`: the names of the key's parts. */
  function Fields(s: KeyScheme): seq<string>
  {
    match s
    case ById => ["id"]
    case Paginated => ["id", "offset", "size"]
    case Versioned => ["id", "version"]
  }

  /** `path.split("/")[-1]`. */
  function LastSegment(path: string): string
  {
    var parts := Split(path, '/');
    parts[|parts| - 1]
  }

  /** The id key: uncacheable for a bare `.com` address, otherwise the last
      path segment, uncacheable when that is empty. */
  function IdKey(url: Url): (k: Key)
    ensures |k| == 1
    ensures k[0] == PNull <==> EndsWith(url.text, ".com") || LastSegment(url.path) == ""
  {
    if EndsWith(url.text, ".com") then [PNull]
    else
      var last := LastSegment(url.path);
      [if last == "" then PNull else PStr(last)]
  }

  /** An integer query parameter, 0 when absent. */
  function QueryInt(url: Url, name: string): int
  {
    if name in url.query then url.query[name] else 0
  }

  /** The paginated key: the id key followed by offset and limit. */
  function PaginatedKey(url: Url): (k: Key)
    ensures |k| == 3 && k[..1] == IdKey(url)
    ensures k[1] == PInt(QueryInt(url, "offset")) && k[2] == PInt(QueryInt(url, "limit"))
  {
    IdKey(url) + [PInt(QueryInt(url, "offset")), PInt(QueryInt(url, "limit"))]
  }

  /** The versioned key: only GET requests are cached; the path, stripped of
      slashes, must have at least three segments `<version>/<kind>/<id>`. */
  function VersionedKey(m: Method, url: Url): (k: Key)
    ensures |k| == 2 && (k[0] == PNull <==> k[1] == PNull)
    ensures k[0] != PNull <==> m == GET && |Split(Strip(url.path, '/'), '/')| >= 3
  {
    if m != GET then [PNull, PNull]
    else
      var parts := Split(Strip(url.path, '/'), '/');
      if |parts| < 3 then [PNull, PNull] else [PStr(parts[2]), PStr(parts[0])]
  }

  /** `get_key`: one part per field. */
  function GetKey(s: KeyScheme, req: RequestInfo): (k: Key)
    ensures |k| == |Fields(s)|
  {
    match s
    case ById => IdKey(req.url)
    case Paginated => PaginatedKey(req.url)
    case Versioned => VersionedKey(req.httpMethod, req.url)
  }

  /** `get_key_from_request`: the method name followed by the scheme's key,
      or nothing when any part of the scheme's key is missing. */
  function RequestKey(s: KeyScheme, req: RequestInfo): (k: Option<Key>)
    ensures k.Some? <==> Cacheable(GetKey(s, req))
    ensures k.Some? ==> Cacheable(k.value) && |k.value| == 1 + |Fields(s)|
    ensures k.Some? ==> k.value[0] == PStr(MethodName(req.httpMethod)) && k.value[1..] == GetKey(s, req)
  {
    var key := GetKey(s, req);
    if Cacheable(key) then
      var full := [PStr(MethodName(req.httpMethod))] + key;
      assert full[1..] == key;
      Some(full)
    else None
  }

  // ---------------------------------------------------------------------
  // Round trips
  // ---------------------------------------------------------------------

  /** The URL of one item of a named resource: `http://test.com/<name>/<id>`. */
  function ItemUrl(name: string, id: string, query: map<string, int>): Url
  {
    Url("http://test.com/" + name + "/" + id, "/" + name + "/" + id, query)
  }

  lemma PathSegments(a: string, b: string, c: string)
    requires '/' !in a && '/' !in b && '/' !in c
    ensures Split(a + "/" + b + "/" + c, '/') == [a, b, c]
  {
    assert "/" == ['/'];
    Text.SplitTriple(a, '/', b, c);
  }

  lemma ItemPathSegments(name: string, id: string)
    requires '/' !in name && '/' !in id
    ensures LastSegment("/" + name + "/" + id) == id
  {
    PathSegments("", name, id);
    assert "" + "/" + name + "/" + id == "/" + name + "/" + id;
    assert Split("/" + name + "/" + id, '/') == ["", name, id];
  }

  /** An item URL keys to its method and id. */
  lemma IdKeyRoundTrip(m: Method, name: string, id: string, query: map<string, int>)
    requires '/' !in name && '/' !in id && id != ""
    requires !EndsWith(ItemUrl(name, id, query).text, ".com")
    ensures RequestKey(ById, RequestInfo(m, ItemUrl(name, id, query))) == Some([PStr(MethodName(m)), PStr(id)])
  {
    var url := ItemUrl(name, id, query);
    ItemPathSegments(name, id);
    assert IdKey(url) == [PStr(id)];
    assert [PStr(MethodName(m))] + [PStr(id)] == [PStr(MethodName(m)), PStr(id)];
  }

  /** A paginated item URL keys to its method, id, offset and limit, each
      of the last two defaulting to 0. */
  lemma PaginatedKeyRoundTrip(m: Method, name: string, id: string, query: map<string, int>)
    requires '/' !in name && '/' !in id && id != ""
    requires !EndsWith(ItemUrl(name, id, query).text, ".com")
    ensures RequestKey(Paginated, RequestInfo(m, ItemUrl(name, id, query)))
      == Some([PStr(MethodName(m)), PStr(id), PInt(QueryInt(ItemUrl(name, id, query), "offset")), PInt(QueryInt(ItemUrl(name, id, query), "limit"))])
  {
    var url := ItemUrl(name, id, query);
    ItemPathSegments(name, id);
    assert IdKey(url) == [PStr(id)];
    var k := [PStr(id), PInt(QueryInt(url, "offset")), PInt(QueryInt(url, "limit"))];
    assert PaginatedKey(url) == k;
    assert [PStr(MethodName(m))] + k == [PStr(MethodName(m)), PStr(id), PInt(QueryInt(url, "offset")), PInt(QueryInt(url, "limit"))];
  }

  /** A bare `.com` address is uncacheable under both id schemes, with or
      without pagination parameters. */
  lemma BareAddressUncacheable(m: Method, query: map<string, int>)
    ensures var req := RequestInfo(m, Url("http://test.com", "/", query));
      RequestKey(ById, req).None? && RequestKey(Paginated, req).None?
  {
    var req := RequestInfo(m, Url("http://test.com", "/", query));
    assert IdKey(req.url)[0] == PNull;
    assert PaginatedKey(req.url)[0] == PNull;
  }

  /** Stripping one leading separator from a string that neither starts
      nor ends with it. */
  lemma StripOneLeading(x: string, c: char)
    requires |x| > 0 && x[0] != c && x[|x| - 1] != c
    ensures Strip([c] + x, c) == x
  {
    assert ([c] + x)[1..] == x;
  }

  lemma StripItemPath(version: string, kind: string, id: string)
    requires '/' !in version && '/' !in kind && '/' !in id && version != "" && id != ""
    ensures Strip("/" + version + "/" + kind + "/" + id, '/') == version + "/" + kind + "/" + id
  {
    var inner := version + "/" + kind + "/" + id;
    assert inner[0] == version[0];
    assert inner[|inner| - 1] == id[|id| - 1];
    StripOneLeading(inner, '/');
    assert "/" + inner == "/" + version + "/" + kind + "/" + id;
  }

  /** A GET of `/<version>/<kind>/<id>` keys to the method, id and version;
      any other method is uncacheable. */
  lemma VersionedKeyRoundTrip(m: Method, version: string, kind: string, id: string, text: string, query: map<string, int>)
    requires '/' !in version && '/' !in kind && '/' !in id && version != "" && id != ""
    ensures var req := RequestInfo(m, Url(text, "/" + version + "/" + kind + "/" + id, query));
      RequestKey(Versioned, req) == if m == GET then Some([PStr("GET"), PStr(id), PStr(version)]) else None
  {
    StripItemPath(version, kind, id);
    PathSegments(version, kind, id);
    var url := Url(text, "/" + version + "/" + kind + "/" + id, query);
    if m == GET {
      assert VersionedKey(m, url) == [PStr(id), PStr(version)];
      assert [PStr("GET")] + [PStr(id), PStr(version)] == [PStr("GET"), PStr(id), PStr(version)];
    } else {
      assert VersionedKey(m, url)[0] == PNull;
    }
  }

  /** A path with fewer than three segments is uncacheable. */
  lemma ShortPathUncacheable(m: Method, url: Url)
    requires |Split(Strip(url.path, '/'), '/')| < 3
    ensures RequestKey(Versioned, RequestInfo(m, url)).None?
  {
  }
}
