/** The HTTP vocabulary the engine works with: methods, header maps, URLs,
    requests and responses. Transport itself is not modelled; a response
    is a value handed in from outside. */
module Http {
  import opened Wrappers
  import opened Text

  datatype Method = GET | POST | PUT | PATCH | DELETE | HEAD | OPTIONS

  function MethodName(m: Method): string
  {
    match m
    case GET => "GET"
    case POST => "POST"
    case PUT => "PUT"
    case PATCH => "PATCH"
    case DELETE => "DELETE"
    case HEAD => "HEAD"
    case OPTIONS => "OPTIONS"
  }

  /** Header names to values. aiohttp holds them in a case-insensitive
      multidict, so names that differ only in ASCII case are one name. */
  type Headers = map<string, string>

  function FoldChar(c: char): char
  {
    if 'A' <= c <= 'Z' then (c as int + 32) as char else c
  }

  /** A header name as a case-insensitive multidict compares it: ASCII
      letters in lower case, everything else as it is. */
  function Fold(name: string): (r: string)
    ensures |r| == |name| && forall i :: 0 <= i < |name| ==> r[i] == FoldChar(name[i])
  {
    seq(|name|, i requires 0 <= i < |name| => FoldChar(name[i]))
  }

  /** Whether `h` holds a spelling of `name`. */
  predicate Holds(h: Headers, name: string)
  {
    exists k :: k in h && Fold(k) == Fold(name)
  }

  /** Whether `h` spells `name` one way at most. */
  predicate SpeltOnce(h: Headers, name: string)
  {
    forall k1, k2 :: k1 in h && k2 in h && Fold(k1) == Fold(name) && Fold(k2) == Fold(name) ==> k1 == k2
  }

  /** A map that spells every name one way only, as one built by updates
      of a case-insensitive multidict does. */
  predicate Unambiguous(h: Headers)
  {
    forall k1, k2 :: k1 in h && k2 in h && Fold(k1) == Fold(k2) ==> k1 == k2
  }

  /** `headers.get(name)`: the value stored under the one spelling of
      `name` the map holds; a map that holds none, or several, gives
      nothing. */
  function Header(h: Headers, name: string): (v: Option<string>)
    ensures v.Some? <==> Holds(h, name) && SpeltOnce(h, name)
    ensures v.Some? ==> forall k :: k in h && Fold(k) == Fold(name) ==> v.value == h[k]
  {
    if Holds(h, name) && SpeltOnce(h, name) then
      var k :| k in h && Fold(k) == Fold(name);
      Some(h[k])
    else None
  }

  /** A URL as the engine sees it: its full text, its path, and its query
      parameters. Query values are kept as the numbers the key functions
      read from them. */
  datatype Url = Url(text: string, path: string, query: map<string, int>)

  /** What identifies a request: its method and URL. */
  datatype RequestInfo = RequestInfo(httpMethod: Method, url: Url)

  /** A response to a request: status code, headers and body text. */
  datatype Response = Response(request: RequestInfo, status: int, headers: Headers, body: string)

  /** What the server answers to one request: status, headers, body. The
      network is not modelled; the answer is given. */
  datatype Reply = Reply(status: int, headers: Headers, body: string)

  function Respond(req: RequestInfo, reply: Reply): (r: Response)
    ensures r.request == req && r.status == reply.status && r.body == reply.body
  {
    Response(req, reply.status, reply.headers, reply.body)
  }

  /** `response.ok`: any status below 400. */
  predicate IsOk(r: Response)
  {
    r.status < 400
  }

  const RetryAfterHeader: string := "retry-after"

  /** The delay a `Retry-After` header asks for, in whole seconds; the
      name is matched in any case. */
  function RetryAfter(r: Response): Option<nat>
  {
    match Header(r.headers, RetryAfterHeader)
    case Some(v) => ParseNat(v)
    case None => None
  }

  /** Whether `b` holds a spelling of the name `k`. */
  predicate Shadowed(b: Headers, k: string)
  {
    exists k' :: k' in b && Fold(k') == Fold(k)
  }

  /** Updating a case-insensitive header map `a` with `b`: every name of
      `b` replaces all spellings of it in `a`. */
  function MergeHeaders(a: Headers, b: Headers): (r: Headers)
    ensures forall k :: k in b ==> k in r && r[k] == b[k]
    ensures forall k :: k in a && !Shadowed(b, k) ==> k in r && r[k] == a[k]
    ensures forall k :: k in r ==> k in b || (k in a && !Shadowed(b, k))
  {
    (map k | k in a && !Shadowed(b, k) :: a[k]) + b
  }

  /** Names are looked up without regard to case. */
  lemma HeaderIgnoresCase(h: Headers, a: string, b: string)
    requires Fold(a) == Fold(b)
    ensures Header(h, a) == Header(h, b)
  {
  }

  /** In a map that spells every name one way, each stored header is found
      under any spelling of its name. */
  lemma HeaderFindsStored(h: Headers, k: string, name: string)
    requires Unambiguous(h) && k in h && Fold(name) == Fold(k)
    ensures Header(h, name) == Some(h[k])
  {
  }

  /** After an update, a name `b` holds reads as in `b`, any other as in
      `a`, whatever case either map spells it in. */
  lemma MergeHeadersLookup(a: Headers, b: Headers, name: string)
    ensures Header(MergeHeaders(a, b), name) == if Holds(b, name) then Header(b, name) else Header(a, name)
  {
    var r := MergeHeaders(a, b);
    if Holds(b, name) {
      var k0 :| k0 in b && Fold(k0) == Fold(name);
      forall k | k in r && Fold(k) == Fold(name) ensures k in b && r[k] == b[k] {
        assert Fold(k0) == Fold(k);
      }
    } else {
      forall k | k in a && Fold(k) == Fold(name) ensures k in r && r[k] == a[k] {
        assert !Shadowed(b, k);
      }
    }
  }

  /** A `Retry-After` header is read whatever case its name is spelt in. */
  lemma RetryAfterIgnoresCase(req: RequestInfo, status: int, name: string, v: string, body: string)
    requires Fold(name) == RetryAfterHeader
    ensures RetryAfter(Response(req, status, map[name := v], body)) == ParseNat(v)
  {
    assert Fold(RetryAfterHeader) == RetryAfterHeader;
    HeaderFindsStored(map[name := v], name, RetryAfterHeader);
  }

  /** An update of maps that spell every name one way spells every name
      one way. */
  lemma MergeHeadersUnambiguous(a: Headers, b: Headers)
    requires Unambiguous(a) && Unambiguous(b)
    ensures Unambiguous(MergeHeaders(a, b))
  {
  }
}
