/** The building blocks of authorisation: requests whose parameters can be
    extended for the duration of one exchange, the stored token response
    with the token, header and masking operations on it, and the tests a
    token response must pass. The wall clock is the parameter `now`; the
    HTTP call of the token test is an oracle whose answer is a parameter. */
module AuthUtils {
  import opened Wrappers
  import opened Text
  import opened Http
  import opened Json

  /** What can go wrong. `NotAvailable`, `TokenNotFound`,
      `CouldNotGenerate`, `StillNotValid` and `InvalidState` are
      `AuthoriserError`s; `NoResponse` is the `AttributeError` of reading a
      missing response; `NotMergeable` and `NotComparable` are `TypeError`s,
      `NotANumber` a `ValueError`, `MissingKey` a `KeyError` and
      `NoRequestLine` the `StopIteration` of a redirect without a `GET`
      line. */
  datatype AuthError =
    | NotAvailable
    | MissingKey(name: string)
    | NoRequestLine
    | TokenNotFound(key: string)
    | NoResponse
    | NotMergeable
    | NotAMapping
    | NotComparable
    | NotANumber
    | CouldNotGenerate
    | StillNotValid
    | InvalidState

  // ---------------------------------------------------------------------
  // AuthRequest
  // ---------------------------------------------------------------------

  /** A request for an auth endpoint: method, URL and the keyword
      arguments it is sent with (`params`, `data`, `json`, `headers`, ...). */
  datatype AuthRequest = AuthRequest(httpMethod: Method, url: string, attrs: JsonObject)

  /** A value that is sent as it is: a string, a number (not a boolean), or
      a mapping of such values. */
  predicate Sendable(v: Value)
  {
    match v
    case Str(_) => true
    case Int(_) => true
    case Float(_) => true
    case Object(m) => forall k :: k in m ==> Sendable(m[k])
    case _ => false
  }

  /** `_sanitise_map` on one value: mappings are sanitised inside, strings
      and numbers are kept, everything else becomes its JSON text. */
  function SanitiseValue(v: Value): (r: Value)
    ensures v.Object? <==> r.Object?
    ensures v.Object? ==> r.fields.Keys == v.fields.Keys
    ensures !v.Object? && !Sendable(v) ==> r == Str(Dumps(v))
    decreases v, 1
  {
    match v
    case Object(m) => Object(SanitiseMap(m))
    case Str(_) => v
    case Int(_) => v
    case Float(_) => v
    case _ => Str(Dumps(v))
  }

  /** `_sanitise_map`: every value of the mapping sanitised; an empty
      mapping is left alone. */
  function SanitiseMap(m: JsonObject): (r: JsonObject)
    ensures r.Keys == m.Keys
    decreases Object(m), 0
  {
    map k | k in m :: SanitiseValue(m[k])
  }

  /** Sanitising gives a sendable value. */
  lemma {:induction false} SanitisedIsSendable(v: Value)
    ensures Sendable(SanitiseValue(v))
    decreases v
  {
    match v
    case Object(m) =>
      forall k | k in m
        ensures Sendable(SanitiseMap(m)[k])
      {
        SanitisedIsSendable(m[k]);
      }
    case _ =>
  }

  /** Sanitising leaves a value alone exactly when it is already
      sendable. */
  lemma {:induction false} SanitiseFixedIffSendable(v: Value)
    ensures SanitiseValue(v) == v <==> Sendable(v)
    decreases v
  {
    match v
    case Object(m) =>
      forall k | k in m
        ensures SanitiseValue(m[k]) == m[k] <==> Sendable(m[k])
      {
        SanitiseFixedIffSendable(m[k]);
      }
      if Sendable(v) {
        assert SanitiseMap(m) == m;
      } else {
        var k :| k in m && !Sendable(m[k]);
        assert SanitiseMap(m)[k] != m[k];
      }
    case _ =>
  }

  /** Sanitising twice is sanitising once. */
  lemma SanitiseIdempotent(v: Value)
    ensures SanitiseValue(SanitiseValue(v)) == SanitiseValue(v)
  {
    SanitisedIsSendable(v);
    SanitiseFixedIffSendable(SanitiseValue(v));
  }

  /** The keyword arguments `_sanitise_kwargs` treats. */
  const SanitisedKeys: set<string> := {"params", "data"}

  /** `_sanitise_kwargs`: `params` and `data` are sanitised when present
      and non-empty; any other argument is sent as it is. A non-empty
      `params` or `data` that is not a mapping has no `items()`. */
  function SanitiseKwargs(kw: JsonObject): (r: Result<JsonObject, AuthError>)
    ensures r.Ok? <==> forall k :: k in SanitisedKeys && k in kw && Truthy(kw[k]) ==> kw[k].Object?
    ensures r.Ok? ==> r.value.Keys == kw.Keys
    ensures r.Ok? ==> forall k :: k in kw && k !in SanitisedKeys ==> r.value[k] == kw[k]
    ensures r.Ok? ==> forall k :: k in kw && k in SanitisedKeys ==> Sendable(r.value[k]) || !Truthy(kw[k])
    ensures r.Ok? ==> forall k :: k in kw && k in SanitisedKeys ==>
      r.value[k] == (if Truthy(kw[k]) then SanitiseValue(kw[k]) else kw[k])
    ensures r.Err? ==> r.error == NotAMapping
  {
    var params :- SanitiseArgument(kw, "params");
    SanitiseArgument(params, "data")
  }

  /** `_sanitise_map(kwargs.get(key))`. */
  function SanitiseArgument(kw: JsonObject, key: string): (r: Result<JsonObject, AuthError>)
    ensures r.Ok? <==> !(key in kw && Truthy(kw[key]) && !kw[key].Object?)
    ensures r.Ok? ==> r.value.Keys == kw.Keys
    ensures r.Ok? ==> forall k :: k in kw && k != key ==> r.value[k] == kw[k]
    ensures r.Ok? && key in kw ==> Sendable(r.value[key]) || (!Truthy(kw[key]) && r.value[key] == kw[key])
    ensures r.Ok? && key in kw && Sendable(kw[key]) ==> r.value[key] == kw[key]
    ensures r.Ok? && key in kw ==> r.value[key] == (if Truthy(kw[key]) then SanitiseValue(kw[key]) else kw[key])
    ensures r.Err? ==> r.error == NotAMapping
  {
    if key !in kw || !Truthy(kw[key]) then Ok(kw)
    else if !kw[key].Object? then Err(NotAMapping)
    else
      SanitisedIsSendable(kw[key]);
      SanitiseFixedIffSendable(kw[key]);
      Ok(kw[key := SanitiseValue(kw[key])])
  }

  /** `AuthRequest.request`: the arguments the session is given, worked
      out on a copy, so the request itself stays as it was. */
  function SentArguments(r: AuthRequest): Result<JsonObject, AuthError>
  {
    SanitiseKwargs(r.attrs)
  }

  /** Whether `_sanitise_map` can walk the argument `key`: it is absent,
      falsy or a mapping. */
  predicate MappingOrEmpty(kw: JsonObject, key: string)
  {
    key in kw && Truthy(kw[key]) ==> kw[key].Object?
  }

  /** Whether `AuthRequest.request` can send the request: a non-empty
      `params` or `data` that is not a mapping has no `items()`. */
  predicate Mappable(r: AuthRequest)
  {
    MappingOrEmpty(r.attrs, "params") && MappingOrEmpty(r.attrs, "data")
  }

  /** The request the session is given by `AuthRequest.request`: the same
      method and URL, with `params` and `data` sanitised when non-empty
      and every other argument as it is. */
  function Outgoing(r: AuthRequest): (e: Result<AuthRequest, AuthError>)
    ensures e.Ok? <==> Mappable(r)
    ensures e.Err? ==> e.error == NotAMapping
    ensures e.Ok? ==> e.value.httpMethod == r.httpMethod && e.value.url == r.url && e.value.attrs.Keys == r.attrs.Keys
    ensures e.Ok? ==> forall k :: k in r.attrs && k !in SanitisedKeys ==> e.value.attrs[k] == r.attrs[k]
    ensures e.Ok? ==> forall k :: k in r.attrs && k in SanitisedKeys ==>
      e.value.attrs[k] == (if Truthy(r.attrs[k]) then SanitiseValue(r.attrs[k]) else r.attrs[k])
  {
    var args :- SentArguments(r);
    Ok(r.(attrs := args))
  }

  /** Sending what was sent sends the same: the sanitised request is
      mappable and sanitising it again changes nothing. */
  lemma OutgoingIdempotent(r: AuthRequest)
    requires Mappable(r)
    ensures Outgoing(r).Ok? && Outgoing(Outgoing(r).value) == Outgoing(r)
  {
    var s := Outgoing(r).value;
    forall k | k in SanitisedKeys && k in r.attrs && Truthy(r.attrs[k])
      ensures s.attrs[k] == SanitiseValue(r.attrs[k]) && s.attrs[k].Object? && Truthy(s.attrs[k])
      ensures SanitiseValue(s.attrs[k]) == s.attrs[k]
    {
      assert |s.attrs[k].fields| == |r.attrs[k].fields| by {
        assert s.attrs[k].fields.Keys == r.attrs[k].fields.Keys;
      }
      SanitiseIdempotent(r.attrs[k]);
    }
    assert Mappable(s);
    var t := Outgoing(s).value;
    assert t.attrs == s.attrs;
  }

  /** The current value of an argument, `{}` when it is not set. */
  function Current(r: AuthRequest, key: string): Value
  {
    if key in r.attrs then r.attrs[key] else Object(map[])
  }

  /** Entering `enrich_parameters(key, value)`: the argument becomes
      `current | value`, the new entries winning. Only a mapping can be
      merged. */
  function EnrichParameters(r: AuthRequest, key: string, value: JsonObject): (e: Result<AuthRequest, AuthError>)
    ensures e.Ok? <==> Current(r, key).Object?
    ensures e.Ok? ==> && e.value.httpMethod == r.httpMethod && e.value.url == r.url
                      && e.value.attrs.Keys == r.attrs.Keys + {key}
                      && (forall k :: k in r.attrs && k != key ==> e.value.attrs[k] == r.attrs[k])
    ensures e.Ok? ==> && e.value.attrs[key].Object?
                      && e.value.attrs[key].fields.Keys == Current(r, key).fields.Keys + value.Keys
                      && (forall k :: k in value ==> e.value.attrs[key].fields[k] == value[k])
                      && (forall k :: k in Current(r, key).fields && k !in value ==>
                            e.value.attrs[key].fields[k] == Current(r, key).fields[k])
  {
    match Current(r, key)
    case Object(m) => Ok(r.(attrs := r.attrs[key := Object(m + value)]))
    case _ => Err(NotMergeable)
  }

  /** Leaving `enrich_parameters`: the argument is put back when it had a
      truthy value, and removed otherwise. */
  function RestoreParameters(r: AuthRequest, key: string, previous: Value): (e: AuthRequest)
    ensures Truthy(previous) ==> key in e.attrs && e.attrs[key] == previous
    ensures !Truthy(previous) ==> key !in e.attrs
    ensures forall k :: k in r.attrs && k != key ==> k in e.attrs && e.attrs[k] == r.attrs[k]
  {
    if Truthy(previous) then r.(attrs := r.attrs[key := previous]) else r.(attrs := r.attrs - {key})
  }

  /** Enriching and then leaving gives back the request, except that an
      argument that was set to an empty mapping is removed. */
  lemma EnrichThenRestore(r: AuthRequest, key: string, value: JsonObject)
    requires Current(r, key).Object?
    ensures var e := RestoreParameters(EnrichParameters(r, key, value).value, key, Current(r, key));
      if key in r.attrs && !Truthy(r.attrs[key]) then e == r.(attrs := r.attrs - {key}) else e == r
  {
    var m := Current(r, key).fields;
    var e1 := r.(attrs := r.attrs[key := Object(m + value)]);
    assert EnrichParameters(r, key, value) == Ok(e1);
    var e := RestoreParameters(e1, key, Current(r, key));
    if key in r.attrs && Truthy(r.attrs[key]) {
      assert e == e1.(attrs := e1.attrs[key := r.attrs[key]]);
      assert e1.attrs[key := r.attrs[key]] == r.attrs;
    } else if key !in r.attrs {
      assert e == e1.(attrs := e1.attrs - {key});
      assert e1.attrs - {key} == r.attrs;
    } else {
      assert e == e1.(attrs := e1.attrs - {key});
      assert e1.attrs - {key} == r.attrs - {key};
    }
  }

  // ---------------------------------------------------------------------
  // AuthResponseHandler
  // ---------------------------------------------------------------------

  const DefaultTokenKey: string := "access_token"
  const AuthorizationHeader: string := "Authorization"
  const TokenTypeKey: string := "token_type"

  /** The stored token response and how headers are made from it. */
  datatype ResponseHandler = ResponseHandler(
    response: Option<JsonObject>,
    tokenKey: string,
    tokenPrefixDefault: Option<string>,
    additionalHeaders: Option<Headers>)

  function NewResponseHandler(tokenPrefixDefault: Option<string>, additionalHeaders: Option<Headers>): (h: ResponseHandler)
    ensures h.response.None? && h.tokenKey == DefaultTokenKey
  {
    ResponseHandler(None, DefaultTokenKey, tokenPrefixDefault, additionalHeaders)
  }

  /** `token`: the text of the stored response's token. */
  function Token(h: ResponseHandler): (r: Result<string, AuthError>)
    ensures !Present(h.response) <==> r == Err(NotAvailable)
    ensures Present(h.response) && h.tokenKey !in h.response.value <==> r == Err(TokenNotFound(h.tokenKey))
    ensures r.Ok? ==> h.tokenKey in h.response.value && r.value == StrOf(h.response.value[h.tokenKey])
  {
    if !Present(h.response) then Err(NotAvailable)
    else if h.tokenKey !in h.response.value then Err(TokenNotFound(h.tokenKey))
    else Ok(StrOf(h.response.value[h.tokenKey]))
  }

  /** The `Authorization` prefix: the response's `token_type`, else the
      default, which Python prints as `None` when unset. */
  function Prefix(h: ResponseHandler): string
    requires h.response.Some?
  {
    if TokenTypeKey in h.response.value then StrOf(h.response.value[TokenTypeKey])
    else match h.tokenPrefixDefault
      case None => "None"
      case Some(p) => p
  }

  /** `headers`: `Authorization: <prefix> <token>`, then the additional
      headers on top. */
  function AuthHeaders(h: ResponseHandler): (r: Result<Headers, AuthError>)
    ensures h.response.None? ==> r == Err(NoResponse)
    ensures h.response.Some? ==> (r.Ok? <==> Token(h).Ok?)
    ensures r.Ok? ==> AuthorizationHeader in r.value
    ensures r.Ok? ==> var extra := h.additionalHeaders.GetOr(map[]);
      && r.value.Keys == {AuthorizationHeader} + extra.Keys
      && (forall k :: k in extra ==> r.value[k] == extra[k])
      && (AuthorizationHeader !in extra ==> r.value[AuthorizationHeader] == Prefix(h) + " " + Token(h).value)
  {
    if h.response.None? then Err(NoResponse)
    else
      var prefix := Prefix(h);
      match Token(h)
      case Err(e) => Err(e)
      case Ok(token) =>
        var base := map[AuthorizationHeader := prefix + " " + token];
        match h.additionalHeaders
        case Some(extra) => if |extra| > 0 then Ok(base + extra) else Ok(base)
        case None => Ok(base)
  }

  /** `_clean_value` on a value's text: nothing below five characters,
      else the first five and `...`. */
  function Mask(s: string): (r: string)
    ensures |s| < 5 <==> r == ""
    ensures |s| >= 5 ==> |r| == 8 && r[..5] == s[..5] && r[5..] == "..."
  {
    if |s| < 5 then "" else s[..5] + "..."
  }

  /** Masking a masked text changes nothing. */
  lemma MaskIdempotent(s: string)
    ensures Mask(Mask(s)) == Mask(s)
  {
    if |s| >= 5 {
      assert Mask(s)[..5] == s[..5];
    }
  }

  predicate IsSecretKey(h: ResponseHandler, k: string)
  {
    EndsWith(k, "_token") || k == h.tokenKey
  }

  /** `sanitise_response`: the given response, else the stored one, with
      every `*_token` key and the token key masked. */
  function SanitiseResponse(h: ResponseHandler, given: Option<JsonObject>): (r: JsonObject)
    ensures var source := if Present(given) then given else h.response;
      && (!Present(source) ==> r == map[])
      && (Present(source) ==> && r.Keys == source.value.Keys
                              && forall k :: k in source.value ==>
                                   r[k] == if IsSecretKey(h, k) then Str(Mask(StrOf(source.value[k]))) else source.value[k])
  {
    var source := if Present(given) then given else h.response;
    if !Present(source) then map[]
    else
      var resp := source.value;
      var clean := map k | k in resp :: if EndsWith(k, "_token") then Str(Mask(StrOf(resp[k]))) else resp[k];
      if h.tokenKey in clean then
        var once := clean[h.tokenKey];
        assert EndsWith(h.tokenKey, "_token") ==> once == Str(Mask(StrOf(resp[h.tokenKey])));
        MaskIdempotent(StrOf(resp[h.tokenKey]));
        clean[h.tokenKey := Str(Mask(StrOf(once)))]
      else clean
  }

  /** Sanitising a sanitised response changes nothing. */
  lemma SanitiseResponseIdempotent(h: ResponseHandler, resp: JsonObject)
    requires |resp| > 0
    ensures SanitiseResponse(h, Some(SanitiseResponse(h, Some(resp)))) == SanitiseResponse(h, Some(resp))
  {
    var once := SanitiseResponse(h, Some(resp));
    var k0 :| k0 in resp;
    assert k0 in once;
    forall k | k in once && IsSecretKey(h, k)
      ensures Str(Mask(StrOf(once[k]))) == once[k]
    {
      MaskIdempotent(StrOf(resp[k]));
    }
  }

  /** A masked secret never shows more than its first five characters. */
  lemma MaskedSecrets(h: ResponseHandler, resp: JsonObject, k: string)
    requires k in resp && IsSecretKey(h, k)
    ensures var r := SanitiseResponse(h, Some(resp));
      r[k].Str? && (|r[k].s| == 0 || (|r[k].s| == 8 && r[k].s[..5] == StrOf(resp[k])[..5]))
  {
  }

  /** Which response `enrich_response` changed: the given one, or else the
      stored one. */
  datatype Enriched = Enriched(given: Option<JsonObject>, handler: ResponseHandler)

  /** The enrichment of one response: `granted_at` is now, `expires_at` is
      now plus `expires_in` when that is given, and the refresh token is
      added when the response has none. */
  function EnrichObject(resp: JsonObject, refreshToken: Value, now: real): (r: Result<JsonObject, AuthError>)
    ensures ("expires_in" in resp && FloatOf(resp["expires_in"]).None?) <==> r == Err(NotANumber)
    ensures r.Ok? ==> && r.value.Keys >= resp.Keys
                      && "granted_at" in r.value && r.value["granted_at"] == Float(now)
                      && ("expires_in" in resp ==> "expires_at" in r.value && r.value["expires_at"] == Float(now + FloatOf(resp["expires_in"]).value))
                      && ("refresh_token" in resp ==> r.value["refresh_token"] == resp["refresh_token"])
                      && ("refresh_token" !in resp && Truthy(refreshToken) ==> "refresh_token" in r.value && r.value["refresh_token"] == refreshToken)
                      && ("refresh_token" !in resp && !Truthy(refreshToken) ==> "refresh_token" !in r.value)
                      && (forall k :: k in resp && k !in {"granted_at", "expires_at"} ==> r.value[k] == resp[k])
  {
    var granted := resp["granted_at" := Float(now)];
    var timed :- if "expires_in" in granted then
        match FloatOf(granted["expires_in"])
        case None => Err(NotANumber)
        case Some(n) => Ok(granted["expires_at" := Float(now + n)])
      else Ok(granted);
    if "refresh_token" !in timed && Truthy(refreshToken) then Ok(timed["refresh_token" := refreshToken]) else Ok(timed)
  }

  /** `enrich_response(response, refresh_token)`: enriches the given
      response, or the stored one when none (or an empty one) is given;
      with neither, nothing happens. */
  function EnrichResponse(h: ResponseHandler, given: Option<JsonObject>, refreshToken: Value, now: real): (r: Result<Enriched, AuthError>)
    ensures Present(given) ==> r.Ok? == EnrichObject(given.value, refreshToken, now).Ok?
    ensures Present(given) && r.Ok? ==> r.value.handler == h && r.value.given == Some(EnrichObject(given.value, refreshToken, now).value)
    ensures !Present(given) && r.Ok? ==> r.value.given == given
    ensures r.Ok? ==> (r.value.given.Some? <==> given.Some?)
    ensures !Present(given) && !Present(h.response) ==> r == Ok(Enriched(given, h))
  {
    if Present(given) then
      var e :- EnrichObject(given.value, refreshToken, now);
      Ok(Enriched(Some(e), h))
    else if Present(h.response) then
      var e :- EnrichObject(h.response.value, refreshToken, now);
      Ok(Enriched(given, h.(response := Some(e))))
    else Ok(Enriched(given, h))
  }

  // ---------------------------------------------------------------------
  // AuthResponseTester
  // ---------------------------------------------------------------------

  /** The tester: the request of the token test when both it and a
      response test are set (`None` skips the token test), and the least
      number of seconds a token must still be valid for. */
  datatype Tester = Tester(tokenRequest: Option<AuthRequest>, maxExpiry: int)

  const HeadersKey: string := "headers"

  /** Headers as the value of a request argument. */
  function HeadersValue(h: Headers): JsonObject
  {
    map k | k in h :: Str(h[k])
  }

  /** The token test's request as the session receives it: the given
      headers merged into its own, then its arguments sanitised. */
  function WithHeaders(req: AuthRequest, h: Headers): (sent: AuthRequest)
    requires Current(req, HeadersKey).Object? && Mappable(req)
    ensures sent.httpMethod == req.httpMethod && sent.url == req.url
    ensures HeadersKey in sent.attrs && sent.attrs[HeadersKey].Object?
    ensures forall k :: k in h ==> k in sent.attrs[HeadersKey].fields && sent.attrs[HeadersKey].fields[k] == Str(h[k])
    ensures sent.attrs[HeadersKey] == Object(Current(req, HeadersKey).fields + HeadersValue(h))
  {
    var enriched := EnrichParameters(req, HeadersKey, HeadersValue(h)).value;
    assert Mappable(enriched) by { EnrichKeepsMappable(req, HeadersKey, HeadersValue(h)); }
    Outgoing(enriched).value
  }

  /** Enriching an argument keeps a request sendable, and unsendable: the
      enriched argument is a mapping before and after. */
  lemma EnrichKeepsMappable(r: AuthRequest, key: string, value: JsonObject)
    requires Current(r, key).Object?
    ensures Mappable(EnrichParameters(r, key, value).value) <==> Mappable(r)
  {
    var e := EnrichParameters(r, key, value).value;
    assert MappingOrEmpty(e.attrs, key) && MappingOrEmpty(r.attrs, key);
  }

  /** `_test_response`. */
  predicate ResponseTest(resp: JsonObject)
  {
    "error" !in resp
  }

  /** `_test_expiry`: passes when there is nothing to test; otherwise
      `expires_at` is tested first, against `now + max_expiry`, and else
      `expires_in` against `max_expiry`, both strictly. */
  function ExpiryTest(t: Tester, resp: JsonObject, now: real): (r: Result<bool, AuthError>)
    ensures ("expires_at" !in resp && "expires_in" !in resp) || t.maxExpiry <= 0 ==> r == Ok(true)
    ensures t.maxExpiry > 0 && "expires_at" in resp ==>
      r == match Numeric(resp["expires_at"])
        case Some(x) => Ok(now + t.maxExpiry as real < x)
        case None => Err(NotComparable)
    ensures t.maxExpiry > 0 && "expires_at" !in resp && "expires_in" in resp ==>
      r == match Numeric(resp["expires_in"])
        case Some(x) => Ok((t.maxExpiry as real) < x)
        case None => Err(NotComparable)
  {
    if ("expires_at" !in resp && "expires_in" !in resp) || t.maxExpiry <= 0 then Ok(true)
    else
      var key := if "expires_at" in resp then "expires_at" else "expires_in";
      var bound := if "expires_at" in resp then now + t.maxExpiry as real else t.maxExpiry as real;
      match Numeric(resp[key])
      case Some(x) => Ok(bound < x)
      case None => Err(NotComparable)
  }

  /** A response that passes the expiry test at some time passes it at
      every earlier time too, and one that fails it fails at every later
      time: the tests only ever get harder to pass as time goes on. */
  lemma {:induction false} ExpiryTestMonotone(t: Tester, resp: JsonObject, earlier: real, later: real)
    requires earlier <= later
    ensures ExpiryTest(t, resp, later) == Ok(true) ==> ExpiryTest(t, resp, earlier) == Ok(true)
    ensures ExpiryTest(t, resp, earlier) == Ok(false) ==> ExpiryTest(t, resp, later) == Ok(false)
    ensures ExpiryTest(t, resp, earlier).Ok? <==> ExpiryTest(t, resp, later).Ok?
  {
    if !(("expires_at" !in resp && "expires_in" !in resp) || t.maxExpiry <= 0) && "expires_at" in resp {
      match Numeric(resp["expires_at"]) {
        case Some(x) =>
          assert ExpiryTest(t, resp, later) == Ok(later + t.maxExpiry as real < x);
          assert ExpiryTest(t, resp, earlier) == Ok(earlier + t.maxExpiry as real < x);
        case None =>
      }
    }
  }

  /** `_test_token`: with no token test set it passes. Otherwise the
      given headers are merged into its request's with `|`, so `None`
      headers raise `TypeError`, as does a request whose `headers` is not
      a mapping; the request goes out through `AuthRequest.request`, which
      raises `AttributeError` on a non-empty `params` or `data` that is not
      a mapping, and the response test's verdict on the answer, `check`,
      decides, no verdict counting as a failure. */
  function TokenTest(t: Tester, headers: Option<Headers>, check: AuthRequest -> Option<bool>): (r: Result<bool, AuthError>)
    ensures t.tokenRequest.None? ==> r == Ok(true)
    ensures t.tokenRequest.Some? && headers.None? ==> r == Err(NotMergeable)
    ensures t.tokenRequest.Some? && headers.Some? && !Current(t.tokenRequest.value, HeadersKey).Object? ==> r == Err(NotMergeable)
    ensures t.tokenRequest.Some? && headers.Some? && Current(t.tokenRequest.value, HeadersKey).Object? && !Mappable(t.tokenRequest.value) ==>
      r == Err(NotAMapping)
    ensures t.tokenRequest.Some? && headers.Some? ==>
      (r.Ok? <==> Current(t.tokenRequest.value, HeadersKey).Object? && Mappable(t.tokenRequest.value))
    ensures t.tokenRequest.Some? && r.Ok? ==> headers.Some? && (r.value <==> check(WithHeaders(t.tokenRequest.value, headers.value)) == Some(true))
  {
    match t.tokenRequest
    case None => Ok(true)
    case Some(req) =>
      var value :- if headers.Some? then Ok(HeadersValue(headers.value)) else Err(NotMergeable);
      var enriched :- EnrichParameters(req, HeadersKey, value);
      assert Mappable(enriched) <==> Mappable(req) by { EnrichKeepsMappable(req, HeadersKey, value); }
      var sent :- Outgoing(enriched);
      Ok(check(sent).GetOr(false))
  }

  /** The outcome of `test`: the verdict, and whether the token test's
      request was made. */
  datatype Tested = Tested(valid: bool, tokenTested: bool)

  /** Whether a response passes the tests before the token test. */
  predicate PassesChecks(t: Tester, response: Option<JsonObject>, now: real)
  {
    Present(response) && ResponseTest(response.value) && ExpiryTest(t, response.value, now) == Ok(true)
  }

  /** `test(response, headers)`: false for no response; otherwise the
      response test, the expiry test and the token test, each run only
      when the ones before passed. */
  function Test(t: Tester, response: Option<JsonObject>, headers: Option<Headers>, now: real, check: AuthRequest -> Option<bool>): (r: Result<Tested, AuthError>)
    ensures !Present(response) ==> r == Ok(Tested(false, false))
    ensures r.Ok? && r.value.valid ==> PassesChecks(t, response, now) && TokenTest(t, headers, check) == Ok(true)
    ensures r.Ok? && r.value.tokenTested ==> t.tokenRequest.Some? && PassesChecks(t, response, now)
    ensures r.Err? ==> r.error == NotComparable || PassesChecks(t, response, now)
    ensures PassesChecks(t, response, now) && t.tokenRequest.None? ==> r == Ok(Tested(true, false))
    ensures PassesChecks(t, response, now) && t.tokenRequest.Some? && headers.None? ==> r == Err(NotMergeable)
    ensures PassesChecks(t, response, now) && t.tokenRequest.Some? && headers.Some? ==>
      var req := t.tokenRequest.value;
      Current(req, HeadersKey).Object? && !Mappable(req) ==> r == Err(NotAMapping)
    ensures PassesChecks(t, response, now) && t.tokenRequest.Some? && headers.Some? ==>
      var req := t.tokenRequest.value;
      Current(req, HeadersKey).Object? && Mappable(req) ==>
        r == Ok(Tested(check(WithHeaders(req, headers.value)) == Some(true), true))
  {
    if !Present(response) then Ok(Tested(false, false))
    else if !ResponseTest(response.value) then Ok(Tested(false, false))
    else
      var expiry :- ExpiryTest(t, response.value, now);
      if !expiry then Ok(Tested(false, false))
      else
        var token :- TokenTest(t, headers, check);
        Ok(Tested(token, t.tokenRequest.Some?))
  }

  /** Without headers, a tester with a token test can never pass a
      response: one that fails the earlier tests is invalid, and one that
      passes them raises `TypeError`. */
  lemma NoHeadersNeverValid(t: Tester, response: Option<JsonObject>, now: real, check: AuthRequest -> Option<bool>)
    requires t.tokenRequest.Some?
    ensures var r := Test(t, response, None, now, check);
      !(r.Ok? && r.value.valid) && (PassesChecks(t, response, now) <==> r == Err(NotMergeable))
  {
  }

  // ---------------------------------------------------------------------
  // Examples
  // ---------------------------------------------------------------------

  /** The sanitised `data` of the documented example: the boolean becomes
      JSON text, the string and the number are kept. */
  lemma SanitiseDataExample()
    ensures var data := map["key1" := Str("value1"), "key2" := Int(234), "key3" := Bool(true)];
      SanitiseMap(data) == data["key3" := Str("true")]
  {
    var data := map["key1" := Str("value1"), "key2" := Int(234), "key3" := Bool(true)];
    var r := SanitiseMap(data);
    assert r["key1"] == Str("value1") && r["key2"] == Int(234) && r["key3"] == Str("true");
    assert r.Keys == {"key1", "key2", "key3"};
  }

  /** The sanitised `params` of the documented example: `None` becomes
      JSON text, the float and the empty mapping are kept. */
  lemma SanitiseParamsExample()
    ensures var params := map["key1" := Float(1.231), "key2" := Null, "key3" := Object(map[])];
      SanitiseMap(params) == params["key2" := Str("null")]
  {
    var params := map["key1" := Float(1.231), "key2" := Null, "key3" := Object(map[])];
    var r := SanitiseMap(params);
    assert SanitiseMap(map[]) == map[];
    assert r["key1"] == Float(1.231) && r["key2"] == Str("null") && r["key3"] == Object(map[]);
    assert r.Keys == {"key1", "key2", "key3"};
  }

  /** The expiry examples: 3600 seconds to go passes a 1500-second
      minimum and 100 fails it; `expires_at` decides when present. */
  lemma ExpiryExamples(now: real)
    ensures var t := Tester(None, 1500);
      var resp := map["access_token" := Str("fake access token"), "expires_in" := Int(3600)];
      && ExpiryTest(t, resp, now) == Ok(true)
      && ExpiryTest(t, resp["expires_in" := Int(100)], now) == Ok(false)
      && ExpiryTest(t, resp["expires_in" := Int(100)]["expires_at" := Float(now + 3600.0)], now) == Ok(true)
      && ExpiryTest(t, resp["expires_at" := Float(now + 100.0)], now) == Ok(false)
      && ExpiryTest(Tester(None, 0), map["expires_at" := Float(now + 1.0)], now) == Ok(true)
  {
  }

  /** The token test examples: with no token test any headers pass; with
      one whose endpoint answers with an error unless the headers carry a
      valid bearer token, those headers pass and others fail. */
  lemma TokenTestExample(req: AuthRequest)
    requires HeadersKey !in req.attrs && Mappable(req)
    ensures var check := (sent: AuthRequest) => Some(Current(sent, HeadersKey) == Object(map[AuthorizationHeader := Str("Bearer valid")]));
      && TokenTest(Tester(None, 0), None, check) == Ok(true)
      && TokenTest(Tester(None, 0), Some(map[AuthorizationHeader := "Basic invalid"]), check) == Ok(true)
      && TokenTest(Tester(Some(req), 0), Some(map[AuthorizationHeader := "Bearer valid"]), check) == Ok(true)
      && TokenTest(Tester(Some(req), 0), Some(map[AuthorizationHeader := "Basic invalid"]), check) == Ok(false)
  {
    var check := (sent: AuthRequest) => Some(Current(sent, HeadersKey) == Object(map[AuthorizationHeader := Str("Bearer valid")]));
    var valid := map[AuthorizationHeader := "Bearer valid"];
    var invalid := map[AuthorizationHeader := "Basic invalid"];
    assert Current(req, HeadersKey) == Object(map[]);
    assert check(WithHeaders(req, valid)) == Some(true) by {
      assert map[] + HeadersValue(valid) == map[AuthorizationHeader := Str("Bearer valid")];
    }
    assert check(WithHeaders(req, invalid)) == Some(false) by {
      assert (map[] + HeadersValue(invalid))[AuthorizationHeader] == Str("Basic invalid");
    }
  }
}
