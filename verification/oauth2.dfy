/** The OAuth2 authorisation-code flow of section 4.1 of RFC 6749, with the
    refresh of section 6: a stored or saved token response is used when it
    passes the tester; an invalid loaded one is refreshed when it can be,
    and a new one is generated (the user authorises in the browser, then
    the code is exchanged for a token) when refreshing is not possible or
    did not help. The browser, the token and refresh endpoints, the token
    file, the generated `state`, the token test's answer and the clock are
    all given in an `Env`. */
module OAuth2 {
  import opened Wrappers
  import opened Http
  import opened Json
  import opened AuthUtils

  /** What the redirect sends to the listening socket: no `GET` line, or
      the query of the URL on the first one. */
  datatype Callback = NoGetLine | Redirect(query: map<string, string>)

  const StateKey: string := "state"
  const CodeKey: string := "code"

  /** The configuration and the state the flow changes: its three requests
      and its response handler. */
  datatype Flow = Flow(
    userRequest: AuthRequest,
    tokenRequest: AuthRequest,
    refreshRequest: Option<AuthRequest>,
    redirectUrl: string,
    handler: ResponseHandler,
    tester: Tester)

  /** Everything outside the program: the `state` the flow generates, the
      saved token file's content, what the user's browser redirects to for
      a given authorise request, what the token and refresh endpoints
      answer to a given request, what the token test's response test
      concludes of the answer to a given request, and the time. */
  datatype Env = Env(
    state: string,
    file: Option<JsonObject>,
    browser: AuthRequest -> Callback,
    tokenEndpoint: AuthRequest -> JsonObject,
    refreshEndpoint: AuthRequest -> JsonObject,
    tokenCheck: AuthRequest -> Option<bool>,
    now: real)

  const ParamsKey: string := "params"

  /** One exchange with extra `params`: what the endpoint answers to the
      enriched request, and the request as it is afterwards. */
  datatype Exchanged<T> = Exchanged(answer: T, request: AuthRequest)

  /** The request is enriched, then sent through `AuthRequest.request`:
      `params` that are not a mapping cannot be merged (`TypeError`), and
      a non-empty `data` that is not a mapping cannot be sanitised
      (`AttributeError`). */
  function Exchange<T>(r: AuthRequest, params: JsonObject, endpoint: AuthRequest -> T): (e: Result<Exchanged<T>, AuthError>)
    ensures e.Ok? <==> Current(r, ParamsKey).Object? && Mappable(r)
    ensures !Current(r, ParamsKey).Object? ==> e == Err(NotMergeable)
    ensures Current(r, ParamsKey).Object? && !Mappable(r) ==> e == Err(NotAMapping)
  {
    var enriched :- EnrichParameters(r, ParamsKey, params);
    assert Mappable(enriched) <==> Mappable(r) by { EnrichKeepsMappable(r, ParamsKey, params); }
    var sent :- Outgoing(enriched);
    Ok(Exchanged(endpoint(sent), RestoreParameters(enriched, ParamsKey, Current(r, ParamsKey))))
  }

  /** The request an exchange sends: the flow's request with the extra
      parameters merged into its `params`, sanitised as the session is
      given it; a parameter that is already sendable goes as it is. */
  function Sent(r: AuthRequest, params: JsonObject): (sent: AuthRequest)
    requires Current(r, ParamsKey).Object? && Mappable(r)
    ensures sent.httpMethod == r.httpMethod && sent.url == r.url
    ensures ParamsKey in sent.attrs && sent.attrs[ParamsKey].Object?
    ensures forall k :: k in params ==> k in sent.attrs[ParamsKey].fields && sent.attrs[ParamsKey].fields[k] == SanitiseValue(params[k])
    ensures forall k :: k in params && Sendable(params[k]) ==> sent.attrs[ParamsKey].fields[k] == params[k]
  {
    var enriched := EnrichParameters(r, ParamsKey, params).value;
    assert Mappable(enriched) by { EnrichKeepsMappable(r, ParamsKey, params); }
    var sent := Outgoing(enriched).value;
    assert forall k :: k in params ==> sent.attrs[ParamsKey].fields[k] == SanitiseValue(params[k]) by {
      forall k | k in params
        ensures sent.attrs[ParamsKey].fields[k] == SanitiseValue(params[k])
      {
        var m := enriched.attrs[ParamsKey].fields;
        assert k in m && Truthy(enriched.attrs[ParamsKey]);
        assert sent.attrs[ParamsKey] == Object(SanitiseMap(m));
      }
    }
    assert forall k :: k in params && Sendable(params[k]) ==> SanitiseValue(params[k]) == params[k] by {
      forall k | k in params && Sendable(params[k]) ensures SanitiseValue(params[k]) == params[k] {
        SanitiseFixedIffSendable(params[k]);
      }
    }
    sent
  }

  /** The endpoint answers the request with the extra parameters added. */
  lemma ExchangeSeesParameters<T>(r: AuthRequest, params: JsonObject, endpoint: AuthRequest -> T)
    requires Current(r, ParamsKey).Object? && Mappable(r)
    ensures Exchange(r, params, endpoint).value.answer == endpoint(Sent(r, params))
  {
  }

  /** After the exchange the request is as it was, except that an empty
      `params` is dropped. */
  lemma ExchangeRestores<T>(r: AuthRequest, params: JsonObject, endpoint: AuthRequest -> T)
    requires Current(r, ParamsKey).Object? && Mappable(r)
    ensures var after := Exchange(r, params, endpoint).value.request;
      if ParamsKey in r.attrs && !Truthy(r.attrs[ParamsKey]) then after == r.(attrs := r.attrs - {ParamsKey}) else after == r
  {
    var enriched := EnrichParameters(r, ParamsKey, params).value;
    assert Outgoing(enriched).Ok? by { EnrichKeepsMappable(r, ParamsKey, params); }
    assert Exchange(r, params, endpoint).value.request == RestoreParameters(enriched, ParamsKey, Current(r, ParamsKey));
    EnrichThenRestore(r, ParamsKey, params);
  }

  /** The end of `_authorise_user`: the redirect must have a `GET` line
      whose query carries back the `state` that was sent, and then its
      `code` is the result. A missing line or key raises. */
  function CheckCallback(state: string, cb: Callback): (r: Result<string, AuthError>)
    ensures cb.NoGetLine? ==> r == Err(NoRequestLine)
    ensures cb.Redirect? && StateKey !in cb.query ==> r == Err(MissingKey(StateKey))
    ensures cb.Redirect? && StateKey in cb.query && cb.query[StateKey] != state ==> r == Err(InvalidState)
    ensures cb.Redirect? && StateKey in cb.query && cb.query[StateKey] == state && CodeKey !in cb.query ==> r == Err(MissingKey(CodeKey))
    ensures r.Ok? <==> cb.Redirect? && StateKey in cb.query && cb.query[StateKey] == state && CodeKey in cb.query
    ensures r.Ok? ==> r.value == cb.query[CodeKey]
  {
    match cb
    case NoGetLine => Err(NoRequestLine)
    case Redirect(query) =>
      if StateKey !in query then Err(MissingKey(StateKey))
      else if query[StateKey] != state then Err(InvalidState)
      else if CodeKey !in query then Err(MissingKey(CodeKey))
      else Ok(query[CodeKey])
  }

  /** A response, with the flow as it is after obtaining it. */
  datatype Obtained = Obtained(response: JsonObject, flow: Flow)

  /** `_authorise_user`: the authorise request goes out with the redirect
      URL and the `state` as parameters, and the code comes back. */
  function AuthoriseUser(flow: Flow, env: Env): (r: Result<(string, Flow), AuthError>)
  {
    var params := map["redirect_uri" := Str(flow.redirectUrl), StateKey := Str(env.state)];
    var ex :- Exchange(flow.userRequest, params, env.browser);
    var code :- CheckCallback(env.state, ex.answer);
    Ok((code, flow.(userRequest := ex.request)))
  }

  /** `_request_token`: the code is exchanged for a token response, which
      is then enriched. */
  function RequestToken(flow: Flow, env: Env, code: string): (r: Result<Obtained, AuthError>)
    ensures r.Ok? ==> r.value.flow.tester == flow.tester && r.value.flow.redirectUrl == flow.redirectUrl
  {
    var params := map[CodeKey := Str(code), "redirect_uri" := Str(flow.redirectUrl)];
    var ex :- Exchange(flow.tokenRequest, params, env.tokenEndpoint);
    var en :- EnrichResponse(flow.handler, Some(ex.answer), Null, env.now);
    Ok(Obtained(en.given.value, flow.(tokenRequest := ex.request, handler := en.handler)))
  }

  /** `_refresh_token`: the refresh token is exchanged for a new token
      response, which keeps the old refresh token when it brings none. */
  function RefreshToken(flow: Flow, env: Env, refreshToken: Value): (r: Result<Obtained, AuthError>)
    requires flow.refreshRequest.Some?
    ensures r.Ok? ==> r.value.flow.tester == flow.tester && r.value.flow.refreshRequest.Some?
  {
    var ex :- Exchange(flow.refreshRequest.value, map["refresh_token" := refreshToken], env.refreshEndpoint);
    var en :- EnrichResponse(flow.handler, Some(ex.answer), refreshToken, env.now);
    Ok(Obtained(en.given.value, flow.(refreshRequest := Some(ex.request), handler := en.handler)))
  }

  /** A new token: user authorisation, then the code exchange. */
  function Generate(flow: Flow, env: Env): (r: Result<Obtained, AuthError>)
    ensures r.Ok? ==> r.value.flow.tester == flow.tester
  {
    var (code, f) :- AuthoriseUser(flow, env);
    RequestToken(f, env, code)
  }

  /** Which `authorise()` is meant: the code as written, or the code as
      evidently intended. They differ in whether a response held in memory
      counts as loaded, and in whether the tester is given headers. */
  datatype Variant = Variant(keepInMemory: bool, passHeaders: bool)

  const AsWritten := Variant(false, false)
  const Intended := Variant(true, true)

  /** The headers of a response, as the response handler gives them once
      it holds that response; none when it has no token. */
  function HeadersFor(flow: Flow, response: JsonObject): (h: Option<Headers>)
    ensures h.Some? <==> AuthHeaders(flow.handler.(response := Some(response))).Ok?
    ensures h.Some? ==> AuthorizationHeader in h.value
  {
    match AuthHeaders(flow.handler.(response := Some(response)))
    case Ok(headers) => Some(headers)
    case Err(_) => None
  }

  /** The tester's verdict on a response. As written, `authorise()` calls
      the tester with the response only, so its token test is given no
      headers; as intended, it is given the response's own headers. */
  function Valid(flow: Flow, env: Env, response: JsonObject, passHeaders: bool): (r: Result<bool, AuthError>)
    ensures r == Ok(true) ==> ResponseTest(response) && ExpiryTest(flow.tester, response, env.now) == Ok(true)
    ensures !passHeaders && flow.tester.tokenRequest.Some? ==> r != Ok(true)
    ensures passHeaders && flow.tester.tokenRequest.Some? && r == Ok(true) ==>
      HeadersFor(flow, response).Some? && TokenTest(flow.tester, HeadersFor(flow, response), env.tokenCheck) == Ok(true)
  {
    var headers := if passHeaders then HeadersFor(flow, response) else None;
    var t :- Test(flow.tester, Some(response), headers, env.now, env.tokenCheck);
    Ok(t.valid)
  }

  /** Without a token test, passing headers changes nothing. */
  lemma HeadersOnlyForTokenTest(flow: Flow, env: Env, response: JsonObject)
    requires flow.tester.tokenRequest.None?
    ensures Valid(flow, env, response, false) == Valid(flow, env, response, true)
  {
  }

  /** What the flow ends with, and how often it generated a token,
      refreshed one and ran the tester. */
  datatype Outcome = Outcome(response: JsonObject, valid: bool, flow: Flow, generated: nat, refreshed: nat, tested: nat)

  /** Whether the flow may refresh this response. */
  predicate CanRefresh(flow: Flow, response: JsonObject)
  {
    flow.refreshRequest.Some? && "refresh_token" in response
  }

  /** `_handle_invalid_loaded_response`: refresh when possible; generate a
      new token when no refresh was made or the refreshed one is invalid.
      The verdict is the tester's last. */
  function Recover(flow: Flow, env: Env, response: JsonObject, passHeaders: bool): (r: Result<Outcome, AuthError>)
    ensures r.Ok? ==> r.value.flow.tester == flow.tester
    ensures r.Ok? ==> Valid(r.value.flow, env, r.value.response, passHeaders) == Ok(r.value.valid)
    ensures r.Ok? ==> r.value.refreshed == (if CanRefresh(flow, response) then 1 else 0)
    ensures r.Ok? ==> r.value.generated <= 1 && r.value.tested == r.value.refreshed + r.value.generated
    ensures r.Ok? && r.value.generated == 0 ==> r.value.refreshed == 1 && r.value.valid
    ensures r.Ok? && !CanRefresh(flow, response) ==> r.value.generated == 1
  {
    if CanRefresh(flow, response) then
      var refreshed :- RefreshToken(flow, env, response["refresh_token"]);
      var valid :- Valid(refreshed.flow, env, refreshed.response, passHeaders);
      if valid then Ok(Outcome(refreshed.response, true, refreshed.flow, 0, 1, 1))
      else
        var generated :- Generate(refreshed.flow, env);
        var valid' :- Valid(generated.flow, env, generated.response, passHeaders);
        Ok(Outcome(generated.response, valid', generated.flow, 1, 1, 2))
    else
      var generated :- Generate(flow, env);
      var valid :- Valid(generated.flow, env, generated.response, passHeaders);
      Ok(Outcome(generated.response, valid, generated.flow, 1, 0, 1))
  }

  /** The response `authorise` starts from, and whether it counts as
      loaded. In the code as written, a response already held in memory
      is taken but does not count as loaded (`keepInMemory` false); only
      one read from the token file does. */
  datatype Start = Start(response: Option<JsonObject>, loaded: bool, flow: Flow)

  function StartFrom(flow: Flow, env: Env, keepInMemory: bool): (s: Start)
    ensures Present(flow.handler.response) ==> s.response == flow.handler.response && s.loaded == keepInMemory
    ensures !Present(flow.handler.response) ==> s.response == env.file && s.loaded == Present(env.file)
    ensures s.loaded ==> Present(s.response)
  {
    if Present(flow.handler.response) then Start(flow.handler.response, keepInMemory, flow)
    else if env.file.Some? then Start(env.file, Present(env.file), flow.(handler := flow.handler.(response := env.file)))
    else Start(None, false, flow)
  }

  /** The response `authorise()` ends with, before the final checks:
      generated when nothing was loaded, recovered when a loaded one is
      invalid, else the loaded one. */
  function Settle(flow: Flow, env: Env, v: Variant): (r: Result<Outcome, AuthError>)
    ensures r.Ok? ==> r.value.flow.tester == flow.tester
    ensures r.Ok? ==> Valid(r.value.flow, env, r.value.response, v.passHeaders) == Ok(r.value.valid)
    ensures r.Ok? ==> r.value.generated <= 1 && r.value.refreshed <= 1
    ensures r.Ok? ==> r.value.tested == 1 + r.value.refreshed + (if StartFrom(flow, env, v.keepInMemory).loaded then r.value.generated else 0)
    ensures r.Ok? && !StartFrom(flow, env, v.keepInMemory).loaded ==> r.value.generated == 1 && r.value.refreshed == 0
  {
    var start := StartFrom(flow, env, v.keepInMemory);
    var first :- if start.loaded then Ok(Obtained(start.response.value, start.flow)) else Generate(start.flow, env);
    var valid :- Valid(first.flow, env, first.response, v.passHeaders);
    if !valid && start.loaded then
      var recovered :- Recover(first.flow, env, first.response, v.passHeaders);
      Ok(recovered.(tested := recovered.tested + 1))
    else Ok(Outcome(first.response, valid, first.flow, if start.loaded then 0 else 1, 0, 1))
  }

  /** A successful authorisation: the headers, and the flow with the
      response now stored. */
  datatype Authorised = Authorised(headers: Headers, outcome: Outcome)

  /** The end of `authorise()`: an empty response could not be generated,
      an invalid one is refused, a valid one is stored and its headers
      returned. */
  function Finish(outcome: Outcome): (r: Result<Authorised, AuthError>)
    ensures |outcome.response| == 0 ==> r == Err(CouldNotGenerate)
    ensures |outcome.response| > 0 && !outcome.valid ==> r == Err(StillNotValid)
    ensures r.Ok? ==> && |r.value.outcome.response| > 0 && r.value.outcome.valid
                      && r.value.outcome.response == outcome.response
                      && r.value.outcome.generated == outcome.generated && r.value.outcome.refreshed == outcome.refreshed
                      && r.value.outcome.tested == outcome.tested
                      && r.value.outcome.flow.handler.response == Some(outcome.response)
                      && AuthHeaders(r.value.outcome.flow.handler) == Ok(r.value.headers)
  {
    if |outcome.response| == 0 then Err(CouldNotGenerate)
    else if !outcome.valid then Err(StillNotValid)
    else
      var saved := outcome.flow.(handler := outcome.flow.handler.(response := Some(outcome.response)));
      var headers :- AuthHeaders(saved.handler);
      Ok(Authorised(headers, outcome.(flow := saved)))
  }

  /** `authorise()`, as written or as intended. */
  function Run(flow: Flow, env: Env, v: Variant): Result<Authorised, AuthError>
  {
    var outcome :- Settle(flow, env, v);
    Finish(outcome)
  }

  /** `authorise()` as written. */
  function Authorise(flow: Flow, env: Env): Result<Authorised, AuthError>
  {
    Run(flow, env, AsWritten)
  }

  /** `authorise()` as evidently intended: a response held in memory is
      used like one read from the file, and the tester is given the
      headers of the response it tests. */
  function AuthoriseIntended(flow: Flow, env: Env): Result<Authorised, AuthError>
  {
    Run(flow, env, Intended)
  }

  // ---------------------------------------------------------------------
  // Properties of the flow
  // ---------------------------------------------------------------------

  /** A redirect that does not carry back the `state` sent is refused. */
  lemma MismatchedStateRejected(flow: Flow, env: Env)
    requires Current(flow.userRequest, ParamsKey).Object? && Mappable(flow.userRequest)
    requires forall r :: env.browser(r).Redirect? && StateKey in env.browser(r).query && env.browser(r).query[StateKey] != env.state
    ensures Generate(flow, env) == Err(InvalidState)
  {
    var params := map["redirect_uri" := Str(flow.redirectUrl), StateKey := Str(env.state)];
    var ex := Exchange(flow.userRequest, params, env.browser);
    assert ex.Ok?;
    assert CheckCallback(env.state, ex.value.answer) == Err(InvalidState);
  }

  /** The user is sent the authorise request with the redirect URL and the
      `state` among its parameters. The user step succeeds exactly when
      the redirect carries back that `state` and a `code`, and then the
      code is what comes back; otherwise it fails as the redirect check
      does. */
  lemma CodeComesFromRedirect(flow: Flow, env: Env)
    requires Current(flow.userRequest, ParamsKey).Object? && Mappable(flow.userRequest)
    ensures var params := map["redirect_uri" := Str(flow.redirectUrl), StateKey := Str(env.state)];
      var cb := Exchange(flow.userRequest, params, env.browser).value.answer;
      AuthoriseUser(flow, env).Ok? <==> cb.Redirect? && StateKey in cb.query && cb.query[StateKey] == env.state && CodeKey in cb.query
    ensures var params := map["redirect_uri" := Str(flow.redirectUrl), StateKey := Str(env.state)];
      var ex := Exchange(flow.userRequest, params, env.browser).value;
      AuthoriseUser(flow, env).Ok? ==> AuthoriseUser(flow, env).value == (ex.answer.query[CodeKey], flow.(userRequest := ex.request))
    ensures var params := map["redirect_uri" := Str(flow.redirectUrl), StateKey := Str(env.state)];
      var cb := Exchange(flow.userRequest, params, env.browser).value.answer;
      AuthoriseUser(flow, env).Err? ==> AuthoriseUser(flow, env).error == CheckCallback(env.state, cb).error
  {
  }

  /** A refreshed response that brings no refresh token of its own keeps
      the one it was refreshed with. */
  lemma RefreshKeepsRefreshToken(flow: Flow, env: Env, refreshToken: Value)
    requires flow.refreshRequest.Some? && Current(flow.refreshRequest.value, ParamsKey).Object? && Mappable(flow.refreshRequest.value)
    requires Truthy(refreshToken)
    ensures var answer := Exchange(flow.refreshRequest.value, map["refresh_token" := refreshToken], env.refreshEndpoint).value.answer;
      var r := RefreshToken(flow, env, refreshToken);
      |answer| > 0 && "refresh_token" !in answer && r.Ok? ==>
        "refresh_token" in r.value.response && r.value.response["refresh_token"] == refreshToken
                                             && r.value.response["granted_at"] == Float(env.now)
  {
    var ex := Exchange(flow.refreshRequest.value, map["refresh_token" := refreshToken], env.refreshEndpoint);
    var answer := ex.value.answer;
    if |answer| > 0 && "refresh_token" !in answer && RefreshToken(flow, env, refreshToken).Ok? {
      var en := EnrichResponse(flow.handler, Some(answer), refreshToken, env.now);
      assert en.Ok?;
      assert RefreshToken(flow, env, refreshToken).value.response == EnrichObject(answer, refreshToken, env.now).value;
    }
  }

  /** Where a loaded response leads: kept when the tester passes it,
      recovered (with one more test counted) when it fails. */
  lemma SettleLoaded(flow: Flow, env: Env, v: Variant)
    requires StartFrom(flow, env, v.keepInMemory).loaded
    ensures var start := StartFrom(flow, env, v.keepInMemory);
      var first := Obtained(start.response.value, start.flow);
      var r := Settle(flow, env, v);
      var recovered := Recover(first.flow, env, first.response, v.passHeaders);
      && (Valid(first.flow, env, first.response, v.passHeaders) == Ok(true) ==> r == Ok(Outcome(first.response, true, first.flow, 0, 0, 1)))
      && (Valid(first.flow, env, first.response, v.passHeaders) == Ok(false) && r.Ok? ==>
            recovered.Ok? && r.value == recovered.value.(tested := recovered.value.tested + 1))
  {
  }

  /** Recovery and generation happen only where `authorise()` calls for
      them: a refresh or a second generation only after a loaded
      response failed the tester, and a loaded response that passes is
      kept as it is. */
  lemma RecoveryOnlyAfterInvalidLoad(flow: Flow, env: Env, v: Variant)
    ensures var start := StartFrom(flow, env, v.keepInMemory);
      var r := Settle(flow, env, v);
      r.Ok? && start.loaded && (r.value.refreshed > 0 || r.value.generated > 0) ==>
        Valid(start.flow, env, start.response.value, v.passHeaders) == Ok(false)
    ensures var start := StartFrom(flow, env, v.keepInMemory);
      var r := Settle(flow, env, v);
      r.Ok? && start.loaded && Valid(start.flow, env, start.response.value, v.passHeaders) == Ok(true) ==>
        r.value.generated == 0 && r.value.refreshed == 0 && r.value.tested == 1 && r.value.response == start.response.value
    ensures var start := StartFrom(flow, env, v.keepInMemory);
      var r := Settle(flow, env, v);
      r.Ok? && start.loaded && Valid(start.flow, env, start.response.value, v.passHeaders) == Ok(false) ==>
        r.value.refreshed == (if CanRefresh(start.flow, start.response.value) then 1 else 0)
  {
    if StartFrom(flow, env, v.keepInMemory).loaded {
      SettleLoaded(flow, env, v);
    }
  }

  /** A valid response read from the token file is used: nothing is
      generated, the tester runs once, and its headers are returned. */
  lemma FileResponseUsed(flow: Flow, env: Env)
    requires !Present(flow.handler.response) && Present(env.file)
    ensures var loaded := flow.(handler := flow.handler.(response := env.file));
      Valid(loaded, env, env.file.value, false) == Ok(true) && AuthHeaders(loaded.handler).Ok? ==>
        Authorise(flow, env) == Ok(Authorised(AuthHeaders(loaded.handler).value, Outcome(env.file.value, true, loaded, 0, 0, 1)))
  {
  }

  /** With nothing stored and no token file, a new token is generated once
      and tested once; an empty answer could not be generated and one the
      tester rejects is still not valid. */
  lemma NewTokenGenerated(flow: Flow, env: Env)
    requires !Present(flow.handler.response) && env.file.None?
    ensures var g := Generate(flow, env);
      g.Ok? ==> var v := Valid(g.value.flow, env, g.value.response, false);
        && (|g.value.response| == 0 && v.Ok? ==> Authorise(flow, env) == Err(CouldNotGenerate))
        && (|g.value.response| > 0 && v == Ok(false) ==> Authorise(flow, env) == Err(StillNotValid))
        && (Authorise(flow, env).Ok? ==> Authorise(flow, env).value.outcome.generated == 1 && Authorise(flow, env).value.outcome.tested == 1)
  {
    assert StartFrom(flow, env, false) == Start(None, false, flow);
    var g := Generate(flow, env);
    if g.Ok? {
      var v := Valid(g.value.flow, env, g.value.response, false);
      if v.Ok? {
        var o := Outcome(g.value.response, v.value, g.value.flow, 1, 0, 1);
        assert Settle(flow, env, AsWritten) == Ok(o);
        assert Authorise(flow, env) == Finish(o);
      }
    }
  }

  // ---------------------------------------------------------------------
  // The response held in memory
  // ---------------------------------------------------------------------

  /** As written, a response already held in memory never spares a new
      token: every successful run generates one. */
  lemma InMemoryResponseRegenerated(flow: Flow, env: Env)
    requires Present(flow.handler.response)
    ensures Authorise(flow, env).Ok? ==> Authorise(flow, env).value.outcome.generated == 1
  {
    assert !StartFrom(flow, env, false).loaded;
    var o := Settle(flow, env, AsWritten);
    if Authorise(flow, env).Ok? {
      assert o.Ok? && Authorise(flow, env) == Finish(o.value);
    }
  }

  /** The concrete consequence: a valid token in memory, and a redirect
      that does not match (a user who does not complete the browser step
      the same way). As written, `authorise()` fails; as intended, it
      returns the headers of the token in memory. */
  lemma InMemoryResponseIgnored(flow: Flow, env: Env)
    requires Present(flow.handler.response)
    requires Valid(flow, env, flow.handler.response.value, false) == Ok(true) && AuthHeaders(flow.handler).Ok?
    requires Current(flow.userRequest, ParamsKey).Object? && Mappable(flow.userRequest)
    requires forall r :: env.browser(r).Redirect? && StateKey in env.browser(r).query && env.browser(r).query[StateKey] != env.state
    ensures Authorise(flow, env) == Err(InvalidState)
    ensures AuthoriseIntended(flow, env).Ok?
  {
    MismatchedStateRejected(flow, env);
    HeadersOnlyForTokenTest(flow, env, flow.handler.response.value);
    InMemoryResponseUsed(flow, env);
  }

  /** As intended, a valid response held in memory is used: nothing is
      generated, the tester runs once, the response is saved unchanged and
      its headers are returned. */
  lemma InMemoryResponseUsed(flow: Flow, env: Env)
    requires Present(flow.handler.response)
    requires Valid(flow, env, flow.handler.response.value, true) == Ok(true) && AuthHeaders(flow.handler).Ok?
    ensures AuthoriseIntended(flow, env) == Ok(Authorised(AuthHeaders(flow.handler).value, Outcome(flow.handler.response.value, true, flow, 0, 0, 1)))
  {
    assert flow.(handler := flow.handler.(response := Some(flow.handler.response.value))) == flow;
  }

  // ---------------------------------------------------------------------
  // The token test
  // ---------------------------------------------------------------------

  /** As written, a tester with a token test makes every `authorise()`
      fail: the tester is never given headers, so no response it tests
      can pass. */
  lemma TokenTestBreaksAuthorise(flow: Flow, env: Env)
    requires flow.tester.tokenRequest.Some?
    ensures Authorise(flow, env).Err?
  {
    var s := Settle(flow, env, AsWritten);
    if s.Ok? {
      assert Valid(s.value.flow, env, s.value.response, false) == Ok(s.value.valid);
    }
  }

  /** The concrete failure: a token file that passes the other tests
      raises `TypeError` when the token test merges in no headers. */
  lemma TokenTestRaises(flow: Flow, env: Env)
    requires !Present(flow.handler.response) && Present(env.file)
    requires flow.tester.tokenRequest.Some? && PassesChecks(flow.tester, env.file, env.now)
    ensures Authorise(flow, env) == Err(NotMergeable)
  {
    var loaded := flow.(handler := flow.handler.(response := env.file));
    assert Valid(loaded, env, env.file.value, false) == Err(NotMergeable);
  }

  /** As intended, the token test is made with the headers of the token
      file's response, and a pass returns those headers without
      generating anything. */
  lemma TokenTestDecides(flow: Flow, env: Env)
    requires !Present(flow.handler.response) && Present(env.file)
    requires flow.tester.tokenRequest.Some? && Current(flow.tester.tokenRequest.value, HeadersKey).Object?
    requires Mappable(flow.tester.tokenRequest.value)
    requires PassesChecks(flow.tester, env.file, env.now)
    ensures var loaded := flow.(handler := flow.handler.(response := env.file));
      var headers := AuthHeaders(loaded.handler);
      headers.Ok? && env.tokenCheck(WithHeaders(flow.tester.tokenRequest.value, headers.value)) == Some(true) ==>
        AuthoriseIntended(flow, env) == Ok(Authorised(headers.value, Outcome(env.file.value, true, loaded, 0, 0, 1)))
  {
    var loaded := flow.(handler := flow.handler.(response := env.file));
    var headers := AuthHeaders(loaded.handler);
    if headers.Ok? && env.tokenCheck(WithHeaders(flow.tester.tokenRequest.value, headers.value)) == Some(true) {
      assert loaded.handler.(response := Some(env.file.value)) == loaded.handler;
      assert HeadersFor(loaded, env.file.value) == Some(headers.value);
      assert Valid(loaded, env, env.file.value, true) == Ok(true);
      SettleLoaded(flow, env, Intended);
    }
  }
}
