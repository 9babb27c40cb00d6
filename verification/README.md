# aiorequestful, modelled in Dafny

This project models the core of **aiorequestful**, an asynchronous HTTP
request library. The model covers:

- **Timers** (`Timer`): the count and ceiling timers that space out retries and
  waits. They come in three growth laws: step, geometric and power.
- **Status handlers** (`Status`): the client-error, unauthorised and rate-limit
  response handlers. They are chained in order.
- **Response cache.** Repositories (`Repository`) hold rows keyed by request and
  expire them by time to live. The cache (`Registry`) routes a request to its
  repository with a repository getter. The cache keys are in `Keys`, and
  `CachedSession` is the session that answers from the cache and persists
  successful responses.
- **Request handler** (`RequestHandler`): the skeleton of the send, handle,
  log and retry loop, driven by a fresh copy of the retry timer on every call.
- **Authorisation helpers** (`AuthUtils`):
  - argument sanitising and temporary parameter enrichment of an
    `AuthRequest`;
  - the token, headers, sanitising and enrichment of an `AuthResponseHandler`;
  - the three tests of an `AuthResponseTester`.
- **OAuth2 authorisation-code flow** (`OAuth2`): `authorise()`, the user
  authorisation with its state check, token request and refresh, and the
  recovery of an invalid loaded token.
- **Basic authorisation** (`BasicAuth`, over `Base64` and Latin-1): the
  `Authorization: Basic …` header.
- **Log-line format and `get_iterator`** (`LogFormat`), and the
  required-modules check of the `aiorequests` utilities.

Supporting modules:

- `Wrappers`: `Option` and `Result`.
- `Text`: the Python `str` methods used.
- `Http`: methods, URLs, requests and responses.
- `Json`: JSON values with Python truthiness, `str`, `float()` and `json.dumps`.

Time is an explicit `now` parameter throughout. The server, the browser and the
token file are parameters or oracle functions. `Base64` follows section 4 of
RFC 4648, with the strict decoding of `validate=True`.

## Model

| member | source | states |
|---|---|---|
| Timer.Increase | tests/request/test_timer.py:30-46 | Increasing either takes a step, exactly when the timer can increase, or returns the timer unchanged. The schedule never changes. |
| Timer.IncreaseFollowsSchedule | tests/request/test_timer.py:30-38 | An increase moves a reachable timer to the next value of its schedule and one counter further. Under strict growth the value strictly rises. |
| Timer.IncreaseAtBound | tests/request/test_timer.py:41-46 | A timer that cannot increase refuses to and keeps its value. |
| Timer.CanIncreaseIffBelowCount | tests/request/test_timer.py:67-71 | A timer can increase exactly while its counter is below the count, or always when it is unbounded. |
| Timer.FreshProperties | tests/request/test_timer.py:49-65 | A fresh timer shows its initial value, has its whole count and total still to go, and can increase when the count is positive. |
| Timer.RemainingAfterIncrease | tests/request/test_timer.py:49-65 | Each increase uses one count and takes its new value off the remaining total. |
| Timer.ExhaustedProperties | tests/request/test_timer.py:14-27 | A timer increased to its count sits at its final value, cannot increase, and has zero count and zero total remaining. |
| Timer.UnboundedProperties | tests/request/test_timer.py:49-71 | A timer with an infinite count or ceiling has no final, total, count or remaining values, and can always increase. |
| Timer.CopyAndDeepCopy | tests/request/test_timer.py:73-81 | A copy keeps the progress. A deep copy, like `reset`, restarts the same schedule strictly below a timer that has moved. |
| Timer.CeilingValues | tests/request/test_timer.py:186-198 | Below its count, a ceiling timer follows the unclamped law and stays under the ceiling; from the count on it sits at the ceiling. |
| Timer.CeilingCountIsLeast | tests/request/test_timer.py:186-240 | The count of a ceiling timer is the least number of increases whose unclamped value reaches the ceiling. |
| Timer.StepsToReachIsLeast | tests/request/test_timer.py:186-240 | The number of steps to the ceiling reaches it, and no smaller number does. |
| Timer.Exhaust | tests/request/test_timer.py:18-24 | The loop "increase while it can" ends with the timer at its count and its final scheduled value, unable to increase. |
| TimerExamples.Trace | docs/guides/scripts/timer.py:23-27 | The traced values are the timer after 0, 1, …, n increases. |
| TimerExamples.GuideStepCount | docs/guides/scripts/timer.py:23-27 | Step count from 0 by 0.2, three increases: 0, 0.2, 0.4, 0.6, then 0.6 again. |
| TimerExamples.GuideGeometricCount | docs/guides/scripts/timer.py:33-37 | Geometric count from 2 by 2: 2, 4, 8, 16, then 16 again. |
| TimerExamples.GuidePowerCount | docs/guides/scripts/timer.py:43-47 | Power count from 2 with exponent 2: 2, 4, 16, 256, then 256 again. |
| TimerExamples.GuideStepCeiling | docs/guides/scripts/timer.py:53-57 | Step ceiling from 0 to 0.5 by 0.2: 0, 0.2, 0.4, 0.5 (clamped), then 0.5 again. |
| TimerExamples.GuideGeometricCeiling | docs/guides/scripts/timer.py:63-67 | Geometric ceiling from 2 to 10 by 2: 2, 4, 8, 10, then 10 again. |
| TimerExamples.GuidePowerCeiling | docs/guides/scripts/timer.py:73-77 | Power ceiling from 2 to 60 with exponent 2: 2, 4, 16, 60, then 60 again. |
| TimerExamples.GuideReset | docs/guides/scripts/timer.py:17 | `reset()` brings a moved timer back to its initial value and counter 0. |
| TimerExamples.StepCountProperties | tests/request/test_timer.py:107-119 | The final value, total, value after two increases, and remaining count and total of the step count timer of the timer tests. |
| TimerExamples.GeometricCountProperties | tests/request/test_timer.py:128-140 | The same properties for the geometric count timer of the timer tests. |
| TimerExamples.PowerCountProperties | tests/request/test_timer.py:149-164 | The same properties for the power count timer of the timer tests. |
| TimerExamples.StepCeilingProperties | tests/request/test_timer.py:186-198 | The count, total and remainders of the step ceiling timer of the timer tests, whose last value is clamped. |
| TimerExamples.GeometricCeilingProperties | tests/request/test_timer.py:207-219 | The same properties for the geometric ceiling timer of the timer tests. |
| TimerExamples.PowerCeilingProperties | tests/request/test_timer.py:228-240 | The same properties for the power ceiling timer of the timer tests. |
| Status.Match | tests/response/test_status.py:37-52 | A handler matches exactly the statuses among its codes. A non-match raises only when `fail_on_error` is set, and the error names the status. |
| Status.Handle | tests/response/test_status.py:50-52 | A handler refuses a status it is not for. Handling never changes the authoriser or the retry timer, and keeps a session present or absent. |
| Status.HandleChain | docs/guides/scripts/request/status.py:7-10 | A status no handler in the chain is for is left unhandled and the context untouched. Chain handling preserves what a single handler preserves. |
| Status.ChainFirstMatch | docs/guides/scripts/request/status.py:32-35 | The chain decides as its first matching handler decides, so order matters. |
| Status.ClientErrorFails | tests/response/test_status.py:61-63 | A matching client-error handler always fails with the response's status. |
| Status.UnauthorisedDecision | tests/response/test_status.py:72-82 | A matching unauthorised handler asks for a resend exactly when there is an authoriser and a session. The session headers then gain every authoriser header; otherwise nothing changes. |
| Status.RateLimitWithHeader | tests/response/test_status.py:91-113 | With `Retry-After`, the rate-limit handler fails exactly when the delay exceeds the retry timer's remaining total. Otherwise it waits that long and asks for a resend with both timers untouched. |
| Status.RateLimitWithoutHeader | tests/response/test_status.py:115-129 | Without `Retry-After`, it waits one increase of the wait timer and does not resend. The retry timer and session are untouched. |
| Status.RateLimitRepeated | tests/response/test_status.py:115-129 | Repeated header-less rate limiting keeps the context valid and never touches the retry timer. |
| Status.RateLimitSaturates | tests/response/test_status.py:115-129 | Enough repetitions drive the wait timer to its final value and keep it there. |
| Status.RateLimitHeaderExample | tests/response/test_status.py:91-113 | `Retry-After: 1` is waited and resent without a retry timer, and fails against an exhausted one. |
| Status.RateLimitTimersExample | tests/response/test_status.py:115-129 | Two header-less 429s move the wait timer strictly inside its range and then to its final value, while the retry timer stays at its initial value. |
| Status.ChainExample | docs/guides/scripts/request/status.py:7-10 | In the documented chain, 400 fails, 401 is resent by the unauthorised handler (which comes first), and a header-less 429 is not resent. |
| Keys.IdKey | tests/cache/backend/utils.py:14-17 | The id key is missing exactly for a bare `.com` address or an empty last path segment. |
| Keys.PaginatedKey | tests/cache/backend/utils.py:32-46 | The paginated key is the id key followed by the `offset` and `limit` query values, each defaulting to 0. |
| Keys.VersionedKey | docs/guides/scripts/cache/backend/base.py:16-25 | Both parts are present exactly for a GET whose stripped path has at least three segments. |
| Keys.RequestKey | tests/cache/backend/testers.py:161-170 | A request has a key exactly when every part of its scheme's key is present. The key is the method name followed by those parts. |
| Keys.IdKeyRoundTrip | tests/cache/backend/utils.py:14-17 | `http://…/<name>/<id>` keys to its method and `id`. |
| Keys.PaginatedKeyRoundTrip | tests/cache/backend/utils.py:32-46 | A paginated item URL keys to its method, id, offset and limit. |
| Keys.BareAddressUncacheable | tests/cache/backend/utils.py:15-16 | A bare `.com` address is uncacheable under both mock schemes. |
| Keys.VersionedKeyRoundTrip | docs/guides/scripts/cache/backend/base.py:16-25 | A GET of `/<version>/<kind>/<id>` keys to method, id and version; any other method is uncacheable. |
| Keys.ShortPathUncacheable | docs/guides/scripts/cache/backend/base.py:21-23 | A path with fewer than three segments is uncacheable. |
| Repository.Unusable | tests/cache/backend/testers.py:121-127 | Only an open repository is usable. |
| Repository.KeyOf | tests/cache/backend/testers.py:161-170 | A resolved key is always complete. |
| Repository.Count | tests/cache/backend/testers.py:129-132 | The count covers every row, or only the live ones. It fails exactly when the repository is not open. |
| Repository.Contains | tests/cache/backend/testers.py:134-141 | True exactly when the lookup resolves to the key of a live row. |
| Repository.Get | tests/cache/backend/testers.py:172-217 | A payload is found exactly when the lookup is contained, and it is the payload of that row. |
| Repository.GetMany | tests/cache/backend/testers.py:172-195 | The batch lookup fails exactly when the repository is not open, and returns no more payloads than lookups. |
| Repository.Save | tests/cache/backend/testers.py:219-253 | Saving upserts the row under the item's key, cached now and expiring after the time to live, and leaves other rows alone. An incomplete key is silently skipped. |
| Repository.SaveMany | tests/cache/backend/testers.py:255-286 | Saving a batch fails exactly when the repository is not open, and keeps it well formed with its settings and state unchanged. |
| Repository.Delete | tests/cache/backend/testers.py:288-307 | Deleting reports whether a row was removed, and removes only that row. |
| Repository.DeleteMany | tests/cache/backend/testers.py:309-340 | The number removed is the drop in row count, never more than the lookups given, and no row is added. |
| Repository.Clear | docs/guides/scripts/cache/backend/base.py:61-62 | `clear()` empties the repository; `clear(True)` keeps exactly the live rows. |
| Repository.Provision | tests/cache/backend/testers.py:390-412 | Creating the table opens a repository that is not closed, and keeps its rows and settings. |
| Repository.Close | tests/cache/backend/testers.py:121-127 | Closing marks the repository closed and keeps its rows. |
| Repository.SaveManyFrame | tests/cache/backend/testers.py:255-262 | A batch save leaves the row of every key no item of the batch resolves to as it was. |
| Repository.SaveManyKeepsLastOfKey | tests/cache/backend/testers.py:255-275 | After a batch save, every item whose key no later item shares is contained and reads back its own payload; of several items with one key, the last wins. |
| Repository.SaveManyIncompleteIsNoOp | tests/cache/backend/testers.py:277-286 | A batch in which no item has a complete key leaves an open repository exactly as it was, so none of the keys becomes contained. |
| Repository.SaveThenGet | tests/cache/backend/testers.py:219-246 | A saved item reads back, by key and by its own response, and is contained. |
| Repository.SaveIncompleteIsNoOp | tests/cache/backend/testers.py:247-253 | An item with an incomplete key changes nothing. |
| Repository.SaveCount | tests/cache/backend/testers.py:219-229 | A save adds one row for a new key and none for a stored key. |
| Repository.GetManyAppend | tests/cache/backend/testers.py:172-195 | A batch lookup is the lookup of its parts, in order. |
| Repository.GetManyAllFound | tests/cache/backend/testers.py:172-178 | When every lookup is found, every payload is returned, in order. |
| Repository.GetManyMissing | tests/cache/backend/testers.py:179-185 | A lookup that finds nothing contributes nothing. |
| Repository.DeleteThenAbsent | tests/cache/backend/testers.py:294-307 | After a delete the key is gone and every other key reads as before. |
| Repository.DeleteManyDistinct | tests/cache/backend/testers.py:309-340 | Deleting distinct stored keys removes all of them and reports how many. |
| Repository.ClearProperties | docs/guides/scripts/cache/backend/base.py:61-62 | After `clear()` nothing is counted or contained. After `clear(True)`, every read gives what it gave before. |
| Repository.LifecycleErrors | tests/cache/backend/testers.py:121-127 | A new repository raises until created; a closed one raises on every operation. |
| Repository.UsageExample | docs/guides/scripts/cache/backend/base.py:48-58 | One saved pair is found, counted once with and without expired rows, and contained. |
| Registry.ResourceName | docs/guides/scripts/cache/backend/base.py:76-85 | The getter fails (index out of range) exactly when the path has no segment after the version. |
| Registry.ResourceNameItem | docs/guides/scripts/cache/backend/base.py:78-81 | `/<v>/<kind>/<id>` names the repository `kind`, with dashes read as underscores. |
| Registry.ResourceNameSubResource | docs/guides/scripts/cache/backend/base.py:82-83 | `/<v>/<kind>/<id>/<sub>` names `<kind without trailing s>_<sub without trailing s>s`. |
| Registry.ResourceNameTooShort | docs/guides/scripts/cache/backend/base.py:80-81 | A path with nothing after the version fails. |
| Registry.RStripExamples | docs/guides/scripts/cache/backend/base.py:83 | `rstrip("s")` drops every trailing `s`, not just one. |
| Registry.RepositoryForUrl | tests/cache/backend/testers.py:430-438 | A found repository is registered. Without a getter nothing is found. |
| Registry.RepositoryForRequests | tests/cache/backend/testers.py:439-457 | The result is the repository every request maps to. It fails exactly when two requests map to different repositories; requests that belong to none count as one kind. |
| Registry.MixedBatchFails | tests/cache/backend/testers.py:439-443 | Mixing requests of a repository with requests of none fails; a uniform batch finds its repository or none. |
| Registry.ParentSegmentGetter | tests/cache/backend/testers.py:430-438 | The test getter sends `…/<name>/<id>` to the repository `name` when it is registered, and to none otherwise. |
| Registry.CreateRepository | tests/cache/backend/testers.py:414-428 | A repository is registered under its settings' name. A taken name fails, and nothing else changes. |
| Registry.Connect | tests/cache/backend/testers.py:390-412 | Entering the cache provisions every repository and adds or removes none. |
| Registry.CloseAll | tests/cache/backend/testers.py:390-412 | Leaving the cache closes every repository and keeps its rows. |
| Registry.SetPayloadHandler | tests/test_request.py:112-119 | Every repository gets the payload handler, and its rows and state are kept. |
| Registry.SaveResponse | docs/guides/scripts/cache/backend/base.py:112-116 | The cache-level save keeps the set of repositories. A response that belongs to no repository is not saved. |
| Registry.GetResponse | docs/guides/scripts/cache/backend/base.py:112-116 | A request that belongs to no repository finds nothing. |
| Registry.DeleteResponse | docs/guides/scripts/cache/backend/base.py:112-116 | A request that belongs to no repository deletes nothing. |
| Registry.CreateThenConnect | tests/cache/backend/testers.py:414-428 | A created repository carries its settings, raises until the cache is connected and works after. Creating it twice fails. |
| Registry.CacheRoundTrip | docs/guides/scripts/cache/backend/base.py:112-116 | Through the cache, a saved response is found by its request, deleted, and then gone. |
| CachedSession.Enter | tests/cache/test_session.py:51-60 | Entering the session connects its cache without calling the server. |
| CachedSession.CachedAnswer | tests/cache/test_session.py:62-79 | Nothing is read from the cache unless `persist` is on. |
| CachedSession.Request | tests/cache/test_session.py:62-145 | A cache hit is served without the server and without changing the session. A miss calls the server once. Without `persist` the cache is untouched. |
| CachedSession.HitServedFromCache | tests/cache/test_session.py:62-79 | A live cached row answers the request with its payload and changes nothing. |
| CachedSession.MissCallsAndPersists | tests/cache/test_session.py:62-79 | A miss calls the server once. The answer is cached exactly when its status is below 400. |
| CachedSession.RepeatedRequest | tests/cache/test_session.py:81-113 | The server is called without `persist`, called again with it, and then not called, because the third request is a hit. |
| CachedSession.BadResponseNotCached | tests/cache/test_session.py:115-145 | A 404 is not cached even with `persist`; a later 200 is. |
| CachedSession.EnterProvisions | tests/cache/test_session.py:51-60 | A repository is unusable until the session is entered. |
| RequestHandler.Create | tests/test_request.py:84-90 | A created handler has no session: it is closed. |
| RequestHandler.Enter | tests/test_request.py:92-111 | Entering opens a cached session over the same repositories, with the authoriser's headers merged into the default headers. |
| RequestHandler.AssignPayloadHandler | tests/test_request.py:116-119 | Assigning a payload handler keeps the session open or closed and keeps the repositories. |
| RequestHandler.PayloadHandlerPropagates | tests/test_request.py:96-119 | Entering hands the handler's payload handler to every repository, and a later assignment reaches them too. |
| RequestHandler.CallTimer | tests/test_request.py:147-176 | A call has a retry timer exactly when the handler has one. |
| RequestHandler.CallTimerIsFresh | tests/test_request.py:147-176 | Every call starts the template's schedule from its initial value, whatever the template has been through. |
| RequestHandler.UniqueRetryTimer | tests/test_request.py:147-176 | A template increased twice does not limit a call: the call resends four times and ends at the final 0.4. |
| RequestHandler.Retry | tests/test_request.py:228-244 | A retry succeeds exactly when the timer has budget, and then increases it. Otherwise the failed attempt becomes the error. |
| RequestHandler.RetryWithExhaustedTimer | tests/test_request.py:228-244 | An exhausted timer re-raises the transport error instead of retrying. |
| RequestHandler.Request | tests/test_request.py:341-348 | A closed handler fails with a request error. |
| RequestHandler.AnswerStep | tests/test_request.py:246-269 | On a cache miss, one answer from the server costs one server call through the session, and the session's response goes on to response handling with one send fewer. |
| RequestHandler.UnhandledStep | tests/test_request.py:317-339 | A response no handler is for ends the call when it is a success. Otherwise it is logged once and retried. |
| RequestHandler.SuccessHandledOnce | tests/test_request.py:246-269 | A success goes through the chain once and is returned, neither logged nor retried. |
| RequestHandler.TransportErrorWithoutTimer | tests/test_request.py:271-296 | Without a retry timer, a transport error is raised at once, with no handling and no log. |
| RequestHandler.HandledResponseIsResent | tests/test_request.py:298-315 | A 401 the chain handles is resent at once, with the authoriser's headers added and nothing logged. |
| RequestHandler.FailedResponseLoggedOnce | tests/test_request.py:317-339 | An unhandled failure is logged once, and without a timer its status becomes the error. |
| RequestHandler.RepeatedFailureExhaustsTimer | tests/test_request.py:317-339 | With `k` increases left, the same failure is sent `k + 1` times, each handled and logged once, and then raised. |
| RequestHandler.CacheHitCallsNothing | tests/test_request.py:197-226 | A cached request is answered from the cache and uses none of the server's answers. |
| AuthUtils.SanitiseValue | aiorequestful/auth/_utils.py:40-49 | A mapping stays a mapping with the same keys. A non-sendable scalar becomes its JSON text. |
| AuthUtils.SanitiseMap | aiorequestful/auth/_utils.py:40-49 | Sanitising keeps the mapping's keys. |
| AuthUtils.SanitisedIsSendable | aiorequestful/auth/_utils.py:45-49 | Every sanitised value is sendable: strings, numbers that are not booleans, and mappings of those. |
| AuthUtils.SanitiseFixedIffSendable | aiorequestful/auth/_utils.py:45-49 | Sanitising leaves a value alone exactly when it is already sendable. |
| AuthUtils.SanitiseIdempotent | aiorequestful/auth/_utils.py:40-49 | Sanitising twice is sanitising once. |
| AuthUtils.SanitiseKwargs | aiorequestful/auth/_utils.py:35-38 | Succeeds exactly when every truthy `params` or `data` is a mapping. Those two are made sendable; every other argument is kept. |
| AuthUtils.SanitiseArgument | aiorequestful/auth/_utils.py:37-43 | One argument is sanitised; a falsy one, or any other key, is left alone. |
| AuthUtils.SanitiseDataExample | tests/auth/test_utils.py:31-58 | In the `data` of the sanitising test, `True` becomes `"true"` and the string and integer are kept. |
| AuthUtils.SanitiseParamsExample | tests/auth/test_utils.py:31-58 | In the `params` of the sanitising test, `None` becomes `"null"` and the float and empty mapping are kept. |
| AuthUtils.EnrichParameters | aiorequestful/auth/_utils.py:61-62 | Inside the context the argument is `current \| value`, with the new entries winning. Every other argument is kept. |
| AuthUtils.RestoreParameters | aiorequestful/auth/_utils.py:66-69 | On exit, a truthy previous value is put back and a falsy one deleted. Other arguments are kept. |
| AuthUtils.EnrichThenRestore | tests/auth/test_utils.py:64-96 | Enriching and leaving gives back the request, except that an argument that was an empty mapping is removed. |
| AuthUtils.NewResponseHandler | aiorequestful/auth/_utils.py:120-135 | A new handler stores no response and uses the `access_token` key. |
| AuthUtils.Token | aiorequestful/auth/_utils.py:97-107 | The token fails when no response is stored or the token key is missing. Otherwise it is the `str` of the stored token. |
| AuthUtils.AuthHeaders | aiorequestful/auth/_utils.py:109-118 | The headers are `Authorization: <token_type or default> <token>`, with the additional headers on top, and exist exactly when the token does. |
| AuthUtils.Mask | aiorequestful/auth/_utils.py:146-150 | A text shorter than five characters is masked to nothing, a longer one to its first five characters and `...`. |
| AuthUtils.MaskIdempotent | aiorequestful/auth/_utils.py:146-154 | Masking a masked text changes nothing, so masking the token key a second time is harmless. |
| AuthUtils.SanitiseResponse | aiorequestful/auth/_utils.py:137-156 | The given response, or else the stored one, keeps its keys. Exactly the `*_token` keys and the token key are masked; with neither response the result is `{}`. |
| AuthUtils.SanitiseResponseIdempotent | aiorequestful/auth/_utils.py:137-156 | Sanitising a sanitised response changes nothing. |
| AuthUtils.MaskedSecrets | tests/auth/test_utils.py:164-179 | A secret in a sanitised response shows at most its first five characters. |
| AuthUtils.EnrichObject | aiorequestful/auth/_utils.py:168-176 | Enrichment adds `granted_at`, and `expires_at` when `expires_in` is present, and adds a truthy refresh token only when none is present. Other keys are kept. |
| AuthUtils.EnrichResponse | aiorequestful/auth/_utils.py:158-176 | The given response is enriched when it is non-empty, else the stored one; with neither, nothing changes. |
| AuthUtils.ExpiryTest | aiorequestful/auth/_utils.py:260-270 | The test passes with nothing to test. Otherwise `expires_at` is checked against `now + max_expiry`, else `expires_in` against `max_expiry`, both strictly. |
| AuthUtils.ExpiryExamples | tests/auth/test_utils.py:274-298 | 3600 seconds left passes a 1500-second minimum and 100 fails it; `expires_at` decides when present. |
| AuthUtils.Test | aiorequestful/auth/_utils.py:240-253 | A response is valid only when present, free of `error`, unexpired and passing the token test, each test running only after the ones before pass. With a token test and no headers, a response that passes the first two tests raises `TypeError`. With headers, it raises `AttributeError` when the token test's `params` or `data` cannot be sanitised. |
| AuthUtils.TokenTest | aiorequestful/auth/_utils.py:272-282 | Without a token test it passes. With one, `None` headers raise `TypeError`, and so does a request whose `headers` is not a mapping. A non-empty `params` or `data` that is not a mapping raises `AttributeError` when the request is sent. Otherwise the verdict on the sent request, carrying the given headers, decides. No verdict counts as a failure. |
| AuthUtils.WithHeaders | aiorequestful/auth/_utils.py:276-278 | The token test's request, as sent, carries its own headers with every given header on top. |
| AuthUtils.Outgoing | aiorequestful/auth/_utils.py:74-80 | The session is given the request's method and URL with its arguments. A non-empty `params` or `data` is sanitised, and the rest is kept. It fails, with `AttributeError`, exactly when a non-empty `params` or `data` is not a mapping. |
| AuthUtils.OutgoingIdempotent | aiorequestful/auth/_utils.py:36-49 | A sent request can be sent again unchanged: sanitising is a fixed point after one pass. |
| AuthUtils.EnrichKeepsMappable | aiorequestful/auth/_utils.py:52-63 | Enriching an argument neither makes a request sendable nor stops it being sendable. |
| AuthUtils.NoHeadersNeverValid | aiorequestful/auth/_utils.py:272-282 | Without headers, a tester with a token test never passes a response. It raises exactly when the response passes the first two tests. |
| AuthUtils.TokenTestExample | tests/auth/test_utils.py:300-313 | With no token test any headers pass. With one, a valid bearer header passes and a basic header fails. |
| AuthUtils.ExpiryTestMonotone | aiorequestful/auth/_utils.py:260-270 | A response that passes the expiry test passes it at every earlier time, and one that fails it fails at every later time. |
| OAuth2.Exchange | aiorequestful/auth/oauth2.py:162-172 | A request enriched with parameters is sent as `AuthRequest.request` sends it, answered, then restored. `params` that are not a mapping raise `TypeError`. A non-empty `data` that is not a mapping raises `AttributeError`. |
| OAuth2.Sent | aiorequestful/auth/_utils.py:74-80 | The request sent keeps its method and URL and carries every enrichment parameter, sanitised. A parameter that is already sendable goes unchanged. |
| OAuth2.ExchangeSeesParameters | aiorequestful/auth/oauth2.py:196-198 | The endpoint is called with the enriched request. |
| OAuth2.ExchangeRestores | aiorequestful/auth/oauth2.py:214-216 | After the exchange the request is as before, or lacks its `params` when they were empty. |
| OAuth2.CheckCallback | aiorequestful/auth/oauth2.py:178-185 | A redirect without a `GET` line raises. A missing `state` raises, and so does a missing `code` after a matching state. A state other than the one sent is invalid. Otherwise the code is returned. |
| OAuth2.MismatchedStateRejected | tests/auth/test_oauth2.py:127-152 | A redirect with another state is refused. |
| OAuth2.CodeComesFromRedirect | tests/auth/test_oauth2.py:110-126 | The user step succeeds exactly when the redirect carries back the state sent and a code, and then yields that code. Otherwise it fails as the redirect check does. |
| OAuth2.RequestToken | aiorequestful/auth/oauth2.py:187-204 | Exchanging the code leaves the tester and the redirect URL as they were. |
| OAuth2.RefreshToken | aiorequestful/auth/oauth2.py:206-223 | Refreshing leaves the tester as it was and keeps a refresh request. |
| OAuth2.Generate | aiorequestful/auth/oauth2.py:77-79 | Generating a token leaves the tester as it was. |
| OAuth2.HeadersFor | aiorequestful/auth/oauth2.py:95 | The headers of a response exist exactly when the response handler can make them from it, and they carry `Authorization`. |
| OAuth2.Valid | aiorequestful/auth/oauth2.py:81 | A response passes only if it has no `error` and is not about to expire. As written, a tester with a token test never passes a response, because it is given no headers. As intended, a pass means the token test passed with the response's own headers. |
| OAuth2.HeadersOnlyForTokenTest | aiorequestful/auth/_utils.py:272-274 | Without a token test, passing headers does not change the verdict. |
| OAuth2.RefreshKeepsRefreshToken | tests/auth/test_oauth2.py:171-186 | A refreshed response without its own refresh token keeps the one it was refreshed with, and is stamped with the grant time. |
| OAuth2.Recover | aiorequestful/auth/oauth2.py:97-122 | Recovery refreshes exactly when it can, and generates a new token when it did not refresh or the refreshed token is invalid. Each new response goes through the tester once. The verdict returned is the tester's verdict on the response returned, and the tester is unchanged. |
| OAuth2.StartFrom | aiorequestful/auth/oauth2.py:69-73 | Only a response read from the token file counts as loaded. A non-empty response in memory is taken but not loaded. |
| OAuth2.Settle | aiorequestful/auth/oauth2.py:75-84 | Nothing loaded means exactly one generation and no refresh. The number of tests is one plus the recoveries. The verdict is the tester's verdict on the response settled on. |
| OAuth2.RecoveryOnlyAfterInvalidLoad | aiorequestful/auth/oauth2.py:81-84 | Refreshing or regenerating after a load happens only when the loaded response fails the tester. A passing loaded response is kept after one pass of the tester. |
| OAuth2.Finish | aiorequestful/auth/oauth2.py:86-95 | An empty response fails as "could not generate", and an invalid one as "still not valid". A valid one is stored and its headers returned. |
| OAuth2.FileResponseUsed | tests/auth/test_oauth2.py:299-316 | A valid token file is used without generating anything, and its headers are returned. |
| OAuth2.NewTokenGenerated | tests/auth/test_oauth2.py:349-365 | With nothing to load, one token is generated and passed to the tester once. |
| OAuth2.InMemoryResponseRegenerated | aiorequestful/auth/oauth2.py:69-79 | As written, a response held in memory still leads to generating a new token. |
| OAuth2.InMemoryResponseIgnored | aiorequestful/auth/oauth2.py:69-79 | As written, a valid token in memory plus a mismatching redirect makes `authorise()` fail, where the intended flow succeeds. |
| OAuth2.InMemoryResponseUsed | tests/auth/test_oauth2.py:279-297 | As intended, a valid token in memory is used: nothing is generated and its headers are returned. |
| OAuth2.TokenTestBreaksAuthorise | aiorequestful/auth/oauth2.py:81 | As written, `authorise()` never succeeds when the tester has a token test. |
| OAuth2.TokenTestRaises | aiorequestful/auth/oauth2.py:81 | As written, a token file that passes the other tests makes `authorise()` raise `TypeError` once a token test is set. |
| OAuth2.TokenTestDecides | tests/auth/test_utils.py:315-333 | As intended, the token test is made with the token file's headers. When it passes, those headers are returned and nothing is generated. |
| Base64.IndexOf | tests/auth/test_basic.py:22-24 | Each alphabet character maps back to its index. |
| Base64.Encode | tests/auth/test_basic.py:22-24 | The encoding has four characters per started group of three bytes, all in the alphabet or `=`. |
| Base64.DecodeGroup | tests/auth/test_basic.py:22-24 | Four characters decode exactly when all are in the alphabet. |
| Base64.Decode | tests/auth/test_basic.py:22-24 | Only text whose length is a multiple of four decodes. |
| Base64.DecodeIsStrict | tests/auth/test_basic.py:22-24 | Decodable text holds only alphabet characters, with `=` only in the last two positions. |
| Base64.DecodeEncode | tests/auth/test_basic.py:22-24 | Decoding an encoding gives back the bytes. |
| Base64.DecodeRejectsForeign | tests/auth/test_basic.py:22-24 | Text with a character outside the alphabet and `=` does not decode. |
| Base64.RfcVectorsShort | tests/auth/test_basic.py:22-24 | "f", "fo" and "foo" encode as the test vectors of section 10 of RFC 4648, and decode back. |
| Base64.RfcVectorsLong | tests/auth/test_basic.py:22-24 | "foobar" encodes as the vector of section 10 of RFC 4648. |
| BasicAuth.EncodeLatin1 | tests/auth/test_basic.py:22-24 | Encoding succeeds exactly when every character is below 256, with one byte per character; otherwise it reports the first offending position. |
| BasicAuth.DecodeLatin1 | tests/auth/test_basic.py:24 | Each byte decodes to the character of the same code. |
| BasicAuth.Latin1RoundTrip | tests/auth/test_basic.py:22-24 | Latin-1 text comes back unchanged. |
| BasicAuth.AuthoriseFailsOnlyOnEncoding | tests/auth/test_basic.py:16-17 | Credentials are refused exactly when they contain a character outside Latin-1. |
| BasicAuth.HeaderDecodes | tests/auth/test_basic.py:16-28 | The header is `Basic` and strict base64 around one space. It decodes to `login:password`, which splits back into the login and password when neither holds a colon. |
| LogFormat.GetIterator | aiorequests/_utils.py:10-20 | An iterator passes through, a string is one message, and anything else is none. |
| LogFormat.Classify | aiorequests/_utils.py:10-20 | A value that is not an iterator is `Text` exactly when it is a string, and is never an `Other` string. |
| LogFormat.ClassifyMessages | aiorequests/_utils.py:10-20 | Of the values that are not iterators, exactly the strings give one message, the string itself; the rest give none. |
| LogFormat.MessageTexts | aiorequests/_utils.py:31 | There is one text per message. |
| LogFormat.UrlPad | aiorequests/_utils.py:28-29 | The URL column is the first pad longer than the URL, else the last pad. |
| LogFormat.IndexOf | aiorequests/_utils.py:27 | The first occurrence, or the length when there is none. |
| LogFormat.WithoutQueryHasNoQuery | aiorequests/_utils.py:27 | The logged URL has no query, and a URL without one is unchanged. |
| LogFormat.WithoutQueryIdempotent | aiorequests/_utils.py:27 | Dropping the query twice is dropping it once. |
| LogFormat.LineColumns | aiorequests/_utils.py:31 | A line is the name padded to 7, `: `, the URL padded and never cut, ` \| `, and the joined messages. |
| LogFormat.MethodNameFits | aiorequests/_utils.py:31 | Every method name fits its seven-character column. |
| LogFormat.FormatUrlLogColumns | aiorequests/_utils.py:23-31 | The log line holds the method in its column and the query-less URL in its padded column. |
| LogFormat.FormatUrlLogMessages | aiorequests/_utils.py:31 | A non-iterator adds no message, a string adds itself, and iterator items are joined by ` \| `. |
| LogFormat.RequiredModulesInstalled | aiorequests/_utils.py:34-46 | The result is whether every module is present. Missing modules raise only when a requester is given, with the message naming the operation or the class. |
| Http.MergeHeaders | tests/test_request.py:109-110 | The merged headers hold every right-hand header, and every left-hand header whose name the right-hand side does not spell in any case. They hold nothing else. |
| Http.MergeHeadersLookup | tests/test_request.py:109-110 | After an update, looking up a name the right-hand side holds, in any case, gives its right-hand value; any other name reads as on the left. |
| Http.MergeHeadersUnambiguous | tests/test_request.py:109-110 | Updating maps that spell each name one way gives such a map. |
| Http.Header | tests/response/test_status.py:108 | A lookup finds a value exactly when the map spells the name one way, in any case. That value is the one stored under that spelling. |
| Http.HeaderIgnoresCase | tests/conftest.py:111 | Names that differ only in ASCII case look up the same header. |
| Http.HeaderFindsStored | tests/conftest.py:111 | In a map that spells each name one way, every stored header is found under any spelling of its name. |
| Http.RetryAfterIgnoresCase | tests/response/test_status.py:108 | A `Retry-After` header is read as its decimal value, whatever case its name is spelt in. |
| Json.Numeric | aiorequestful/auth/_utils.py:265-267 | Only booleans, integers and floats compare as numbers. |
| Json.FloatOf | aiorequestful/auth/_utils.py:171 | `float()` keeps numbers, reads strings as `ParseFloat` does, and refuses anything else. A string of digits reads as the number it spells. |
| Json.ParseFloatDigits | aiorequestful/auth/_utils.py:171 | A string of decimal digits reads as its value. |
| Json.ParseFloatSign | aiorequestful/auth/_utils.py:171 | A leading `-` negates the number that follows, and a leading `+` keeps it. |
| Json.ParseFloatIgnoresSpaces | aiorequestful/auth/_utils.py:171 | Whitespace around a string does not change what it reads as. |
| Json.FloatExamples | aiorequestful/auth/_utils.py:171 | `3600`, `3600.5`, `-1`, ` 7 ` and `1e3` read as their values, and a word is not a number. |
| Json.DumpsScalars | aiorequestful/auth/_utils.py:49 | `json.dumps` writes `true`, `false` and `null`. |
| Text.Split | docs/guides/scripts/cache/backend/base.py:21 | A split always has a part, and no part holds the separator. |
| Text.SplitThenJoin | docs/guides/scripts/cache/backend/base.py:21 | Joining a split with its separator gives the text back. |
| Text.JoinThenSplit | docs/guides/scripts/cache/backend/base.py:21 | Splitting a join of separator-free parts gives the parts back. |
| Text.RStrip | docs/guides/scripts/cache/backend/base.py:83 | `rstrip` removes exactly the trailing run of the character. |
| Text.LStrip | docs/guides/scripts/cache/backend/base.py:21 | `lstrip` removes exactly the leading run of the character. |
| Text.LJust | aiorequests/_utils.py:31 | Left justification keeps the text, pads with spaces to the width, and never truncates. |
| Text.ParseNatText | tests/response/test_status.py:91-113 | Parsing the decimal text of a number gives it back. |

## Left out

- Network, sockets, the browser and the token file: these are the oracles in
  `OAuth2.Env`, the `reply`/`outcomes` parameters and `Env.file`.
  Writing the token file is not modelled, only the stored response.
- The clock: `datetime.now()` is the parameter `now` wherever it is read.
- `state` in `_authorise_user` is a `uuid4` in the code and a parameter
  here. The redirect is given as its first `GET` line's query. Reading at
  most 8196 bytes, URL parsing and `unquote` are not modelled, so codes are
  taken as sent.
- Json.FloatOf / AuthUtils.EnrichObject: `inf`, `nan`, `infinity`,
  underscores between digits, non-ASCII digits and non-ASCII whitespace are
  refused, where `float()` reads them. The model's numbers are exact reals with
  no infinity or NaN, and its text is ASCII.
- The token test's HTTP exchange: the response test's verdict on the answer to
  the request sent is the oracle `tokenCheck`. The tester's request is put back
  afterwards, and the model does not return it.
- Floating point: timers and times are exact `real`s, so rounding is not
  modelled. The guide's power exponent 1.3 is out of reach, and power
  timers use natural exponents.
- JSON text: `json.dumps` and `str` of a float or a mapping are modelled only
  for scalars. Other texts are a fixed rendering.
- Http.RetryAfter: a `Retry-After` value that is not decimal digits (an HTTP
  date, say) fails `ParseNat`, so the model treats the header as absent and
  the handler uses the wait timer. aiorequestful/response/status.py is not
  part of this model, so what the code does with such a value is not stated.
- Http.Header: a header map is a `map`, so it cannot hold one name twice or
  keep the order of its entries. A response that spells one name in two
  cases reads as lacking it, where aiohttp's multidict returns the first entry.
- Url query values are integers. Query values that are not integers are not
  modelled.
- Timer.Valid: a ceiling timer with a final value must grow. That means a
  positive step, a factor above 1 from a positive initial value, or an exponent
  of at least 2 from an initial value above 1. Other ceiling timers never reach
  their final value and so have no finite count. The model excludes them, and
  says nothing about what the code does with them.
- Payload handlers (`serialize`/`deserialize`) are an opaque tag that is handed
  on.
- `RequestHandler.Loop`: the number of sends is bounded by `sends`, and the call
  ends as `Pending` once it runs out. This is because the code's loop is
  unbounded while handlers keep resending.
- `RequestHandler.UniqueRetryTimer`: the test mocks `_retry` to count calls.
  The model runs the real retry, so the counts are stated on the model's loop.
- State after a raised exception is not modelled: an error ends the call.
- `required_modules_installed`: the names of the missing modules come from
  `globals()` in the code and are a parameter here.
- `BasicAuth`: the encoding is Latin-1, which is the default the test decodes
  with. Other encodings are not modelled.
- Logging calls other than the log-line format are not modelled.

## Findings

| source | as written | input that shows it | evidently intended | confidence | as-written member | corrected member |
|---|---|---|---|---|---|---|
| aiorequestful/auth/oauth2.py:69-79 | A non-empty response already held by the response handler leaves `loaded` false, so `authorise()` always generates a new token | `response_handler.response` set to a valid token, and a browser redirect whose state does not match: `authorise()` raises "Invalid state returned" instead of returning that token's headers | the held response is used like one read from the file (tests/auth/test_oauth2.py:279-297) | medium, not executed | OAuth2.InMemoryResponseIgnored | OAuth2.InMemoryResponseUsed |
| aiorequestful/auth/oauth2.py:81 | `authorise()` calls the tester with the response only. A configured token test then merges `None` into the headers of its request, and the dictionary union of aiorequestful/auth/_utils.py:62 raises `TypeError` | a tester with a token request and a response test, and a saved token without `error` that is not about to expire: `authorise()` raises `TypeError` instead of testing the token, and with a token test it can never succeed | the tester is given the headers of the response it tests, as the tester's own tests do (tests/auth/test_utils.py:315-333) | high, not executed | OAuth2.TokenTestRaises | OAuth2.TokenTestDecides |
