# A verified model of the `@api-zero/core` HTTP client

`@api-zero/core` is a small HTTP client library. An `ApiClient` holds a default configuration and two interceptor registries. Its `request` operation works in this order:

1. It merges the defaults with the per-call options.
2. It runs the client-level request transforms over the body.
3. It runs the request-interceptor chain over the configuration.
4. It builds the URL and adds the serialized query parameters.
5. It hands `performRequest` to `withRetry`.

One attempt of `performRequest` does the following:

1. It picks a transport: `fetch`, or `XMLHttpRequest` when upload progress is asked for.
2. It prepares the body and the headers.
3. It runs the response interceptors.
4. It turns a non-2xx response into an `ApiError`.
5. It decodes the data, runs the response transforms and the validation callback.
6. It classifies every failure as an `ApiError`.

This project models that core in Dafny and proves what the code promises about it.

| file | module | models |
|---|---|---|
| outcome.dfy | `Outcomes` | `Option`, and `Outcome` (a settled promise: `Ok` or `Err`) |
| seqs.dfy | `Seqs` | sequence facts shared by the folds |
| values.dfy | `Values` | JavaScript values: truthiness, `String()`, `Array.prototype.join` |
| utf8.dfy | `Utf8` | UTF-8 (RFC 3629), which form-urlencoding works on |
| form_urlencoded.dfy | `FormUrlEncoded` | the `application/x-www-form-urlencoded` serializer of section 5.2 of the WHATWG URL Standard, and the parser of section 5.1 as its inverse |
| params.dfy | `Params` | `serializeParams` |
| retry.dfy | `Retry` | `withRetry` |
| error.dfy | `Errors` | `ApiError` |
| interceptors.dfy | `Interceptors` | `InterceptorManager`, and the `promise.then(fulfilled, rejected)` chain |
| types.dfy | `Types` | the configuration, thrown values, transport requests and events |
| base64.dfy | `Base64` | `btoa` (section 4 of RFC 4648), for `setBasicAuth` |
| pipeline.dfy | `Pipeline` | the decisions of `client.ts` as functions: merge, URL, transforms, body preparation, error construction, classification, validation, one attempt, the whole request |
| client.dfy | `Client` | the `ApiClient` class, its mutators, `request` and the verb wrappers |

## How the model is put together

- **State and loops.** The model keeps the source's state as state and its loops as loops:
  - `ApiClient.config` is a mutable field, and each client holds two `InterceptorManager` objects, each with a `handlers` sequence.
  - The `forEach` loops of `serializeParams`, the transform folds and the interceptor chain are `for` loops.
  - The `while (true)` loop of `withRetry` is a `while` loop.
  - Each method is proved equal to a specification function, and the properties are proved about that function.
- **The network** is an oracle, `Types.Transport`. It says how attempt `k` settles once it is handed the `FetchInit` or `XhrSetup` that the model computes for it:
  - a `fetch` response or rejection;
  - an XHR `load`, `error`, `timeout` or `abort` event.
- **Retries.** The retried operation is `fn(k)`, the outcome of call `k`. A run records:
  - the outcome;
  - the number of calls;
  - every delay handed to `setTimeout`;
  - which calls' errors were passed to `retryCondition`.
- **Callbacks that see errors or data** are `Hook` tokens in the configuration: `retryCondition`, `validateResponse`, `onValidationError` and the progress callbacks. An `Env` gives their behaviour. A configuration cannot hold functions over the errors that carry it.
  - Transforms and a custom backoff stay as real functions.
  - `JSON.parse` is `Env.parseJson`.
  - `JSON.stringify(d)` is the payload `JsonText(d)`.
- **Notifications.** The errors handed to `onValidationError` are returned, in order, next to the result of an attempt (`Pipeline.Checked`).

Where the library's written description and its code disagree, the model follows the code. The one exception is a defect of the code itself, listed under "Findings": there the whole-request model uses the corrected behaviour, and the code as written is modelled beside it.

- **Interceptor ids are reused.** After `clear()` they start at 0 again (interceptors.ts:18-20), so an id is not unique for the life of a registry.
- **The number of calls.** `attempts` counts retries, not calls: an operation that always fails is called `attempts + 1` times (retry.ts:16-19).
- **HTTP errors are retried.** Without a `retryCondition`, every rejection is retried while the budget lasts, and non-2xx responses are rejections like any other.
- **Validation failures.** The two paths end a failed validation differently:
  - On the fetch path the failure is rethrown (client.ts:227), and the catch block classifies it like any other failure (client.ts:232-249):
    - the plain `Error` of a `false` result, or any other `Error` the validator threw, becomes a network-error `ApiError` with status 0 and the error's message;
    - an `ApiError` thrown or rejected by the validator is rethrown unchanged;
    - an `Error` named `AbortError` becomes a timeout (status 408) or an aborted error, by the caller's signal;
    - a thrown value that is not an `Error` becomes a network error with the message `Network Error`.
  - On the XHR path, the raw error is rejected (client.ts:330).
  - On the XHR path, a validator that throws synchronously is rejected at once and `onValidationError` is not called (client.ts:333-335). Only a `false` result or a rejected promise reaches the callback.
  - The wrapping `ApiError` with status 0 and tag `Validation Error` only ever goes to `onValidationError`.
  - On the fetch path, an `ApiError` thrown by the validator goes to the callback unwrapped (client.ts:214-215).
- **Validation failures are retried, and each attempt notifies.** A failed validation on the fetch path is a rejection that `withRetry` retries like any other. So a validator that keeps failing calls `onValidationError` once per attempt, not once per request.
- **The XHR path does not mirror the fetch path.** It runs no response interceptors. It never sets `xhr.responseType`, so every mode other than `json` reads `responseText`. It adds `Content-Type: application/json` with `setRequestHeader` for any JSON body, on top of any configured one (client.ts:378). It leaves a zero timeout unset, where fetch uses 30000 ms.

## Model

| member | source | states |
|---|---|---|
| Errors.NewApiError | packages/core/src/error.ts:6-15 | the error carries the given message, status, status text, data and configuration, and all three flags default to false |
| Errors.ApiError.ToJson | packages/core/src/error.ts:25-36 | the projection has name `ApiError` and the error's message, status, status text, data and three flags |
| Errors.StatusClasses | packages/core/src/error.ts:19-23 | `is4xx` and `is5xx` never both hold; 401, 403 and 404 each imply `is4xx`; `is4xx` holds iff 400 ≤ status ≤ 499 |
| Errors.SyntheticStatuses | packages/core/src/error.ts:19-23 | status 0 is in neither class; 408 is a client error other than 401, 403 and 404 |
| Errors.ToJsonIgnoresConfig | packages/core/src/error.ts:25-36 | two errors have the same `toJSON()` iff they differ at most in their configuration |
| Params.SerializePairs | packages/core/src/params.ts:7-25 | the entry loop appends exactly the pair list `PairsOf(params, format)`, with the format defaulting to brackets |
| Params.AppendEntry | packages/core/src/params.ts:8-24 | one entry appends exactly its own pairs after the ones before it, including the inner element loop |
| Params.SerializeParams | packages/core/src/params.ts:3-28 | the result is the form-urlencoded pair list |
| Params.DefaultIsBrackets | packages/core/src/params.ts:5 | without a configured `arrayFormat` the format is brackets |
| Params.PairsOfConcat | packages/core/src/params.ts:7 | the pairs follow entry order: the pairs of `a + b` are those of `a` followed by those of `b` |
| Params.NullishEntrySkipped | packages/core/src/params.ts:8 | an entry whose value is `undefined` or `null` contributes no pair, wherever it stands |
| Params.PairsProvenance | packages/core/src/params.ts:8-23 | each pair comes from a non-nullish entry and is named by its key, or by the key followed by `[]` for an array in brackets format |
| Params.CommaEmptyArray | packages/core/src/params.ts:11-12 | comma format writes one pair per array, and an empty array still writes `key=` |
| Params.ArrayFormats | packages/core/src/params.ts:11-19 | brackets writes `key[]` and repeat writes the bare `key`, one pair per element in element order; comma writes exactly one pair |
| Params.ScalarOnePair | packages/core/src/params.ts:22-23 | a non-array value writes exactly one pair `key=String(value)`, the same in every format |
| Params.SerializeEmptyIff | packages/core/src/params.ts:27 | the serialized text is empty iff the pair list is empty |
| Params.QueryStringEmptyIff | packages/core/src/params.ts:27 | the query string is empty iff no pair is written, and an empty mapping gives "" |
| Params.QueryStringRoundTrip | packages/core/src/params.ts:27 | parsing the query string as `URLSearchParams` gives back exactly the pair list |
| FormUrlEncoded.ComponentRoundTrip | packages/core/src/params.ts:27 | every name or value the serializer writes parses back to itself, and uses no `&`, `=` or raw space |
| FormUrlEncoded.ParseSerialize | packages/core/src/params.ts:27 | parsing the serializer's output gives back exactly its pairs, in order |
| FormUrlEncoded.SerializeInjective | packages/core/src/params.ts:27 | two pair lists with the same serialization are equal |
| Utf8.DecodeEncode | packages/core/src/params.ts:27 | UTF-8 decoding undoes the encoding of names and values |
| Values.NumberToStringRoundTrip | packages/core/src/params.ts:16-23 | `String(n)` of an integer below 2^53 in magnitude (where a double holds it exactly and `String` writes all its digits) reads back as `n` |
| Retry.WithRetry | packages/core/src/retry.ts:3-37 | the outcome, call count, delays and consulted calls are those of `RetrySpec` |
| Retry.RetryLoop | packages/core/src/retry.ts:11-36 | the loop's run equals `RunFrom(fn, cfg, 0)`, proved by loop invariants and `WellFormedRunUnique` |
| Retry.RunFromWellFormed | packages/core/src/retry.ts:11-36 | every run is well formed: earlier calls were retried, delays are the configured ones, the last call ends the loop, and the condition was asked while the budget allowed |
| Retry.WellFormedRunUnique | packages/core/src/retry.ts:11-36 | a well-formed run is the run `withRetry` makes |
| Retry.Disabled | packages/core/src/retry.ts:7-9 | with `false` or no configuration, `fn` runs once and its outcome is returned unchanged |
| Retry.FirstSuccess | packages/core/src/retry.ts:13-14 | a first call that succeeds returns at once, with no other call and no delay |
| Retry.CallBounds | packages/core/src/retry.ts:16-34 | there is at least one call and at most `attempts + 1`, and exactly one wait between consecutive calls |
| Retry.ConditionAskedWithinBudget | packages/core/src/retry.ts:17-23 | `retryCondition` is asked in call order, only about rejections after which the budget still allowed a call |
| Retry.AlwaysFails | packages/core/src/retry.ts:16-19 | an operation that always rejects, with no condition, is called exactly `attempts + 1` times and its last error is thrown, after exactly `attempts` waits of the configured delays |
| Retry.ConditionRefuses | packages/core/src/retry.ts:21-23 | a condition that refuses the first rejection means exactly one call |
| Retry.SucceedsAfterRetries | packages/core/src/retry.ts:12-19 | the loop ends at the first success within the budget |
| Retry.BackoffDelays | packages/core/src/retry.ts:25-32 | exponential backoff doubles the wait, linear backoff adds the base delay each time, fixed stays at the base delay |
| Retry.ExponentialExample | packages/core/src/retry.ts:25-34 | `attempts` 3, delay 100 and exponential backoff wait 100, 200, 400 over 4 calls |
| Interceptors.InterceptorManager.constructor | packages/core/src/interceptors.ts:2-5 | a new registry has no slots |
| Interceptors.InterceptorManager.Use | packages/core/src/interceptors.ts:7-10 | one slot is appended with the handler, the existing slots are untouched, and the id is the old length |
| Interceptors.InterceptorManager.Eject | packages/core/src/interceptors.ts:12-16 | the slot `id` is nulled if it holds a handler; any other id changes nothing |
| Interceptors.InterceptorManager.Clear | packages/core/src/interceptors.ts:18-20 | the registry is empty |
| Interceptors.InterceptorManager.ForEach | packages/core/src/interceptors.ts:22-28 | the visit order is the non-null slots in index order, and a handler is visited iff a slot holds it |
| Interceptors.ActiveMembers | packages/core/src/interceptors.ts:22-28 | exactly the handlers held in slots are visited, and never more than there are slots |
| Interceptors.ActiveConcat | packages/core/src/interceptors.ts:22-28 | the visit order of two slot lists together is one after the other |
| Interceptors.UseExtendsActive | packages/core/src/interceptors.ts:7-10 | a new registration is visited last |
| Interceptors.UseInOrder | packages/core/src/interceptors.ts:7-10 | registrations get consecutive ids in registration order |
| Interceptors.EjectSlotFacts | packages/core/src/interceptors.ts:12-16 | `eject` keeps the length and every other slot and nulls its own slot; an out-of-range id is a no-op; ejecting twice is ejecting once |
| Interceptors.EjectRemovesFromActive | packages/core/src/interceptors.ts:12-28 | ejecting a registered handler removes only it from the visit order, and keeps the others, before and after, in order |
| Interceptors.ClearRestartsIds | packages/core/src/interceptors.ts:18-20 | after `clear()` the next `use` returns id 0 |
| Interceptors.RunChain | packages/core/src/client.ts:83-87 | the awaited chain is `Chain(start, handlers)` |
| Interceptors.ChainConcat | packages/core/src/client.ts:84-86 | chaining over `a + b` is chaining over `a`, then over `b` |
| Interceptors.ErrorPassesThrough | packages/core/src/client.ts:85 | a rejection that meets no rejection handler reaches the end unchanged |
| Interceptors.ValuePassesThrough | packages/core/src/client.ts:85 | a value that meets no fulfilment handler reaches the end unchanged |
| Interceptors.Recovery | packages/core/src/client.ts:85 | a rejection handler that returns a value recovers the chain for the handlers after it |
| Base64.Latin1 | packages/core/src/client.ts:33 | `btoa` accepts a string iff no character is above U+00FF, and then each character is its byte |
| Base64.DecodeEncode | packages/core/src/client.ts:33 | decoding the base64 text gives back the bytes |
| Base64.BtoaFacts | packages/core/src/client.ts:33 | `btoa` fails exactly on a character above U+00FF; its output has a length divisible by 4 and decodes to the character codes |
| Base64.BtoaExample | packages/core/src/client.ts:33 | `btoa("user:pass")` is `dXNlcjpwYXNz` |
| Pipeline.WithDefaultTimeout | packages/core/src/client.ts:13-18 | a new client's timeout is the given one, or 30000 |
| Pipeline.OverlayKeywise | packages/core/src/client.ts:20-22 | every key the overlay supplies replaces the base's, and every other key is the base's |
| Pipeline.OverlayAlgebra | packages/core/src/client.ts:20-22 | `{}` is a unit on both sides, overlaying is associative, and a configuration over itself is itself |
| Pipeline.Merge | packages/core/src/client.ts:61-68 | the merged configuration always has headers |
| Pipeline.MergeHeaders | packages/core/src/client.ts:61-68 | a header is present iff either side has it, and a per-call header wins; the timeout is the per-call one when given |
| Pipeline.WithHeaderOnlyKey | packages/core/src/client.ts:41-43 | `setHeader` sets its key and leaves every other header and every other setting alone |
| Pipeline.WithoutHeaderOnlyKey | packages/core/src/client.ts:45-49 | `removeHeader` deletes only its key, changes nothing else, and is a no-op without headers |
| Pipeline.WithHeadersOverlay | packages/core/src/client.ts:51-53 | `updateHeaders` overlays its keys and keeps the others |
| Pipeline.StripTrailingSlashes | packages/core/src/client.ts:95 | the result is a prefix not ending in `/`, and everything removed is `/` |
| Pipeline.StripLeadingSlashes | packages/core/src/client.ts:96 | the result is a suffix not starting with `/`, and everything removed is `/` |
| Pipeline.StripTrailingOf | packages/core/src/client.ts:95 | any number of trailing slashes is removed entirely |
| Pipeline.StripLeadingOf | packages/core/src/client.ts:96 | any number of leading slashes is removed entirely |
| Pipeline.BuildUrlSlashes | packages/core/src/client.ts:92-98 | however many slashes sit at the join, exactly one `/` separates base and endpoint |
| Pipeline.BuildUrlEdgeCases | packages/core/src/client.ts:92-98 | an endpoint of slashes gives the base alone; an absent or empty base leaves the endpoint untouched |
| Pipeline.BuildUrlExample | packages/core/src/client.ts:92-98 | `https://api.example.com/` with `/users` gives `https://api.example.com/users` |
| Pipeline.WithQueryFacts | packages/core/src/client.ts:100-105 | the URL is kept as a prefix; it grows exactly when some parameter writes a pair, by one separator (`&` if the URL has a `?`, else `?`) and a text that `URLSearchParams` reads back to exactly those pairs |
| Pipeline.ApplyAllConcat | packages/core/src/client.ts:76-78 | applying `a + b` is applying `a`, then `b` |
| Pipeline.TransformsInOrder | packages/core/src/client.ts:71-79 | transforms run left to right; a single function is a one-element list; none or `[]` changes nothing |
| Pipeline.FalsyBodyNotSent | packages/core/src/client.ts:129-141 | a falsy body, including `0`, `""` and `false`, is not sent and leaves the headers alone |
| Pipeline.FormDataBody | packages/core/src/client.ts:130-134 | a `FormData` body goes as it is, without `Content-Type`, and with the other headers kept |
| Pipeline.JsonBody | packages/core/src/client.ts:135-140 | any other truthy non-binary body goes as JSON; `Content-Type` defaults to `application/json` only when absent or empty |
| Pipeline.XhrFormDataHeaders | packages/core/src/client.ts:262-267 | for a `FormData` body the XHR path drops every spelling of `content-type` and keeps every other header; for every URL, method and configuration the payload is the fetch path's |
| Pipeline.Timeouts | packages/core/src/client.ts:273-275 | a zero or absent timeout is no timeout on the XHR path; on the fetch path it is 30000 (line 143) |
| Pipeline.ClassifyCases | packages/core/src/client.ts:232-249 | an `ApiError` is rethrown unchanged; anything else becomes an `ApiError` carrying the configuration, with exactly one flag set: aborted (status 0) if the caller's signal fired, timeout (408) for any other `AbortError`, network error (0) with the error's message, or `Network Error` for a non-`Error`, otherwise |
| Pipeline.HttpErrorFields | packages/core/src/client.ts:167-181 | the corrected non-2xx branch (see Findings): an `ApiError` with the status and status text, message `statusText \|\| 'Error on request'`, no flag, and as data the parsed body, or else its text as evidently intended |
| Pipeline.NonJsonErrorKeepsStatus | packages/core/src/client.ts:167-181 | in the corrected model a non-2xx fetch response with a non-JSON body fails the attempt with an `ApiError` that keeps the HTTP status and carries the body text |
| Pipeline.NonJsonErrorBodyAsWritten | packages/core/src/client.ts:169-173 | as written, a non-2xx fetch response with a non-JSON body ends as a network error with status 0 |
| Pipeline.FetchRejectsWithApiError | packages/core/src/client.ts:232-249 | an attempt on the fetch path fails only with an `ApiError` |
| Pipeline.TransportChoice | packages/core/src/client.ts:116-118 | an attempt uses the XHR transport iff `onUploadProgress` is set, and the other transport has no influence |
| Pipeline.ValidationNotifiesOnce | packages/core/src/client.ts:207-229 | validation fails iff the callback returns false or throws, and a failure hands `onValidationError` (when set) exactly one `ApiError`; success hands it none and keeps the data |
| Pipeline.ValidationFalse | packages/core/src/client.ts:210-226 | `false` from `validateResponse` fails with `Response validation failed` and notifies the wrapped error with status 0 and tag `Validation Error`, on both paths |
| Pipeline.ValidationFailureOnEachPath | packages/core/src/client.ts:227-248 | on the fetch path, `false` from `validateResponse` on whatever the response interceptors produced reaches the caller as a network-error `ApiError` with the message `Response validation failed` |
| Pipeline.ValidationNotifiesEachAttempt | packages/core/src/client.ts:206-248 | with retries and no retry condition, a validator that keeps returning `false` makes the request run `attempts + 1` attempts and fail with the network-error `ApiError`, and each attempt hands `onValidationError` the same wrapping `ApiError` once |
| Pipeline.XhrValidationFailureIsRaw | packages/core/src/client.ts:314-331 | on the XHR path a failed validation rejects with the plain `Error` itself |
| Pipeline.InterceptorRejectionShortCircuits | packages/core/src/client.ts:82-90 | a rejected request-interceptor chain ends the request with the chain's error, before any attempt |
| Pipeline.DispatchedRequest | packages/core/src/client.ts:92-107 | a dispatched request uses the configuration the interceptors produced, the body transformed by client-level transforms only, the client-level response transforms and the built URL |
| Pipeline.NoRetrySingleAttempt | packages/core/src/client.ts:107 | without a retry setting, or with `retry: false`, a request is one attempt and ends as it did |
| Pipeline.FetchRequestFailsWithApiError | packages/core/src/client.ts:107 | whatever the retry setting, a fetch-path request settles as its last attempt, and fails only with an `ApiError` |
| Client.RunTransforms | packages/core/src/client.ts:71-79 | the `forEach` loop computes `ApplyTransforms` |
| Client.RequestUrl | packages/core/src/client.ts:92-105 | the URL is the built URL with the query string added as `WithQuery` says |
| Client.Dispatch | packages/core/src/client.ts:107 | the run is `withRetry` over the attempts, with the request's retry policy |
| Client.ApiClient.constructor | packages/core/src/client.ts:13-18 | the configuration is the given one with a 30000 ms default timeout, and both registries are new and empty |
| Client.ApiClient.SetConfig | packages/core/src/client.ts:20-22 | the keys given replace the current ones |
| Client.ApiClient.GetConfig | packages/core/src/client.ts:24-26 | the current configuration |
| Client.ApiClient.SetAuthToken | packages/core/src/client.ts:28-30 | `Authorization` becomes `Bearer <token>` |
| Client.ApiClient.SetBasicAuth | packages/core/src/client.ts:32-35 | `Authorization` becomes `Basic <btoa(user:pass)>`; where `btoa` throws, nothing changes |
| Client.ApiClient.ClearAuth | packages/core/src/client.ts:37-39 | `Authorization` is removed |
| Client.ApiClient.SetHeader | packages/core/src/client.ts:41-43 | the configuration becomes `WithHeader` |
| Client.ApiClient.RemoveHeader | packages/core/src/client.ts:45-49 | the configuration becomes `WithoutHeader` |
| Client.ApiClient.UpdateHeaders | packages/core/src/client.ts:51-53 | the configuration becomes `WithHeaders` |
| Client.ApiClient.Request | packages/core/src/client.ts:55-108 | the outcome is `RequestSpec` for the current configuration and the handlers that `forEach` visits |
| Client.ApiClient.Get | packages/core/src/client.ts:386-391 | a `GET` request with no body and `{}` as the default options |
| Client.ApiClient.Post | packages/core/src/client.ts:393-399 | a `POST` request with the body |
| Client.ApiClient.Put | packages/core/src/client.ts:401-407 | a `PUT` request with the body |
| Client.ApiClient.Patch | packages/core/src/client.ts:409-415 | a `PATCH` request with the body |
| Client.ApiClient.Delete | packages/core/src/client.ts:417-422 | a `DELETE` request with no body |
| Client.CreateClient | packages/core/src/client.ts:425-427 | a new client, with `{}` when no configuration is given |
| Client.AuthRoundTrip | packages/core/src/client.ts:28-39 | `setAuthToken` then `clearAuth` leaves the old headers without `Authorization`, and changes no other setting |

## Left out

- The actual `fetch` and `XMLHttpRequest` calls, the body readers, `setTimeout`, `AbortController` and the listeners on the caller's signal are foreign I/O and timing. The transport is an oracle over what the model hands it. Only the outcome of the timeout race is kept: whether the caller's signal had fired.
- Promise scheduling and `await` are reduced to sequential folds and loops. The sleep in `withRetry` is a recorded delay.
- The progress callbacks (client.ts:277-283) are left out: they are only handed to the XHR object.
- `JSON.stringify` is the opaque payload `JsonText(d)`. `JSON.parse` is a parameter of the model (`Env.parseJson`). The browser's `TypeError` message for a body that was already read is a parameter too.
- Non-integer numbers, and integers of magnitude 2^53 or more, are not values of the model. Beyond 2^53 a JavaScript number is a rounded double, and `String()` writes the double's shortest digits rather than the integer's.
- Strings are sequences of Unicode scalar values. JavaScript strings are UTF-16 code units and may hold a lone surrogate, which `URLSearchParams` replaces with U+FFFD when it serializes; such keys and values are outside the model, and `Params.QueryStringRoundTrip` does not cover them.
- Client.ApiClient.Request: on the fetch path a non-2xx response whose body is not JSON follows the corrected branch (`Pipeline.ErrorResponse`): the request fails with the HTTP status. The code as written fails it with a status-0 network error (`Pipeline.ErrorResponseAsWritten`, see Findings); the whole-request model does not follow that path.
- Pipeline.ErrorResponseAsWritten: a response with no body at all (a 204 or 304) is not distinguished from an empty body, so the model says `text()` throws after `json()` fails, where the browser would return an empty text.
- A configuration key that is present but `undefined` is the same as an absent key (`None`). In the source, spreading such a key over a default erases the default. The parameter mapping is the list of its entries in `Object.entries` order.
- Transforms, interceptors and callbacks that throw synchronously, outside the cases named in the validation flow, are left out.
- The model has no aliasing:
  - `getConfig` returns the configuration object itself, and `removeHeader` deletes from the shared headers object in place.
  - In the model, `GetConfig` returns a value and the mutators return new records.
  - An interceptor that mutates the configuration object it is given is not modelled.
- Client.ApiClient.Request: the response handlers and the client-level `transformResponse` are snapshotted once per request. The source reads the registry again at each attempt (client.ts:162), and reads `this.config.transformResponse` inside each attempt (client.ts:196, 299). This differs only when a handler is added or ejected, or `setConfig` changes the transforms, during the retries.
- Header order and duplicate header names are left out: headers are a map. `toLowerCase` is modelled for ASCII letters only.
- Pipeline.XhrSetupOf: it records that `Content-Type: application/json` is added on top of the configured headers. It does not model how the browser combines two `setRequestHeader` values.
- Retry.RetryLoop: the `while (true)` loop with `return`/`throw`/`continue` is written as a loop whose guard is the retry decision. The last call's check follows the loop.
- Base64.Decode is `atob` only on the well-formed padded text that `btoa` produces. It exists to state the round trip.
- `debug`/`logger` (declared in types.ts, never used), the React package and the apps are outside the core.

## Findings

| source | as written | input that shows it | evidently intended | confidence | as-written member | corrected member |
|---|---|---|---|---|---|---|
| packages/core/src/client.ts:169-173 | a non-2xx fetch response's body is read by `response.json()`; when that fails, `response.text()` is called on the same, already read body, and throws a `TypeError` | status 500 with the body `Internal Server Error` (not JSON): the `TypeError` reaches the catch block and the caller gets a network error with status 0, and loses the HTTP status | an `ApiError` with status 500, its status text, and the body text as data, as the XHR path does (client.ts:341-353) | not executed | Pipeline.NonJsonErrorBodyAsWritten | Pipeline.HttpErrorFields |
