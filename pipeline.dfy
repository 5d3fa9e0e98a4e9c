/**
 * The decisions of packages/core/src/client.ts, as functions: merging the
 * client's defaults with per-call options, building the URL, folding the
 * transforms, preparing what each transport is handed, reading what it
 * reports back, validating the data and classifying failures.
 *
 * One attempt of a request (`performRequest`) is `PerformRequest(ctx, k)`,
 * where `k` numbers the attempt for the transport oracle.
 */
module Pipeline {
  import opened Outcomes
  import opened Values
  import opened Types
  import Errors
  import Retry
  import Params
  import FormUrlEncoded
  import Interceptors

  // ------------------------------------------------------------ configuration

  const DefaultTimeout: int := 30000

  function Or<T>(first: Option<T>, second: Option<T>): Option<T>
  {
    if first.Some? then first else second
  }

  /** `{ ...base, ...over }`: each key that `over` has replaces the one in `base`. */
  function Overlay(base: Config, over: Config): Config
  {
    Config(
      Or(over.baseURL, base.baseURL),
      Or(over.timeout, base.timeout),
      Or(over.headers, base.headers),
      Or(over.credentials, base.credentials),
      Or(over.retry, base.retry),
      Or(over.transformRequest, base.transformRequest),
      Or(over.transformResponse, base.transformResponse),
      Or(over.paramsSerializer, base.paramsSerializer),
      Or(over.params, base.params),
      Or(over.signal, base.signal),
      Or(over.responseType, base.responseType),
      Or(over.onUploadProgress, base.onUploadProgress),
      Or(over.onDownloadProgress, base.onDownloadProgress),
      Or(over.validateResponse, base.validateResponse),
      Or(over.onValidationError, base.onValidationError))
  }

  /** The configuration a new client holds: `{ timeout: 30000, ...config }`. */
  function WithDefaultTimeout(given: Config): (c: Config)
    ensures c.timeout == if given.timeout.Some? then given.timeout else Some(DefaultTimeout)
  {
    Overlay(EmptyConfig.(timeout := Some(DefaultTimeout)), given)
  }

  /** The headers of a configuration; absent headers spread as `{}`. */
  function HeadersOf(c: Config): Headers
  {
    GetOr(c.headers, map[])
  }

  /** The per-call configuration: options over the client's defaults, headers merged key by key. */
  function Merge(client: Config, options: Config): (c: Config)
    ensures c.headers.Some?
  {
    Overlay(client, options).(headers := Some(HeadersOf(client) + HeadersOf(options)))
  }

  /** `setHeader(key, value)`. */
  function WithHeader(c: Config, key: string, value: string): Config
  {
    c.(headers := Some(HeadersOf(c)[key := value]))
  }

  /** `removeHeader(key)`: only when the configuration has headers. */
  function WithoutHeader(c: Config, key: string): Config
  {
    if c.headers.Some? then c.(headers := Some(c.headers.value - {key})) else c
  }

  /** `updateHeaders(headers)`. */
  function WithHeaders(c: Config, headers: Headers): Config
  {
    c.(headers := Some(HeadersOf(c) + headers))
  }

  const Authorization: string := "Authorization"

  function BearerValue(token: string): string
  {
    "Bearer " + token
  }

  // ------------------------------------------------------------ URL

  /** `s.replace(/\/+$/, '')`. */
  function StripTrailingSlashes(s: string): (r: string)
    ensures |r| <= |s| && r == s[..|r|]
    ensures r == [] || r[|r| - 1] != '/'
    ensures forall i :: |r| <= i < |s| ==> s[i] == '/'
  {
    if s != [] && s[|s| - 1] == '/' then StripTrailingSlashes(s[..|s| - 1]) else s
  }

  /** `s.replace(/^\/+/, '')`. */
  function StripLeadingSlashes(s: string): (r: string)
    ensures |r| <= |s| && r == s[|s| - |r|..]
    ensures r == [] || r[0] != '/'
    ensures forall i :: 0 <= i < |s| - |r| ==> s[i] == '/'
  {
    if s != [] && s[0] == '/' then StripLeadingSlashes(s[1..]) else s
  }

  /** The URL before the query string: the endpoint, joined to the base URL if there is one. */
  function BuildUrl(baseURL: Option<string>, endpoint: string): string
  {
    var base := GetOr(baseURL, "");
    if base == "" then endpoint
    else
      var cleanBase := StripTrailingSlashes(base);
      var cleanEndpoint := StripLeadingSlashes(endpoint);
      if cleanEndpoint == "" then cleanBase else cleanBase + "/" + cleanEndpoint
  }

  function AppendQuery(url: string, query: string): string
  {
    url + (if '?' in url then "&" else "?") + query
  }

  /** The query string goes on only when there are parameters and they serialize to something. */
  function WithQuery(url: string, params: Option<Params.Entries>, serializer: Option<Params.ParamsSerializerConfig>): string
  {
    if params.None? then url
    else
      var query := Params.QueryString(params.value, serializer);
      if query == "" then url else AppendQuery(url, query)
  }

  // ------------------------------------------------------------ transforms

  /** A single function is a one-element list. */
  function TransformList(t: Transforms): seq<Transform>
  {
    match t
    case Single(f) => [f]
    case List(fs) => fs
  }

  /** The functions applied left to right. */
  function ApplyAll(fs: seq<Transform>, d: Data): Data
  {
    if fs == [] then d else fs[|fs| - 1](ApplyAll(fs[..|fs| - 1], d))
  }

  function ApplyTransforms(t: Option<Transforms>, d: Data): Data
  {
    match t
    case None => d
    case Some(ts) => ApplyAll(TransformList(ts), d)
  }

  // ------------------------------------------------------------ what the transports are handed

  /** The request body: nothing for a falsy body, binary bodies as they are, anything else as JSON. */
  function PayloadOf(body: Data): Payload
  {
    if !Truthy(body) then NoPayload else if IsBinary(body) then Raw(body) else JsonText(body)
  }

  const ContentType: string := "Content-Type"
  const JsonContentType: string := "application/json"

  /** The headers `fetch` is given (client.ts, lines 120 and 129-141). */
  function FetchHeaders(headers: Option<Headers>, body: Data): Headers
  {
    var h := GetOr(headers, map[]);
    if !Truthy(body) then h
    else if IsBinary(body) then (if body.FormData? then h - {ContentType} else h)
    else if ContentType in h && h[ContentType] != "" then h
    else h[ContentType := JsonContentType]
  }

  /** `config.timeout || 30000`: an absent or zero timeout is the default. */
  function FetchTimeout(timeout: Option<int>): int
  {
    if timeout.None? || timeout.value == 0 then DefaultTimeout else timeout.value
  }

  function FetchInitOf(url: string, verb: HttpMethod, body: Data, config: Config): FetchInit
  {
    FetchInit(url, verb, FetchHeaders(config.headers, body), config.credentials, PayloadOf(body), FetchTimeout(config.timeout))
  }

  /** ASCII lower case. Only ASCII letters matter when comparing with "content-type": no other
      character lower-cases to one of its letters. */
  function AsciiLower(s: string): (r: string)
    ensures |r| == |s|
  {
    if s == [] then []
    else [if 'A' <= s[0] <= 'Z' then (s[0] as int + 32) as char else s[0]] + AsciiLower(s[1..])
  }

  /** The headers the XHR path sets: every configured header, except any spelling of
      `content-type` when the body is a `FormData`. */
  function XhrHeaders(headers: Option<Headers>, body: Data): Headers
  {
    var h := GetOr(headers, map[]);
    if body.FormData? then map k | k in h && AsciiLower(k) != "content-type" :: h[k] else h
  }

  /** `if (config.timeout) xhr.timeout = config.timeout`: zero leaves the request without a timeout. */
  function XhrTimeoutOf(timeout: Option<int>): Option<int>
  {
    if timeout.None? || timeout.value == 0 then None else timeout
  }

  function XhrSetupOf(url: string, verb: HttpMethod, body: Data, config: Config): XhrSetup
  {
    XhrSetup(url, verb, XhrHeaders(config.headers, body), Truthy(body) && !IsBinary(body),
      config.credentials == Some(Include), XhrTimeoutOf(config.timeout), PayloadOf(body))
  }

  // ------------------------------------------------------------ errors

  function IsSuccess(status: int): bool
  {
    200 <= status < 300
  }

  /** The error for a response outside 2xx; none of the three flags is set. */
  function HttpError(status: int, statusText: string, data: Data, config: Config): ApiError
  {
    Errors.NewApiError(if statusText == "" then "Error on request" else statusText, status, statusText, data, Some(config))
  }

  function NetworkError(message: string, config: Config): ApiError
  {
    Errors.ApiError(message, 0, "Network Error", Undefined, Some(config), false, true, false)
  }

  function TimeoutError(config: Config): ApiError
  {
    Errors.ApiError("Request timeout", 408, "Timeout", Undefined, Some(config), true, false, false)
  }

  function AbortedError(config: Config): ApiError
  {
    Errors.ApiError("Request aborted", 0, "Aborted", Undefined, Some(config), false, false, true)
  }

  /** The catch block of `performRequest`: an `ApiError` is rethrown as it is; an `AbortError`
      is an abort when the caller's signal fired and a timeout otherwise; anything else is a
      network error carrying the error's message. */
  function Classify(t: Thrown, config: Config): ApiError
  {
    match t
    case ThrownApiError(e) => e
    case ThrownError(name, message) =>
      if name == "AbortError" then
        if config.signal.Some? && config.signal.value.aborted then AbortedError(config) else TimeoutError(config)
      else NetworkError(message, config)
    case ThrownValue(_) => NetworkError("Network Error", config)
  }

  /** `JSON.parse(text)`, falling back to the text itself (the XHR path, and the evident
      intent of the fetch path). */
  function ParseOrText(text: string, env: Env): Data
  {
    match env.parseJson(text)
    case Ok(d) => d
    case Err(_) => Str(text)
  }

  /** What the non-2xx branch of the fetch path throws: the error carries the parsed body, or
      its text when it is not JSON. */
  function ErrorResponse(r: FetchResponse, config: Config, env: Env): Thrown
  {
    ThrownApiError(HttpError(r.status, r.statusText, ParseOrText(r.body, env), config))
  }

  /** The non-2xx branch of the fetch path as written: `response.text()` runs on a body that
      `response.json()` has already read, so it throws a `TypeError`. */
  function ErrorResponseAsWritten(r: FetchResponse, config: Config, env: Env): Thrown
  {
    match env.parseJson(r.body)
    case Ok(d) => ThrownApiError(HttpError(r.status, r.statusText, d, config))
    case Err(_) => ThrownError("TypeError", env.bodyUsedMessage)
  }

  // ------------------------------------------------------------ response data and validation

  /** The data of a 2xx fetch response, by `responseType` (default `json`). */
  function DecodeFetch(r: FetchResponse, responseType: Option<ResponseType>, env: Env): Outcome<Data, Thrown>
  {
    match GetOr(responseType, Json)
    case Json =>
      (match env.parseJson(r.body)
       case Ok(d) => Ok(d)
       case Err(message) => Err(ThrownError("SyntaxError", message)))
    case Text => Ok(Str(r.body))
    case BlobType => Ok(r.blob)
    case ArrayBufferType => Ok(r.arrayBuffer)
  }

  /** The data of a 2xx XHR response: `xhr.responseType` is never set, so anything but `json`
      reads the response text. */
  function DecodeXhr(responseText: string, responseType: Option<ResponseType>, env: Env): Data
  {
    if GetOr(responseType, Json) == Json then ParseOrText(responseText, env) else Str(responseText)
  }

  /** The outcome of a step and the errors it handed to `onValidationError`, in order. */
  datatype Checked = Checked(result: Outcome<Data, Thrown>, notified: seq<ApiError>)

  const ValidationFailed: Thrown := ThrownError("Error", "Response validation failed")

  /** `error instanceof Error ? error.message : 'Validation Error'`. */
  function MessageOf(t: Thrown): string
  {
    match t
    case ThrownApiError(e) => e.message
    case ThrownError(_, message) => message
    case ThrownValue(_) => "Validation Error"
  }

  function WrapValidation(t: Thrown, data: Data, config: Config): ApiError
  {
    Errors.NewApiError(MessageOf(t), 0, "Validation Error", data, Some(config))
  }

  /** What the validation callback failed with, if it did. */
  function ValidationFailure(v: Validation): Option<Thrown>
  {
    match v
    case Returned(valid) => if valid then None else Some(ValidationFailed)
    case ThrewSync(t) => Some(t)
    case Rejected(t) => Some(t)
  }

  function Notify(config: Config, e: ApiError): seq<ApiError>
  {
    if config.onValidationError.Some? then [e] else []
  }

  /** Validation on the fetch path: the failure is rethrown as it is; `onValidationError` gets
      it if it is an `ApiError` and a wrapping `ApiError` otherwise. */
  function FetchValidate(data: Data, config: Config, env: Env): Checked
  {
    match config.validateResponse
    case None => Checked(Ok(data), [])
    case Some(h) =>
      match ValidationFailure(env.validate(h)(data))
      case None => Checked(Ok(data), [])
      case Some(t) =>
        Checked(Err(t), Notify(config, if t.ThrownApiError? then t.err else WrapValidation(t, data, config)))
  }

  /** Validation on the XHR path: a synchronous throw rejects without the callback; a false or
      rejected result always hands the callback a wrapping `ApiError`; the raw error is rejected. */
  function XhrValidate(data: Data, config: Config, env: Env): Checked
  {
    match config.validateResponse
    case None => Checked(Ok(data), [])
    case Some(h) =>
      match env.validate(h)(data)
      case ThrewSync(t) => Checked(Err(t), [])
      case Returned(valid) =>
        if valid then Checked(Ok(data), [])
        else Checked(Err(ValidationFailed), Notify(config, WrapValidation(ValidationFailed, data, config)))
      case Rejected(t) => Checked(Err(t), Notify(config, WrapValidation(t, data, config)))
  }

  // ------------------------------------------------------------ one attempt

  /** Everything one attempt depends on. `transformResponse` is the client-level setting. */
  datatype Ctx = Ctx(
    url: string,
    verb: HttpMethod,
    body: Data,
    config: Config,
    transformResponse: Option<Transforms>,
    responseHandlers: seq<Interceptors.Handler<FetchResponse, Thrown>>,
    env: Env,
    transport: Transport)

  /** The body of the `try` block of `performRequest`, up to the catch. */
  function FetchSteps(ctx: Ctx, event: FetchEvent): Checked
  {
    match event
    case FetchFailed(t) => Checked(Err(t), [])
    case Responded(raw) =>
      match Interceptors.Chain(Ok(raw), ctx.responseHandlers)
      case Err(t) => Checked(Err(t), [])
      case Ok(r) =>
        if !IsSuccess(r.status) then Checked(Err(ErrorResponse(r, ctx.config, ctx.env)), [])
        else
          match DecodeFetch(r, ctx.config.responseType, ctx.env)
          case Err(t) => Checked(Err(t), [])
          case Ok(d) => FetchValidate(ApplyTransforms(ctx.transformResponse, d), ctx.config, ctx.env)
  }

  /** The fetch path: the steps, then the catch block's classification. */
  function FetchAttempt(ctx: Ctx, k: nat): Checked
  {
    var steps := FetchSteps(ctx, ctx.transport.fetch(FetchInitOf(ctx.url, ctx.verb, ctx.body, ctx.config), k));
    match steps.result
    case Ok(d) => steps
    case Err(t) => Checked(Err(ThrownApiError(Classify(t, ctx.config))), steps.notified)
  }

  /** The XHR path (`xhrRequest`); response interceptors do not run on it. */
  function XhrAttempt(ctx: Ctx, k: nat): Checked
  {
    var config := ctx.config;
    match ctx.transport.xhr(XhrSetupOf(ctx.url, ctx.verb, ctx.body, config), k)
    case XhrError => Checked(Err(ThrownApiError(NetworkError("Network Error", config))), [])
    case XhrTimeout => Checked(Err(ThrownApiError(TimeoutError(config))), [])
    case XhrAbort => Checked(Err(ThrownApiError(AbortedError(config))), [])
    case Load(status, statusText, text) =>
      if IsSuccess(status) then
        XhrValidate(ApplyTransforms(ctx.transformResponse, DecodeXhr(text, config.responseType, ctx.env)), config, ctx.env)
      else Checked(Err(ThrownApiError(HttpError(status, statusText, ParseOrText(text, ctx.env), config))), [])
  }

  /** `performRequest`: the XHR path exactly when upload progress is asked for. */
  function PerformRequest(ctx: Ctx, k: nat): Checked
  {
    if ctx.config.onUploadProgress.Some? then XhrAttempt(ctx, k) else FetchAttempt(ctx, k)
  }

  /** The operation `withRetry` repeats. */
  function AttemptFn(ctx: Ctx): nat -> Outcome<Data, Thrown>
  {
    (k: nat) => PerformRequest(ctx, k).result
  }

  /** `config.retry` as `withRetry` sees it; `false` and an absent setting disable retrying. */
  function RetryPolicy(setting: Option<RetrySetting>, env: Env): Option<Retry.RetryConfig<Thrown>>
  {
    match setting
    case Some(RetryWith(o)) =>
      Some(Retry.RetryConfig(o.attempts, o.delay, o.backoff,
        match o.retryCondition
        case Some(h) => Some(env.retryCondition(h))
        case None => None))
    case _ => None
  }

  // ------------------------------------------------------------ the whole request

  /** How `request` ends: a rejected request-interceptor chain, or the retried attempts. */
  datatype RequestOutcome =
    | InterceptorRejected(error: Thrown)
    | Dispatched(ctx: Ctx, run: Retry.Run<Data, Thrown>)

  /** `request(endpoint, verb, body, options)` of a client with configuration `client` and the
      given active interceptors. */
  ghost function RequestSpec(
    client: Config,
    requestHandlers: seq<Interceptors.Handler<Config, Thrown>>,
    responseHandlers: seq<Interceptors.Handler<FetchResponse, Thrown>>,
    endpoint: string, verb: HttpMethod, body: Data, options: Config,
    env: Env, transport: Transport): RequestOutcome
  {
    var merged := Merge(client, options);
    var sent := ApplyTransforms(client.transformRequest, body);
    match Interceptors.Chain(Ok(merged), requestHandlers)
    case Err(t) => InterceptorRejected(t)
    case Ok(config) =>
      var url := WithQuery(BuildUrl(config.baseURL, endpoint), config.params, client.paramsSerializer);
      var ctx := Ctx(url, verb, sent, config, client.transformResponse, responseHandlers, env, transport);
      Dispatched(ctx, Retry.RetrySpec(AttemptFn(ctx), RetryPolicy(config.retry, env)))
  }

  // ============================================================ properties

  /** Merging keeps every option that is given and every default that is not. */
  lemma OverlayKeywise(base: Config, over: Config)
    ensures var c := Overlay(base, over);
      (over.baseURL.Some? ==> c.baseURL == over.baseURL) && (over.baseURL.None? ==> c.baseURL == base.baseURL) &&
      (over.timeout.Some? ==> c.timeout == over.timeout) && (over.timeout.None? ==> c.timeout == base.timeout) &&
      (over.headers.Some? ==> c.headers == over.headers) && (over.headers.None? ==> c.headers == base.headers) &&
      (over.credentials.Some? ==> c.credentials == over.credentials) && (over.credentials.None? ==> c.credentials == base.credentials) &&
      (over.retry.Some? ==> c.retry == over.retry) && (over.retry.None? ==> c.retry == base.retry) &&
      (over.transformRequest.Some? ==> c.transformRequest == over.transformRequest) && (over.transformRequest.None? ==> c.transformRequest == base.transformRequest) &&
      (over.transformResponse.Some? ==> c.transformResponse == over.transformResponse) && (over.transformResponse.None? ==> c.transformResponse == base.transformResponse) &&
      (over.paramsSerializer.Some? ==> c.paramsSerializer == over.paramsSerializer) && (over.paramsSerializer.None? ==> c.paramsSerializer == base.paramsSerializer) &&
      (over.params.Some? ==> c.params == over.params) && (over.params.None? ==> c.params == base.params) &&
      (over.signal.Some? ==> c.signal == over.signal) && (over.signal.None? ==> c.signal == base.signal) &&
      (over.responseType.Some? ==> c.responseType == over.responseType) && (over.responseType.None? ==> c.responseType == base.responseType) &&
      (over.onUploadProgress.Some? ==> c.onUploadProgress == over.onUploadProgress) && (over.onUploadProgress.None? ==> c.onUploadProgress == base.onUploadProgress) &&
      (over.onDownloadProgress.Some? ==> c.onDownloadProgress == over.onDownloadProgress) && (over.onDownloadProgress.None? ==> c.onDownloadProgress == base.onDownloadProgress) &&
      (over.validateResponse.Some? ==> c.validateResponse == over.validateResponse) && (over.validateResponse.None? ==> c.validateResponse == base.validateResponse) &&
      (over.onValidationError.Some? ==> c.onValidationError == over.onValidationError) && (over.onValidationError.None? ==> c.onValidationError == base.onValidationError)
  {
  }

  /** `{}` changes nothing, overlaying is associative, and a configuration overlaid on itself
      is itself. */
  lemma OverlayAlgebra(a: Config, b: Config, c: Config)
    ensures Overlay(a, EmptyConfig) == a && Overlay(EmptyConfig, a) == a
    ensures Overlay(Overlay(a, b), c) == Overlay(a, Overlay(b, c))
    ensures Overlay(a, a) == a
  {
  }

  /** Per-call headers win over the client's; every other header of either is kept. */
  lemma MergeHeaders(client: Config, options: Config, key: string)
    ensures var h := Merge(client, options).headers.value;
      (key in h <==> key in HeadersOf(client) || key in HeadersOf(options)) &&
      (key in HeadersOf(options) ==> h[key] == HeadersOf(options)[key]) &&
      (key !in HeadersOf(options) && key in HeadersOf(client) ==> h[key] == HeadersOf(client)[key])
    ensures Merge(client, options).timeout == Or(options.timeout, client.timeout)
  {
  }

  /** `setHeader` sets or overwrites its key and leaves every other header and setting alone. */
  lemma WithHeaderOnlyKey(c: Config, key: string, value: string, other: string)
    requires other != key
    ensures HeadersOf(WithHeader(c, key, value))[key] == value
    ensures other in HeadersOf(WithHeader(c, key, value)) <==> other in HeadersOf(c)
    ensures other in HeadersOf(c) ==> HeadersOf(WithHeader(c, key, value))[other] == HeadersOf(c)[other]
    ensures WithHeader(c, key, value).(headers := c.headers) == c
  {
  }

  /** `removeHeader` deletes only its key, and does nothing to a configuration without headers. */
  lemma WithoutHeaderOnlyKey(c: Config, key: string, other: string)
    requires other != key
    ensures key !in HeadersOf(WithoutHeader(c, key))
    ensures other in HeadersOf(WithoutHeader(c, key)) <==> other in HeadersOf(c)
    ensures other in HeadersOf(c) ==> HeadersOf(WithoutHeader(c, key))[other] == HeadersOf(c)[other]
    ensures c.headers.None? ==> WithoutHeader(c, key) == c
    ensures WithoutHeader(c, key).(headers := c.headers) == c
  {
  }

  /** `updateHeaders` overlays its keys on the headers there are. */
  lemma WithHeadersOverlay(c: Config, headers: Headers, key: string)
    ensures key in headers ==> HeadersOf(WithHeaders(c, headers))[key] == headers[key]
    ensures key !in headers ==>
      (key in HeadersOf(WithHeaders(c, headers)) <==> key in HeadersOf(c)) &&
      (key in HeadersOf(c) ==> HeadersOf(WithHeaders(c, headers))[key] == HeadersOf(c)[key])
    ensures WithHeaders(c, headers).(headers := c.headers) == c
  {
  }

  /** Extra slashes at the end of the base URL or the start of the endpoint make no difference,
      and there is exactly one `/` between the two. */
  lemma BuildUrlSlashes(base: string, endpoint: string, m: nat, n: nat)
    requires base != [] && base[|base| - 1] != '/'
    requires endpoint != [] && endpoint[0] != '/'
    ensures BuildUrl(Some(base + Slashes(m)), Slashes(n) + endpoint) == base + "/" + endpoint
  {
    StripTrailingOf(base, m);
    StripLeadingOf(endpoint, n);
  }

  /** An endpoint of slashes only gives the base alone, and without a base the endpoint is
      used untouched. */
  lemma BuildUrlEdgeCases(base: string, endpoint: string, n: nat)
    requires base != [] && base[|base| - 1] != '/'
    ensures BuildUrl(Some(base), Slashes(n)) == base
    ensures BuildUrl(None, endpoint) == endpoint && BuildUrl(Some(""), endpoint) == endpoint
  {
    StripTrailingOf(base, 0);
    StripLeadingOf("", n);
    assert Slashes(n) + "" == Slashes(n);
    assert base + Slashes(0) == base;
  }

  function Slashes(n: nat): (s: string)
    ensures |s| == n && forall i :: 0 <= i < n ==> s[i] == '/'
  {
    if n == 0 then "" else "/" + Slashes(n - 1)
  }

  lemma {:induction false} StripTrailingOf(s: string, n: nat)
    requires s == [] || s[|s| - 1] != '/'
    ensures StripTrailingSlashes(s + Slashes(n)) == s
  {
    if n > 0 {
      var t := s + Slashes(n);
      assert t[..|t| - 1] == s + Slashes(n - 1) by {
        assert Slashes(n) == Slashes(n - 1) + "/" by { SlashesSnoc(n); }
      }
      StripTrailingOf(s, n - 1);
    } else {
      assert s + Slashes(0) == s;
    }
  }

  lemma {:induction false} SlashesSnoc(n: nat)
    requires n > 0
    ensures Slashes(n) == Slashes(n - 1) + "/"
  {
  }

  lemma SlashesCons(n: nat, s: string)
    requires n > 0
    ensures (Slashes(n) + s)[0] == '/' && (Slashes(n) + s)[1..] == Slashes(n - 1) + s
  {
    assert Slashes(n) + s == "/" + (Slashes(n - 1) + s);
  }

  lemma {:induction false} StripLeadingOf(s: string, n: nat)
    requires s == [] || s[0] != '/'
    ensures StripLeadingSlashes(Slashes(n) + s) == s
  {
    if n > 0 {
      var t := Slashes(n) + s;
      SlashesCons(n, s);
      assert t != [] && t[0] == '/';
      assert StripLeadingSlashes(t) == StripLeadingSlashes(Slashes(n - 1) + s);
      StripLeadingOf(s, n - 1);
    } else {
      assert Slashes(0) + s == s;
    }
  }

  lemma BuildUrlExample()
    ensures BuildUrl(Some("https://api.example.com/"), "/users") == "https://api.example.com/users"
  {
    var base, endpoint := "https://api.example.com", "users";
    assert base[|base| - 1] == 'm';
    BuildUrlSlashes(base, endpoint, 1, 1);
    assert Slashes(1) == "/";
    assert base + Slashes(1) == "https://api.example.com/";
    assert Slashes(1) + endpoint == "/users";
    assert base + "/" + endpoint == "https://api.example.com/users";
  }

  /** The URL is kept as a prefix. Exactly when some parameter writes a pair, one separator
      follows it (`&` when the URL already has a query, else `?`), and the rest reads back as
      `URLSearchParams` to exactly the pairs the parameters write. */
  lemma WithQueryFacts(url: string, params: Option<Params.Entries>, serializer: Option<Params.ParamsSerializerConfig>)
    ensures var u := WithQuery(url, params, serializer);
      |u| >= |url| && u[..|url|] == url &&
      (u == url <==> params.None? || Params.PairsOf(params.value, Params.EffectiveFormat(serializer)) == [])
    ensures var u := WithQuery(url, params, serializer);
      u != url ==>
        u[|url|] == (if '?' in url then '&' else '?') &&
        FormUrlEncoded.Parse(u[|url| + 1..]) == Some(Params.PairsOf(params.value, Params.EffectiveFormat(serializer)))
    ensures params == Some([]) ==> WithQuery(url, params, serializer) == url
  {
    if params.Some? {
      Params.QueryStringEmptyIff(params.value, serializer);
      Params.QueryStringRoundTrip(params.value, serializer);
      var q := Params.QueryString(params.value, serializer);
      if q != "" {
        var u := WithQuery(url, params, serializer);
        assert u == url + [if '?' in url then '&' else '?'] + q;
        assert u[|url| + 1..] == q;
      }
    }
  }

  lemma {:induction false} ApplyAllConcat(a: seq<Transform>, b: seq<Transform>, d: Data)
    ensures ApplyAll(a + b, d) == ApplyAll(b, ApplyAll(a, d))
    decreases |b|
  {
    if b == [] {
      assert a + b == a;
    } else {
      assert (a + b)[..|a + b| - 1] == a + b[..|b| - 1];
      ApplyAllConcat(a, b[..|b| - 1], d);
    }
  }

  /** Transforms run left to right, and a single function acts as a one-element list. */
  lemma TransformsInOrder(f: Transform, g: Transform, d: Data)
    ensures ApplyTransforms(Some(Single(f)), d) == f(d)
    ensures ApplyTransforms(Some(List([f, g])), d) == g(f(d))
    ensures ApplyTransforms(Some(List([])), d) == d && ApplyTransforms(None, d) == d
  {
    assert [f][..0] == [];
    assert ApplyAll([f], d) == f(ApplyAll([], d));
    assert [f, g][..1] == [f];
    assert ApplyAll([f, g], d) == g(ApplyAll([f], d));
  }

  /** A falsy body (`undefined`, `null`, `false`, `0`, `""`) is not sent, on either path. */
  lemma FalsyBodyNotSent(body: Data, headers: Option<Headers>)
    requires !Truthy(body)
    ensures PayloadOf(body) == NoPayload
    ensures FetchHeaders(headers, body) == GetOr(headers, map[])
    ensures PayloadOf(Num(0)) == NoPayload && PayloadOf(Str("")) == NoPayload && PayloadOf(Bool(false)) == NoPayload
  {
  }

  /** A `FormData` body goes as it is and without `Content-Type`; the other headers stay. */
  lemma FormDataBody(id: nat, headers: Option<Headers>, key: string)
    requires key != ContentType
    ensures PayloadOf(FormData(id)) == Raw(FormData(id))
    ensures ContentType !in FetchHeaders(headers, FormData(id))
    ensures key in FetchHeaders(headers, FormData(id)) <==> key in GetOr(headers, map[])
    ensures key in GetOr(headers, map[]) ==> FetchHeaders(headers, FormData(id))[key] == GetOr(headers, map[])[key]
  {
  }

  /** Any other truthy body that is not binary goes as JSON text; `Content-Type` becomes
      `application/json` only when it is absent or empty; the other headers stay. */
  lemma JsonBody(body: Data, headers: Option<Headers>, key: string)
    requires Truthy(body) && !IsBinary(body) && key != ContentType
    ensures PayloadOf(body) == JsonText(body)
    ensures var h := GetOr(headers, map[]);
      FetchHeaders(headers, body)[ContentType] == (if ContentType in h && h[ContentType] != "" then h[ContentType] else JsonContentType)
    ensures key in FetchHeaders(headers, body) <==> key in GetOr(headers, map[])
    ensures key in GetOr(headers, map[]) ==> FetchHeaders(headers, body)[key] == GetOr(headers, map[])[key]
  {
  }

  /** The XHR path drops every spelling of `content-type` for a `FormData` body; it sends
      the same payload as the fetch path. */
  lemma XhrFormDataHeaders(id: nat, headers: Option<Headers>, body: Data, url: string, verb: HttpMethod, config: Config)
    ensures forall k :: k in XhrHeaders(headers, FormData(id)) ==> AsciiLower(k) != "content-type"
    ensures forall k :: k in GetOr(headers, map[]) && AsciiLower(k) != "content-type" ==>
      k in XhrHeaders(headers, FormData(id))
    ensures !body.FormData? ==> XhrHeaders(headers, body) == GetOr(headers, map[])
    ensures XhrSetupOf(url, verb, body, config).payload == FetchInitOf(url, verb, body, config).payload
  {
  }

  /** A zero timeout is 30000 ms on the fetch path and no timeout at all on the XHR path. */
  lemma Timeouts(t: int)
    ensures FetchTimeout(None) == DefaultTimeout && FetchTimeout(Some(0)) == DefaultTimeout
    ensures t != 0 ==> FetchTimeout(Some(t)) == t && XhrTimeoutOf(Some(t)) == Some(t)
    ensures XhrTimeoutOf(Some(0)) == None && XhrTimeoutOf(None) == None
  {
  }

  function Flags(e: ApiError): nat
  {
    (if e.isTimeout then 1 else 0) + (if e.isNetworkError then 1 else 0) + (if e.isAborted then 1 else 0)
  }

  /** An `ApiError` is never wrapped again. Everything else becomes an `ApiError` with
      exactly one flag set: aborted (status 0) when the caller's signal fired, timeout (408)
      for any other `AbortError`, network error (status 0) otherwise. */
  lemma ClassifyCases(t: Thrown, config: Config)
    ensures t.ThrownApiError? ==> Classify(t, config) == t.err
    ensures !t.ThrownApiError? ==>
      var e := Classify(t, config);
      e.config == Some(config) && e.data == Undefined &&
      Flags(e) == 1 &&
      (e.isAborted <==> t.ThrownError? && t.name == "AbortError" && config.signal.Some? && config.signal.value.aborted) &&
      (e.isTimeout <==> t.ThrownError? && t.name == "AbortError" && !(config.signal.Some? && config.signal.value.aborted)) &&
      (e.isTimeout ==> e.status == 408) && (!e.isTimeout ==> e.status == 0) &&
      (e.isNetworkError ==> e.message == (if t.ThrownError? then t.message else "Network Error"))
  {
  }

  /** A response outside 2xx is an `ApiError` with its status and status text, its body as
      data (parsed JSON, else the text), and no flag set. */
  lemma HttpErrorFields(r: FetchResponse, config: Config, env: Env)
    ensures var e := ErrorResponse(r, config, env).err;
      ErrorResponse(r, config, env).ThrownApiError? &&
      e.status == r.status && e.statusText == r.statusText &&
      e.message == (if r.statusText == "" then "Error on request" else r.statusText) &&
      !e.isTimeout && !e.isNetworkError && !e.isAborted &&
      (env.parseJson(r.body).Ok? ==> e.data == env.parseJson(r.body).value) &&
      (env.parseJson(r.body).Err? ==> e.data == Str(r.body))
  {
  }

  /** As written, a non-2xx fetch response whose body is not JSON ends in a network error
      with status 0: the HTTP status is lost. */
  lemma NonJsonErrorBodyAsWritten(r: FetchResponse, config: Config, env: Env)
    requires env.parseJson(r.body).Err?
    ensures var e := Classify(ErrorResponseAsWritten(r, config, env), config);
      e.status == 0 && e.isNetworkError && e.message == env.bodyUsedMessage
  {
  }

  /** A non-2xx fetch response whose body is not JSON: the request fails with an `ApiError`
      that keeps the HTTP status and carries the body text, as the XHR path does. The code as
      written ends in a network error with status 0 instead (`NonJsonErrorBodyAsWritten`). */
  lemma NonJsonErrorKeepsStatus(ctx: Ctx, k: nat, raw: FetchResponse, r: FetchResponse)
    requires ctx.config.onUploadProgress.None?
    requires ctx.transport.fetch(FetchInitOf(ctx.url, ctx.verb, ctx.body, ctx.config), k) == Responded(raw)
    requires Interceptors.Chain(Ok(raw), ctx.responseHandlers) == Ok(r)
    requires !IsSuccess(r.status) && ctx.env.parseJson(r.body).Err?
    ensures var res := PerformRequest(ctx, k).result;
      res == Err(ThrownApiError(HttpError(r.status, r.statusText, Str(r.body), ctx.config))) &&
      res.error.err.status == r.status && !res.error.err.isNetworkError
  {
  }

  /** The fetch path only ever rejects with an `ApiError`, while the XHR path may reject
      with the raw validation failure. */
  lemma FetchRejectsWithApiError(ctx: Ctx, k: nat)
    requires ctx.config.onUploadProgress.None?
    ensures PerformRequest(ctx, k).result.Err? ==> PerformRequest(ctx, k).result.error.ThrownApiError?
  {
  }

  /** One transport is chosen per attempt, by `onUploadProgress` alone: the other one has no
      influence on the attempt. */
  lemma TransportChoice(ctx: Ctx, k: nat, other: Transport)
    ensures ctx.config.onUploadProgress.None? ==>
      PerformRequest(ctx, k) == PerformRequest(ctx.(transport := Transport(ctx.transport.fetch, other.xhr)), k)
    ensures ctx.config.onUploadProgress.Some? ==>
      PerformRequest(ctx, k) == PerformRequest(ctx.(transport := Transport(other.fetch, ctx.transport.xhr)), k)
  {
  }

  /** A validation failure fails the step and hands `onValidationError`, when there is one,
      exactly one `ApiError`; a success notifies nobody. */
  lemma ValidationNotifiesOnce(data: Data, config: Config, env: Env)
    ensures var c := FetchValidate(data, config, env);
      (c.result.Ok? <==> config.validateResponse.None? || ValidationFailure(env.validate(config.validateResponse.value)(data)).None?) &&
      (c.result.Ok? ==> c.result.value == data && c.notified == []) &&
      (c.result.Err? ==> |c.notified| == (if config.onValidationError.Some? then 1 else 0))
    ensures var c := XhrValidate(data, config, env);
      (c.result.Ok? ==> c.result.value == data && c.notified == []) &&
      (c.result.Err? && !env.validate(config.validateResponse.value)(data).ThrewSync? ==>
        |c.notified| == (if config.onValidationError.Some? then 1 else 0))
  {
  }

  /** `validateResponse` returning false: the wrapped error has status 0 and the tag
      `Validation Error`, and the step fails with the plain `Error`. */
  lemma ValidationFalse(data: Data, config: Config, env: Env)
    requires config.validateResponse.Some? && env.validate(config.validateResponse.value)(data) == Returned(false)
    ensures FetchValidate(data, config, env) == XhrValidate(data, config, env)
    ensures var c := FetchValidate(data, config, env);
      c.result == Err(ValidationFailed) &&
      (config.onValidationError.Some? ==>
        c.notified == [Errors.NewApiError("Response validation failed", 0, "Validation Error", data, Some(config))])
  {
  }

  /** `validateResponse` returning false on the fetch path: the plain `Error` reaches the
      catch block, which turns it into a network error. */
  lemma ValidationFailureOnEachPath(ctx: Ctx, k: nat, raw: FetchResponse, r: FetchResponse, d: Data)
    requires ctx.config.validateResponse.Some?
    requires ctx.transport.fetch(FetchInitOf(ctx.url, ctx.verb, ctx.body, ctx.config), k) == Responded(raw)
    requires Interceptors.Chain(Ok(raw), ctx.responseHandlers) == Ok(r)
    requires IsSuccess(r.status) && DecodeFetch(r, ctx.config.responseType, ctx.env) == Ok(d)
    requires ctx.env.validate(ctx.config.validateResponse.value)(ApplyTransforms(ctx.transformResponse, d)) == Returned(false)
    ensures ctx.config.onUploadProgress.None? ==>
      PerformRequest(ctx, k).result == Err(ThrownApiError(NetworkError("Response validation failed", ctx.config)))
  {
  }

  lemma XhrValidationFailureIsRaw(ctx: Ctx, k: nat, status: int, statusText: string, text: string)
    requires ctx.config.onUploadProgress.Some? && ctx.config.validateResponse.Some?
    requires ctx.transport.xhr(XhrSetupOf(ctx.url, ctx.verb, ctx.body, ctx.config), k) == Load(status, statusText, text)
    requires IsSuccess(status)
    requires ctx.env.validate(ctx.config.validateResponse.value)(
      ApplyTransforms(ctx.transformResponse, DecodeXhr(text, ctx.config.responseType, ctx.env))) == Returned(false)
    ensures PerformRequest(ctx, k).result == Err(ValidationFailed)
  {
  }

  /** A rejected request-interceptor chain ends the request before any attempt, with the
      chain's own error. */
  lemma InterceptorRejectionShortCircuits(
    client: Config, requestHandlers: seq<Interceptors.Handler<Config, Thrown>>,
    responseHandlers: seq<Interceptors.Handler<FetchResponse, Thrown>>,
    endpoint: string, verb: HttpMethod, body: Data, options: Config, env: Env, transport: Transport, t: Thrown)
    requires Interceptors.Chain(Ok(Merge(client, options)), requestHandlers) == Err(t)
    ensures RequestSpec(client, requestHandlers, responseHandlers, endpoint, verb, body, options, env, transport) == InterceptorRejected(t)
  {
  }

  /** What a dispatched request sends: the body transformed by the client-level transforms
      only, to the URL built from the configuration the interceptors produced. */
  lemma DispatchedRequest(
    client: Config, requestHandlers: seq<Interceptors.Handler<Config, Thrown>>,
    responseHandlers: seq<Interceptors.Handler<FetchResponse, Thrown>>,
    endpoint: string, verb: HttpMethod, body: Data, options: Config, env: Env, transport: Transport)
    requires Interceptors.Chain(Ok(Merge(client, options)), requestHandlers).Ok?
    ensures var o := RequestSpec(client, requestHandlers, responseHandlers, endpoint, verb, body, options, env, transport);
      var config := Interceptors.Chain(Ok(Merge(client, options)), requestHandlers).value;
      o.Dispatched? && o.ctx.config == config &&
      o.ctx.body == ApplyTransforms(client.transformRequest, body) &&
      o.ctx.transformResponse == client.transformResponse && o.ctx.responseHandlers == responseHandlers &&
      o.ctx.url == WithQuery(BuildUrl(config.baseURL, endpoint), config.params, client.paramsSerializer)
    ensures requestHandlers == [] ==>
      RequestSpec(client, requestHandlers, responseHandlers, endpoint, verb, body, options, env, transport).ctx.config == Merge(client, options)
  {
  }

  /** Without a retry setting (or with `retry: false`) a request makes one attempt, and its
      outcome is that attempt's. */
  lemma NoRetrySingleAttempt(ctx: Ctx, env: Env, setting: Option<RetrySetting>)
    requires setting.None? || setting.value.RetryOff?
    ensures Retry.RetrySpec(AttemptFn(ctx), RetryPolicy(setting, env)) == Retry.Run(PerformRequest(ctx, 0).result, 1, [], [])
  {
  }

  /** A validator that keeps returning false on the fetch path: the failure is a network
      `ApiError`, which `withRetry` retries like any other rejection, so every attempt of the
      request calls `onValidationError` once, with the same wrapping `ApiError`. */
  lemma ValidationNotifiesEachAttempt(ctx: Ctx, cfg: Retry.RetryConfig<Thrown>, raw: FetchResponse, r: FetchResponse, d: Data)
    requires ctx.config.onUploadProgress.None?
    requires ctx.config.validateResponse.Some? && ctx.config.onValidationError.Some?
    requires forall k: nat :: ctx.transport.fetch(FetchInitOf(ctx.url, ctx.verb, ctx.body, ctx.config), k) == Responded(raw)
    requires Interceptors.Chain(Ok(raw), ctx.responseHandlers) == Ok(r)
    requires IsSuccess(r.status) && DecodeFetch(r, ctx.config.responseType, ctx.env) == Ok(d)
    requires ctx.env.validate(ctx.config.validateResponse.value)(ApplyTransforms(ctx.transformResponse, d)) == Returned(false)
    requires cfg.attempts >= 0 && cfg.retryCondition.None?
    ensures var run := Retry.RetrySpec(AttemptFn(ctx), Some(cfg));
      run.calls == cfg.attempts + 1 &&
      run.result == Err(ThrownApiError(NetworkError("Response validation failed", ctx.config))) &&
      forall k: nat :: k < run.calls ==>
        PerformRequest(ctx, k).notified == [WrapValidation(ValidationFailed, ApplyTransforms(ctx.transformResponse, d), ctx.config)]
  {
    forall k: nat
      ensures PerformRequest(ctx, k).result == Err(ThrownApiError(NetworkError("Response validation failed", ctx.config)))
    {
      ValidationFailureOnEachPath(ctx, k, raw, r, d);
    }
    Retry.AlwaysFails(AttemptFn(ctx), cfg);
  }

  /** Whatever the retry setting, a request on the fetch path fails only with an `ApiError`,
      and it settles as its last attempt did. */
  lemma FetchRequestFailsWithApiError(ctx: Ctx, policy: Option<Retry.RetryConfig<Thrown>>)
    requires ctx.config.onUploadProgress.None?
    ensures var run := Retry.RetrySpec(AttemptFn(ctx), policy);
      run.calls >= 1 && run.result == PerformRequest(ctx, run.calls - 1).result &&
      (run.result.Err? ==> run.result.error.ThrownApiError?)
  {
    var run := Retry.RetrySpec(AttemptFn(ctx), policy);
    Retry.CallBounds(AttemptFn(ctx), policy);
    if policy.Some? {
      Retry.RunFromWellFormed(AttemptFn(ctx), policy.value, 0);
    }
    FetchRejectsWithApiError(ctx, run.calls - 1);
  }
}
