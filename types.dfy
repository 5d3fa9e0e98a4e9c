/**
 * The shapes the client works on (packages/core/src/types.ts): the request
 * configuration, what can be thrown, what the two transports are given and
 * report back, and the behaviour of the callbacks the configuration names.
 *
 * Callbacks that see errors or response data (`retryCondition`,
 * `validateResponse`, `onValidationError`, the progress callbacks) are held in
 * the configuration as `Hook` tokens, and what they do is given by an `Env`.
 * A configuration cannot hold a function of the errors that hold it.
 */
module Types {
  import opened Outcomes
  import opened Values
  import Errors
  import Retry
  import Params

  datatype HttpMethod = GET | POST | PUT | DELETE | PATCH

  datatype Credentials = Omit | SameOrigin | Include

  datatype ResponseType = Json | Text | BlobType | ArrayBufferType

  /** A callback named by the configuration; the client only ever calls it. */
  datatype Hook = Hook(id: nat)

  /** The caller's `AbortSignal`, reduced to whether it has fired when a failure is classified. */
  datatype Signal = Signal(aborted: bool)

  type Transform = Data -> Data

  /** `transformRequest` / `transformResponse`: one function or an array of them. */
  datatype Transforms = Single(f: Transform) | List(fs: seq<Transform>)

  datatype RetryOptions = RetryOptions(attempts: int, delay: int, backoff: Retry.Backoff, retryCondition: Option<Hook>)

  /** `retry?: RetryConfig | false`. */
  datatype RetrySetting = RetryOff | RetryWith(options: RetryOptions)

  type Headers = map<string, string>

  /** `ApiClientConfig` and `RequestOptions` in one record: a merged per-call configuration
      carries the keys of both. An absent key is `None`. */
  datatype Config = Config(
    baseURL: Option<string>,
    timeout: Option<int>,
    headers: Option<Headers>,
    credentials: Option<Credentials>,
    retry: Option<RetrySetting>,
    transformRequest: Option<Transforms>,
    transformResponse: Option<Transforms>,
    paramsSerializer: Option<Params.ParamsSerializerConfig>,
    params: Option<Params.Entries>,
    signal: Option<Signal>,
    responseType: Option<ResponseType>,
    onUploadProgress: Option<Hook>,
    onDownloadProgress: Option<Hook>,
    validateResponse: Option<Hook>,
    onValidationError: Option<Hook>)

  /** `{}`. */
  const EmptyConfig: Config := Config(None, None, None, None, None, None, None, None, None, None, None, None, None, None, None)

  type ApiError = Errors.ApiError<Config>

  /** What a step can throw: an `ApiError`, another `Error` (by `name` and `message`), or a
      value that is no `Error` at all. */
  datatype Thrown = ThrownApiError(err: ApiError) | ThrownError(name: string, message: string) | ThrownValue(value: Data)

  /** How a call of `validateResponse` ends. */
  datatype Validation = Returned(valid: bool) | ThrewSync(error: Thrown) | Rejected(reason: Thrown)

  /** A `fetch` `Response`: its status line, its body text, and what `blob()` and
      `arrayBuffer()` produce. */
  datatype FetchResponse = FetchResponse(status: int, statusText: string, body: string, blob: Data, arrayBuffer: Data)

  /** What was handed to the transport as the request body. `JsonText(d)` is `JSON.stringify(d)`. */
  datatype Payload = NoPayload | Raw(data: Data) | JsonText(json: Data)

  /** The arguments of `fetch(url, init)`; `timeout` is the delay of the abort timer. */
  datatype FetchInit = FetchInit(
    url: string,
    verb: HttpMethod,
    headers: Headers,
    credentials: Option<Credentials>,
    payload: Payload,
    timeout: int)

  /** How the `fetch` promise settles. */
  datatype FetchEvent = Responded(response: FetchResponse) | FetchFailed(error: Thrown)

  /** What the XHR path sets on the `XMLHttpRequest` before `send`: the headers from the
      configuration, whether `Content-Type: application/json` is added on top of them, the
      `withCredentials` flag and the `timeout` property (absent when it is left unset). */
  datatype XhrSetup = XhrSetup(
    url: string,
    verb: HttpMethod,
    headers: Headers,
    addsJsonContentType: bool,
    withCredentials: bool,
    timeout: Option<int>,
    payload: Payload)

  /** Which `XMLHttpRequest` event fires. */
  datatype XhrEvent = Load(status: int, statusText: string, responseText: string) | XhrError | XhrTimeout | XhrAbort

  /** The behaviour of the callbacks and library functions the client calls. `parseJson` is
      `JSON.parse`, failing with the message of its `SyntaxError`; `bodyUsedMessage` is the
      message of the `TypeError` a `Response` body method throws once the body has been read. */
  datatype Env = Env(
    retryCondition: Hook -> Thrown -> bool,
    validate: Hook -> Data -> Validation,
    parseJson: string -> Outcome<Data, string>,
    bodyUsedMessage: string)

  /** The network: how the `k`-th attempt of a request settles, given what it sent. */
  datatype Transport = Transport(fetch: (FetchInit, nat) -> FetchEvent, xhr: (XhrSetup, nat) -> XhrEvent)
}
