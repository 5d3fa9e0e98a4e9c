/**
 * `ApiClient` of packages/core/src/client.ts: a configuration the mutators
 * update in place, two interceptor registries, and `request`, which merges,
 * transforms, runs the request interceptors, builds the URL and hands the
 * attempts to `withRetry`.
 *
 * A request is given the behaviour of the callbacks (`env`) and of the
 * network (`transport`); it returns how it ended, as `Pipeline.RequestSpec`
 * describes.
 */
module Client {
  import opened Outcomes
  import opened Values
  import opened Types
  import Pipeline
  import Interceptors
  import Params
  import Retry
  import Base64

  /** The `forEach(fn => body = fn(body))` loop over a transform setting. */
  method RunTransforms(t: Option<Transforms>, d: Data) returns (r: Data)
    ensures r == Pipeline.ApplyTransforms(t, d)
  {
    r := d;
    if t.Some? {
      var fs := Pipeline.TransformList(t.value);
      for i := 0 to |fs|
        invariant r == Pipeline.ApplyAll(fs[..i], d)
      {
        assert fs[..i + 1][..i] == fs[..i];
        r := fs[i](r);
      }
      assert fs[..|fs|] == fs;
    }
  }

  /** The URL of a request: base URL and endpoint joined, then the serialized parameters,
      if there are any, after `?` or `&`. */
  method RequestUrl(cfg: Config, endpoint: string, serializer: Option<Params.ParamsSerializerConfig>) returns (url: string)
    ensures url == Pipeline.WithQuery(Pipeline.BuildUrl(cfg.baseURL, endpoint), cfg.params, serializer)
  {
    url := Pipeline.BuildUrl(cfg.baseURL, endpoint);
    if cfg.params.Some? {
      var query := Params.SerializeParams(cfg.params.value, serializer);
      if query != "" {
        url := Pipeline.AppendQuery(url, query);
      }
    }
  }

  /** `withRetry(() => performRequest(...), config.retry)`. */
  method Dispatch(ctx: Pipeline.Ctx) returns (run: Retry.Run<Data, Thrown>)
    ensures run == Retry.RetrySpec(Pipeline.AttemptFn(ctx), Pipeline.RetryPolicy(ctx.config.retry, ctx.env))
  {
    var result, calls, delays, asked := Retry.WithRetry(Pipeline.AttemptFn(ctx), Pipeline.RetryPolicy(ctx.config.retry, ctx.env));
    run := Retry.Run(result, calls, delays, asked);
  }

  /** `RequestSpec` once the request interceptors have settled with `cfg`. */
  lemma SpecDispatched(
    client: Config, requestHandlers: seq<Interceptors.Handler<Config, Thrown>>,
    responseHandlers: seq<Interceptors.Handler<FetchResponse, Thrown>>,
    endpoint: string, verb: HttpMethod, body: Data, options: Config, env: Env, transport: Transport, cfg: Config)
    requires Interceptors.Chain(Ok(Pipeline.Merge(client, options)), requestHandlers) == Ok(cfg)
    ensures var ctx := Pipeline.Ctx(Pipeline.WithQuery(Pipeline.BuildUrl(cfg.baseURL, endpoint), cfg.params, client.paramsSerializer),
        verb, Pipeline.ApplyTransforms(client.transformRequest, body), cfg, client.transformResponse, responseHandlers, env, transport);
      Pipeline.RequestSpec(client, requestHandlers, responseHandlers, endpoint, verb, body, options, env, transport) ==
      Pipeline.Dispatched(ctx, Retry.RetrySpec(Pipeline.AttemptFn(ctx), Pipeline.RetryPolicy(cfg.retry, env)))
  {
  }

  class ApiClient {
    var config: Config
    const requestInterceptors: Interceptors.InterceptorManager<Config, Thrown>
    const responseInterceptors: Interceptors.InterceptorManager<FetchResponse, Thrown>

    /** `new ApiClient(config)`: a 30-second timeout unless the configuration names one. */
    constructor (given: Config)
      ensures config == Pipeline.WithDefaultTimeout(given)
      ensures fresh(requestInterceptors) && fresh(responseInterceptors)
      ensures requestInterceptors.handlers == [] && responseInterceptors.handlers == []
    {
      config := Pipeline.WithDefaultTimeout(given);
      requestInterceptors := new Interceptors.InterceptorManager();
      responseInterceptors := new Interceptors.InterceptorManager();
    }

    /** The keys given replace the current ones; `headers`, if given, replaces all headers. */
    method SetConfig(partial: Config)
      modifies this
      ensures config == Pipeline.Overlay(old(config), partial)
    {
      config := Pipeline.Overlay(config, partial);
    }

    method GetConfig() returns (c: Config)
      ensures c == config
    {
      c := config;
    }

    method SetHeader(key: string, value: string)
      modifies this
      ensures config == Pipeline.WithHeader(old(config), key, value)
    {
      config := Pipeline.WithHeader(config, key, value);
    }

    method RemoveHeader(key: string)
      modifies this
      ensures config == Pipeline.WithoutHeader(old(config), key)
    {
      if config.headers.Some? {
        config := config.(headers := Some(config.headers.value - {key}));
      }
    }

    method UpdateHeaders(headers: Headers)
      modifies this
      ensures config == Pipeline.WithHeaders(old(config), headers)
    {
      config := Pipeline.WithHeaders(config, headers);
    }

    method SetAuthToken(token: string)
      modifies this
      ensures config == Pipeline.WithHeader(old(config), Pipeline.Authorization, Pipeline.BearerValue(token))
    {
      SetHeader(Pipeline.Authorization, Pipeline.BearerValue(token));
    }

    /** `Authorization: Basic <btoa(username:password)>`. `ok` is false where `btoa` throws,
        and then the configuration is as it was. */
    method SetBasicAuth(username: string, password: string) returns (ok: bool)
      modifies this
      ensures ok <==> Base64.Btoa(username + ":" + password).Some?
      ensures ok ==> config == Pipeline.WithHeader(old(config), Pipeline.Authorization,
        "Basic " + Base64.Btoa(username + ":" + password).value)
      ensures !ok ==> config == old(config)
    {
      var token := Base64.Btoa(username + ":" + password);
      ok := token.Some?;
      if ok {
        SetHeader(Pipeline.Authorization, "Basic " + token.value);
      }
    }

    method ClearAuth()
      modifies this
      ensures config == Pipeline.WithoutHeader(old(config), Pipeline.Authorization)
    {
      RemoveHeader(Pipeline.Authorization);
    }

    /** `request(endpoint, method, body, options)`. */
    method Request(endpoint: string, verb: HttpMethod, body: Data, options: Config, env: Env, transport: Transport)
      returns (outcome: Pipeline.RequestOutcome)
      ensures outcome == Pipeline.RequestSpec(config, Interceptors.Active(requestInterceptors.handlers),
        Interceptors.Active(responseInterceptors.handlers), endpoint, verb, body, options, env, transport)
    {
      var merged := Pipeline.Merge(config, options);
      var sent := RunTransforms(config.transformRequest, body);
      var requestHandlers := requestInterceptors.ForEach();
      var settled := Interceptors.RunChain(Ok(merged), requestHandlers);
      if settled.Err? {
        return Pipeline.InterceptorRejected(settled.error);
      }
      var cfg := settled.value;
      var url := RequestUrl(cfg, endpoint, config.paramsSerializer);
      var responseHandlers := responseInterceptors.ForEach();
      var ctx := Pipeline.Ctx(url, verb, sent, cfg, config.transformResponse, responseHandlers, env, transport);
      var run := Dispatch(ctx);
      outcome := Pipeline.Dispatched(ctx, run);
      SpecDispatched(config, requestHandlers, responseHandlers, endpoint, verb, body, options, env, transport, cfg);
    }

    /** `get(endpoint, options)`: no body. */
    method Get(endpoint: string, options: Option<Config>, env: Env, transport: Transport)
      returns (outcome: Pipeline.RequestOutcome)
      ensures outcome == Pipeline.RequestSpec(config, Interceptors.Active(requestInterceptors.handlers),
        Interceptors.Active(responseInterceptors.handlers), endpoint, GET, Undefined, GetOr(options, EmptyConfig), env, transport)
    {
      outcome := Request(endpoint, GET, Undefined, GetOr(options, EmptyConfig), env, transport);
    }

    /** `post(endpoint, body, options)`. */
    method Post(endpoint: string, body: Data, options: Option<Config>, env: Env, transport: Transport)
      returns (outcome: Pipeline.RequestOutcome)
      ensures outcome == Pipeline.RequestSpec(config, Interceptors.Active(requestInterceptors.handlers),
        Interceptors.Active(responseInterceptors.handlers), endpoint, POST, body, GetOr(options, EmptyConfig), env, transport)
    {
      outcome := Request(endpoint, POST, body, GetOr(options, EmptyConfig), env, transport);
    }

    /** `put(endpoint, body, options)`. */
    method Put(endpoint: string, body: Data, options: Option<Config>, env: Env, transport: Transport)
      returns (outcome: Pipeline.RequestOutcome)
      ensures outcome == Pipeline.RequestSpec(config, Interceptors.Active(requestInterceptors.handlers),
        Interceptors.Active(responseInterceptors.handlers), endpoint, PUT, body, GetOr(options, EmptyConfig), env, transport)
    {
      outcome := Request(endpoint, PUT, body, GetOr(options, EmptyConfig), env, transport);
    }

    /** `patch(endpoint, body, options)`. */
    method Patch(endpoint: string, body: Data, options: Option<Config>, env: Env, transport: Transport)
      returns (outcome: Pipeline.RequestOutcome)
      ensures outcome == Pipeline.RequestSpec(config, Interceptors.Active(requestInterceptors.handlers),
        Interceptors.Active(responseInterceptors.handlers), endpoint, PATCH, body, GetOr(options, EmptyConfig), env, transport)
    {
      outcome := Request(endpoint, PATCH, body, GetOr(options, EmptyConfig), env, transport);
    }

    /** `delete(endpoint, options)`: no body. */
    method Delete(endpoint: string, options: Option<Config>, env: Env, transport: Transport)
      returns (outcome: Pipeline.RequestOutcome)
      ensures outcome == Pipeline.RequestSpec(config, Interceptors.Active(requestInterceptors.handlers),
        Interceptors.Active(responseInterceptors.handlers), endpoint, DELETE, Undefined, GetOr(options, EmptyConfig), env, transport)
    {
      outcome := Request(endpoint, DELETE, Undefined, GetOr(options, EmptyConfig), env, transport);
    }
  }

  /** `createClient(config?)`. */
  method CreateClient(given: Option<Config>) returns (client: ApiClient)
    ensures fresh(client) && client.config == Pipeline.WithDefaultTimeout(GetOr(given, EmptyConfig))
    ensures client.requestInterceptors.handlers == [] && client.responseInterceptors.handlers == []
  {
    client := new ApiClient(GetOr(given, EmptyConfig));
  }

  /** The token helpers set exactly the `Authorization` header, and `clearAuth` takes it away
      again: after `setAuthToken(t)` then `clearAuth()` the headers are the old ones without
      `Authorization`. */
  method AuthRoundTrip(client: ApiClient, token: string)
    modifies client
    ensures client.config.headers == Some(Pipeline.HeadersOf(old(client.config)) - {Pipeline.Authorization})
    ensures client.config.(headers := old(client.config).headers) == old(client.config)
  {
    ghost var before := Pipeline.HeadersOf(client.config);
    client.SetAuthToken(token);
    client.ClearAuth();
    assert before[Pipeline.Authorization := Pipeline.BearerValue(token)] - {Pipeline.Authorization} == before - {Pipeline.Authorization};
  }
}
