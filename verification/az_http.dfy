/** The HTTP request as the client builds it (inside caller buffers) and the
    pipeline policies a client composes. The request-building primitives
    (`az_http_request_init`, `az_http_request_append_header`) are specified
    by their contracts: a request over a fixed URL buffer, and a header list
    with a fixed number of slots that refuses to grow past it. */
module AzHttp {
  import opened AzCore

  /** Identity of a cancellation/deadline context (`az_context`). */
  type ContextId = nat

  /** Identity of a credential object handed to a client. */
  type CredentialId = nat

  datatype HttpMethod = Get | Head | Post | Put | Delete | Patch

  /** One header: a name span and a value span. */
  datatype Header = Header(name: Bytes, value: Bytes)

  /** A snapshot of a request: what a pipeline is handed. `url` is the part
      of the URL buffer in use; `urlCapacity` is the size of that buffer. */
  datatype RequestValue = RequestValue(
    context: ContextId,
    verb: HttpMethod,
    url: Bytes,
    urlCapacity: nat,
    headers: seq<Header>,
    body: Bytes)

  /** Where the api-version policy puts the version: a header or a query
      parameter. */
  datatype ApiVersionLocation = InHeader | InQueryParameter

  /** `_az_http_policy_apiversion_options`. */
  datatype ApiVersionOptions = ApiVersionOptions(location: ApiVersionLocation, name: Bytes, version: Bytes)

  /** `_az_http_policy_telemetry_options`: its fields are not part of this
      model. */
  type TelemetryOptions(0, ==)

  /** `az_http_policy_retry_options`: the three fields the blob client sets. */
  datatype RetryOptions = RetryOptions(maxRetries: int, retryDelayMsec: int, maxRetryDelayMsec: int)

  /** The value `_az_http_policy_telemetry_options_default` returns. */
  const TELEMETRY_OPTIONS_DEFAULT: TelemetryOptions

  /** The value `_az_http_policy_retry_options_default` returns. */
  const RETRY_OPTIONS_DEFAULT: RetryOptions

  /** One pipeline stage: its processing function together with the options
      it is given (for the client, references into the client's own copy of
      its options, so they are modelled by value). */
  datatype Policy =
    | ApiVersionPolicy(apiVersion: ApiVersionOptions)
    | TelemetryPolicy(telemetry: TelemetryOptions)
    | RetryPolicy(retry: RetryOptions)
    | CredentialPolicy(credential: CredentialId)
    | LoggingPolicy
    | TransportPolicy

  /** `az_http_pipeline_process`: the pipeline is outside the model, so a
      client is given its behaviour as a function of the pipeline and the
      request it is handed. */
  type PipelineProcess = (seq<Policy>, RequestValue) -> AzResult

  /** An `az_http_request` being built inside caller buffers. */
  class HttpRequest {
    const context: ContextId
    const verb: HttpMethod
    /** The caller's URL buffer. */
    const url: array<byte>
    /** How much of `url` holds the URL. */
    const urlLength: nat
    /** How many headers the caller's header buffer has room for. */
    const headerCapacity: nat
    /** The headers appended so far, in order. */
    var headers: seq<Header>
    const body: Bytes

    ghost predicate Valid()
      reads this
    {
      urlLength <= url.Length && |headers| <= headerCapacity
    }

    /** The request as the pipeline sees it. */
    function Value(): (v: RequestValue)
      reads this, url
      requires Valid()
    {
      RequestValue(context, verb, url[..urlLength], url.Length, headers, body)
    }

    /** `az_http_request_init`: a request over the caller's URL buffer, of
        which the first `urlLength` bytes are the URL, with an empty header
        list of `headerCapacity` slots and the given body. */
    constructor Init(context: ContextId, verb: HttpMethod, url: array<byte>, urlLength: nat,
                     headerCapacity: nat, body: Bytes)
      requires urlLength <= url.Length
      ensures Valid()
      ensures this.context == context && this.verb == verb && this.url == url
      ensures this.urlLength == urlLength && this.headerCapacity == headerCapacity
      ensures headers == [] && this.body == body
    {
      this.context := context;
      this.verb := verb;
      this.url := url;
      this.urlLength := urlLength;
      this.headerCapacity := headerCapacity;
      this.headers := [];
      this.body := body;
    }

    /** `az_http_request_append_header`: adds one header after the others
        when a slot is free, and otherwise fails with not-enough-space
        without changing the list. */
    method AppendHeader(name: Bytes, value: Bytes) returns (r: AzResult)
      requires Valid()
      modifies this`headers
      ensures Valid()
      ensures r == (if |old(headers)| < headerCapacity then AzOk else AzErrorNotEnoughSpace)
      ensures headers == if r == AzOk then old(headers) + [Header(name, value)] else old(headers)
    {
      if |headers| < headerCapacity {
        headers := headers + [Header(name, value)];
        r := AzOk;
      } else {
        r := AzErrorNotEnoughSpace;
      }
    }
  }
}
