/** The blob client: its default options, its initialisation (pipeline order,
    endpoint copy, credential scope) and the block-blob upload, which builds a
    PUT request in fixed buffers and hands it to the pipeline. */
module StorageBlobs {
  import opened AzCore
  import opened AzSpan
  import opened AzHttp

  /** `AZ_STORAGE_API_VERSION`: its text is not part of this model. */
  const STORAGE_API_VERSION: Bytes

  /** `AZ_HTTP_REQUEST_URL_BUFFER_SIZE`: the size of upload's URL buffer. */
  const URL_BUFFER_SIZE: nat

  /** The size of the endpoint buffer inside a client. */
  const ENDPOINT_BUFFER_SIZE: nat

  /** `_az_INT64_AS_STR_BUFFER_SIZE`: the size of upload's Content-Length
      buffer. */
  const INT64_AS_STR_BUFFER_SIZE: nat

  /** Upload's header buffer holds ten headers. */
  const HEADER_CAPACITY: nat := 10

  const MILLISECONDS_PER_SECOND: int := 1000

  const X_MS_VERSION: Bytes := Ascii("x-ms-version")
  const X_MS_BLOB_TYPE: Bytes := Ascii("x-ms-blob-type")
  const BLOCK_BLOB: Bytes := Ascii("BlockBlob")
  const CONTENT_LENGTH: Bytes := Ascii("Content-Length")
  const CONTENT_TYPE: Bytes := Ascii("Content-Type")
  const TEXT_PLAIN: Bytes := Ascii("text/plain")
  const STORAGE_SCOPE: Bytes := Ascii("https://storage.azure.com/.default")

  /** `az_storage_blobs_blob_client_options`. */
  datatype ClientOptions = ClientOptions(apiVersion: ApiVersionOptions, telemetry: TelemetryOptions, retry: RetryOptions)

  /** `az_storage_blobs_blob_upload_options`: the context is the field upload
      reads. */
  datatype UploadOptions = UploadOptions(context: ContextId)

  /** The value `az_storage_blobs_blob_upload_options_default` returns. */
  const UPLOAD_OPTIONS_DEFAULT: UploadOptions

  /** `_az_credential_set_scopes`: the credential is outside the model, so a
      client is given its behaviour as a function of the credential and the
      scope. */
  type SetScopes = (CredentialId, Bytes) -> AzResult

  /** `az_storage_blobs_blob_client_options_default`: five retries, a one
      second base delay capped at thirty seconds, and the storage API version
      sent in the `x-ms-version` header. */
  function ClientOptionsDefault(): (o: ClientOptions)
    ensures o.retry.maxRetries == 5
    ensures o.retry.retryDelayMsec == 1000 && o.retry.maxRetryDelayMsec == 30000
    ensures 0 < o.retry.retryDelayMsec <= o.retry.maxRetryDelayMsec
    ensures o.apiVersion.location == InHeader
    ensures o.apiVersion.name == Ascii("x-ms-version") && o.apiVersion.version == STORAGE_API_VERSION
    ensures o.telemetry == TELEMETRY_OPTIONS_DEFAULT
  {
    var retry := RETRY_OPTIONS_DEFAULT.(
      maxRetries := 5,
      retryDelayMsec := 1 * MILLISECONDS_PER_SECOND,
      maxRetryDelayMsec := 30 * MILLISECONDS_PER_SECOND);
    ClientOptions(ApiVersionOptions(InHeader, X_MS_VERSION, STORAGE_API_VERSION), TELEMETRY_OPTIONS_DEFAULT, retry)
  }

  /** The policies a client's pipeline holds, in order; the logging policy is
      there only when logging is compiled in. */
  function ClientPipeline(options: ClientOptions, credential: CredentialId, logging: bool): (p: seq<Policy>)
    ensures |p| == if logging then 6 else 5
    ensures p[..4] == [ApiVersionPolicy(options.apiVersion), TelemetryPolicy(options.telemetry),
                       RetryPolicy(options.retry), CredentialPolicy(credential)]
    ensures p[|p| - 1] == TransportPolicy
    ensures forall i :: 0 <= i < |p| - 1 ==> !p[i].TransportPolicy?
    ensures LoggingPolicy in p <==> logging
    ensures logging ==> p[4] == LoggingPolicy
  {
    [ApiVersionPolicy(options.apiVersion), TelemetryPolicy(options.telemetry),
     RetryPolicy(options.retry), CredentialPolicy(credential)]
    + (if logging then [LoggingPolicy] else [])
    + [TransportPolicy]
  }

  /** The headers upload sends, in the order it appends them. */
  function UploadHeaders(contentLength: nat): (h: seq<Header>) {
    [Header(X_MS_BLOB_TYPE, BLOCK_BLOB),
     Header(CONTENT_LENGTH, Decimal(contentLength)),
     Header(CONTENT_TYPE, TEXT_PLAIN)]
  }

  /** The three headers fit the header buffer, their names are distinct, and
      the Content-Length value reads back as the body size. */
  lemma UploadHeadersFit(contentLength: nat)
    ensures |UploadHeaders(contentLength)| <= HEADER_CAPACITY
    ensures UploadHeaders(contentLength)[1].name == Ascii("Content-Length")
    ensures ParseDecimal(UploadHeaders(contentLength)[1].value) == contentLength
    ensures Canonical(UploadHeaders(contentLength)[1].value)
    ensures forall i, j :: 0 <= i < j < 3 ==> UploadHeaders(contentLength)[i].name != UploadHeaders(contentLength)[j].name
  {
    DecimalRoundTrip(contentLength);
    var h := UploadHeaders(contentLength);
    assert h[0].name[0] != h[1].name[0] && h[0].name[0] != h[2].name[0];
    assert h[1].name[8] != h[2].name[8];
  }

  /** `az_storage_blobs_blob_client`. */
  class BlobClient {
    /** The client's own endpoint storage. */
    const endpointBuffer: array<byte>
    /** The endpoint span is `endpointBuffer[..endpointLength]`. */
    var endpointLength: nat
    /** The client's copy of its options. */
    var options: ClientOptions
    var credential: CredentialId
    var pipeline: seq<Policy>

    ghost predicate Valid()
      reads this
    {
      endpointLength <= endpointBuffer.Length
    }

    /** The endpoint the client sends requests to. */
    function Endpoint(): (e: Bytes)
      reads this, endpointBuffer
      requires Valid()
    {
      endpointBuffer[..endpointLength]
    }

    /** The caller's declaration of a client: storage with an endpoint buffer
        of the fixed size, not yet initialised. */
    constructor ()
      ensures Valid() && fresh(endpointBuffer)
      ensures endpointBuffer.Length == ENDPOINT_BUFFER_SIZE && endpointLength == 0
    {
      endpointBuffer := new byte[ENDPOINT_BUFFER_SIZE];
      endpointLength := 0;
      options := ClientOptionsDefault();
      credential := 0;
      pipeline := [];
    }

    /** `az_storage_blobs_blob_client_init`. The client takes a copy of the
        options and the fixed pipeline. The struct assignment zero-fills the
        endpoint buffer, which it does not name, and makes the endpoint span
        cover the whole buffer. An endpoint longer than the buffer fails with
        not-enough-space and leaves that zeroed span as it is; otherwise the
        endpoint is copied into the client's own buffer, the span is cut to
        its length, and the result is that of setting the storage scope on
        the credential. */
    method Init(endpoint: Bytes, credential: CredentialId, options: ClientOptions,
                loggingCompiled: bool, setScopes: SetScopes) returns (r: AzResult)
      modifies this, endpointBuffer
      ensures Valid()
      ensures this.options == options && this.credential == credential
      ensures pipeline == ClientPipeline(options, credential, loggingCompiled)
      ensures |endpoint| > endpointBuffer.Length ==>
                r == AzErrorNotEnoughSpace && endpointLength == endpointBuffer.Length &&
                forall i :: 0 <= i < endpointBuffer.Length ==> endpointBuffer[i] == 0
      ensures |endpoint| <= endpointBuffer.Length ==>
                Endpoint() == endpoint && r == setScopes(credential, STORAGE_SCOPE) &&
                forall i :: |endpoint| <= i < endpointBuffer.Length ==> endpointBuffer[i] == 0
    {
      this.options := options;
      this.credential := credential;
      pipeline := ClientPipeline(options, credential, loggingCompiled);
      forall i | 0 <= i < endpointBuffer.Length {
        endpointBuffer[i] := 0;
      }
      endpointLength := endpointBuffer.Length;

      var uriSize := |endpoint|;
      if endpointBuffer.Length < uriSize {
        return AzErrorNotEnoughSpace;
      }
      SpanCopy(endpointBuffer, endpoint);
      endpointLength := uriSize;

      var scoped := setScopes(credential, STORAGE_SCOPE);
      if scoped.Failed() {
        return scoped;
      }
      return AzOk;
    }

    /** `az_storage_blobs_blob_upload`. An endpoint longer than the URL
        buffer, or a size whose digits do not fit the Content-Length buffer,
        fails with not-enough-space before the pipeline is reached (`sent` is
        then `None`). Otherwise the pipeline is handed (`sent`) a PUT request
        whose URL is the client's endpoint, whose headers are exactly
        x-ms-blob-type, Content-Length and Content-Type in that order, whose
        body is the content and whose context comes from the options (the
        defaults when none are given), and upload returns exactly what the
        pipeline returns. */
    method Upload(content: Bytes, uploadOptions: Option<UploadOptions>, process: PipelineProcess)
      returns (r: AzResult, sent: Option<RequestValue>)
      requires Valid()
      ensures sent.Some? <==>
                |Endpoint()| <= URL_BUFFER_SIZE && |Decimal(|content|)| <= INT64_AS_STR_BUFFER_SIZE
      ensures sent.None? ==> r == AzErrorNotEnoughSpace
      ensures INT64_AS_STR_BUFFER_SIZE >= 10 && |content| < 0x8000_0000 ==>
                (sent.Some? <==> |Endpoint()| <= URL_BUFFER_SIZE)
      ensures sent.Some? ==>
                var req := sent.value;
                && req.verb == Put
                && req.url == Endpoint() && req.urlCapacity == URL_BUFFER_SIZE
                && req.headers == UploadHeaders(|content|)
                && req.body == content
                && req.context == (if uploadOptions.None? then UPLOAD_OPTIONS_DEFAULT else uploadOptions.value).context
                && r == process(pipeline, req)
    {
      if INT64_AS_STR_BUFFER_SIZE >= 10 && |content| < 0x8000_0000 {
        I64ToAFitsSpanSizes(INT64_AS_STR_BUFFER_SIZE, |content|);
      }
      var opt := if uploadOptions.None? then UPLOAD_OPTIONS_DEFAULT else uploadOptions.value;

      var urlBuffer := new byte[URL_BUFFER_SIZE];
      var uriSize := endpointLength;
      if urlBuffer.Length < uriSize {
        return AzErrorNotEnoughSpace, None;
      }
      SpanCopy(urlBuffer, endpointBuffer[..endpointLength]);

      var request := new HttpRequest.Init(opt.context, Put, urlBuffer, uriSize, HEADER_CAPACITY, content);

      r := request.AppendHeader(X_MS_BLOB_TYPE, BLOCK_BLOB);
      if r.Failed() {
        return r, None;
      }

      var contentLength := I64ToA(INT64_AS_STR_BUFFER_SIZE, |content|);
      if contentLength.Failure? {
        return contentLength.error, None;
      }
      assert contentLength.value == Decimal(|content|) by {
        CanonicalRoundTrip(contentLength.value);
      }

      r := request.AppendHeader(CONTENT_LENGTH, contentLength.value);
      if r.Failed() {
        return r, None;
      }

      r := request.AppendHeader(CONTENT_TYPE, TEXT_PLAIN);
      if r.Failed() {
        return r, None;
      }

      sent := Some(request.Value());
      r := process(pipeline, sent.value);
    }
  }

  /** Once initialised, the client keeps its endpoint in its own buffer: the
      caller may overwrite the buffer it passed in without affecting it. */
  method EndpointIsCopied(callerBuffer: array<byte>, credential: CredentialId, setScopes: SetScopes)
    returns (client: BlobClient)
    requires callerBuffer.Length <= ENDPOINT_BUFFER_SIZE
    modifies callerBuffer
    ensures client.Valid() && client.Endpoint() == old(callerBuffer[..])
  {
    client := new BlobClient();
    var _ := client.Init(callerBuffer[..], credential, ClientOptionsDefault(), true, setScopes);
    forall i | 0 <= i < callerBuffer.Length {
      callerBuffer[i] := 0;
    }
  }
}
