# Azure SDK for C: logging dispatch and blob upload, modelled in Dafny

This project models two sequential parts of the Azure SDK for C.

**The logging filter and dispatch engine** (`az_log.c`). The SDK keeps two process-wide values:

- an optional classification filter, a pointer to a caller-owned list terminated by `AZ_LOG_END_OF_LIST` (the model keeps the list's contents as they were when it was set);
- an optional message callback.

`az_log_set_classifications` and `az_log_set_callback` replace them. In checked builds, `_az_log_classifications_are_valid` rejects a filter that holds anything other than the eight named classifications before its sentinel. `_az_log_write_engine` answers "would this message be logged?" (`_az_log_should_write`) and "log it if so" (`_az_log_write`).

The model is the class `AzLog.LogState`. Callback invocations are recorded in a ghost `trace` of `Delivery` records, and each record names the callback that received it. The engine's walk over the filter is a loop up to the first sentinel, and it is proved against the predicate `Admits`. The lemmas about `Admits` state the logging rules:

- with no callback, nothing is logged;
- with a callback and no filter, everything except the sentinel is logged;
- with both, a message is logged exactly when its classification occurs before the first sentinel;
- entries after the first sentinel are never consulted.

**The blob client** (`az_storage_blobs_blob_client.c`). The model covers:

- the default client options;
- client initialisation: the fixed pipeline policy order, the endpoint copy into the client's own bounded buffer, and the credential scope;
- `az_storage_blobs_blob_upload`.

Upload copies the endpoint into a bounded URL buffer. It appends three headers in a fixed order into a header buffer with room for ten. The `Content-Length` value is the decimal ASCII rendering of the body size, proved to read back as that size and to be canonical (no leading zeros). Upload then hands the request to the pipeline. `AzSpan` and `AzHttp` specify the unseen primitives by contract only:

- span copy;
- decimal rendering into a bounded buffer;
- request initialisation;
- bounded header append.

The two external calls are parameters of the model, as functions: `_az_credential_set_scopes` and `az_http_pipeline_process`. Upload also returns `sent`, the request it handed to the pipeline, or `None` when it never reached the pipeline.

Two points where the code's behaviour is easy to misread:

- The comment at `az_log.c:86` says that with no filter registered "we log everything". The code at lines 84-92 then walks the one-element list made of the message's own classification. So a message classified `AZ_LOG_END_OF_LIST` is never delivered, and the model follows the code.
- The headers are appended in the order x-ms-blob-type, Content-Length, Content-Type.

## Model

| member | source | states |
|---|---|---|
| AzLog.Prefix | sdk/src/azure/core/az_log.c:92 | the walk sees a prefix of the list that holds no sentinel and stops at the first sentinel or at the end |
| AzLog.PrefixAtSentinel | sdk/src/azure/core/az_log.c:32 | a walk that meets its first sentinel at index i has seen exactly the first i entries |
| AzLog.PrefixCovers | sdk/src/azure/core/az_log.c:92-95 | every entry that is not a sentinel, with no sentinel before it, is compared by the walk |
| AzLog.PrefixWithoutSentinel | sdk/src/azure/core/az_log.c:84-92 | a list without a sentinel (the one-element list used when no filter is set) is walked in full |
| AzLog.SentinelCutsOff | sdk/src/azure/core/az_log.c:92-107 | entries after the first sentinel are never consulted |
| AzLog.AdmitsIgnoresTail | sdk/src/azure/core/az_log.c:92-107 | two filters that agree up to the first sentinel give the same answer for every classification and callback |
| AzLog.NoCallbackAdmitsNothing | sdk/src/azure/core/az_log.c:78-82 | with no callback nothing is admitted, whatever the filter |
| AzLog.UnfilteredAdmitsAllButSentinel | sdk/src/azure/core/az_log.c:84-103 | with a callback and no filter, a classification is admitted exactly when it is not the sentinel |
| AzLog.FilteredAdmitsIff | sdk/src/azure/core/az_log.c:92-107 | with both registered, admitted exactly when the classification is not the sentinel and occurs at an index that no sentinel precedes |
| AzLog.ValidClassificationsIff | sdk/src/azure/core/az_log.c:26-50 | a non-NULL list is valid exactly when it has a sentinel and only named classifications before it |
| AzLog.ClassificationsAreValid | sdk/src/azure/core/az_log.c:26-50 | the validator returns true for NULL and otherwise exactly for valid lists; any other entry before the sentinel makes it return false |
| AzLog.LogState.constructor | sdk/src/azure/core/az_log.c:19-20 | both globals start NULL and nothing has been delivered |
| AzLog.LogState.SetClassifications | sdk/src/azure/core/az_log.c:53-57 | requires a valid list, replaces the filter, and leaves the callback and the deliveries unchanged |
| AzLog.LogState.SetCallback | sdk/src/azure/core/az_log.c:59-62 | replaces the callback (last write wins), and leaves the filter and earlier deliveries unchanged |
| AzLog.LogState.WriteEngine | sdk/src/azure/core/az_log.c:72-108 | returns `Admits` of the state on entry; when asked to log, appends exactly one delivery to the callback read on entry if admitted and none otherwise; filter and callback unchanged |
| AzLog.LogState.ShouldWrite | sdk/src/azure/core/az_log.c:110-114 | delivers nothing, and answers exactly whether Write would deliver in this state |
| AzLog.LogState.Write | sdk/src/azure/core/az_log.c:116-120 | appends exactly one delivery when admitted (even if the filter repeats the classification), none otherwise; filter and callback unchanged |
| AzSpan.Decimal | sdk/src/azure/storage/az_storage_blobs_blob_client.c:176-181 | the rendering is canonical decimal ASCII: at least one digit, no leading zero, and "0" exactly for zero |
| AzSpan.DecimalRoundTrip | sdk/src/azure/storage/az_storage_blobs_blob_client.c:176-181 | parsing the rendering gives back the number |
| AzSpan.CanonicalRoundTrip | sdk/src/azure/storage/az_storage_blobs_blob_client.c:176-181 | every canonical digit string is the rendering of its value, so rendering is one-to-one onto canonical strings |
| AzSpan.DecimalExamples | sdk/src/azure/storage/az_storage_blobs_blob_client.c:176-181 | 0 renders as "0", 1 as "1", 12345 as "12345" |
| AzSpan.DecimalLengthBound | sdk/src/azure/storage/az_storage_blobs_blob_client.c:176-179 | a number below 10^k needs at most k digits |
| AzSpan.SpanSizeDigits | sdk/src/azure/storage/az_storage_blobs_blob_client.c:179 | a span size (a non-negative int32) renders in at most ten digits |
| AzSpan.I64ToA | sdk/src/azure/storage/az_storage_blobs_blob_client.c:176-181 | succeeds exactly when the digits fit the buffer, and then yields canonical digits that parse back to the size; otherwise not-enough-space |
| AzSpan.I64ToAFitsSpanSizes | sdk/src/azure/storage/az_storage_blobs_blob_client.c:176-179 | rendering an `int32_t` size into a buffer of at least ten bytes always succeeds and yields its decimal digits |
| AzSpan.SpanCopy | sdk/src/azure/storage/az_storage_blobs_blob_client.c:122-123 | the destination starts with the source and is unchanged after it |
| AzHttp.HttpRequest.Init | sdk/src/azure/storage/az_storage_blobs_blob_client.c:161-170 | the request holds the given context, method, URL buffer and length, body and header capacity, with no headers yet |
| AzHttp.HttpRequest.AppendHeader | sdk/src/azure/storage/az_storage_blobs_blob_client.c:172-189 | appends one header at the end when a slot is free; otherwise fails with not-enough-space and leaves the headers unchanged |
| StorageBlobs.ClientOptionsDefault | sdk/src/azure/storage/az_storage_blobs_blob_client.c:33-55 | 5 retries, 1000 ms base delay, 30000 ms cap (so the cap is at least the base delay), api version in the `x-ms-version` header, default telemetry |
| StorageBlobs.ClientPipeline | sdk/src/azure/storage/az_storage_blobs_blob_client.c:73-117 | policies in the order apiversion, telemetry, retry, credential, logging (only when compiled in), transport; transport only and always last |
| StorageBlobs.UploadHeadersFit | sdk/src/azure/storage/az_storage_blobs_blob_client.c:22 | the three upload headers fit the ten-header buffer, have distinct names, and the Content-Length value parses back to the body size |
| StorageBlobs.BlobClient.Init | sdk/src/azure/storage/az_storage_blobs_blob_client.c:57-130 | copies the options, fixes the pipeline order and zero-fills the endpoint buffer; on an endpoint longer than the buffer it fails with not-enough-space, leaving the endpoint as the whole zeroed buffer; otherwise the client's endpoint is exactly the input (zeros after it) and the result is that of setting the storage scope |
| StorageBlobs.BlobClient.Upload | sdk/src/azure/storage/az_storage_blobs_blob_client.c:132-193 | fails with not-enough-space without reaching the pipeline when the endpoint exceeds the URL buffer or the size digits exceed their buffer; otherwise hands the pipeline a PUT of the endpoint with the three headers in order and the content, using the default options when given none, and returns the pipeline's result; with a Content-Length buffer of at least ten bytes and an `int32_t` body size, only the URL capacity can stop it |
| StorageBlobs.EndpointIsCopied | sdk/src/azure/storage/az_storage_blobs_blob_client.c:120-124 | a usage scenario: after initialisation, overwriting the caller's endpoint buffer leaves the client's endpoint unchanged (it holds because Init takes the endpoint's bytes and the client owns its buffer) |

## Left out

- The `volatile` globals and their lock-free visibility across threads are not modelled. The logging state is one single-threaded object; freedom from torn reads is a concurrency property.
- The `AZ_NO_LOGGING` switch is a boolean parameter of `BlobClient.Init` that adds or drops the logging policy. `AZ_NO_PRECONDITION_CHECKING` is always off, so `SetClassifications` requires a valid list. The `NULL` preconditions on `out_client` and `options` cannot arise in the model.
- The pipeline policies (retry and backoff, telemetry, credential, logging, transport) and `az_http_pipeline_process` are not modelled. Upload takes the pipeline's behaviour as a function parameter.
- The credential internals behind `_az_credential_set_scopes` are not modelled. Init takes the credential's behaviour as a function parameter.
- The response that upload passes on to the pipeline (`ref_response`) is not modelled. The pipeline's effect on it lies outside the model, and upload does not read it.
- StorageBlobs.EndpointIsCopied: Init takes the caller's endpoint as bytes, not as a view over caller memory. So aliasing between the caller's buffer and the client's buffer is not modelled, and this scenario cannot fail for any Init.
- The callback's own effects are not modelled. Each invocation is recorded in the ghost trace instead.
- The texts of `AZ_STORAGE_API_VERSION` and the telemetry and retry defaults are constants without a stated value. The sizes `AZ_HTTP_REQUEST_URL_BUFFER_SIZE`, `_az_INT64_AS_STR_BUFFER_SIZE`, the client's endpoint buffer and the upload-options default are the same kind of constant. Only the retry fields that the client overwrites are modelled.
- AzHttp.HttpRequest.Init: request initialisation always succeeds. `az_http_request.c` is not part of this model, so the failure that upload would forward from it is not represented.
- AzHttp.HttpRequest.AppendHeader: only the bounded append is modelled. Any validation or trimming the real function performs on the name and value is not captured.
- AzSpan.I64ToA: only the non-negative values upload renders are modelled. The minus sign for negative numbers is not captured.
- AzSpan.SpanCopy: the byte copy is a loop, and the span it returns is not modelled, because both callers ignore it. Overlapping source and destination is not modelled, because the source is a value.
- Span sizes are unbounded naturals, not `int32_t`. SpanSizeDigits bounds the rendering for sizes in the `int32_t` range.
- AzLog.LogState.SetClassifications: the filter is copied when it is set. C keeps the caller's pointer, so later edits to the caller's array would be seen by the engine; those edits are not modelled, and `Valid()` holds across calls only because of this copy.
- AzLog.ClassificationsAreValid: for a list with no sentinel, C walks past the end of the array, which is undefined behaviour. The model returns false instead.
- The raw byte layout of the header buffer is not modelled; its capacity is the count 10. The uninitialised parts of the stack buffers are not modelled either.
