/** Shared vocabulary of the SDK core: bytes, byte strings, optional values and
    the `az_result` status codes that every operation returns. */
module AzCore {

  /** One octet of caller memory (`uint8_t`). */
  newtype byte = x: int | 0 <= x < 256

  /** The contents of a span: a finite run of octets. */
  type Bytes = seq<byte>

  /** A possibly-NULL pointer or an absent optional argument. */
  datatype Option<+T> = None | Some(value: T)

  /** The status codes the modelled code can produce or forward. Failures of
      code outside the model (the credential, the pipeline) are kept as an
      opaque code. */
  datatype AzResult =
    | AzOk
    | AzErrorNotEnoughSpace
    | AzError(code: int)
  {
    /** `az_result_failed`: everything except `AZ_OK`. */
    predicate Failed() { !AzOk? }
  }

  /** A value or the status that prevented producing it. */
  datatype Result<+T> = Success(value: T) | Failure(error: AzResult)

  /** The bytes of a 7-bit ASCII string literal (`AZ_SPAN_FROM_STR`). */
  function Ascii(s: string): (b: Bytes)
    requires forall i :: 0 <= i < |s| ==> s[i] as int < 128
  {
    seq(|s|, i requires 0 <= i < |s| => s[i] as int as byte)
  }
}
