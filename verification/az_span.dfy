/** The span primitives the blob client relies on, specified by what they
    produce: copying into a bounded buffer, and rendering a size as decimal
    ASCII into a bounded buffer (`az_span_i64toa`). */
module AzSpan {
  import opened AzCore

  /** The ASCII code of `'0'`. */
  const ZERO: byte := 48

  predicate IsDigit(b: byte) {
    ZERO <= b < ZERO + 10
  }

  predicate AllDigits(s: Bytes) {
    forall i :: 0 <= i < |s| ==> IsDigit(s[i])
  }

  /** Decimal text in its canonical form: at least one digit, and no leading
      zero unless the text is "0" itself. */
  predicate Canonical(s: Bytes) {
    |s| >= 1 && AllDigits(s) && (|s| > 1 ==> s[0] != ZERO)
  }

  function DigitChar(d: nat): (b: byte)
    requires d < 10
    ensures IsDigit(b) && (b - ZERO) as int == d
  {
    ZERO + d as byte
  }

  /** The decimal ASCII rendering of a non-negative number. */
  function Decimal(n: nat): (s: Bytes)
    ensures Canonical(s)
    ensures n == 0 <==> s == [ZERO]
    decreases n
  {
    if n < 10 then [DigitChar(n)] else Decimal(n / 10) + [DigitChar(n % 10)]
  }

  /** The value of a run of decimal digits (an independent reading back,
      most significant digit first). */
  function ParseDecimal(s: Bytes): (v: nat)
    requires AllDigits(s)
  {
    if s == [] then 0
    else ParseDecimal(s[..|s| - 1]) * 10 + (s[|s| - 1] - ZERO) as int
  }

  /** Reading the rendering back gives the number. */
  lemma {:induction false} DecimalRoundTrip(n: nat)
    ensures ParseDecimal(Decimal(n)) == n
    decreases n
  {
    var s := Decimal(n);
    if n >= 10 {
      DecimalRoundTrip(n / 10);
      assert s[..|s| - 1] == Decimal(n / 10);
    }
  }

  /** Every canonical digit string is the rendering of its own value, so the
      rendering is a bijection between numbers and canonical strings. */
  lemma {:induction false} CanonicalRoundTrip(s: Bytes)
    requires Canonical(s)
    ensures Decimal(ParseDecimal(s)) == s
    decreases |s|
  {
    var init := s[..|s| - 1];
    var last := (s[|s| - 1] - ZERO) as int;
    if |s| == 1 {
      assert ParseDecimal(init) == 0;
      assert s == [DigitChar(last)];
    } else {
      assert init[0] == s[0];
      CanonicalRoundTrip(init);
      var m := ParseDecimal(init);
      assert m != 0;
      assert ParseDecimal(s) == m * 10 + last;
      assert ParseDecimal(s) / 10 == m && ParseDecimal(s) % 10 == last;
      assert s == init + [DigitChar(last)];
    }
  }

  /** The renderings of 0, 1 and 12345. */
  lemma DecimalExamples()
    ensures Decimal(0) == Ascii("0")
    ensures Decimal(1) == Ascii("1")
    ensures Decimal(12345) == Ascii("12345")
  {
    assert Decimal(12) == Ascii("12");
    assert Decimal(123) == Ascii("123");
    assert Decimal(1234) == Ascii("1234");
  }

  /** A number below `10^k` (k >= 1) needs at most `k` digits. */
  lemma {:induction false} DecimalLengthBound(n: nat, k: nat)
    requires k >= 1 && n < Pow10(k)
    ensures |Decimal(n)| <= k
    decreases k
  {
    if n >= 10 {
      assert n / 10 < Pow10(k - 1);
      DecimalLengthBound(n / 10, k - 1);
    }
  }

  function Pow10(k: nat): (p: nat) {
    if k == 0 then 1 else 10 * Pow10(k - 1)
  }

  /** A span size is a non-negative `int32_t`, so its rendering never needs
      more than ten digits. */
  lemma SpanSizeDigits(n: nat)
    requires n < 0x8000_0000
    ensures |Decimal(n)| <= 10
  {
    assert Pow10(10) == 10_000_000_000;
    DecimalLengthBound(n, 10);
  }

  /** `az_span_i64toa` for the non-negative sizes the client renders: the
      digits when they fit into a buffer of `capacity` bytes, otherwise the
      not-enough-space error. */
  function I64ToA(capacity: nat, n: nat): (r: Result<Bytes>)
    ensures r.Success? <==> |Decimal(n)| <= capacity
    ensures r.Success? ==> Canonical(r.value) && ParseDecimal(r.value) == n && |r.value| <= capacity
    ensures r.Failure? ==> r.error == AzErrorNotEnoughSpace
  {
    var digits := Decimal(n);
    DecimalRoundTrip(n);
    if |digits| <= capacity then Success(digits) else Failure(AzErrorNotEnoughSpace)
  }

  /** A buffer of at least ten bytes always holds the rendering of a span
      size, so rendering a size into it cannot fail. */
  lemma I64ToAFitsSpanSizes(capacity: nat, n: nat)
    requires capacity >= 10 && n < 0x8000_0000
    ensures I64ToA(capacity, n).Success?
    ensures I64ToA(capacity, n).value == Decimal(n)
  {
    SpanSizeDigits(n);
  }

  /** `az_span_copy`: writes `src` over the start of `dst`, which must be
      large enough, and leaves the rest of `dst` as it was. */
  method SpanCopy(dst: array<byte>, src: Bytes)
    requires |src| <= dst.Length
    modifies dst
    ensures dst[..|src|] == src
    ensures dst[|src|..] == old(dst[|src|..])
  {
    var i := 0;
    while i < |src|
      invariant 0 <= i <= |src|
      invariant dst[..i] == src[..i]
      invariant dst[i..] == old(dst[i..])
    {
      dst[i] := src[i];
      i := i + 1;
    }
  }
}
