/** Little-endian integers inside byte buffers. */
module ByteOrder {
  import opened Unicode

  const TWO_TO_THE_31 := 0x8000_0000
  const TWO_TO_THE_32 := 0x1_0000_0000

  function U16At(b: seq<Byte>, p: nat): Unit
    requires p + 2 <= |b|
  {
    b[p] as int + 0x100 * b[p + 1] as int
  }

  function U32At(b: seq<Byte>, p: nat): (n: nat)
    requires p + 4 <= |b|
    ensures n < TWO_TO_THE_32
  {
    b[p] as int + 0x100 * b[p + 1] as int + 0x1_0000 * b[p + 2] as int + 0x100_0000 * b[p + 3] as int
  }

  function U32Bytes(n: nat): (b: seq<Byte>)
    requires n < TWO_TO_THE_32
    ensures |b| == 4
  {
    [n % 0x100, n / 0x100 % 0x100, n / 0x1_0000 % 0x100, n / 0x100_0000]
  }

  lemma U32RoundTrip(n: nat)
    requires n < TWO_TO_THE_32
    ensures U32At(U32Bytes(n), 0) == n
  {
    assert n / 0x100 / 0x100 == n / 0x1_0000 && n / 0x1_0000 / 0x100 == n / 0x100_0000;
  }

  lemma U32AtSlice(b: seq<Byte>, p: nat, q: nat)
    requires p + 4 <= q <= |b|
    ensures U32At(b, p) == U32At(b[p..q], 0) == U32At(b[..q], p) == U32At(b[p..], 0)
  {
  }

  /** `as i32` on a `u32`. */
  function ToI32(n: nat): int
    requires n < TWO_TO_THE_32
  {
    if n < TWO_TO_THE_31 then n else n - TWO_TO_THE_32
  }

  /** Rust's `/`, which truncates toward zero. */
  function TruncatedDiv(a: int, b: int): int
    requires b > 0
  {
    if a >= 0 then a / b else -((-a) / b)
  }
}
