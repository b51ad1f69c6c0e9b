/** What the handlers inherit from the Go runtime: the 64-bit `int` and the panics the model can reach. */
module GoRuntime {

  /** A run-time panic: the Lambda invocation ends without a response. */
  datatype Panic =
    | NilPointerDereference  // reading a field through a nil pointer
    | SliceBoundsOutOfRange  // `s[lo:hi]` with bounds outside `0 <= lo <= hi <= cap`

  const MaxInt64: int := 0x7fff_ffff_ffff_ffff
  const MinInt64: int := -0x8000_0000_0000_0000
  const MaxUint64: int := 0xffff_ffff_ffff_ffff

  predicate IsInt64(x: int)
  {
    MinInt64 <= x <= MaxInt64
  }

  /** The `int` that Go's `+` or `*` yields for the exact result `x`: `x` reduced modulo 2^64 into the signed range. */
  function Wrap(x: int): (r: int)
    ensures IsInt64(r)
    ensures (r - x) % 0x1_0000_0000_0000_0000 == 0
    ensures IsInt64(x) ==> r == x
  {
    (x - MinInt64) % 0x1_0000_0000_0000_0000 + MinInt64
  }

  /** The smaller of two integers, as the clamps `min(n, 4)` and `min(end, len)` in the handlers compute it. */
  function Min(a: int, b: int): int
  {
    if a < b then a else b
  }
}
