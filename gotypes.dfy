/** Go's fixed-width integers, as the estimator uses them, with their
    wrap-around written out, and the error-carrying result of a call. */
module GoTypes {

  const TWO_63: int := 0x8000_0000_0000_0000
  const TWO_64: int := 0x1_0000_0000_0000_0000

  /** Go's `uint64`. */
  type uint64 = x: int | 0 <= x < 0x1_0000_0000_0000_0000

  /** Go's `int`, taken to be 64 bits wide. */
  type int64 = x: int | -0x8000_0000_0000_0000 <= x < 0x8000_0000_0000_0000

  /** A byte read from a file. */
  type byte = x: int | 0 <= x < 256

  const MIN_INT64: int64 := -0x8000_0000_0000_0000
  const MAX_INT64: int64 := 0x7FFF_FFFF_FFFF_FFFF

  predicate InInt64(x: int) {
    MIN_INT64 <= x <= MAX_INT64
  }

  /** Why a call returned an error. The estimator only tests `err != nil`,
      so the kinds are kept coarse. */
  datatype Cause = OpenFailed | ReadFailed | ParseFailed

  /** A Go `(value, error)` pair: `Err` stands for a non-nil error, whose
      accompanying value every caller here discards. */
  datatype Result<T> = Ok(value: T) | Err(cause: Cause)

  /** A value that may be absent. */
  datatype Option<T> = None | Some(value: T)

  /** The conversion `uint64(x)` of a signed value: two's complement, so a
      negative value wraps around modulo 2^64. */
  function Uint64OfInt64(x: int64): (r: uint64)
    ensures (r - x) % TWO_64 == 0
    ensures x >= 0 ==> r == x
    ensures x < 0 ==> r >= TWO_63
  {
    if x < 0 then x + TWO_64 else x
  }

  /** The conversion `int(x)` of an unsigned value: values of 2^63 and
      above wrap around to negative numbers. */
  function Int64OfUint64(x: uint64): (r: int64)
    ensures (r - x) % TWO_64 == 0
    ensures x < TWO_63 <==> r >= 0
    ensures x < TWO_63 ==> r == x
  {
    if x < TWO_63 then x else x - TWO_64
  }

  /** Subtraction `a - b` on Go's 64-bit `int`, which wraps around. */
  function Sub64(a: int64, b: int64): (r: int64)
    ensures (r - (a - b)) % TWO_64 == 0
    ensures InInt64(a - b) ==> r == a - b
  {
    var d := a - b;
    if d < MIN_INT64 then d + TWO_64
    else if d > MAX_INT64 then d - TWO_64
    else d
  }

  /** `cmp.Min` of two integers. */
  function Min(a: int, b: int): (r: int)
    ensures r <= a && r <= b
    ensures r == a || r == b
  {
    if a < b then a else b
  }

  /** `cmp.Max` of two integers. */
  function Max(a: int, b: int): (r: int)
    ensures r >= a && r >= b
    ensures r == a || r == b
  {
    if a < b then b else a
  }
}
