/**
 Fixed-width integers and the optional value used throughout the model.
 Go's `uint64`, `int64` and `uint32` are bounded integers; Dafny's `int` is not,
 so every width is a subset type and wrap-around is written out where it occurs.
 */
module Base {

  const TWO_32: int := 0x1_0000_0000
  const TWO_63: int := 0x8000_0000_0000_0000
  const TWO_64: int := 0x1_0000_0000_0000_0000

  type Uint32 = x: int | 0 <= x < TWO_32
  type Uint64 = x: int | 0 <= x < TWO_64
  type Int64 = x: int | -TWO_63 <= x < TWO_63

  /** A Go pointer or slice that may be nil. */
  datatype Option<+T> = None | Some(value: T)

  /** Go's `uint64(d)` on an `int64`: the two's-complement bit pattern read unsigned. */
  function AsUint64(d: Int64): (r: Uint64)
    ensures r % TWO_64 == d % TWO_64
    ensures d >= 0 ==> r == d
  {
    if d < 0 then d + TWO_64 else d
  }

  /** Go's unary `-` on `int64`, which wraps: `-math.MinInt64` is
      `math.MinInt64` itself. */
  function Negate(d: Int64): (r: Int64)
    ensures (d + r) % TWO_64 == 0
    ensures d != -TWO_63 ==> r == -d
  {
    if d == -TWO_63 then d else -d
  }

  /** Go's `+` on `uint64`, which wraps modulo 2^64. */
  function WrapAdd(a: Uint64, b: Uint64): (r: Uint64)
    ensures a + b < TWO_64 ==> r == a + b
    ensures a + b >= TWO_64 ==> r == a + b - TWO_64
  {
    (a + b) % TWO_64
  }
}
