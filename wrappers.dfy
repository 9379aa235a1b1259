/** Option and Result, the error-return shapes used throughout the model. */
module Wrappers {
  datatype Option<T> = None | Some(value: T)
  {
    predicate IsSome() { Some? }
  }

  datatype Result<T, E> = Ok(value: T) | Err(error: E)
  {
    predicate IsFailure() { Err? }
  }

  /**
   * A failed JSON decode: the error text and whatever fields the decoder
   * had filled in before it gave up.
   */
  datatype DecodeFailure<T> = DecodeFailure(partial: T, reason: string)
}

/** Go's fixed-width integer ranges; arithmetic that wraps is written out where it is used. */
module GoTypes {
  const TWO_8: int := 0x100
  const TWO_16: int := 0x1_0000
  const TWO_32: int := 0x1_0000_0000
  const TWO_64: int := 0x1_0000_0000_0000_0000
  const MAX_INT32: int := 0x7fff_ffff
  const MIN_INT32: int := -0x8000_0000
  const MAX_INT64: int := 0x7fff_ffff_ffff_ffff
  const MIN_INT64: int := -0x8000_0000_0000_0000

  type uint8 = x: int | 0 <= x < 0x100
  type uint32 = x: int | 0 <= x < 0x1_0000_0000
  type uint64 = x: int | 0 <= x < 0x1_0000_0000_0000_0000
  /** Go's `int` on the 64-bit platforms the program is built for. */
  type int64 = x: int | -0x8000_0000_0000_0000 <= x <= 0x7fff_ffff_ffff_ffff

  /** iputil.VpnIp: an overlay IPv4 address as a 32-bit integer. */
  type VpnIp = uint32

  /** Addition of two unsigned 32-bit values, wrapping like Go's `+=` on uint32. */
  function AddU32(a: uint32, b: uint32): (r: uint32)
    ensures a + b < TWO_32 ==> r == a + b
    ensures a + b >= TWO_32 ==> r == a + b - TWO_32
  {
    (a + b) % TWO_32
  }

  /** Addition on uint64, wrapping like Go's `+=` and atomic.AddUint64. */
  function AddU64(a: uint64, b: uint64): (r: uint64)
    ensures a + b < TWO_64 ==> r == a + b
    ensures a + b >= TWO_64 ==> r == a + b - TWO_64
  {
    (a + b) % TWO_64
  }

  /** Subtraction on uint64, wrapping like Go's `-` on uint64. */
  function SubU64(a: uint64, b: uint64): (r: uint64)
    ensures b <= a ==> r == a - b
    ensures b > a ==> r == a - b + TWO_64
  {
    (a - b) % TWO_64
  }

  /** Subtraction on int64, wrapping like Go's `-` on int64. */
  function SubI64(a: int64, b: int64): (r: int64)
    ensures MIN_INT64 <= a - b <= MAX_INT64 ==> r == a - b
    ensures a - b > MAX_INT64 ==> r == a - b - TWO_64
    ensures a - b < MIN_INT64 ==> r == a - b + TWO_64
  {
    var d := a - b;
    if d > MAX_INT64 then d - TWO_64 else if d < MIN_INT64 then d + TWO_64 else d
  }
}
