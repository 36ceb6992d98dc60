/** Go's fixed-width integer conversions, written out on unbounded integers. */
module GoIntegers {

  predicate IsInt32(x: int) {
    -0x8000_0000 <= x < 0x8000_0000
  }

  /** `uint32(x)` for an `int32` value: negative values wrap around. */
  function Uint32(x: int): (u: nat)
    requires IsInt32(x)
    ensures u < 0x1_0000_0000
    ensures u % 0x1_0000_0000 == x % 0x1_0000_0000
    ensures 0 <= x ==> u == x
    ensures x < 0 ==> u == x + 0x1_0000_0000
  {
    if x < 0 then x + 0x1_0000_0000 else x
  }

  /** `int32(u)` for a `uint32` value: values from 2^31 up are negative. */
  function Int32(u: nat): (x: int)
    requires u < 0x1_0000_0000
    ensures IsInt32(x)
    ensures u < 0x8000_0000 ==> x == u
    ensures 0x8000_0000 <= u ==> x == u - 0x1_0000_0000
  {
    if u < 0x8000_0000 then u else u - 0x1_0000_0000
  }

  /** `int64(x)` for the result of a 64-bit subtraction: two's complement wrap-around. */
  function Int64(x: int): (v: int)
    ensures -0x8000_0000_0000_0000 <= v < 0x8000_0000_0000_0000
    ensures (v - x) % 0x1_0000_0000_0000_0000 == 0
    ensures -0x8000_0000_0000_0000 <= x < 0x8000_0000_0000_0000 ==> v == x
  {
    (x + 0x8000_0000_0000_0000) % 0x1_0000_0000_0000_0000 - 0x8000_0000_0000_0000
  }
}
