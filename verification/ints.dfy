/** The fixed-width integer types of the firmware (ESP32: `int` is 32 bits,
    `unsigned long` is 32 bits), as subset types of the unbounded `int`. */
module Ints {

  const TWO_POW_8: int := 0x100
  const TWO_POW_32: int := 0x1_0000_0000

  type uint8 = x: int | 0 <= x < 0x100
  type uint32 = x: int | 0 <= x < 0x1_0000_0000
  type int32 = x: int | -0x8000_0000 <= x < 0x8000_0000
  type int64 = x: int | -0x8000_0000_0000_0000 <= x < 0x8000_0000_0000_0000

  predicate IsInt32(x: int) {
    -0x8000_0000 <= x < 0x8000_0000
  }

  /** C's conversion of an `int` to `uint8_t`: reduction modulo 2^8. */
  function ToUint8(x: int): (r: uint8)
    ensures (x - r) % TWO_POW_8 == 0
    ensures 0 <= x < TWO_POW_8 ==> r == x
  {
    x % TWO_POW_8
  }

  /** C's unsigned subtraction `a - b` on 32-bit operands: it wraps modulo 2^32. */
  function SubUint32(a: uint32, b: uint32): (r: uint32)
    ensures (b + r) % TWO_POW_32 == a
    ensures b <= a ==> r == a - b
    ensures a < b ==> r == a - b + TWO_POW_32
  {
    (a - b) % TWO_POW_32
  }
}
