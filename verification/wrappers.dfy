/** Small shared types: optional values and the fixed-width integers of the firmware. */
module Wrappers {

  /** The result of a field extraction that may fail. */
  datatype Option<+T> = None | Some(value: T)

  /** An 8-bit unsigned value (`uint8_t`). */
  type byte = bv8

  /** A 16-bit unsigned value (`uint16_t`). */
  type uint16 = x: int | 0 <= x < 0x1_0000

  /** C's `x++` on a `uint16_t`: wraps from 65535 back to 0. */
  function Inc16(x: uint16): (r: uint16)
    ensures x < 0xFFFF ==> r == x + 1
    ensures x == 0xFFFF ==> r == 0
  {
    (x + 1) % 0x1_0000
  }
}
