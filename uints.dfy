/** Fixed-width unsigned integers used by the worker: bytes of the work
    item and the 32-bit nonce counter. They are unbounded integers
    restricted to their range, so wrap-around is written out. */
module Uints {

  const Two32: int := 0x1_0000_0000

  type u8 = x: int | 0 <= x < 256
  type u32 = x: int | 0 <= x < Two32

  /** `x + 1` on a 32-bit unsigned integer, wrapping to 0 after 2^32 - 1. */
  function Inc32(x: u32): (r: u32)
    ensures x < Two32 - 1 ==> r == x + 1
    ensures x == Two32 - 1 ==> r == 0
  {
    (x + 1) % Two32
  }
}
