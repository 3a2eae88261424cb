/** Fixed-width unsigned integers of the firmware, and an Option for table lookups. */
module Bytes {

  /** `uint8_t` */
  type u8 = x: int | 0 <= x < 0x100

  /** `uint16_t` */
  type u16 = x: int | 0 <= x < 0x1_0000

  /** `uint32_t` */
  type u32 = x: int | 0 <= x < 0x1_0000_0000

  /** The C conversion `(uint8_t)v` of a non-negative value: keep the low eight bits. */
  function ToU8(v: nat): (b: u8)
    ensures v < 0x100 ==> b == v
    ensures (v - b) % 0x100 == 0
  {
    v % 0x100
  }

  datatype Option<+T> = None | Some(value: T)
}
