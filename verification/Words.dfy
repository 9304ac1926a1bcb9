/**
 Machine words of the C sources.  Wrap-around is written out case by case, so
 that every use of it stays linear arithmetic.
 */
module Words {

  const U32: int := 0x1_0000_0000

  type u8 = x: int | 0 <= x < 0x100
  type u16 = x: int | 0 <= x < 0x1_0000
  type u32 = x: int | 0 <= x < 0x1_0000_0000

  /** Unsigned 32-bit addition. */
  function Add32(a: u32, b: u32): u32 {
    if a + b < U32 then a + b else a + b - U32
  }

  /** Unsigned 32-bit subtraction. */
  function Sub32(a: u32, b: u32): u32 {
    if b <= a then a - b else a - b + U32
  }

  /** Storing an unsigned 32-bit value into a C `int`. */
  function ToInt32(x: u32): int {
    if x < 0x8000_0000 then x else x - U32
  }

  /** Storing any integer into an unsigned 32-bit word. */
  function ToU32(x: int): u32 {
    x % U32
  }
}
