// Shared vocabulary: bytes, optional values and 64-bit integers.
module Prelude {
  type byte = x: int | 0 <= x < 256

  datatype Option<+T> = None | Some(value: T)

  const MAX_INT64: int := 0x7FFF_FFFF_FFFF_FFFF
  const MIN_INT64: int := -0x8000_0000_0000_0000

  // An int, int64 or time.Duration of the program.
  type int64 = n: int | MIN_INT64 <= n <= MAX_INT64

  // What is left of a result in 64 bits.
  function Wrap(n: int): int64 {
    (n + 0x8000_0000_0000_0000) % 0x1_0000_0000_0000_0000 - 0x8000_0000_0000_0000
  }
}
