/** Machine-level vocabulary shared by the driver files: fixed-width
    integers, the C casts the driver performs, and the kernel error codes
    it returns (negated, as Linux does). */
module Kernel {

  const U64_LIMIT: nat := 0x1_0000_0000_0000_0000
  const U32_LIMIT: nat := 0x1_0000_0000
  const I32_MIN: int := -0x8000_0000

  /** An unsigned 64-bit value (`__u64`, `unsigned long` on a 64-bit kernel). */
  type u64 = x: nat | x < U64_LIMIT

  /** The bit pattern of a C `int`, read as unsigned. */
  type u32 = x: nat | x < U32_LIMIT

  type byte = bv8

  /** Linux error numbers used by the driver (asm-generic/errno-base.h). */
  const ENOENT: int := 2
  const EFAULT: int := 14
  const EBUSY: int := 16

  /** The C conversion `(int) x` of a `__u64`: keep the low 32 bits and read
      them as a two's-complement signed int. */
  function CInt(x: u64): (r: int)
    ensures I32_MIN <= r < -I32_MIN
    ensures (r - x) % U32_LIMIT == 0
    ensures x < -I32_MIN ==> r == x
  {
    var low := x % U32_LIMIT;
    if low < -I32_MIN then low else low - U32_LIMIT
  }

  /** Sum of two `__u64` values, wrapping around as C unsigned arithmetic does. */
  function AddU64(a: u64, b: u64): (r: u64)
    ensures a + b < U64_LIMIT ==> r == a + b
    ensures a + b >= U64_LIMIT ==> r == a + b - U64_LIMIT
  {
    (a + b) % U64_LIMIT
  }
}
