/** The register-level view shared by the three goldfish drivers.

    Every driver talks to its emulated device through a block of 32-bit
    registers at fixed offsets from a base address. Stores are the only
    effect a driver has on the device, so the model records them, in order,
    in an append-only log of `RegWrite`s. Loads are nondeterministic and are
    passed in by the caller of each operation. */
module Mmio {

  /** One 32-bit store: `value` written at `offset` in the block at `base`. */
  datatype RegWrite = RegWrite(base: nat, offset: nat, value: int)

  datatype Option<T> = None | Some(value: T)

  /** What an interrupt handler tells the (possibly shared) interrupt line. */
  datatype IrqReturn = IrqNone | IrqHandled

  // Linux error numbers the drivers return (negated).
  const ENOMEM: int := 12
  const EFAULT: int := 14
  const EBUSY: int := 16
  const ENODEV: int := 19
  const EINVAL: int := 22

  /** Number of values of a 32-bit register, `size_t` or `unsigned long` on ARM. */
  const U32_MODULUS: int := 0x1_0000_0000

  /** The value of a 32-bit register or C `unsigned int`. */
  newtype u32 = x: int | 0 <= x < 0x1_0000_0000

  /** The largest `ssize_t`; the VFS never passes a larger count to read or write. */
  const SSIZE_MAX: int := 0x7fff_ffff

  /** A C `int` converted to `unsigned int` (two's complement). */
  function AsUnsigned(x: int): (u: nat)
    requires -0x8000_0000 <= x < 0x8000_0000
    ensures u < U32_MODULUS
    ensures 0 <= x ==> u == x
    ensures x < 0 ==> u >= 0x8000_0000
  {
    if x < 0 then x + U32_MODULUS else x
  }

  /** A 32-bit register value read into a C `int` (two's complement). */
  function AsSigned(v: u32): (x: int)
    ensures -0x8000_0000 <= x < 0x8000_0000
    ensures AsUnsigned(x) == v as int
  {
    if v < 0x8000_0000 then v as int else v as int - U32_MODULUS
  }
}
