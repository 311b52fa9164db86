/**
 Numbers that several parts of the library share.
 */
module Limits {
  /** What 64-bit values, sizes among them, lie below. */
  const TWO64: nat := 0x1_0000_0000_0000_0000

  const INT_MAX: nat := 0x7fff_ffff
  const EINVAL: int := 22

  /** How many events one wait reports at most. */
  const MAX_BATCH: nat := 32
}
