/** The ranges of the machine's numbers. */
module Machine {
  const U32: nat := 0x1_0000_0000
  const USIZE: nat := 0x1_0000_0000_0000_0000

  /** A signed 64-bit number lies in [-I64_BOUND, I64_BOUND). */
  const I64_BOUND: int := 0x8000_0000_0000_0000
}
