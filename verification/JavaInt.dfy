/** The 32-bit integers of Java. */
module JavaInt {
  const INT_MAX := 0x7FFF_FFFF

  /** The value an integer has after a cast to 32 bits, or after an operation that overflows. */
  function Int32(n: int): int { (n + 0x8000_0000) % 0x1_0000_0000 - 0x8000_0000 }
}
