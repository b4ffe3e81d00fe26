/** 32-bit unsigned arithmetic written out over int: callers reduce modulo 2^32 themselves. */
module Word32 {
  const LIMIT := 0x1_0000_0000

  type U32 = x: int | 0 <= x < LIMIT

  function Wrap(n: int): U32 {
    n % LIMIT
  }

  /** Bitwise exclusive or. */
  function Xor(a: nat, b: nat): nat {
    if a == 0 && b == 0 then 0 else 2 * Xor(a / 2, b / 2) + (a + b) % 2
  }
}
