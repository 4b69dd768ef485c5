/** The smaller and the larger of two numbers. */
module Numbers {
  function MinNat(a: nat, b: nat): nat {
    if a <= b then a else b
  }

  function MaxInt(a: int, b: int): int {
    if a >= b then a else b
  }
}
