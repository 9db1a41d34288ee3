/** What several parts of the model share: ticks of 32 bits, and a few plain definitions. */
module Basics {
  const M: nat := 0x1_0000_0000

  /** `portMAX_DELAY`. */
  const MAX_DELAY: nat := 0xffff_ffff

  /** 32-bit subtraction. */
  function Minus(a: nat, b: nat): (d: nat)
    requires a < M && b < M
    ensures d < M
  {
    if a >= b then a - b else a + M - b
  }

  /** 32-bit addition. */
  function Plus(a: nat, b: nat): (s: nat)
    requires a < M && b < M
    ensures s < M
  {
    if a + b < M then a + b else a + b - M
  }

  function Min(a: nat, b: nat): nat {
    if a < b then a else b
  }

  datatype Option<+T> = None | Some(value: T)
}
