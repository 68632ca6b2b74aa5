module Naturals {
  function Min(a: nat, b: nat): (n: nat) {
    if a < b then a else b
  }

  /** Subtraction that stops at zero. */
  function Minus(a: nat, b: nat): (n: nat) {
    if a < b then 0 else a - b
  }
}
