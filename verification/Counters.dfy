/** Small arithmetic the components share: bounds, and counters that stop at the largest safe integer. */
module Counters {
  const MAX_SAFE_INTEGER: nat := 9007199254740991

  function Max(a: int, b: int): int {
    if a >= b then a else b
  }

  function Min(a: nat, b: nat): nat {
    if a <= b then a else b
  }

  function IncrementSaturating(n: nat): nat {
    Min(MAX_SAFE_INTEGER, n + 1)
  }
}
