/** The arithmetic that several components share. */
module Arithmetic {
  function Min(a: int, b: int): (m: int)
    ensures a >= 0 && b >= 0 ==> m >= 0
  {
    if a < b then a else b
  }

  function Max(a: int, b: int): (m: int)
    ensures a >= 0 || b >= 0 ==> m >= 0
  {
    if a < b then b else a
  }

  function Power2(n: nat): nat {
    if n == 0 then 1 else 2 * Power2(n - 1)
  }
}
