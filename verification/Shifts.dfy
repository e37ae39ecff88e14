/** Shifts of non-negative numbers, one bit at a time. */
module Shifts {

  /** x >> n */
  function ShiftRight(x: nat, n: nat): (y: nat)
    ensures y <= x
  {
    if n == 0 then x else ShiftRight(x, n - 1) / 2
  }

  /** x << n */
  function ShiftLeft(x: nat, n: nat): (y: nat)
    ensures y >= x
    decreases n
  {
    if n == 0 then x else ShiftLeft(2 * x, n - 1)
  }

  lemma {:induction false} ShiftLeftAdd(x: nat, y: nat, n: nat)
    ensures ShiftLeft(x + y, n) == ShiftLeft(x, n) + ShiftLeft(y, n)
    decreases n
  {
    if n > 0 { ShiftLeftAdd(2 * x, 2 * y, n - 1); }
  }

  lemma {:induction false} ShiftRightAdd(x: nat, k: nat, n: nat)
    ensures ShiftRight(x + ShiftLeft(k, n), n) == ShiftRight(x, n) + k
    decreases n
  {
    if n > 0 { ShiftRightAdd(x, 2 * k, n - 1); }
  }

  lemma {:induction false} ShiftAgain(x: nat, j: nat, n: nat)
    ensures ShiftLeft(ShiftLeft(x, j), n) == ShiftLeft(x, n + j)
    decreases j
  {
    if j > 0 { ShiftAgain(2 * x, j - 1, n); }
  }
}
