/** Facts about products and remainders, and indices into rings. */
module Arithmetic {

  function Min(a: nat, b: nat): nat {
    if a < b then a else b
  }

  /** An index into a ring that may have run past the end once. */
  function Wrap(x: nat, length: nat): (i: nat)
    requires x < 2 * length
    ensures i < length
  {
    if x < length then x else x - length
  }

  lemma Distributes(a: int, b: int, m: int)
    ensures (a + b) * m == a * m + b * m
    ensures (a - b) * m == a * m - b * m
    ensures 1 * m == m
  {
  }

  lemma ProductIsNat(a: nat, b: nat)
    ensures a * b >= 0
  {
  }

  lemma Multiples(d: int, m: int)
    requires m > 0
    ensures d <= -1 ==> d * m <= -m
    ensures d == 0 ==> d * m == 0
    ensures d == 1 ==> d * m == m
    ensures d >= 2 ==> d * m >= 2 * m
  {
  }

  lemma Quotient(a: nat, m: nat)
    requires m > 0
    ensures a == a / m * m + a % m && a % m < m
  {
  }

  lemma SmallRemainder(a: nat, m: nat)
    requires m > 0
    ensures a < m ==> a % m == a
  {
  }
}
