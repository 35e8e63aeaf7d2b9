/** Numeric helpers for JavaScript's `Math.ceil` and `Math.max` over exact numbers. */
module Numeros {

  /** `Math.ceil`: the least integer not below `x`. */
  function Ceil(x: real): (c: int)
    ensures c as real >= x
    ensures (c - 1) as real < x
  {
    -((-x).Floor)
  }

  /** Any integer at or above `x` is at or above its ceiling. */
  lemma CeilIsLeast(x: real, k: int)
    requires k as real >= x
    ensures Ceil(x) <= k
  {
  }

  /** `Math.max` on two integers. */
  function Max(a: int, b: int): (m: int)
    ensures m >= a && m >= b
    ensures m == a || m == b
  {
    if a >= b then a else b
  }
}
