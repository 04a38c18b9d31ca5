/** The JavaScript `Math` functions the page uses, on exact reals, and the length clamp of `slice`. */
module JsMath {

  /** `Math.round`: the nearest integer, halves rounding towards +infinity. */
  function Round(v: real): (n: int)
    ensures v - 0.5 < n as real <= v + 0.5
  {
    (v + 0.5).Floor
  }

  /** `Math.max` of two numbers. */
  function Max(a: real, b: real): (m: real)
    ensures m >= a && m >= b
    ensures m == a || m == b
  {
    if a >= b then a else b
  }

  /**
   * The shorter of two lengths: how much of a sequence `slice(0, n)` or
   * `substring(0, n)` keeps.
   */
  function Min(a: nat, b: nat): (m: nat)
    ensures m <= a && m <= b
    ensures m == a || m == b
  {
    if a <= b then a else b
  }
}
