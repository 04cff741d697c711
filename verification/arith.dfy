/**
 The plain real arithmetic that the kernel uses from Python's builtins: `abs`,
 `max`, `min`, and the clamp `min(max(x, lo), hi)`.
 */
module Arith {
  function Max(x: real, y: real): (m: real)
    ensures m >= x && m >= y && (m == x || m == y)
  {
    if x >= y then x else y
  }

  function Min(x: real, y: real): (m: real)
    ensures m <= x && m <= y && (m == x || m == y)
  {
    if x <= y then x else y
  }

  /** `min(max(x, lo), hi)`: `x` moved into [lo, hi], and left alone when it is there. */
  function Clamp(x: real, lo: real, hi: real): (r: real)
    requires lo <= hi
    ensures lo <= r <= hi
    ensures lo <= x <= hi <==> r == x
  {
    if x < lo then lo else if x > hi then hi else x
  }

  /** Python's `abs` on a float. */
  function Abs(x: real): (r: real)
    ensures r >= 0.0 && (r == x || r == -x)
  {
    if x < 0.0 then -x else x
  }
}
