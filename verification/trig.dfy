/**
 Stand-in for the three members of Python's `math` module that the unroll
 kernel uses: `math.sin`, `math.cos` and `math.pi`.

 Dafny's `real` has no trigonometry, so the kernel takes an `Oracle` as a
 parameter and every property that depends on trigonometry assumes `Valid`:
 the handful of facts about sine, cosine and pi that the proofs use. `Piecewise`
 shows that these facts are consistent by exhibiting an oracle that meets them.
 */
module Trig {
  import opened Arith

  /** The trigonometric environment of a computation. */
  datatype Oracle = Oracle(sin: real -> real, cos: real -> real, pi: real)

  /** Facts that the true sine, cosine and pi satisfy and that the proofs rely on. */
  ghost predicate Valid(o: Oracle) {
    && 3.0 < o.pi < 4.0
    && (forall x :: -1.0 <= o.sin(x) <= 1.0)
    && (forall x :: -1.0 <= o.cos(x) <= 1.0)
    // sine is odd and cosine is even
    && (forall x, y :: x + y == 0.0 ==> o.sin(x) == -o.sin(y))
    && (forall x, y :: x + y == 0.0 ==> o.cos(x) == o.cos(y))
    // sine is positive on the open upper half-turn and increasing on the first quarter-turn
    && (forall x :: 0.0 < x < o.pi ==> 0.0 < o.sin(x))
    && (forall x, y :: 0.0 <= x < y <= o.pi / 2.0 ==> o.sin(x) < o.sin(y))
    // cosine is non-negative on the first quarter-turn and negative on the second
    && (forall x :: 0.0 <= x <= o.pi / 2.0 ==> 0.0 <= o.cos(x))
    && (forall x :: o.pi / 2.0 < x <= o.pi ==> o.cos(x) < 0.0)
  }

  /** Piecewise-linear sine for pi = 3.14: the chord through (-pi/2, -1) and (pi/2, 1), flat beyond. */
  function LinearSin(x: real): real {
    Clamp(x / 1.57, -1.0, 1.0)
  }

  /** Piecewise-linear cosine for pi = 3.14: a tent peaking at 1 at x = 0, zero at +-pi/2. */
  function LinearCos(x: real): real {
    Clamp(1.0 - Abs(x) / 1.57, -1.0, 1.0)
  }

  lemma LinearFacts(x: real)
    ensures -1.0 <= LinearSin(x) <= 1.0 && -1.0 <= LinearCos(x) <= 1.0
    ensures LinearSin(-x) == -LinearSin(x) && LinearCos(-x) == LinearCos(x)
    ensures 0.0 < x < 3.14 ==> 0.0 < LinearSin(x)
    ensures 0.0 <= x <= 1.57 ==> 0.0 <= LinearCos(x)
    ensures 1.57 < x <= 3.14 ==> LinearCos(x) < 0.0
  {
    assert (-x) / 1.57 == -(x / 1.57);
    assert Abs(-x) == Abs(x);
  }

  lemma LinearSinIncreasing(x: real, y: real)
    requires 0.0 <= x < y <= 1.57
    ensures LinearSin(x) < LinearSin(y)
  {
    assert x / 1.57 < y / 1.57 <= 1.0;
  }

  /** Crude piecewise-linear sine and cosine with pi = 3.14: yet a `Valid` oracle. */
  function Piecewise(): (o: Oracle)
    ensures Valid(o)
    ensures o.pi == 3.14
  {
    var o := Oracle(LinearSin, LinearCos, 3.14);
    assert Valid(o) by {
      forall x ensures -1.0 <= o.sin(x) <= 1.0 && -1.0 <= o.cos(x) <= 1.0 {
        LinearFacts(x);
      }
      forall x, y | x + y == 0.0 ensures o.sin(x) == -o.sin(y) && o.cos(x) == o.cos(y) {
        LinearFacts(y);
        assert x == -y;
      }
      forall x | 0.0 < x < o.pi ensures 0.0 < o.sin(x) {
        LinearFacts(x);
      }
      forall x, y | 0.0 <= x < y <= o.pi / 2.0 ensures o.sin(x) < o.sin(y) {
        LinearSinIncreasing(x, y);
      }
      forall x | 0.0 <= x <= o.pi / 2.0 ensures 0.0 <= o.cos(x) {
        LinearFacts(x);
      }
      forall x | o.pi / 2.0 < x <= o.pi ensures o.cos(x) < 0.0 {
        LinearFacts(x);
      }
    }
    o
  }
}
