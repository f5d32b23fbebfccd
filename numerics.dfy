/**
 * Scalars of the math header. Every `float` of the header is modelled as a
 * `real`: the algebra is exact here and IEEE rounding is not modelled.
 * The C math library (`sinf`, `cosf`, `tanf`, `std::sin`, `std::cos`,
 * `std::sqrt`) is not part of this model; it enters as a `MathLib` value
 * supplied by the caller, and only the laws a proof needs are assumed of it,
 * as preconditions.
 */
module Numerics {

  /** The header's `PI` constant, a fixed decimal rather than the real pi. */
  const PI: real := 3.14159

  /** The tolerance shared by the `==` operators of vec2, vec3 and mat4. */
  const EPSILON: real := 0.00001

  function Abs(r: real): (a: real)
    ensures 0.0 <= a && (a == r || a == -r)
  {
    if r < 0.0 then -r else r
  }

  /** One component of the epsilon comparisons: `std::abs(a - b) < epsilon`. */
  predicate Close(a: real, b: real) {
    Abs(a - b) < EPSILON
  }

  /** The trigonometric and square-root functions the header calls. */
  datatype MathLib = MathLib(sin: real -> real, cos: real -> real, tan: real -> real, sqrt: real -> real)

  /** sin 0 = 0 and cos 0 = 1. */
  predicate TrigAtZero(lib: MathLib) {
    lib.sin(0.0) == 0.0 && lib.cos(0.0) == 1.0
  }

  /** sin^2 a + cos^2 a = 1 for every angle a. */
  ghost predicate Pythagorean(lib: MathLib) {
    forall a: real :: lib.sin(a) * lib.sin(a) + lib.cos(a) * lib.cos(a) == 1.0
  }

  /** sqrt r is the non-negative root of every non-negative r. */
  ghost predicate SqrtLaw(lib: MathLib) {
    forall r: real :: 0.0 <= r ==> 0.0 <= lib.sqrt(r) && Square(lib.sqrt(r)) == r
  }

  function Square(r: real): real {
    r * r
  }

  /** Under the square-root law, the root of 1 is 1. */
  lemma SqrtOne(lib: MathLib)
    requires SqrtLaw(lib)
    ensures lib.sqrt(1.0) == 1.0
  {
    var s := lib.sqrt(1.0);
    if s != 1.0 {
      SquareNotOne(s);
    }
  }

  /** A non-negative number other than 1 does not square to 1. */
  lemma SquareNotOne(s: real)
    requires 0.0 <= s && s != 1.0
    ensures Square(s) != 1.0
  {
    if s < 1.0 {
      assert s * s <= s;
    } else {
      assert s * s > s;
    }
  }

  /** Dividing by d is multiplying by its reciprocal. */
  lemma DivAsMul(x: real, d: real)
    requires d != 0.0
    ensures x / d == x * (1.0 / d)
  {
  }

  lemma MulInverse(d: real)
    requires d != 0.0
    ensures d * (1.0 / d) == 1.0
  {
  }

  /** The reciprocal of a positive number is positive. */
  lemma InversePositive(d: real)
    requires 0.0 < d
    ensures 0.0 < 1.0 / d
  {
  }

  /** A ratio between 0 and the (positive) divisor lies in [0, 1]. */
  lemma RatioInUnit(r: real, d: real)
    requires 0.0 < d && 0.0 <= r <= d
    ensures 0.0 <= r / d <= 1.0
  {
  }
}
