/**
 * Laws of the vec3 and vec2 operators: how the operators relate to each
 * other, the algebra of the cross and dot products, normalisation, and the
 * camera basis built by `getForward`, `getRight` and `getUp`.
 */
module VectorLaws {
  import opened Numerics
  import opened Vectors

  /** Subtracting what was added gives the vector back, and the other way round. */
  lemma MinusUndoesPlus(a: Vec3, b: Vec3)
    ensures Minus(Plus(a, b), b) == a
    ensures Plus(Minus(a, b), b) == a
  {
  }

  /** `a + b == b + a`. */
  lemma PlusCommutative(a: Vec3, b: Vec3)
    ensures Plus(a, b) == Plus(b, a)
  {
  }

  /** `v.translate(tx, ty, tz) == v + vec3(tx, ty, tz)`. */
  lemma TranslatedIsPlus(v: Vec3, tx: real, ty: real, tz: real)
    ensures Translated(v, tx, ty, tz) == Plus(v, Vec3(tx, ty, tz))
  {
  }

  /** `v.multiply(sx, sy, sz) == v * vec3(sx, sy, sz)`. */
  lemma MultipliedIsHadamard(v: Vec3, sx: real, sy: real, sz: real)
    ensures Multiplied(v, sx, sy, sz) == Hadamard(v, Vec3(sx, sy, sz))
  {
  }

  /** `s * v == v * s`. */
  lemma ScalarTimesCommutes(s: real, v: Vec3)
    ensures ScalarTimes(s, v) == ScaledBy(v, s)
  {
  }

  /** Dividing by a non-zero scalar undoes multiplying by it. */
  lemma DividedByUndoesScaledBy(v: Vec3, s: real)
    requires s != 0.0
    ensures DividedBy(ScaledBy(v, s), s) == v
    ensures ScaledBy(DividedBy(v, s), s) == v
  {
  }

  /** `(s / v) * v` is `s` in every component. */
  lemma ScalarOverTimes(s: real, v: Vec3)
    requires v.x != 0.0 && v.y != 0.0 && v.z != 0.0
    ensures Hadamard(ScalarOver(s, v), v) == Vec3(s, s, s)
  {
  }

  /** The cross product is anti-commutative. */
  lemma CrossAntiCommutative(a: Vec3, b: Vec3)
    ensures Cross(a, b) == ScaledBy(Cross(b, a), -1.0)
  {
  }

  /** A vector crossed with itself is zero. */
  lemma CrossSelfZero(a: Vec3)
    ensures Cross(a, a) == Zero()
  {
  }

  /** The cross product is perpendicular to both of its operands. */
  lemma CrossPerpendicular(a: Vec3, b: Vec3)
    ensures Dot(Cross(a, b), a) == 0.0
    ensures Dot(Cross(a, b), b) == 0.0
  {
  }

  /** The dot product is symmetric. */
  lemma DotSymmetric(a: Vec3, b: Vec3)
    ensures Dot(a, b) == Dot(b, a)
  {
  }

  /** `normalize` gives a unit vector when the square root is a true root. */
  lemma NormalizeUnit(lib: MathLib, v: Vec3)
    requires SqrtLaw(lib)
    requires Length(lib, v) != 0.0
    ensures Dot(Normalize(lib, v), Normalize(lib, v)) == 1.0
    ensures Length(lib, Normalize(lib, v)) == 1.0
  {
    var d := v.x * v.x + v.y * v.y + v.z * v.z;
    SumOfSquaresNonNegative(v.x, v.y, v.z);
    var len := Length(lib, v);
    assert Square(len) == d;
    var n := Normalize(lib, v);
    UnitAfterDivision(v.x, v.y, v.z, len);
    assert n.x * n.x + n.y * n.y + n.z * n.z == 1.0;
    SqrtOne(lib);
  }

  lemma SumOfSquaresNonNegative(x: real, y: real, z: real)
    ensures 0.0 <= x * x + y * y + z * z
  {
  }

  lemma UnitAfterDivision(x: real, y: real, z: real, len: real)
    requires len != 0.0 && Square(len) == x * x + y * y + z * z
    ensures (x / len) * (x / len) + (y / len) * (y / len) + (z / len) * (z / len) == 1.0
  {
    var u := 1.0 / len;
    DivAsMul(x, len);
    DivAsMul(y, len);
    DivAsMul(z, len);
    MulInverse(len);
    SquaresScaled(x, y, z, u);
    SquareOfProduct(len, u);
    calc {
      (x / len) * (x / len) + (y / len) * (y / len) + (z / len) * (z / len);
      (x * u) * (x * u) + (y * u) * (y * u) + (z * u) * (z * u);
      (x * x + y * y + z * z) * (u * u);
      Square(len) * (u * u);
      (len * len) * (u * u);
      (len * u) * (len * u);
      1.0 * 1.0;
    }
  }

  lemma SquaresScaled(x: real, y: real, z: real, u: real)
    ensures (x * u) * (x * u) + (y * u) * (y * u) + (z * u) * (z * u) == (x * x + y * y + z * z) * (u * u)
  {
  }

  lemma SquareOfProduct(a: real, b: real)
    ensures (a * a) * (b * b) == (a * b) * (a * b)
  {
  }

  /** `normalize` keeps the direction: scaling the result by the length gives the vector back. */
  lemma NormalizeKeepsDirection(lib: MathLib, v: Vec3)
    requires Length(lib, v) != 0.0
    ensures ScaledBy(Normalize(lib, v), Length(lib, v)) == v
  {
  }

  /** `toRads` scales every component by `PI / 180`. */
  lemma ToRadsIsScaling(v: Vec3)
    ensures ToRads(v) == ScaledBy(v, PI / 180.0)
  {
  }

  /** The forward direction has unit length when sin^2 + cos^2 = 1. */
  lemma ForwardUnit(lib: MathLib, cam: Vec3)
    requires Pythagorean(lib)
    ensures Dot(Forward(lib, cam), Forward(lib, cam)) == 1.0
  {
    var sp, cp := lib.sin(cam.x), lib.cos(cam.x);
    var sy, cy := lib.sin(cam.y), lib.cos(cam.y);
    assert sp * sp + cp * cp == 1.0;
    assert sy * sy + cy * cy == 1.0;
    calc {
      Dot(Forward(lib, cam), Forward(lib, cam));
      (-sy * cp) * (-sy * cp) + (-sp) * (-sp) + (cy * cp) * (cy * cp);
      (sy * sy + cy * cy) * (cp * cp) + sp * sp;
      cp * cp + sp * sp;
    }
  }

  /** `getRight` is perpendicular to the forward direction and to world-up. */
  lemma RightPerpendicular(lib: MathLib, cam: Vec3)
    ensures Dot(Right(lib, cam), Forward(lib, cam)) == 0.0
    ensures Dot(Right(lib, cam), WorldUp()) == 0.0
  {
    CrossPerpendicular(Forward(lib, cam), WorldUp());
  }

  /** `getUp` is perpendicular to the forward and right directions. */
  lemma UpPerpendicular(lib: MathLib, cam: Vec3)
    ensures Dot(Up(lib, cam), Forward(lib, cam)) == 0.0
    ensures Dot(Up(lib, cam), Right(lib, cam)) == 0.0
  {
    CrossPerpendicular(Right(lib, cam), Forward(lib, cam));
  }

  /**
   * `getRight` is not normalised: its squared length is cos^2 of the pitch,
   * so it has unit length exactly where cos^2 of the pitch is 1 (within
   * (-pi/2, pi/2), only at pitch 0).
   */
  lemma RightSquaredLength(lib: MathLib, cam: Vec3)
    requires Pythagorean(lib)
    ensures Dot(Right(lib, cam), Right(lib, cam)) == lib.cos(cam.x) * lib.cos(cam.x)
  {
    var cp := lib.cos(cam.x);
    var sy, cy := lib.sin(cam.y), lib.cos(cam.y);
    assert sy * sy + cy * cy == 1.0;
    calc {
      Dot(Right(lib, cam), Right(lib, cam));
      (-(cy * cp)) * (-(cy * cp)) + (-sy * cp) * (-sy * cp);
      (sy * sy + cy * cy) * (cp * cp);
    }
  }

  /** Looking straight up or down (cos pitch = 0), right and up collapse to zero. */
  lemma BasisDegenerate(lib: MathLib, cam: Vec3)
    requires lib.cos(cam.x) == 0.0
    ensures Right(lib, cam) == Zero()
    ensures Up(lib, cam) == Zero()
  {
  }

  /** The vec3 `==` is reflexive and symmetric. */
  lemma ApproxEqReflexiveSymmetric(a: Vec3, b: Vec3)
    ensures ApproxEq(a, a)
    ensures ApproxEq(a, b) == ApproxEq(b, a)
  {
    assert Abs(a.x - b.x) == Abs(b.x - a.x);
    assert Abs(a.y - b.y) == Abs(b.y - a.y);
    assert Abs(a.z - b.z) == Abs(b.z - a.z);
  }

  /** The vec3 `==` is not transitive: two steps of 0.6 epsilon are 1.2 epsilon apart. */
  lemma ApproxEqNotTransitive()
    ensures ApproxEq(Zero(), Vec3(0.000006, 0.0, 0.0))
    ensures ApproxEq(Vec3(0.000006, 0.0, 0.0), Vec3(0.000012, 0.0, 0.0))
    ensures !ApproxEq(Zero(), Vec3(0.000012, 0.0, 0.0))
  {
  }

  /** The vec2 `==` is reflexive and symmetric. */
  lemma ApproxEq2ReflexiveSymmetric(a: Vec2, b: Vec2)
    ensures ApproxEq2(a, a)
    ensures ApproxEq2(a, b) == ApproxEq2(b, a)
  {
    assert Abs(a.x - b.x) == Abs(b.x - a.x);
    assert Abs(a.y - b.y) == Abs(b.y - a.y);
  }
}
