/**
 * `forms::vec3` and `forms::vec2`. A vec3 is a value (`Vec3`) for every
 * operator that builds a new vector; the compound assignments, which change
 * the receiver's fields in place, are methods of the class `Vector`.
 */
module Vectors {
  import opened Numerics

  /** A 3-vector; `vec3()` is `Zero()`, `vec3(x, y, z)` is `Vec3(x, y, z)`. */
  datatype Vec3 = Vec3(x: real, y: real, z: real)

  /** A 2-vector; `vec2(x, y)` is `Vec2(x, y)`. */
  datatype Vec2 = Vec2(x: real, y: real)

  function Zero(): Vec3 {
    Vec3(0.0, 0.0, 0.0)
  }

  /** `a + b` */
  function Plus(a: Vec3, b: Vec3): Vec3 {
    Vec3(a.x + b.x, a.y + b.y, a.z + b.z)
  }

  /** `a - b` */
  function Minus(a: Vec3, b: Vec3): Vec3 {
    Vec3(a.x - b.x, a.y - b.y, a.z - b.z)
  }

  /** `v * s` */
  function ScaledBy(v: Vec3, s: real): Vec3 {
    Vec3(v.x * s, v.y * s, v.z * s)
  }

  /** `s * v`, the friend operator; it multiplies in the order `v.x * s`. */
  function ScalarTimes(s: real, v: Vec3): Vec3 {
    Vec3(v.x * s, v.y * s, v.z * s)
  }

  /** `a * b`, component by component. */
  function Hadamard(a: Vec3, b: Vec3): Vec3 {
    Vec3(a.x * b.x, a.y * b.y, a.z * b.z)
  }

  /** `v / s` */
  function DividedBy(v: Vec3, s: real): Vec3
    requires s != 0.0
  {
    Vec3(v.x / s, v.y / s, v.z / s)
  }

  /** `s / v`, the friend operator: the scalar over each component. */
  function ScalarOver(s: real, v: Vec3): Vec3
    requires v.x != 0.0 && v.y != 0.0 && v.z != 0.0
  {
    Vec3(s / v.x, s / v.y, s / v.z)
  }

  /** `v.translate(tx, ty, tz)` */
  function Translated(v: Vec3, tx: real, ty: real, tz: real): Vec3 {
    Vec3(v.x + tx, v.y + ty, v.z + tz)
  }

  /** `v.multiply(sx, sy, sz)` */
  function Multiplied(v: Vec3, sx: real, sy: real, sz: real): Vec3 {
    Vec3(v.x * sx, v.y * sy, v.z * sz)
  }

  /** `a == b` on vec3: every component within `EPSILON`. */
  predicate ApproxEq(a: Vec3, b: Vec3) {
    Close(a.x, b.x) && Close(a.y, b.y) && Close(a.z, b.z)
  }

  /** `a == b` on vec2. */
  predicate ApproxEq2(a: Vec2, b: Vec2) {
    Close(a.x, b.x) && Close(a.y, b.y)
  }

  /** `a.crossProd(b)` */
  function Cross(a: Vec3, b: Vec3): Vec3 {
    Vec3(a.y * b.z - a.z * b.y, a.z * b.x - a.x * b.z, a.x * b.y - a.y * b.x)
  }

  /** `a.dotProd(b)` */
  function Dot(a: Vec3, b: Vec3): real {
    a.x * b.x + a.y * b.y + a.z * b.z
  }

  /** The `length` local of `normalize`. */
  function Length(lib: MathLib, v: Vec3): real {
    lib.sqrt(v.x * v.x + v.y * v.y + v.z * v.z)
  }

  /** `v.normalize()`; the header divides by zero for a zero-length vector. */
  function Normalize(lib: MathLib, v: Vec3): Vec3
    requires Length(lib, v) != 0.0
  {
    var length := Length(lib, v);
    Vec3(v.x / length, v.y / length, v.z / length)
  }

  /** `vec3::toRads(v)`: degrees to radians, component by component. */
  function ToRads(v: Vec3): Vec3 {
    Vec3(v.x * PI / 180.0, v.y * PI / 180.0, v.z * PI / 180.0)
  }

  /** The fixed world-up direction `vec3(0, 1, 0)` of `getRight`. */
  function WorldUp(): Vec3 {
    Vec3(0.0, 1.0, 0.0)
  }

  /** `vec3::getForward(cam)`: pitch is `cam.x`, yaw is `cam.y`, in radians. */
  function Forward(lib: MathLib, cam: Vec3): Vec3 {
    var pitch := cam.x;
    var yaw := cam.y;
    Vec3(-lib.sin(yaw) * lib.cos(pitch), -lib.sin(pitch), lib.cos(yaw) * lib.cos(pitch))
  }

  /** `vec3::getRight(cam)`: forward crossed with world-up, not normalised. */
  function Right(lib: MathLib, cam: Vec3): Vec3 {
    Cross(Forward(lib, cam), WorldUp())
  }

  /** `vec3::getUp(cam)`: right crossed with forward. */
  function Up(lib: MathLib, cam: Vec3): Vec3 {
    Cross(Right(lib, cam), Forward(lib, cam))
  }

  /** A vec3 variable, for the operators that update their receiver in place. */
  class Vector {
    var x: real
    var y: real
    var z: real

    constructor (v: Vec3)
      ensures Value() == v
    {
      x, y, z := v.x, v.y, v.z;
    }

    function Value(): Vec3
      reads this
    {
      Vec3(x, y, z)
    }

    /** `v += s`: the scalar is added to every component. */
    method AddScalar(s: real)
      modifies this
      ensures x == old(x) + s && y == old(y) + s && z == old(z) + s
      ensures Value() == Plus(old(Value()), Vec3(s, s, s))
    {
      x := x + s;
      y := y + s;
      z := z + s;
    }

    /** `v += other`; `other` may be `v` itself. */
    method AddAssign(other: Vector)
      modifies this
      ensures Value() == Plus(old(Value()), old(other.Value()))
      ensures other != this ==> other.Value() == old(other.Value())
    {
      x := x + other.x;
      y := y + other.y;
      z := z + other.z;
    }

    /** `v -= other`; `other` may be `v` itself. */
    method SubAssign(other: Vector)
      modifies this
      ensures Value() == Minus(old(Value()), old(other.Value()))
      ensures other != this ==> other.Value() == old(other.Value())
    {
      x := x - other.x;
      y := y - other.y;
      z := z - other.z;
    }
  }
}
