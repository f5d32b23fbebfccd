/**
 * `forms::mat4` as a value: a 4x4 grid of reals indexed `m[row][column]`,
 * and the header's operations that build or combine such values without a
 * loop. The loops of the constructor, copy, `==`, `*`, `*=` and `translate`
 * are methods of the class `Matrix` (module MatrixObjects), proved against
 * the functions here.
 */
module Matrices {
  import opened Numerics
  import opened Vectors

  ghost predicate IsMat4(m: seq<seq<real>>) {
    |m| == 4 && forall i :: 0 <= i < 4 ==> |m[i]| == 4
  }

  type Mat4 = m: seq<seq<real>> | IsMat4(m)
    witness [[0.0, 0.0, 0.0, 0.0], [0.0, 0.0, 0.0, 0.0], [0.0, 0.0, 0.0, 0.0], [0.0, 0.0, 0.0, 0.0]]

  /** The cell `(i, j)` of the identity: the `(i == j) ? 1.0f : 0.0f` of the constructor. */
  function Kronecker(i: int, j: int): real {
    if i == j then 1.0 else 0.0
  }

  /** The value of a default-constructed `mat4`. */
  function Identity(): Mat4 {
    [[1.0, 0.0, 0.0, 0.0],
     [0.0, 1.0, 0.0, 0.0],
     [0.0, 0.0, 1.0, 0.0],
     [0.0, 0.0, 0.0, 1.0]]
  }

  /**
   * The running sum of the innermost loop of `operator*` after `n` steps:
   * `a[i][0] * b[0][j] + ... + a[i][n-1] * b[n-1][j]`, added left to right.
   */
  function RowCol(a: Mat4, b: Mat4, i: nat, j: nat, n: nat): real
    requires i < 4 && j < 4 && n <= 4
  {
    if n == 0 then 0.0 else RowCol(a, b, i, j, n - 1) + a[i][n - 1] * b[n - 1][j]
  }

  /** `a * b`: every cell is the full running sum of its row and column. */
  function Product(a: Mat4, b: Mat4): Mat4 {
    seq(4, i requires 0 <= i < 4 => seq(4, j requires 0 <= j < 4 => RowCol(a, b, i, j, 4)))
  }

  /** `a == b` on mat4: every cell within `EPSILON`. */
  predicate ApproxEqual(a: Mat4, b: Mat4) {
    forall i, j :: 0 <= i < 4 && 0 <= j < 4 ==> Close(a[i][j], b[i][j])
  }

  /** `mat4::translate(tx, ty, tz)`: the identity with the offsets in column 3. */
  function Translate(tx: real, ty: real, tz: real): Mat4 {
    [[1.0, 0.0, 0.0, tx],
     [0.0, 1.0, 0.0, ty],
     [0.0, 0.0, 1.0, tz],
     [0.0, 0.0, 0.0, 1.0]]
  }

  /** `mat4::scale(sx, sy, sz)`: the identity with the factors on the diagonal. */
  function Scale(sx: real, sy: real, sz: real): Mat4 {
    [[sx, 0.0, 0.0, 0.0],
     [0.0, sy, 0.0, 0.0],
     [0.0, 0.0, sz, 0.0],
     [0.0, 0.0, 0.0, 1.0]]
  }

  /** The `rotX` of `rotate`, for an angle in radians. */
  function RotX(lib: MathLib, rad: real): Mat4 {
    var c, s := lib.cos(rad), lib.sin(rad);
    [[1.0, 0.0, 0.0, 0.0],
     [0.0, c, -s, 0.0],
     [0.0, s, c, 0.0],
     [0.0, 0.0, 0.0, 1.0]]
  }

  /** The `rotY` of `rotate`, for an angle in radians. */
  function RotY(lib: MathLib, rad: real): Mat4 {
    var c, s := lib.cos(rad), lib.sin(rad);
    [[c, 0.0, s, 0.0],
     [0.0, 1.0, 0.0, 0.0],
     [-s, 0.0, c, 0.0],
     [0.0, 0.0, 0.0, 1.0]]
  }

  /** The `rotZ` of `rotate`, for an angle in radians. */
  function RotZ(lib: MathLib, rad: real): Mat4 {
    var c, s := lib.cos(rad), lib.sin(rad);
    [[c, -s, 0.0, 0.0],
     [s, c, 0.0, 0.0],
     [0.0, 0.0, 1.0, 0.0],
     [0.0, 0.0, 0.0, 1.0]]
  }

  /**
   * `mat4::rotate(angleX, angleY, angleZ)`, angles in degrees: the product
   * `rotZ * rotY * rotX`, grouped from the left as C++ groups it.
   */
  function Rotate(lib: MathLib, angleX: real, angleY: real, angleZ: real): Mat4 {
    var radX := angleX * (PI / 180.0);
    var radY := angleY * (PI / 180.0);
    var radZ := angleZ * (PI / 180.0);
    Product(Product(RotZ(lib, radZ), RotY(lib, radY)), RotX(lib, radX))
  }

  /** Row `i` of `m` applied to the point `(v, 1)`. */
  function RowDot(m: Mat4, i: nat, v: Vec3): real
    requires i < 4
  {
    m[i][0] * v.x + m[i][1] * v.y + m[i][2] * v.z + m[i][3]
  }

  /**
   * `m.vecMatrix(v)`: the rows of `m` applied to `(v, 1)`; x, y and z are
   * divided by w unless w is exactly 0 or exactly 1.
   */
  function VecMatrix(m: Mat4, v: Vec3): Vec3 {
    var x, y, z, w := RowDot(m, 0, v), RowDot(m, 1, v), RowDot(m, 2, v), RowDot(m, 3, v);
    if w != 1.0 && w != 0.0 then Vec3(x / w, y / w, z / w) else Vec3(x, y, z)
  }

  /** The `f` of `perspective`: one over the tangent of half the field of view. */
  function FocalLength(lib: MathLib, fov: real): real
    requires lib.tan(fov * (PI / 360.0)) != 0.0
  {
    1.0 / lib.tan(fov * (PI / 360.0))
  }

  /** `mat4::perspective(fov, aspect_ratio, near_clip, far_clip)`, fov in degrees. */
  function Perspective(lib: MathLib, fov: real, aspect: real, near: real, far: real): Mat4
    requires lib.tan(fov * (PI / 360.0)) != 0.0 && aspect != 0.0 && far != near
  {
    var f := FocalLength(lib, fov);
    [[f / aspect, 0.0, 0.0, 0.0],
     [0.0, f, 0.0, 0.0],
     [0.0, 0.0, far / (far - near), -(far * near) / (far - near)],
     [0.0, 0.0, 1.0, 0.0]]
  }

  /** `mat4::modelMatrix(trans, rot, s)`: `scale * rotate * translate`. */
  function ModelMatrix(lib: MathLib, trans: Vec3, rot: Vec3, s: Vec3): Mat4 {
    Product(Product(Scale(s.x, s.y, s.z), Rotate(lib, rot.x, rot.y, rot.z)), Translate(trans.x, trans.y, trans.z))
  }

  /** `mat4::viewMatrix(position, rotation)`: `rotate * translate(-position)`. */
  function ViewMatrix(lib: MathLib, position: Vec3, rotation: Vec3): Mat4 {
    Product(Rotate(lib, rotation.x, rotation.y, rotation.z), Translate(-position.x, -position.y, -position.z))
  }

  /** The three cofactors of row 0 of the upper-left 3x3 block. */
  function Cofactor0(m: Mat4): real { m[1][1] * m[2][2] - m[1][2] * m[2][1] }
  function Cofactor1(m: Mat4): real { m[1][2] * m[2][0] - m[1][0] * m[2][2] }
  function Cofactor2(m: Mat4): real { m[1][0] * m[2][1] - m[1][1] * m[2][0] }

  /** The determinant of the upper-left 3x3 block, expanded along row 0. */
  function Det3(m: Mat4): real {
    m[0][0] * Cofactor0(m) + m[0][1] * Cofactor1(m) + m[0][2] * Cofactor2(m)
  }

  /**
   * `mat4::inverseMatrix(m)`. When the 3x3 determinant is zero, `m` itself.
   * Otherwise the 3x3 block is the adjugate over the determinant, row 3
   * holds the back-substituted translation read from row 3 of `m`, and
   * column 3 is forced to `(0, 0, 0, 1)`.
   */
  function InverseMatrix(m: Mat4): Mat4 {
    var det := Det3(m);
    if det == 0.0 then m
    else
      var invDet := 1.0 / det;
      InverseCells(m, invDet)
  }

  /** The cells `inverseMatrix` fills once it has the reciprocal `invDet` of the determinant. */
  function InverseCells(m: Mat4, invDet: real): Mat4 {
    var r00 := invDet * Cofactor0(m);
    var r10 := invDet * Cofactor1(m);
    var r20 := invDet * Cofactor2(m);
    var r01 := invDet * (m[0][2] * m[2][1] - m[0][1] * m[2][2]);
    var r11 := invDet * (m[0][0] * m[2][2] - m[0][2] * m[2][0]);
    var r21 := invDet * (m[0][1] * m[2][0] - m[0][0] * m[2][1]);
    var r02 := invDet * (m[0][1] * m[1][2] - m[0][2] * m[1][1]);
    var r12 := invDet * (m[0][2] * m[1][0] - m[0][0] * m[1][2]);
    var r22 := invDet * (m[0][0] * m[1][1] - m[0][1] * m[1][0]);
    var r30 := -r00 * m[3][0] - r10 * m[3][1] - r20 * m[3][2];
    var r31 := -r01 * m[3][0] - r11 * m[3][1] - r21 * m[3][2];
    var r32 := -r02 * m[3][0] - r12 * m[3][1] - r22 * m[3][2];
    [[r00, r01, r02, 0.0],
     [r10, r11, r12, 0.0],
     [r20, r21, r22, 0.0],
     [r30, r31, r32, 1.0]]
  }
}
