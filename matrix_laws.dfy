/**
 * Laws of the mat4 values: the product and its identity, which cells each
 * named constructor fills, what `vecMatrix` does with them, the order in
 * which a composed matrix acts on a point, and the depth mapping of
 * `perspective`.
 */
module MatrixLaws {
  import opened Numerics
  import opened Vectors
  import opened Matrices

  /** Two 4x4 values with the same cells are the same value. */
  lemma CellsEqual(a: Mat4, b: Mat4)
    requires forall i, j :: 0 <= i < 4 && 0 <= j < 4 ==> a[i][j] == b[i][j]
    ensures a == b
  {
    forall i | 0 <= i < 4
      ensures a[i] == b[i]
    {
      assert |a[i]| == 4 && |b[i]| == 4;
    }
  }

  /** Every cell of `a * b` is the four-term sum of row `i` of `a` times column `j` of `b`. */
  lemma ProductCell(a: Mat4, b: Mat4, i: nat, j: nat)
    requires i < 4 && j < 4
    ensures Product(a, b)[i][j] == a[i][0] * b[0][j] + a[i][1] * b[1][j] + a[i][2] * b[2][j] + a[i][3] * b[3][j]
  {
    assert RowCol(a, b, i, j, 1) == a[i][0] * b[0][j];
    assert RowCol(a, b, i, j, 2) == RowCol(a, b, i, j, 1) + a[i][1] * b[1][j];
    assert RowCol(a, b, i, j, 3) == RowCol(a, b, i, j, 2) + a[i][2] * b[2][j];
    assert RowCol(a, b, i, j, 4) == RowCol(a, b, i, j, 3) + a[i][3] * b[3][j];
  }

  /** `ProductCell` for all sixteen cells at once. */
  lemma ProductCells(a: Mat4, b: Mat4)
    ensures forall i, j :: 0 <= i < 4 && 0 <= j < 4 ==>
      Product(a, b)[i][j] == a[i][0] * b[0][j] + a[i][1] * b[1][j] + a[i][2] * b[2][j] + a[i][3] * b[3][j]
  {
    forall i, j | 0 <= i < 4 && 0 <= j < 4
      ensures Product(a, b)[i][j] == a[i][0] * b[0][j] + a[i][1] * b[1][j] + a[i][2] * b[2][j] + a[i][3] * b[3][j]
    {
      ProductCell(a, b, i, j);
    }
  }

  /** The identity is a left unit of the product. */
  lemma IdentityLeftUnit(m: Mat4)
    ensures Product(Identity(), m) == m
  {
    ProductCells(Identity(), m);
    CellsEqual(Product(Identity(), m), m);
  }

  /** The identity is a right unit of the product. */
  lemma IdentityRightUnit(m: Mat4)
    ensures Product(m, Identity()) == m
  {
    ProductCells(m, Identity());
    CellsEqual(Product(m, Identity()), m);
  }

  /** The product is not commutative: translating then scaling differs from scaling then translating. */
  lemma ProductNotCommutative()
    ensures Product(Translate(1.0, 0.0, 0.0), Scale(2.0, 1.0, 1.0)) != Product(Scale(2.0, 1.0, 1.0), Translate(1.0, 0.0, 0.0))
  {
    ProductCell(Translate(1.0, 0.0, 0.0), Scale(2.0, 1.0, 1.0), 0, 3);
    ProductCell(Scale(2.0, 1.0, 1.0), Translate(1.0, 0.0, 0.0), 0, 3);
  }

  /** The mat4 `==` is reflexive. */
  lemma ApproxEqualReflexive(m: Mat4)
    ensures ApproxEqual(m, m)
  {
  }

  /** Row 3 is `(0, 0, 0, 1)`: the matrix maps points to points with w = 1. */
  predicate Affine(m: Mat4) {
    m[3][0] == 0.0 && m[3][1] == 0.0 && m[3][2] == 0.0 && m[3][3] == 1.0
  }

  /** The rows 0 to 2 applied to `(v, 1)`, before any division by w. */
  function Applied(m: Mat4, v: Vec3): Vec3 {
    Vec3(RowDot(m, 0, v), RowDot(m, 1, v), RowDot(m, 2, v))
  }

  /**
   * What `vecMatrix` promises about its division: when w is 0 or 1 the
   * result is the raw row products, and otherwise the result times w is.
   */
  lemma VecMatrixDivision(m: Mat4, v: Vec3)
    ensures var w := RowDot(m, 3, v);
      (w == 0.0 || w == 1.0) ==> VecMatrix(m, v) == Applied(m, v)
    ensures var w := RowDot(m, 3, v);
      w != 0.0 && w != 1.0 ==> ScaledBy(VecMatrix(m, v), w) == Applied(m, v)
  {
  }

  /** An affine matrix maps a point by its rows alone: w is 1, nothing is divided. */
  lemma VecMatrixAffine(m: Mat4, v: Vec3)
    requires Affine(m)
    ensures RowDot(m, 3, v) == 1.0
    ensures VecMatrix(m, v) == Applied(m, v)
  {
  }

  /** The identity fixes every point. */
  lemma IdentityFixesPoint(v: Vec3)
    ensures VecMatrix(Identity(), v) == v
  {
  }

  /** `translate(tx, ty, tz)` moves a point by `(tx, ty, tz)`. */
  lemma TranslateMovesPoint(tx: real, ty: real, tz: real, v: Vec3)
    ensures Affine(Translate(tx, ty, tz))
    ensures VecMatrix(Translate(tx, ty, tz), v) == Plus(v, Vec3(tx, ty, tz))
  {
  }

  /** `scale(sx, sy, sz)` multiplies a point by the factors, component by component. */
  lemma ScaleScalesPoint(sx: real, sy: real, sz: real, v: Vec3)
    ensures Affine(Scale(sx, sy, sz))
    ensures VecMatrix(Scale(sx, sy, sz), v) == Hadamard(v, Vec3(sx, sy, sz))
  {
  }

  /** The product of two affine matrices is affine. */
  lemma ProductAffine(a: Mat4, b: Mat4)
    requires Affine(a) && Affine(b)
    ensures Affine(Product(a, b))
  {
    ProductCells(a, b);
  }

  /**
   * When the right-hand factor `b` is affine, `vecMatrix(a * b, v)` applies
   * `b` first and then `a`: the right-hand factor of a product acts first
   * on a point. `a` may divide by w, as `perspective` does.
   */
  lemma VecMatrixComposes(a: Mat4, b: Mat4, v: Vec3)
    requires Affine(b)
    ensures Affine(a) ==> Affine(Product(a, b))
    ensures VecMatrix(Product(a, b), v) == VecMatrix(a, VecMatrix(b, v))
  {
    if Affine(a) {
      ProductAffine(a, b);
    }
    ProductRow(a, b, v, 0);
    ProductRow(a, b, v, 1);
    ProductRow(a, b, v, 2);
    ProductRow(a, b, v, 3);
  }

  /** Row `i` of `a * b` applied to `v` is row `i` of `a` applied to `b`'s image of `v`, for an affine `b`. */
  lemma ProductRow(a: Mat4, b: Mat4, v: Vec3, i: nat)
    requires Affine(b) && i < 4
    ensures RowDot(Product(a, b), i, v) == RowDot(a, i, VecMatrix(b, v))
  {
    VecMatrixAffine(b, v);
    ProductCell(a, b, i, 0);
    ProductCell(a, b, i, 1);
    ProductCell(a, b, i, 2);
    ProductCell(a, b, i, 3);
    RowOfProduct(a[i][0], a[i][1], a[i][2], a[i][3],
      b[0][0], b[0][1], b[0][2], b[0][3],
      b[1][0], b[1][1], b[1][2], b[1][3],
      b[2][0], b[2][1], b[2][2], b[2][3],
      v.x, v.y, v.z);
  }

  /** One row of an affine product applied to a point, regrouped by the rows of the right factor. */
  lemma RowOfProduct(a0: real, a1: real, a2: real, a3: real,
                     b00: real, b01: real, b02: real, b03: real,
                     b10: real, b11: real, b12: real, b13: real,
                     b20: real, b21: real, b22: real, b23: real,
                     x: real, y: real, z: real)
    ensures (a0 * b00 + a1 * b10 + a2 * b20 + a3 * 0.0) * x
          + (a0 * b01 + a1 * b11 + a2 * b21 + a3 * 0.0) * y
          + (a0 * b02 + a1 * b12 + a2 * b22 + a3 * 0.0) * z
          + (a0 * b03 + a1 * b13 + a2 * b23 + a3 * 1.0)
         == a0 * (b00 * x + b01 * y + b02 * z + b03)
          + a1 * (b10 * x + b11 * y + b12 * z + b13)
          + a2 * (b20 * x + b21 * y + b22 * z + b23)
          + a3
  {
  }

  /** Affine, and column 3 of rows 0 to 2 is zero: the matrix fixes the origin. */
  predicate Linear(m: Mat4) {
    Affine(m) && m[0][3] == 0.0 && m[1][3] == 0.0 && m[2][3] == 0.0
  }

  /** The product of two linear matrices is linear. */
  lemma ProductLinear(a: Mat4, b: Mat4)
    requires Linear(a) && Linear(b)
    ensures Linear(Product(a, b))
  {
    ProductCells(a, b);
  }

  /** A linear matrix maps the origin to the origin. */
  lemma LinearFixesOrigin(m: Mat4)
    requires Linear(m)
    ensures VecMatrix(m, Zero()) == Zero()
  {
  }

  /** The three elementary rotations are linear. */
  lemma RotationsLinear(lib: MathLib, rad: real)
    ensures Linear(RotX(lib, rad)) && Linear(RotY(lib, rad)) && Linear(RotZ(lib, rad))
  {
  }

  /** Under sin^2 + cos^2 = 1, each elementary rotation keeps the squared length of a point. */
  lemma RotationsKeepLength(lib: MathLib, rad: real, v: Vec3)
    requires Pythagorean(lib)
    ensures Dot(VecMatrix(RotX(lib, rad), v), VecMatrix(RotX(lib, rad), v)) == Dot(v, v)
    ensures Dot(VecMatrix(RotY(lib, rad), v), VecMatrix(RotY(lib, rad), v)) == Dot(v, v)
    ensures Dot(VecMatrix(RotZ(lib, rad), v), VecMatrix(RotZ(lib, rad), v)) == Dot(v, v)
  {
    RotXKeepsLength(lib, rad, v);
    RotYKeepsLength(lib, rad, v);
    RotZKeepsLength(lib, rad, v);
  }

  /** `rotX` turns a point in the y-z plane and keeps its squared length. */
  lemma RotXKeepsLength(lib: MathLib, rad: real, v: Vec3)
    requires Pythagorean(lib)
    ensures Dot(VecMatrix(RotX(lib, rad), v), VecMatrix(RotX(lib, rad), v)) == Dot(v, v)
  {
    var c, s := lib.cos(rad), lib.sin(rad);
    assert s * s + c * c == 1.0;
    var u := VecMatrix(RotX(lib, rad), v);
    assert u == Vec3(v.x, c * v.y - s * v.z, s * v.y + c * v.z);
    PlaneTurn(c, s, v.y, v.z, u.y, u.z);
  }

  /** `rotY` turns a point in the z-x plane and keeps its squared length. */
  lemma RotYKeepsLength(lib: MathLib, rad: real, v: Vec3)
    requires Pythagorean(lib)
    ensures Dot(VecMatrix(RotY(lib, rad), v), VecMatrix(RotY(lib, rad), v)) == Dot(v, v)
  {
    var c, s := lib.cos(rad), lib.sin(rad);
    assert s * s + c * c == 1.0;
    var u := VecMatrix(RotY(lib, rad), v);
    assert u == Vec3(s * v.z + c * v.x, v.y, c * v.z - s * v.x);
    PlaneTurn(c, s, v.z, v.x, u.z, u.x);
  }

  /** `rotZ` turns a point in the x-y plane and keeps its squared length. */
  lemma RotZKeepsLength(lib: MathLib, rad: real, v: Vec3)
    requires Pythagorean(lib)
    ensures Dot(VecMatrix(RotZ(lib, rad), v), VecMatrix(RotZ(lib, rad), v)) == Dot(v, v)
  {
    var c, s := lib.cos(rad), lib.sin(rad);
    assert s * s + c * c == 1.0;
    var u := VecMatrix(RotZ(lib, rad), v);
    assert u == Vec3(c * v.x - s * v.y, s * v.x + c * v.y, v.z);
    PlaneTurn(c, s, v.x, v.y, u.x, u.y);
  }

  /** Turning `(p, q)` to `(p2, q2)` by a unit `(c, s)` keeps `p^2 + q^2`. */
  lemma PlaneTurn(c: real, s: real, p: real, q: real, p2: real, q2: real)
    requires s * s + c * c == 1.0
    requires p2 == c * p - s * q && q2 == s * p + c * q
    ensures p2 * p2 + q2 * q2 == p * p + q * q
  {
    PlaneRotation(c, s, p, q);
  }

  /** A rotation by (c, s) in one plane scales the squared length by s^2 + c^2. */
  lemma PlaneRotation(c: real, s: real, p: real, q: real)
    ensures (c * p - s * q) * (c * p - s * q) + (s * p + c * q) * (s * p + c * q)
         == (s * s + c * c) * (p * p + q * q)
  {
  }

  /** Under sin 0 = 0 and cos 0 = 1, the elementary rotations by zero are the identity. */
  lemma RotationsAtZero(lib: MathLib)
    requires TrigAtZero(lib)
    ensures RotX(lib, 0.0) == Identity() && RotY(lib, 0.0) == Identity() && RotZ(lib, 0.0) == Identity()
  {
  }

  /**
   * `rotate(angleX, angleY, angleZ)` turns a point about X first, then
   * about Y, then about Z.
   */
  lemma RotateOrder(lib: MathLib, angleX: real, angleY: real, angleZ: real, v: Vec3)
    ensures Linear(Rotate(lib, angleX, angleY, angleZ))
    ensures VecMatrix(Rotate(lib, angleX, angleY, angleZ), v)
         == VecMatrix(RotZ(lib, angleZ * (PI / 180.0)),
              VecMatrix(RotY(lib, angleY * (PI / 180.0)),
                VecMatrix(RotX(lib, angleX * (PI / 180.0)), v)))
  {
    var rx := RotX(lib, angleX * (PI / 180.0));
    var ry := RotY(lib, angleY * (PI / 180.0));
    var rz := RotZ(lib, angleZ * (PI / 180.0));
    RotationsLinear(lib, angleX * (PI / 180.0));
    RotationsLinear(lib, angleY * (PI / 180.0));
    RotationsLinear(lib, angleZ * (PI / 180.0));
    ProductLinear(rz, ry);
    ProductLinear(Product(rz, ry), rx);
    VecMatrixComposes(Product(rz, ry), rx, v);
    VecMatrixComposes(rz, ry, VecMatrix(rx, v));
  }

  /** Under sin^2 + cos^2 = 1, `rotate` keeps the squared length of every point. */
  lemma RotateKeepsLength(lib: MathLib, angleX: real, angleY: real, angleZ: real, v: Vec3)
    requires Pythagorean(lib)
    ensures Dot(VecMatrix(Rotate(lib, angleX, angleY, angleZ), v), VecMatrix(Rotate(lib, angleX, angleY, angleZ), v)) == Dot(v, v)
  {
    RotateOrder(lib, angleX, angleY, angleZ, v);
    TurnsKeepLength(lib, angleX * (PI / 180.0), angleY * (PI / 180.0), angleZ * (PI / 180.0), v);
  }

  /** Turning about X, then Y, then Z keeps the squared length. */
  lemma TurnsKeepLength(lib: MathLib, radX: real, radY: real, radZ: real, v: Vec3)
    requires Pythagorean(lib)
    ensures var u := VecMatrix(RotZ(lib, radZ), VecMatrix(RotY(lib, radY), VecMatrix(RotX(lib, radX), v)));
      Dot(u, u) == Dot(v, v)
  {
    var u1 := VecMatrix(RotX(lib, radX), v);
    var u2 := VecMatrix(RotY(lib, radY), u1);
    RotationsKeepLength(lib, radX, v);
    RotationsKeepLength(lib, radY, u1);
    RotationsKeepLength(lib, radZ, u2);
  }

  /** Under sin 0 = 0 and cos 0 = 1, `rotate(0, 0, 0)` is the identity. */
  lemma RotateAtZero(lib: MathLib)
    requires TrigAtZero(lib)
    ensures Rotate(lib, 0.0, 0.0, 0.0) == Identity()
  {
    RotationsAtZero(lib);
    IdentityLeftUnit(Identity());
  }

  /**
   * `modelMatrix(trans, rot, s)` acts on a point by translating it first,
   * then rotating, then scaling.
   */
  lemma ModelMatrixOrder(lib: MathLib, trans: Vec3, rot: Vec3, s: Vec3, v: Vec3)
    ensures Affine(ModelMatrix(lib, trans, rot, s))
    ensures VecMatrix(ModelMatrix(lib, trans, rot, s), v)
         == Hadamard(VecMatrix(Rotate(lib, rot.x, rot.y, rot.z), Plus(v, trans)), s)
  {
    var sc := Scale(s.x, s.y, s.z);
    var r := Rotate(lib, rot.x, rot.y, rot.z);
    var t := Translate(trans.x, trans.y, trans.z);
    RotateOrder(lib, rot.x, rot.y, rot.z, v);
    ScaleScalesPoint(s.x, s.y, s.z, v);
    TranslateMovesPoint(trans.x, trans.y, trans.z, v);
    ProductAffine(sc, r);
    VecMatrixComposes(Product(sc, r), t, v);
    VecMatrixComposes(sc, r, VecMatrix(t, v));
    ScaleScalesPoint(s.x, s.y, s.z, VecMatrix(r, VecMatrix(t, v)));
  }

  /** Under sin 0 = 0 and cos 0 = 1, the model matrix of an object at rest is the identity. */
  lemma ModelMatrixAtRest(lib: MathLib)
    requires TrigAtZero(lib)
    ensures ModelMatrix(lib, Zero(), Zero(), Vec3(1.0, 1.0, 1.0)) == Identity()
  {
    RotateAtZero(lib);
    IdentityLeftUnit(Identity());
  }

  /**
   * `viewMatrix(position, rotation)` moves a point by minus the camera
   * position, then rotates it.
   */
  lemma ViewMatrixOrder(lib: MathLib, position: Vec3, rotation: Vec3, v: Vec3)
    ensures Affine(ViewMatrix(lib, position, rotation))
    ensures VecMatrix(ViewMatrix(lib, position, rotation), v)
         == VecMatrix(Rotate(lib, rotation.x, rotation.y, rotation.z), Minus(v, position))
  {
    var r := Rotate(lib, rotation.x, rotation.y, rotation.z);
    var t := Translate(-position.x, -position.y, -position.z);
    RotateOrder(lib, rotation.x, rotation.y, rotation.z, v);
    TranslateMovesPoint(-position.x, -position.y, -position.z, v);
    VecMatrixComposes(r, t, v);
  }

  /** The view matrix takes the camera position to the origin, whatever the rotation. */
  lemma ViewMatrixCentersCamera(lib: MathLib, position: Vec3, rotation: Vec3)
    ensures VecMatrix(ViewMatrix(lib, position, rotation), position) == Zero()
  {
    ViewMatrixOrder(lib, position, rotation, position);
    RotateOrder(lib, rotation.x, rotation.y, rotation.z, position);
    assert Minus(position, position) == Zero();
    LinearFixesOrigin(Rotate(lib, rotation.x, rotation.y, rotation.z));
  }

  /** `perspective` copies the depth of a point into w. */
  lemma PerspectiveW(lib: MathLib, fov: real, aspect: real, near: real, far: real, v: Vec3)
    requires lib.tan(fov * (PI / 360.0)) != 0.0 && aspect != 0.0 && far != near
    ensures RowDot(Perspective(lib, fov, aspect, near, far), 3, v) == v.z
  {
  }

  /**
   * Projecting a point seen from the camera: `perspective * view` applies
   * the view matrix first and then the projection, with its divide by w.
   */
  lemma PerspectiveAfterView(lib: MathLib, fov: real, aspect: real, near: real, far: real,
                             position: Vec3, rotation: Vec3, v: Vec3)
    requires lib.tan(fov * (PI / 360.0)) != 0.0 && aspect != 0.0 && far != near
    ensures VecMatrix(Product(Perspective(lib, fov, aspect, near, far), ViewMatrix(lib, position, rotation)), v)
         == VecMatrix(Perspective(lib, fov, aspect, near, far), VecMatrix(ViewMatrix(lib, position, rotation), v))
  {
    ViewMatrixOrder(lib, position, rotation, v);
    VecMatrixComposes(Perspective(lib, fov, aspect, near, far), ViewMatrix(lib, position, rotation), v);
  }

  /**
   * After the division by w, `perspective` maps depth `near` to 0 and, for
   * a non-zero `far`, depth `far` to 1 (the depth range of a Vulkan clip
   * space), whatever x and y are.
   */
  lemma PerspectiveNearFar(lib: MathLib, fov: real, aspect: real, near: real, far: real, x: real, y: real)
    requires lib.tan(fov * (PI / 360.0)) != 0.0 && aspect != 0.0 && far != near
    requires far != 0.0
    ensures VecMatrix(Perspective(lib, fov, aspect, near, far), Vec3(x, y, near)).z == 0.0
    ensures VecMatrix(Perspective(lib, fov, aspect, near, far), Vec3(x, y, far)).z == 1.0
  {
    var p := Perspective(lib, fov, aspect, near, far);
    var atNear, atFar := Vec3(x, y, near), Vec3(x, y, far);
    assert RowDot(p, 2, atNear) == 0.0 && RowDot(p, 3, atNear) == near by {
      DepthAtNear(near, far);
    }
    assert RowDot(p, 2, atFar) == far && RowDot(p, 3, atFar) == far by {
      DepthAtFar(near, far);
    }
    if near != 0.0 && near != 1.0 {
      ZeroOver(near);
      assert VecMatrix(p, atNear).z == RowDot(p, 2, atNear) / near;
    }
    SelfOver(far);
  }

  /**
   * For `0 < near < far`, every depth between the planes lands in [0, 1]
   * after the division by w.
   */
  lemma PerspectiveDepthInRange(lib: MathLib, fov: real, aspect: real, near: real, far: real, v: Vec3)
    requires lib.tan(fov * (PI / 360.0)) != 0.0 && aspect != 0.0
    requires 0.0 < near < far && near <= v.z <= far
    ensures 0.0 <= VecMatrix(Perspective(lib, fov, aspect, near, far), v).z <= 1.0
  {
    var raw := RowDot(Perspective(lib, fov, aspect, near, far), 2, v);
    assert raw == (far / (far - near)) * v.z + -(far * near) / (far - near);
    RawDepthBounds(near, far, v.z);
    if v.z != 1.0 {
      RatioInUnit(raw, v.z);
    }
  }

  lemma DepthAtNear(near: real, far: real)
    requires far != near
    ensures (far / (far - near)) * near + -(far * near) / (far - near) == 0.0
  {
    var u := 1.0 / (far - near);
    DivAsMul(far, far - near);
    DivAsMul(-(far * near), far - near);
    calc {
      (far / (far - near)) * near + -(far * near) / (far - near);
      (far * u) * near + (-(far * near)) * u;
      0.0;
    }
  }

  lemma DepthAtFar(near: real, far: real)
    requires far != near
    ensures (far / (far - near)) * far + -(far * near) / (far - near) == far
  {
    var u := 1.0 / (far - near);
    DivAsMul(far, far - near);
    DivAsMul(-(far * near), far - near);
    MulInverse(far - near);
    calc {
      (far / (far - near)) * far + -(far * near) / (far - near);
      (far * u) * far + (-(far * near)) * u;
      far * ((far - near) * u);
      far;
    }
  }

  /** The raw depth row at a depth between the planes lies between 0 and that depth. */
  lemma RawDepthBounds(near: real, far: real, z: real)
    requires 0.0 < near < far && near <= z <= far
    ensures 0.0 <= (far / (far - near)) * z + -(far * near) / (far - near) <= z
  {
    var g := far - near;
    var u := 1.0 / g;
    DivAsMul(far, g);
    DivAsMul(-(far * near), g);
    MulInverse(g);
    InversePositive(g);
    var raw := (far / g) * z + -(far * near) / g;
    assert raw == u * (far * (z - near)) by {
      assert raw == (far * u) * z + (-(far * near)) * u;
    }
    NonNegativeProduct(u, far * (z - near));
    assert far * (z - near) <= z * g by {
      assert z * g - far * (z - near) == near * (far - z);
      NonNegativeProduct(near, far - z);
    }
    MonotoneProduct(u, far * (z - near), z * g);
    assert u * (z * g) == z * (g * u);
  }

  lemma NonNegativeProduct(a: real, b: real)
    requires 0.0 <= a && 0.0 <= b
    ensures 0.0 <= a * b
  {
  }

  lemma MonotoneProduct(u: real, a: real, b: real)
    requires 0.0 <= u && a <= b
    ensures u * a <= u * b
  {
    NonNegativeProduct(u, b - a);
  }

  lemma ZeroOver(d: real)
    requires d != 0.0
    ensures 0.0 / d == 0.0
  {
  }

  lemma SelfOver(d: real)
    requires d != 0.0
    ensures d / d == 1.0
  {
  }
}
