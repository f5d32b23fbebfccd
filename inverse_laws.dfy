/**
 * `mat4::inverseMatrix`: what it returns for a singular block, the inverse
 * laws it satisfies, and for which matrices. The header stores translations
 * in column 3 (`translate`, `vecMatrix`), but `inverseMatrix` reads the
 * translation from row 3; `AffineInverse` is the inverse for the column-3
 * layout, with the same 3x3 block.
 */
module InverseLaws {
  import opened Numerics
  import opened Vectors
  import opened Matrices
  import opened MatrixLaws

  /** Column 3 is `(0, 0, 0, 1)`: the layout whose translation sits in row 3. */
  predicate RowTranslated(m: Mat4) {
    m[0][3] == 0.0 && m[1][3] == 0.0 && m[2][3] == 0.0 && m[3][3] == 1.0
  }

  /**
   * The inverse for the column-3 layout of `translate` and `vecMatrix`: the
   * same 3x3 block as `inverseMatrix`, the translation `-block * t` in
   * column 3, and row 3 `(0, 0, 0, 1)`; a singular block gives `m` back.
   */
  function AffineInverse(m: Mat4): Mat4 {
    if Det3(m) == 0.0 then m else AffineCells(InverseMatrix(m), m)
  }

  /** The block of `r`, column 3 equal to minus that block applied to column 3 of `m`, and row 3 `(0, 0, 0, 1)`. */
  function AffineCells(r: Mat4, m: Mat4): Mat4 {
    var t0, t1, t2 := m[0][3], m[1][3], m[2][3];
    [[r[0][0], r[0][1], r[0][2], -(r[0][0] * t0 + r[0][1] * t1 + r[0][2] * t2)],
     [r[1][0], r[1][1], r[1][2], -(r[1][0] * t0 + r[1][1] * t1 + r[1][2] * t2)],
     [r[2][0], r[2][1], r[2][2], -(r[2][0] * t0 + r[2][1] * t1 + r[2][2] * t2)],
     [0.0, 0.0, 0.0, 1.0]]
  }

  /** A singular 3x3 block makes `inverseMatrix` return its argument unchanged. */
  lemma InverseSingular(m: Mat4)
    requires Det3(m) == 0.0
    ensures InverseMatrix(m) == m
    ensures AffineInverse(m) == m
  {
  }

  /** For a non-singular block, column 3 of `inverseMatrix(m)` is `(0, 0, 0, 1)`, whatever `m` holds there. */
  lemma InverseColumnThree(m: Mat4)
    requires Det3(m) != 0.0
    ensures RowTranslated(InverseMatrix(m))
  {
  }

  /** A non-singular `inverseMatrix(m)` is `InverseCells` at the reciprocal of the determinant. */
  lemma InverseIsCells(m: Mat4)
    requires Det3(m) != 0.0
    ensures Det3(m) * (1.0 / Det3(m)) == 1.0
    ensures InverseMatrix(m) == InverseCells(m, 1.0 / Det3(m))
  {
    MulInverse(Det3(m));
  }

  /** For a non-singular block, the block of `inverseMatrix(m)` inverts the block of `m` on both sides. */
  lemma InverseBlock(m: Mat4)
    requires Det3(m) != 0.0
    ensures BlockInverse(InverseMatrix(m), m) && BlockInverse(m, InverseMatrix(m))
  {
    InverseIsCells(m);
    CellsBlock(m, 1.0 / Det3(m));
  }

  /** Row `i` of the 3x3 block of `a` times column `j` of the 3x3 block of `b`. */
  function BlockCell(a: Mat4, b: Mat4, i: nat, j: nat): real
    requires i < 3 && j < 3
  {
    a[i][0] * b[0][j] + a[i][1] * b[1][j] + a[i][2] * b[2][j]
  }

  /** The 3x3 blocks of `a` and `b` multiply to the 3x3 identity. */
  predicate BlockInverse(a: Mat4, b: Mat4) {
    forall i: nat, j: nat {:trigger BlockCell(a, b, i, j)} :: i < 3 && j < 3 ==> BlockCell(a, b, i, j) == Kronecker(i, j)
  }

  /** Row 3 of `r` is minus row 3 of `m` carried through the block of `r`: the layout of `inverseMatrix`. */
  predicate BackSubstituted(r: Mat4, m: Mat4) {
    forall j :: 0 <= j < 3 ==> r[3][j] == -r[0][j] * m[3][0] - r[1][j] * m[3][1] - r[2][j] * m[3][2]
  }

  /** Column 3 of `r` is minus the block of `r` applied to column 3 of `m`: the layout of `AffineInverse`. */
  predicate ColumnSubstituted(r: Mat4, m: Mat4) {
    forall i :: 0 <= i < 3 ==> r[i][3] == -(r[i][0] * m[0][3] + r[i][1] * m[1][3] + r[i][2] * m[2][3])
  }

  /** The 3x3 block of `InverseCells(m, u)` is a two-sided inverse of the block of `m` when `u * det == 1`. */
  lemma CellsBlock(m: Mat4, u: real)
    requires u * Det3(m) == 1.0
    ensures BlockInverse(InverseCells(m, u), m)
    ensures BlockInverse(m, InverseCells(m, u))
  {
    var r := InverseCells(m, u);
    CellsBlockRow0(m, u);
    CellsBlockRow1(m, u);
    CellsBlockRow2(m, u);
    CellsBlockColumn0(m, u);
    CellsBlockColumn1(m, u);
    CellsBlockColumn2(m, u);
    forall i: nat, j: nat | i < 3 && j < 3
      ensures BlockCell(r, m, i, j) == Kronecker(i, j) && BlockCell(m, r, i, j) == Kronecker(i, j)
    {
      assert i == 0 || i == 1 || i == 2;
      assert j == 0 || j == 1 || j == 2;
    }
  }

  lemma CellsBlockRow0(m: Mat4, u: real)
    requires u * Det3(m) == 1.0
    ensures BlockCell(InverseCells(m, u), m, 0, 0) == 1.0 && BlockCell(InverseCells(m, u), m, 0, 1) == 0.0 && BlockCell(InverseCells(m, u), m, 0, 2) == 0.0
  {
    var r := InverseCells(m, u);
    AdjugateRow0(m[0][0], m[0][1], m[0][2], m[1][0], m[1][1], m[1][2], m[2][0], m[2][1], m[2][2], Det3(m), u, r[0][0], r[0][1], r[0][2]);
  }

  lemma CellsBlockRow1(m: Mat4, u: real)
    requires u * Det3(m) == 1.0
    ensures BlockCell(InverseCells(m, u), m, 1, 0) == 0.0 && BlockCell(InverseCells(m, u), m, 1, 1) == 1.0 && BlockCell(InverseCells(m, u), m, 1, 2) == 0.0
  {
    var r := InverseCells(m, u);
    AdjugateRow1(m[0][0], m[0][1], m[0][2], m[1][0], m[1][1], m[1][2], m[2][0], m[2][1], m[2][2], Det3(m), u, r[1][0], r[1][1], r[1][2]);
  }

  lemma CellsBlockRow2(m: Mat4, u: real)
    requires u * Det3(m) == 1.0
    ensures BlockCell(InverseCells(m, u), m, 2, 0) == 0.0 && BlockCell(InverseCells(m, u), m, 2, 1) == 0.0 && BlockCell(InverseCells(m, u), m, 2, 2) == 1.0
  {
    var r := InverseCells(m, u);
    AdjugateRow2(m[0][0], m[0][1], m[0][2], m[1][0], m[1][1], m[1][2], m[2][0], m[2][1], m[2][2], Det3(m), u, r[2][0], r[2][1], r[2][2]);
  }

  lemma CellsBlockColumn0(m: Mat4, u: real)
    requires u * Det3(m) == 1.0
    ensures BlockCell(m, InverseCells(m, u), 0, 0) == 1.0 && BlockCell(m, InverseCells(m, u), 1, 0) == 0.0 && BlockCell(m, InverseCells(m, u), 2, 0) == 0.0
  {
    var r := InverseCells(m, u);
    AdjugateColumn0(m[0][0], m[0][1], m[0][2], m[1][0], m[1][1], m[1][2], m[2][0], m[2][1], m[2][2], Det3(m), u, r[0][0], r[1][0], r[2][0]);
  }

  lemma CellsBlockColumn1(m: Mat4, u: real)
    requires u * Det3(m) == 1.0
    ensures BlockCell(m, InverseCells(m, u), 0, 1) == 0.0 && BlockCell(m, InverseCells(m, u), 1, 1) == 1.0 && BlockCell(m, InverseCells(m, u), 2, 1) == 0.0
  {
    var r := InverseCells(m, u);
    AdjugateColumn1(m[0][0], m[0][1], m[0][2], m[1][0], m[1][1], m[1][2], m[2][0], m[2][1], m[2][2], Det3(m), u, r[0][1], r[1][1], r[2][1]);
  }

  lemma CellsBlockColumn2(m: Mat4, u: real)
    requires u * Det3(m) == 1.0
    ensures BlockCell(m, InverseCells(m, u), 0, 2) == 0.0 && BlockCell(m, InverseCells(m, u), 1, 2) == 0.0 && BlockCell(m, InverseCells(m, u), 2, 2) == 1.0
  {
    var r := InverseCells(m, u);
    AdjugateColumn2(m[0][0], m[0][1], m[0][2], m[1][0], m[1][1], m[1][2], m[2][0], m[2][1], m[2][2], Det3(m), u, r[0][2], r[1][2], r[2][2]);
  }

  /** The layout `inverseMatrix` gives its result: column 3 is `(0, 0, 0, 1)`, row 3 back-substituted. */
  lemma CellsLayout(m: Mat4, u: real)
    ensures RowTranslated(InverseCells(m, u))
    ensures BackSubstituted(InverseCells(m, u), m)
  {
  }

  /**
   * For a matrix whose column 3 is `(0, 0, 0, 1)` and whose block is not
   * singular, `inverseMatrix(m)` is a two-sided inverse.
   */
  lemma InverseLaws(m: Mat4)
    requires Det3(m) != 0.0 && RowTranslated(m)
    ensures Product(InverseMatrix(m), m) == Identity()
    ensures Product(m, InverseMatrix(m)) == Identity()
  {
    InverseIsCells(m);
    var r := InverseCells(m, 1.0 / Det3(m));
    CellsBlock(m, 1.0 / Det3(m));
    CellsLayout(m, 1.0 / Det3(m));
    LeftInverseFromBlock(r, m);
    RightInverseFromBlock(m, r);
  }

  /**
   * A left inverse of the block, with column 3 `(0, 0, 0, 1)` and row 3
   * back-substituted from row 3 of `m`, is a left inverse of `m` when
   * column 3 of `m` is `(0, 0, 0, 1)`.
   */
  lemma LeftInverseFromBlock(r: Mat4, m: Mat4)
    requires BlockInverse(r, m) && RowTranslated(r) && RowTranslated(m) && BackSubstituted(r, m)
    ensures Product(r, m) == Identity()
  {
    var p := Product(r, m);
    forall i: nat, j: nat | i < 4 && j < 4
      ensures p[i][j] == Identity()[i][j]
    {
      LeftInverseCell(r, m, i, j);
    }
    CellsEqual(p, Identity());
  }

  lemma LeftInverseCell(r: Mat4, m: Mat4, i: nat, j: nat)
    requires BlockInverse(r, m) && RowTranslated(r) && RowTranslated(m) && BackSubstituted(r, m)
    requires i < 4 && j < 4
    ensures Product(r, m)[i][j] == Kronecker(i, j)
  {
    ProductCell(r, m, i, j);
    if i < 3 && j < 3 {
      assert r[i][3] == 0.0 by { assert i == 0 || i == 1 || i == 2; }
      assert Product(r, m)[i][j] == BlockCell(r, m, i, j) + r[i][3] * m[3][j];
      assert BlockCell(r, m, i, j) == Kronecker(i, j);
    } else if i < 3 {
      assert r[i][3] == 0.0 by { assert i == 0 || i == 1 || i == 2; }
    } else if j < 3 {
      BackRowCell(r, m, j);
    }
  }

  lemma BackRowCell(r: Mat4, m: Mat4, j: nat)
    requires BlockInverse(r, m) && RowTranslated(r) && BackSubstituted(r, m) && j < 3
    ensures r[3][0] * m[0][j] + r[3][1] * m[1][j] + r[3][2] * m[2][j] + m[3][j] == 0.0
  {
    var e0, e1, e2 := BlockCell(r, m, 0, j), BlockCell(r, m, 1, j), BlockCell(r, m, 2, j);
    BackSubstitution(r[0][0], r[0][1], r[0][2], r[1][0], r[1][1], r[1][2], r[2][0], r[2][1], r[2][2],
      m[3][0], m[3][1], m[3][2], m[0][j], m[1][j], m[2][j]);
    assert e0 * m[3][0] + e1 * m[3][1] + e2 * m[3][2] == m[3][j] by {
      assert e0 == Kronecker(0, j) && e1 == Kronecker(1, j) && e2 == Kronecker(2, j);
      assert j == 0 || j == 1 || j == 2;
    }
  }

  /** The same layout is a right inverse when the block is a right inverse. */
  lemma RightInverseFromBlock(m: Mat4, r: Mat4)
    requires BlockInverse(m, r) && RowTranslated(r) && RowTranslated(m) && BackSubstituted(r, m)
    ensures Product(m, r) == Identity()
  {
    var p := Product(m, r);
    forall i: nat, j: nat | i < 4 && j < 4
      ensures p[i][j] == Identity()[i][j]
    {
      RightInverseCell(m, r, i, j);
    }
    CellsEqual(p, Identity());
  }

  lemma RightInverseCell(m: Mat4, r: Mat4, i: nat, j: nat)
    requires BlockInverse(m, r) && RowTranslated(r) && RowTranslated(m) && BackSubstituted(r, m)
    requires i < 4 && j < 4
    ensures Product(m, r)[i][j] == Kronecker(i, j)
  {
    ProductCell(m, r, i, j);
    if i < 3 && j < 3 {
      assert m[i][3] == 0.0 by { assert i == 0 || i == 1 || i == 2; }
      assert Product(m, r)[i][j] == BlockCell(m, r, i, j) + m[i][3] * r[3][j];
      assert BlockCell(m, r, i, j) == Kronecker(i, j);
    } else if i < 3 {
      assert m[i][3] == 0.0 by { assert i == 0 || i == 1 || i == 2; }
    } else if j < 3 {
      assert r[3][j] == -r[0][j] * m[3][0] - r[1][j] * m[3][1] - r[2][j] * m[3][2];
    }
  }

  /**
   * `inverseMatrix` reads the translation from row 3, so for the output of
   * `translate`, which keeps it in column 3, the translation is dropped and
   * the result is the identity.
   */
  lemma InverseDropsTranslation(tx: real, ty: real, tz: real)
    ensures InverseMatrix(Translate(tx, ty, tz)) == Identity()
  {
    assert Det3(Translate(tx, ty, tz)) == 1.0;
  }

  /** Hence `inverseMatrix(translate(t)) * translate(t)` is not the identity for any non-zero `t`. */
  lemma InverseOfTranslateIsNotInverse(tx: real, ty: real, tz: real)
    requires tx != 0.0 || ty != 0.0 || tz != 0.0
    ensures Product(InverseMatrix(Translate(tx, ty, tz)), Translate(tx, ty, tz)) != Identity()
  {
    InverseDropsTranslation(tx, ty, tz);
    IdentityLeftUnit(Translate(tx, ty, tz));
    assert Translate(tx, ty, tz)[0][3] == tx;
    assert Translate(tx, ty, tz)[1][3] == ty;
  }

  /** `AffineInverse(m)` has the affine layout and the substituted column 3. */
  lemma AffineInverseLayout(m: Mat4)
    requires Det3(m) != 0.0
    ensures Affine(AffineInverse(m)) && ColumnSubstituted(AffineInverse(m), m)
  {
    AffineCellsLayout(InverseMatrix(m), m);
  }

  /** `AffineCells(r, m)` keeps the block of `r` and has the affine, column-substituted layout. */
  lemma AffineCellsLayout(r: Mat4, m: Mat4)
    ensures Affine(AffineCells(r, m)) && ColumnSubstituted(AffineCells(r, m), m)
    ensures forall k, l :: 0 <= k < 3 && 0 <= l < 3 ==> AffineCells(r, m)[k][l] == r[k][l]
  {
  }

  /** `AffineInverse(m)` has the 3x3 block of `inverseMatrix(m)`, so it inverts the block of `m`. */
  lemma AffineInverseBlock(m: Mat4)
    requires Det3(m) != 0.0
    ensures BlockInverse(AffineInverse(m), m) && BlockInverse(m, AffineInverse(m))
  {
    var a, r := AffineInverse(m), InverseMatrix(m);
    InverseBlock(m);
    AffineCellsLayout(r, m);
    forall i: nat, j: nat | i < 3 && j < 3
      ensures BlockCell(a, m, i, j) == Kronecker(i, j) && BlockCell(m, a, i, j) == Kronecker(i, j)
    {
      SameBlockCell(a, r, m, i, j);
    }
  }

  /** Two matrices with the same 3x3 block give the same block products. */
  lemma SameBlockCell(a: Mat4, r: Mat4, m: Mat4, i: nat, j: nat)
    requires i < 3 && j < 3
    requires forall k, l :: 0 <= k < 3 && 0 <= l < 3 ==> a[k][l] == r[k][l]
    ensures BlockCell(a, m, i, j) == BlockCell(r, m, i, j)
    ensures BlockCell(m, a, i, j) == BlockCell(m, r, i, j)
  {
    assert a[i][0] == r[i][0] && a[i][1] == r[i][1] && a[i][2] == r[i][2];
    assert a[0][j] == r[0][j] && a[1][j] == r[1][j] && a[2][j] == r[2][j];
  }

  /**
   * For an affine `m` (row 3 `(0, 0, 0, 1)`) with a non-singular block,
   * `AffineInverse(m)` is a two-sided inverse.
   */
  lemma AffineInverseLaws(m: Mat4)
    requires Det3(m) != 0.0 && Affine(m)
    ensures Product(AffineInverse(m), m) == Identity()
    ensures Product(m, AffineInverse(m)) == Identity()
  {
    AffineInverseLayout(m);
    AffineInverseBlock(m);
    LeftColumnInverse(AffineInverse(m), m);
    RightColumnInverse(m, AffineInverse(m));
  }

  /** `vecMatrix` with `AffineInverse(m)` takes back what `vecMatrix` with `m` did to a point. */
  lemma AffineInverseUndoesVecMatrix(m: Mat4, v: Vec3)
    requires Det3(m) != 0.0 && Affine(m)
    ensures VecMatrix(AffineInverse(m), VecMatrix(m, v)) == v
  {
    AffineInverseLayout(m);
    AffineInverseLaws(m);
    VecMatrixComposes(AffineInverse(m), m, v);
    IdentityFixesPoint(v);
  }

  /** The corrected inverse of `translate(t)` is `translate(-t)`. */
  lemma AffineInverseOfTranslate(tx: real, ty: real, tz: real)
    ensures AffineInverse(Translate(tx, ty, tz)) == Translate(-tx, -ty, -tz)
  {
    var t := Translate(tx, ty, tz);
    assert Det3(t) == 1.0;
    InverseDropsTranslation(tx, ty, tz);
    var a := AffineInverse(t);
    assert a[0][3] == -tx && a[1][3] == -ty && a[2][3] == -tz;
    CellsEqual(a, Translate(-tx, -ty, -tz));
  }

  /**
   * A left inverse of the block, with row 3 `(0, 0, 0, 1)` and column 3
   * minus the block applied to column 3 of `m`, is a left inverse of the
   * affine `m`.
   */
  lemma LeftColumnInverse(r: Mat4, m: Mat4)
    requires BlockInverse(r, m) && Affine(r) && Affine(m) && ColumnSubstituted(r, m)
    ensures Product(r, m) == Identity()
  {
    var p := Product(r, m);
    forall i: nat, j: nat | i < 4 && j < 4
      ensures p[i][j] == Identity()[i][j]
    {
      LeftColumnCell(r, m, i, j);
    }
    CellsEqual(p, Identity());
  }

  lemma LeftColumnCell(r: Mat4, m: Mat4, i: nat, j: nat)
    requires BlockInverse(r, m) && Affine(r) && Affine(m) && ColumnSubstituted(r, m)
    requires i < 4 && j < 4
    ensures Product(r, m)[i][j] == Kronecker(i, j)
  {
    ProductCell(r, m, i, j);
    if i < 3 && j < 3 {
      assert m[3][j] == 0.0 by { assert j == 0 || j == 1 || j == 2; }
      assert Product(r, m)[i][j] == BlockCell(r, m, i, j) + r[i][3] * m[3][j];
      assert BlockCell(r, m, i, j) == Kronecker(i, j);
    } else if i < 3 {
      assert r[i][3] == -(r[i][0] * m[0][3] + r[i][1] * m[1][3] + r[i][2] * m[2][3]);
    } else {
      assert r[3][0] == 0.0 && r[3][1] == 0.0 && r[3][2] == 0.0 && r[3][3] == 1.0;
    }
  }

  /** The same layout is a right inverse of the affine `m` when the block is a right inverse. */
  lemma RightColumnInverse(m: Mat4, r: Mat4)
    requires BlockInverse(m, r) && Affine(r) && Affine(m) && ColumnSubstituted(r, m)
    ensures Product(m, r) == Identity()
  {
    var p := Product(m, r);
    forall i: nat, j: nat | i < 4 && j < 4
      ensures p[i][j] == Identity()[i][j]
    {
      RightColumnCell(m, r, i, j);
    }
    CellsEqual(p, Identity());
  }

  lemma RightColumnCell(m: Mat4, r: Mat4, i: nat, j: nat)
    requires BlockInverse(m, r) && Affine(r) && Affine(m) && ColumnSubstituted(r, m)
    requires i < 4 && j < 4
    ensures Product(m, r)[i][j] == Kronecker(i, j)
  {
    ProductCell(m, r, i, j);
    if i < 3 && j < 3 {
      assert r[3][j] == 0.0 by { assert j == 0 || j == 1 || j == 2; }
      assert Product(m, r)[i][j] == BlockCell(m, r, i, j) + m[i][3] * r[3][j];
      assert BlockCell(m, r, i, j) == Kronecker(i, j);
    } else if i < 3 {
      TranslationCancels(m, r, i);
    } else {
      assert m[3][0] == 0.0 && m[3][1] == 0.0 && m[3][2] == 0.0 && m[3][3] == 1.0;
    }
  }

  /** Row `i` of `m` times column 3 of `r` cancels the translation of `m`. */
  lemma TranslationCancels(m: Mat4, r: Mat4, i: nat)
    requires BlockInverse(m, r) && ColumnSubstituted(r, m) && i < 3
    ensures m[i][0] * r[0][3] + m[i][1] * r[1][3] + m[i][2] * r[2][3] + m[i][3] == 0.0
  {
    var e0, e1, e2 := BlockCell(m, r, i, 0), BlockCell(m, r, i, 1), BlockCell(m, r, i, 2);
    assert r[0][3] == -(r[0][0] * m[0][3] + r[0][1] * m[1][3] + r[0][2] * m[2][3]);
    assert r[1][3] == -(r[1][0] * m[0][3] + r[1][1] * m[1][3] + r[1][2] * m[2][3]);
    assert r[2][3] == -(r[2][0] * m[0][3] + r[2][1] * m[1][3] + r[2][2] * m[2][3]);
    ForwardSubstitution(m[i][0], m[i][1], m[i][2], r[0][0], r[0][1], r[0][2], r[1][0], r[1][1], r[1][2],
      r[2][0], r[2][1], r[2][2], m[0][3], m[1][3], m[2][3], r[0][3], r[1][3], r[2][3], e0, e1, e2);
    assert e0 * m[0][3] + e1 * m[1][3] + e2 * m[2][3] == m[i][3] by {
      assert e0 == Kronecker(i, 0) && e1 == Kronecker(i, 1) && e2 == Kronecker(i, 2);
      assert i == 0 || i == 1 || i == 2;
    }
  }

  /** A row `a` times the column `c = -(b * t)`, where `a * b` is the row `e`. */
  lemma ForwardSubstitution(a0: real, a1: real, a2: real,
                            b00: real, b01: real, b02: real, b10: real, b11: real, b12: real,
                            b20: real, b21: real, b22: real, t0: real, t1: real, t2: real,
                            c0: real, c1: real, c2: real, e0: real, e1: real, e2: real)
    requires c0 == -(b00 * t0 + b01 * t1 + b02 * t2)
    requires c1 == -(b10 * t0 + b11 * t1 + b12 * t2)
    requires c2 == -(b20 * t0 + b21 * t1 + b22 * t2)
    requires a0 * b00 + a1 * b10 + a2 * b20 == e0
    requires a0 * b01 + a1 * b11 + a2 * b21 == e1
    requires a0 * b02 + a1 * b12 + a2 * b22 == e2
    ensures a0 * c0 + a1 * c1 + a2 * c2 == -(e0 * t0 + e1 * t1 + e2 * t2)
  {
    calc {
      a0 * c0 + a1 * c1 + a2 * c2;
      -((a0 * b00 + a1 * b10 + a2 * b20) * t0 + (a0 * b01 + a1 * b11 + a2 * b21) * t1 + (a0 * b02 + a1 * b12 + a2 * b22) * t2);
    }
  }

  /**
   * Row 3 of `inverseMatrix` (minus the translation row of `m` through the
   * block `b`) applied to a column `x`, regrouped by the rows of `b`.
   */
  lemma BackSubstitution(b00: real, b01: real, b02: real, b10: real, b11: real, b12: real,
                         b20: real, b21: real, b22: real, t0: real, t1: real, t2: real,
                         x0: real, x1: real, x2: real)
    ensures (-b00 * t0 - b10 * t1 - b20 * t2) * x0 + (-b01 * t0 - b11 * t1 - b21 * t2) * x1 + (-b02 * t0 - b12 * t1 - b22 * t2) * x2
         == -(t0 * (b00 * x0 + b01 * x1 + b02 * x2) + t1 * (b10 * x0 + b11 * x1 + b12 * x2) + t2 * (b20 * x0 + b21 * x1 + b22 * x2))
  {
  }

  /** Row 0 of the scaled adjugate times the block is row 0 of the identity. */
  lemma AdjugateRow0(a00: real, a01: real, a02: real, a10: real, a11: real, a12: real,
                 a20: real, a21: real, a22: real, det: real, u: real,
                 p0: real, p1: real, p2: real)
    requires det == a00 * (a11 * a22 - a12 * a21) + a01 * (a12 * a20 - a10 * a22) + a02 * (a10 * a21 - a11 * a20) && u * det == 1.0
    requires p0 == u * (a11 * a22 - a12 * a21) && p1 == u * (a02 * a21 - a01 * a22) && p2 == u * (a01 * a12 - a02 * a11)
    ensures p0 * a00 + p1 * a10 + p2 * a20 == 1.0
    ensures p0 * a01 + p1 * a11 + p2 * a21 == 0.0
    ensures p0 * a02 + p1 * a12 + p2 * a22 == 0.0
  {
  }

  /** Row 1 of the scaled adjugate times the block is row 1 of the identity. */
  lemma AdjugateRow1(a00: real, a01: real, a02: real, a10: real, a11: real, a12: real,
                 a20: real, a21: real, a22: real, det: real, u: real,
                 p0: real, p1: real, p2: real)
    requires det == a00 * (a11 * a22 - a12 * a21) + a01 * (a12 * a20 - a10 * a22) + a02 * (a10 * a21 - a11 * a20) && u * det == 1.0
    requires p0 == u * (a12 * a20 - a10 * a22) && p1 == u * (a00 * a22 - a02 * a20) && p2 == u * (a02 * a10 - a00 * a12)
    ensures p0 * a00 + p1 * a10 + p2 * a20 == 0.0
    ensures p0 * a01 + p1 * a11 + p2 * a21 == 1.0
    ensures p0 * a02 + p1 * a12 + p2 * a22 == 0.0
  {
  }

  /** Row 2 of the scaled adjugate times the block is row 2 of the identity. */
  lemma AdjugateRow2(a00: real, a01: real, a02: real, a10: real, a11: real, a12: real,
                 a20: real, a21: real, a22: real, det: real, u: real,
                 p0: real, p1: real, p2: real)
    requires det == a00 * (a11 * a22 - a12 * a21) + a01 * (a12 * a20 - a10 * a22) + a02 * (a10 * a21 - a11 * a20) && u * det == 1.0
    requires p0 == u * (a10 * a21 - a11 * a20) && p1 == u * (a01 * a20 - a00 * a21) && p2 == u * (a00 * a11 - a01 * a10)
    ensures p0 * a00 + p1 * a10 + p2 * a20 == 0.0
    ensures p0 * a01 + p1 * a11 + p2 * a21 == 0.0
    ensures p0 * a02 + p1 * a12 + p2 * a22 == 1.0
  {
  }

  /** The block times column 0 of the scaled adjugate is column 0 of the identity. */
  lemma AdjugateColumn0(a00: real, a01: real, a02: real, a10: real, a11: real, a12: real,
                 a20: real, a21: real, a22: real, det: real, u: real,
                 q0: real, q1: real, q2: real)
    requires det == a00 * (a11 * a22 - a12 * a21) + a01 * (a12 * a20 - a10 * a22) + a02 * (a10 * a21 - a11 * a20) && u * det == 1.0
    requires q0 == u * (a11 * a22 - a12 * a21) && q1 == u * (a12 * a20 - a10 * a22) && q2 == u * (a10 * a21 - a11 * a20)
    ensures a00 * q0 + a01 * q1 + a02 * q2 == 1.0
    ensures a10 * q0 + a11 * q1 + a12 * q2 == 0.0
    ensures a20 * q0 + a21 * q1 + a22 * q2 == 0.0
  {
  }

  /** The block times column 1 of the scaled adjugate is column 1 of the identity. */
  lemma AdjugateColumn1(a00: real, a01: real, a02: real, a10: real, a11: real, a12: real,
                 a20: real, a21: real, a22: real, det: real, u: real,
                 q0: real, q1: real, q2: real)
    requires det == a00 * (a11 * a22 - a12 * a21) + a01 * (a12 * a20 - a10 * a22) + a02 * (a10 * a21 - a11 * a20) && u * det == 1.0
    requires q0 == u * (a02 * a21 - a01 * a22) && q1 == u * (a00 * a22 - a02 * a20) && q2 == u * (a01 * a20 - a00 * a21)
    ensures a00 * q0 + a01 * q1 + a02 * q2 == 0.0
    ensures a10 * q0 + a11 * q1 + a12 * q2 == 1.0
    ensures a20 * q0 + a21 * q1 + a22 * q2 == 0.0
  {
  }

  /** The block times column 2 of the scaled adjugate is column 2 of the identity. */
  lemma AdjugateColumn2(a00: real, a01: real, a02: real, a10: real, a11: real, a12: real,
                 a20: real, a21: real, a22: real, det: real, u: real,
                 q0: real, q1: real, q2: real)
    requires det == a00 * (a11 * a22 - a12 * a21) + a01 * (a12 * a20 - a10 * a22) + a02 * (a10 * a21 - a11 * a20) && u * det == 1.0
    requires q0 == u * (a01 * a12 - a02 * a11) && q1 == u * (a02 * a10 - a00 * a12) && q2 == u * (a00 * a11 - a01 * a10)
    ensures a00 * q0 + a01 * q1 + a02 * q2 == 0.0
    ensures a10 * q0 + a11 * q1 + a12 * q2 == 0.0
    ensures a20 * q0 + a21 * q1 + a22 * q2 == 1.0
  {
  }
}
