/**
 * `forms::mat4` as an object: the `float m[4][4]` array and the members
 * that fill or update it with nested index loops. Each method is proved
 * against the value-level functions of module Matrices.
 */
module MatrixObjects {
  import opened Numerics
  import opened Matrices
  import opened MatrixLaws

  class Matrix {
    var m: array2<real>

    /** The array is 4x4. */
    ghost predicate Valid()
      reads this
    {
      m.Length0 == 4 && m.Length1 == 4
    }

    /** The cells of the array as a value. */
    ghost function Value(): Mat4
      reads this, m
      requires Valid()
    {
      [[m[0, 0], m[0, 1], m[0, 2], m[0, 3]],
       [m[1, 0], m[1, 1], m[1, 2], m[1, 3]],
       [m[2, 0], m[2, 1], m[2, 2], m[2, 3]],
       [m[3, 0], m[3, 1], m[3, 2], m[3, 3]]]
    }

    /** `mat4()`: every cell is 1 on the diagonal and 0 elsewhere. */
    constructor ()
      ensures Valid() && fresh(m)
      ensures Value() == Identity()
    {
      var a := new real[4, 4];
      var i := 0;
      while i < 4
        invariant 0 <= i <= 4
        invariant forall r, c :: 0 <= r < i && 0 <= c < 4 ==> a[r, c] == Kronecker(r, c)
      {
        var j := 0;
        while j < 4
          invariant 0 <= j <= 4
          invariant forall r, c :: 0 <= r < i && 0 <= c < 4 ==> a[r, c] == Kronecker(r, c)
          invariant forall c :: 0 <= c < j ==> a[i, c] == Kronecker(i, c)
        {
          a[i, j] := if i == j then 1.0 else 0.0;
          j := j + 1;
        }
        i := i + 1;
      }
      m := a;
    }

    /** `mat4(const mat4& other)`: a fresh array holding the cells of `other`. */
    constructor Copy(other: Matrix)
      requires other.Valid()
      ensures Valid() && fresh(m)
      ensures Value() == other.Value()
    {
      var a := new real[4, 4];
      var i := 0;
      while i < 4
        invariant 0 <= i <= 4
        invariant forall r, c :: 0 <= r < i && 0 <= c < 4 ==> a[r, c] == other.m[r, c]
      {
        var j := 0;
        while j < 4
          invariant 0 <= j <= 4
          invariant forall r, c :: 0 <= r < i && 0 <= c < 4 ==> a[r, c] == other.m[r, c]
          invariant forall c :: 0 <= c < j ==> a[i, c] == other.m[i, c]
        {
          a[i, j] := other.m[i, j];
          j := j + 1;
        }
        i := i + 1;
      }
      m := a;
    }

    /** `operator==`: a running flag, true exactly when every cell is within `EPSILON`. */
    method Equals(other: Matrix) returns (equal: bool)
      requires Valid() && other.Valid()
      ensures equal <==> ApproxEqual(Value(), other.Value())
    {
      equal := true;
      var i := 0;
      while i < 4
        invariant 0 <= i <= 4
        invariant equal <==> forall r, c :: 0 <= r < i && 0 <= c < 4 ==> Close(m[r, c], other.m[r, c])
      {
        var j := 0;
        while j < 4
          invariant 0 <= j <= 4
          invariant equal <==>
            (forall r, c :: 0 <= r < i && 0 <= c < 4 ==> Close(m[r, c], other.m[r, c])) &&
            (forall c :: 0 <= c < j ==> Close(m[i, c], other.m[i, c]))
        {
          equal := equal && Close(m[i, j], other.m[i, j]);
          j := j + 1;
        }
        i := i + 1;
      }
      assert forall r, c :: 0 <= r < 4 && 0 <= c < 4 ==> Value()[r][c] == m[r, c];
      assert forall r, c :: 0 <= r < 4 && 0 <= c < 4 ==> other.Value()[r][c] == other.m[r, c];
    }

    /**
     * The innermost loop of `operator*`: the running sum, over `k`, of
     * `m[i][k] * other.m[k][j]`.
     */
    method Cell(other: Matrix, i: nat, j: nat) returns (sum: real)
      requires Valid() && other.Valid() && i < 4 && j < 4
      ensures sum == RowCol(Value(), other.Value(), i, j, 4)
    {
      sum := 0.0;
      var k := 0;
      while k < 4
        invariant 0 <= k <= 4
        invariant sum == RowCol(Value(), other.Value(), i, j, k)
      {
        sum := sum + m[i, k] * other.m[k, j];
        k := k + 1;
      }
    }

    /**
     * `operator*`: a fresh matrix whose every cell is the running sum of its
     * row of this matrix and its column of `other`. Neither operand changes.
     */
    method Times(other: Matrix) returns (result: Matrix)
      requires Valid() && other.Valid()
      ensures fresh(result) && fresh(result.m) && result.Valid()
      ensures result.Value() == Product(Value(), other.Value())
    {
      var c := new real[4, 4];
      var i := 0;
      while i < 4
        invariant 0 <= i <= 4
        invariant forall r, s :: 0 <= r < i && 0 <= s < 4 ==> c[r, s] == RowCol(Value(), other.Value(), r, s, 4)
      {
        var j := 0;
        while j < 4
          invariant 0 <= j <= 4
          invariant forall r, s :: 0 <= r < i && 0 <= s < 4 ==> c[r, s] == RowCol(Value(), other.Value(), r, s, 4)
          invariant forall s :: 0 <= s < j ==> c[i, s] == RowCol(Value(), other.Value(), i, s, 4)
        {
          c[i, j] := Cell(other, i, j);
          j := j + 1;
        }
        i := i + 1;
      }
      result := new Matrix();
      result.m := c;
      CellsEqual(result.Value(), Product(Value(), other.Value()));
    }

    /**
     * `operator*=`: the product is built in a temporary and then copied
     * over this matrix's cells, so `other` may be this matrix itself.
     */
    method TimesAssign(other: Matrix)
      requires Valid() && other.Valid()
      modifies m
      ensures Valid()
      ensures Value() == Product(old(Value()), old(other.Value()))
    {
      var temp := Times(other);
      ghost var product := temp.Value();
      var i := 0;
      while i < 4
        invariant 0 <= i <= 4
        invariant Valid() && fresh(temp.m) && temp.Valid() && temp.Value() == product
        invariant forall r, c :: 0 <= r < i && 0 <= c < 4 ==> m[r, c] == temp.m[r, c]
      {
        var j := 0;
        while j < 4
          invariant 0 <= j <= 4
          invariant Valid() && fresh(temp.m) && temp.Valid() && temp.Value() == product
          invariant forall r, c :: 0 <= r < i && 0 <= c < 4 ==> m[r, c] == temp.m[r, c]
          invariant forall c :: 0 <= c < j ==> m[i, c] == temp.m[i, c]
        {
          m[i, j] := temp.m[i, j];
          j := j + 1;
        }
        i := i + 1;
      }
      CellsEqual(Value(), temp.Value());
    }

    /**
     * `mat4::translate(tx, ty, tz)`: a fresh matrix reset to the identity
     * cell by cell, then given the offsets in column 3.
     */
    static method Translate(tx: real, ty: real, tz: real) returns (result: Matrix)
      ensures fresh(result) && fresh(result.m) && result.Valid()
      ensures result.Value() == Matrices.Translate(tx, ty, tz)
    {
      result := new Matrix();
      var i := 0;
      while i < 4
        invariant 0 <= i <= 4
        invariant fresh(result.m) && result.Valid()
        invariant forall r, c :: 0 <= r < i && 0 <= c < 4 ==> result.m[r, c] == Kronecker(r, c)
      {
        var j := 0;
        while j < 4
          invariant 0 <= j <= 4
          invariant fresh(result.m) && result.Valid()
          invariant forall r, c :: 0 <= r < i && 0 <= c < 4 ==> result.m[r, c] == Kronecker(r, c)
          invariant forall c :: 0 <= c < j ==> result.m[i, c] == Kronecker(i, c)
        {
          if i == j {
            result.m[i, j] := 1.0;
          } else {
            result.m[i, j] := 0.0;
          }
          j := j + 1;
        }
        i := i + 1;
      }
      result.m[0, 3] := tx;
      result.m[1, 3] := ty;
      result.m[2, 3] := tz;
    }
  }
}
