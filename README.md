# forms.h: the vector and matrix algebra of vulkan-3d

This project models `forms.h`, the math header of the vulkan-3d renderer.
It covers three types:

- `forms::vec3`: the arithmetic operators, the epsilon comparison, `translate`, `multiply`, the cross and dot products, `normalize`, `toRads`, and the camera basis `getForward`, `getRight` and `getUp`.
- `forms::vec2`: its epsilon comparison.
- `forms::mat4`: the identity constructor, copy, epsilon comparison, product and `*=`, `translate`, `scale`, `rotate`, `vecMatrix`, `perspective`, `modelMatrix`, `viewMatrix` and `inverseMatrix`.

The project has seven modules:

- `Numerics`: `PI`, `EPSILON`, the absolute value, and `MathLib`. `MathLib` stands for the C math library. It is a value the caller supplies, and the laws the proofs need are preconditions: sin 0 = 0 and cos 0 = 1, sin² + cos² = 1, and the square-root law.
- `Vectors`: vec3 and vec2 as datatypes, with one function per operator that returns a new vector. The compound assignments `+=` and `-=` change their receiver, so they are methods of the class `Vector`.
- `VectorLaws`: the algebra of those operators.
- `Matrices`: mat4 as a 4x4 value (`Mat4`, indexed `m[row][column]`) and the operations that build matrices without a loop. It also holds `Identity`, `Product`, `ApproxEqual` and `Translate`: the values that the looped members of `MatrixObjects` are proved against.
- `MatrixLaws`: the algebra of the product, and what each matrix does to a point through `vecMatrix`. This covers translation, scaling, the length-preserving rotations, the order in which the model and view matrices apply their parts, and the depth range of `perspective`.
- `InverseLaws`: `inverseMatrix`, and a corrected affine inverse (see Findings).
- `MatrixObjects`: the class `Matrix`. It holds the `m[4][4]` array as an `array2<real>`. Its constructor, copy constructor, `==`, `*`, `*=` and `translate` run the same nested index loops as the header. Each is proved against the value functions of `Matrices`.

## Model

| member | source | states |
|---|---|---|
| Numerics.Abs | vulkan-3d/vulkan-3d/forms.h:57-62 | the `std::abs` used by every epsilon comparison is non-negative and equals the argument or its negation |
| Numerics.SqrtOne | vulkan-3d/vulkan-3d/forms.h:102-105 | under the square-root law, the root of 1 is 1, which `normalize` needs to give a unit length |
| Vectors.Vector.constructor | vulkan-3d/vulkan-3d/forms.h:10-11 | a vec3 variable built from three components holds exactly those components |
| Vectors.Vector.AddScalar | vulkan-3d/vulkan-3d/forms.h:17-22 | `v += s` adds the scalar to each of the three fields and changes nothing else |
| Vectors.Vector.AddAssign | vulkan-3d/vulkan-3d/forms.h:45-50 | `v += w` leaves v holding the old v plus the old w; when w is a different object it is unchanged; `v += v` doubles v |
| Vectors.Vector.SubAssign | vulkan-3d/vulkan-3d/forms.h:51-56 | `v -= w` leaves v holding the old v minus the old w; when w is a different object it is unchanged |
| VectorLaws.MinusUndoesPlus | vulkan-3d/vulkan-3d/forms.h:13-26 | `(a + b) - b == a` and `(a - b) + b == a`: subtraction undoes addition |
| VectorLaws.PlusCommutative | vulkan-3d/vulkan-3d/forms.h:13-16 | `a + b == b + a` |
| VectorLaws.TranslatedIsPlus | vulkan-3d/vulkan-3d/forms.h:64-66 | `v.translate(tx, ty, tz)` is `v + vec3(tx, ty, tz)` |
| VectorLaws.MultipliedIsHadamard | vulkan-3d/vulkan-3d/forms.h:67-69 | `v.multiply(sx, sy, sz)` is `v * vec3(sx, sy, sz)`, component by component |
| VectorLaws.ScalarTimesCommutes | vulkan-3d/vulkan-3d/forms.h:27-32 | the friend `s * v` equals `v * s` |
| VectorLaws.DividedByUndoesScaledBy | vulkan-3d/vulkan-3d/forms.h:27-39 | for a non-zero s, `(v * s) / s == v` and `(v / s) * s == v` |
| VectorLaws.ScalarOverTimes | vulkan-3d/vulkan-3d/forms.h:33-42 | the friend `s / v`, multiplied component by component by a v with no zero component, gives s in every component |
| VectorLaws.CrossAntiCommutative | vulkan-3d/vulkan-3d/forms.h:91-97 | `a × b == -(b × a)` |
| VectorLaws.CrossSelfZero | vulkan-3d/vulkan-3d/forms.h:91-97 | `a × a` is the zero vector |
| VectorLaws.CrossPerpendicular | vulkan-3d/vulkan-3d/forms.h:91-100 | `a × b` is perpendicular to both a and b: both dot products are 0 |
| VectorLaws.DotSymmetric | vulkan-3d/vulkan-3d/forms.h:98-100 | `a · b == b · a` |
| VectorLaws.NormalizeUnit | vulkan-3d/vulkan-3d/forms.h:102-105 | if the square root is a true root and the length is non-zero, `normalize` gives a vector of dot-square 1 and length 1 |
| VectorLaws.NormalizeKeepsDirection | vulkan-3d/vulkan-3d/forms.h:102-105 | the normalised vector scaled by the length is the original vector: the direction is kept |
| VectorLaws.ToRadsIsScaling | vulkan-3d/vulkan-3d/forms.h:107-113 | `toRads` multiplies every component by `PI / 180` |
| VectorLaws.ForwardUnit | vulkan-3d/vulkan-3d/forms.h:70-78 | if sin² + cos² = 1, `getForward` has unit length for every pitch and yaw |
| VectorLaws.RightPerpendicular | vulkan-3d/vulkan-3d/forms.h:80-84 | `getRight` is perpendicular to the forward direction and to world-up |
| VectorLaws.UpPerpendicular | vulkan-3d/vulkan-3d/forms.h:85-89 | `getUp` is perpendicular to the forward and right directions |
| VectorLaws.RightSquaredLength | vulkan-3d/vulkan-3d/forms.h:80-84 | if sin² + cos² = 1, the squared length of `getRight` is cos² of the pitch, so it is a unit vector exactly where cos² of the pitch is 1 (within (−π/2, π/2), only at pitch 0) |
| VectorLaws.BasisDegenerate | vulkan-3d/vulkan-3d/forms.h:70-89 | when cos of the pitch is 0 (looking straight up or down), `getRight` and `getUp` are both the zero vector |
| VectorLaws.ApproxEqReflexiveSymmetric | vulkan-3d/vulkan-3d/forms.h:57-62 | the vec3 `==` is reflexive and symmetric |
| VectorLaws.ApproxEqNotTransitive | vulkan-3d/vulkan-3d/forms.h:57-62 | the vec3 `==` is not transitive: 0 ≈ 0.000006 ≈ 0.000012, but 0 is not ≈ 0.000012 |
| VectorLaws.ApproxEq2ReflexiveSymmetric | vulkan-3d/vulkan-3d/forms.h:117-121 | the vec2 `==` is reflexive and symmetric |
| MatrixObjects.Matrix.constructor | vulkan-3d/vulkan-3d/forms.h:126-132 | the default mat4 is a fresh 4x4 array holding the identity |
| MatrixObjects.Matrix.Copy | vulkan-3d/vulkan-3d/forms.h:133-139 | the copy is a fresh array with the same sixteen cells as the original |
| MatrixObjects.Matrix.Equals | vulkan-3d/vulkan-3d/forms.h:140-149 | `a == b` on mat4 is true exactly when every one of the sixteen cells is within `EPSILON` |
| MatrixObjects.Matrix.Cell | vulkan-3d/vulkan-3d/forms.h:154-157 | the innermost loop of `*` computes the running sum `RowCol` of row i and column j |
| MatrixObjects.Matrix.Times | vulkan-3d/vulkan-3d/forms.h:150-161 | `a * b` is a fresh matrix whose value is the product of the two values; neither operand changes |
| MatrixObjects.Matrix.TimesAssign | vulkan-3d/vulkan-3d/forms.h:162-174 | `a *= b` leaves a holding the product of the old a and the old b, also when b is a itself |
| MatrixObjects.Matrix.Translate | vulkan-3d/vulkan-3d/forms.h:176-192 | `translate(tx, ty, tz)` is a fresh matrix holding the identity with the offsets in column 3 of rows 0 to 2 |
| MatrixLaws.ProductCell | vulkan-3d/vulkan-3d/forms.h:150-161 | each cell of `a * b` is the four-term sum of row i of a times column j of b |
| MatrixLaws.IdentityLeftUnit | vulkan-3d/vulkan-3d/forms.h:150-161 | `identity * m == m` |
| MatrixLaws.IdentityRightUnit | vulkan-3d/vulkan-3d/forms.h:150-161 | `m * identity == m` |
| MatrixLaws.ProductNotCommutative | vulkan-3d/vulkan-3d/forms.h:150-200 | the product is not commutative: `translate(1,0,0) * scale(2,1,1)` differs from `scale(2,1,1) * translate(1,0,0)` |
| MatrixLaws.ApproxEqualReflexive | vulkan-3d/vulkan-3d/forms.h:140-149 | the mat4 `==` is reflexive |
| MatrixLaws.VecMatrixDivision | vulkan-3d/vulkan-3d/forms.h:228-239 | `vecMatrix` returns the three row sums undivided when w is exactly 0 or 1; otherwise the result times w gives those sums back |
| MatrixLaws.VecMatrixAffine | vulkan-3d/vulkan-3d/forms.h:228-239 | a matrix whose row 3 is (0,0,0,1) gives w = 1 and maps a point by its rows alone |
| MatrixLaws.IdentityFixesPoint | vulkan-3d/vulkan-3d/forms.h:228-239 | the identity fixes every point |
| MatrixLaws.TranslateMovesPoint | vulkan-3d/vulkan-3d/forms.h:176-192 | `translate(t)` is affine and moves every point by t |
| MatrixLaws.ScaleScalesPoint | vulkan-3d/vulkan-3d/forms.h:193-200 | `scale(s)` is affine and multiplies a point by s, component by component |
| MatrixLaws.ProductAffine | vulkan-3d/vulkan-3d/forms.h:150-161 | the product of two affine matrices is affine |
| MatrixLaws.VecMatrixComposes | vulkan-3d/vulkan-3d/forms.h:228-239 | when b is affine, applying `a * b` to a point equals applying b first and then a, including a's divide by w; the product is affine when a is too |
| MatrixLaws.ProductLinear | vulkan-3d/vulkan-3d/forms.h:150-161 | the product of two linear matrices (affine, no translation) is linear |
| MatrixLaws.LinearFixesOrigin | vulkan-3d/vulkan-3d/forms.h:228-239 | a linear matrix maps the origin to the origin |
| MatrixLaws.RotationsLinear | vulkan-3d/vulkan-3d/forms.h:201-227 | the three elementary rotations of `rotate` are linear |
| MatrixLaws.RotationsKeepLength | vulkan-3d/vulkan-3d/forms.h:201-227 | if sin² + cos² = 1, each elementary rotation keeps the squared length of every point |
| MatrixLaws.RotXKeepsLength | vulkan-3d/vulkan-3d/forms.h:207-211 | if sin² + cos² = 1, `rotX` keeps x and turns (y, z), keeping the squared length of every point |
| MatrixLaws.RotYKeepsLength | vulkan-3d/vulkan-3d/forms.h:213-217 | if sin² + cos² = 1, `rotY` keeps y and turns (z, x), keeping the squared length of every point |
| MatrixLaws.RotZKeepsLength | vulkan-3d/vulkan-3d/forms.h:219-223 | if sin² + cos² = 1, `rotZ` keeps z and turns (x, y), keeping the squared length of every point |
| MatrixLaws.RotationsAtZero | vulkan-3d/vulkan-3d/forms.h:201-227 | if sin 0 = 0 and cos 0 = 1, each elementary rotation by 0 is the identity |
| MatrixLaws.RotateOrder | vulkan-3d/vulkan-3d/forms.h:201-227 | `rotate` is linear and turns a point about X first, then Y, then Z |
| MatrixLaws.RotateKeepsLength | vulkan-3d/vulkan-3d/forms.h:201-227 | if sin² + cos² = 1, `rotate` keeps the squared length of every point, for all three angles |
| MatrixLaws.RotateAtZero | vulkan-3d/vulkan-3d/forms.h:201-227 | if sin 0 = 0 and cos 0 = 1, `rotate(0, 0, 0)` is the identity |
| MatrixLaws.ModelMatrixOrder | vulkan-3d/vulkan-3d/forms.h:252-257 | the model matrix is affine and applies translate first, then rotate, then scale |
| MatrixLaws.ModelMatrixAtRest | vulkan-3d/vulkan-3d/forms.h:252-257 | if sin 0 = 0 and cos 0 = 1, the model matrix for no translation, no rotation and unit scale is the identity |
| MatrixLaws.ViewMatrixOrder | vulkan-3d/vulkan-3d/forms.h:299-304 | the view matrix is affine and maps a point p to `rotate(p - position)` |
| MatrixLaws.ViewMatrixCentersCamera | vulkan-3d/vulkan-3d/forms.h:299-304 | the view matrix maps the camera position to the origin, for every rotation |
| MatrixLaws.PerspectiveW | vulkan-3d/vulkan-3d/forms.h:240-250 | `perspective` copies the depth of a point into w |
| MatrixLaws.PerspectiveAfterView | vulkan-3d/vulkan-3d/forms.h:240-304 | `perspective * view` applied to a point is the view matrix applied first and then the projection with its divide by w |
| MatrixLaws.PerspectiveNearFar | vulkan-3d/vulkan-3d/forms.h:240-250 | a point on the near plane gets depth 0, and one on a non-zero far plane gets depth 1 |
| MatrixLaws.PerspectiveDepthInRange | vulkan-3d/vulkan-3d/forms.h:240-250 | for 0 < near < far, every point between the planes gets a depth in [0, 1] |
| InverseLaws.InverseSingular | vulkan-3d/vulkan-3d/forms.h:262-290 | a zero 3x3 determinant makes `inverseMatrix` return its argument unchanged |
| InverseLaws.InverseColumnThree | vulkan-3d/vulkan-3d/forms.h:291-294 | for a non-singular block, column 3 of the result is (0,0,0,1), whatever m holds there |
| InverseLaws.InverseIsCells | vulkan-3d/vulkan-3d/forms.h:269-286 | proof step: unfolds the non-singular branch of `inverseMatrix` to the cells computed with `invDet = 1/det`, and records `det * invDet == 1`. `InverseBlock` and `InverseLaws` build on it |
| InverseLaws.InverseBlock | vulkan-3d/vulkan-3d/forms.h:262-281 | for a non-singular block, the 3x3 block of `inverseMatrix(m)` is a two-sided inverse of the block of m |
| InverseLaws.CellsBlock | vulkan-3d/vulkan-3d/forms.h:262-281 | the 3x3 block computed from the cofactors, times `invDet`, is a two-sided inverse of the block of m |
| InverseLaws.CellsLayout | vulkan-3d/vulkan-3d/forms.h:283-294 | the result has column 3 (0,0,0,1) and row 3 equal to minus row 3 of m carried through the inverted block |
| InverseLaws.InverseLaws | vulkan-3d/vulkan-3d/forms.h:258-297 | if column 3 of m is (0,0,0,1) (translation in row 3) and the block is non-singular, `inverseMatrix(m)` is a two-sided inverse of m |
| InverseLaws.LeftInverseFromBlock | vulkan-3d/vulkan-3d/forms.h:283-294 | a block inverse with the row-3 back-substitution layout is a left inverse of a matrix in that layout |
| InverseLaws.RightInverseFromBlock | vulkan-3d/vulkan-3d/forms.h:283-294 | the same layout is a right inverse when the block is a right inverse |
| InverseLaws.InverseDropsTranslation | vulkan-3d/vulkan-3d/forms.h:283-294 | `inverseMatrix(translate(t))` is the identity: the translation, kept in column 3, is dropped |
| InverseLaws.InverseOfTranslateIsNotInverse | vulkan-3d/vulkan-3d/forms.h:283-294 | for any non-zero t, `inverseMatrix(translate(t)) * translate(t)` is not the identity |
| InverseLaws.AffineInverseLayout | vulkan-3d/vulkan-3d/forms.h:258-297 | the corrected inverse has row 3 (0,0,0,1) and column 3 equal to minus the inverted block applied to the translation of m |
| InverseLaws.AffineInverseBlock | vulkan-3d/vulkan-3d/forms.h:272-281 | the corrected inverse keeps the header's 3x3 block, so its block inverts the block of m on both sides |
| InverseLaws.AffineInverseLaws | vulkan-3d/vulkan-3d/forms.h:258-297 | for an affine m with a non-singular block, the corrected inverse is a two-sided inverse of m |
| InverseLaws.AffineInverseUndoesVecMatrix | vulkan-3d/vulkan-3d/forms.h:258-297 | `vecMatrix` with the corrected inverse undoes `vecMatrix` with m, for every point |
| InverseLaws.AffineInverseOfTranslate | vulkan-3d/vulkan-3d/forms.h:258-297 | the corrected inverse of `translate(t)` is `translate(-t)` |
| InverseLaws.LeftColumnInverse | vulkan-3d/vulkan-3d/forms.h:258-297 | a block inverse with row 3 (0,0,0,1) and the column-3 substitution is a left inverse of an affine matrix |
| InverseLaws.RightColumnInverse | vulkan-3d/vulkan-3d/forms.h:258-297 | the same layout is a right inverse when the block is a right inverse |

The operators that return a new vec3 or mat4 are functions on values, so they leave both operands unchanged by construction. The header makes the same promise with `const` members.

## Left out

- Floating point: every `float` is a `real`, so rounding, overflow, infinities and NaN are not modelled. The epsilon comparisons are exact comparisons of reals against `0.00001`.
- The C math library (`sinf`, `cosf`, `tanf`, `std::sin`, `std::cos`, `std::sqrt`) is not part of this model. It enters as a `MathLib` value supplied by the caller. Results about rotations, `normalize` and the camera basis hold under the stated laws for that value.
- `PI` is the header's decimal `3.14159`, not the real number pi. `toRads`, `rotate` and `perspective` use this decimal, as the header does.
- Vectors.DividedBy, Vectors.ScalarOver: a zero divisor is excluded by a precondition. The header divides by zero there and relies on IEEE infinities and NaN.
- Vectors.Normalize: a zero-length vector is excluded by a precondition, for the same reason.
- Matrices.Perspective: `tan(fov/2) == 0`, `aspect_ratio == 0` and `far == near` are excluded by a precondition, for the same reason.
- Matrices.VecMatrix: it divides by w only when w is neither 0 nor 1, as the header does. Points with w = 0 are returned undivided.
- The compound operators `+=` and `-=` of vec3 and `*=` of mat4 return a reference to the receiver for chaining. The methods `Vector.AddScalar`, `Vector.AddAssign`, `Vector.SubAssign` and `Matrix.TimesAssign` return nothing; the receiver's new state is stated in full.
- MatrixObjects.Matrix.Times: the header default-constructs `result` (the identity) and overwrites every cell. The method fills a fresh array and attaches it to a fresh `Matrix`. The final cells are the same.
- `forms::rng` (line 7) is only declared in the header, so its behaviour is not part of this model.
- `vulkan-3d.cpp` is the GLFW/Vulkan application: window, instance, device and render loop. It does not include or use `forms.h`, and it is not part of this model.
- `projectVector`, `normalizeToNDC` and `projectToScreen` are not in `forms.h`; they are not part of this model.
- `getRight` is not normalised in the header: it crosses forward with world-up and returns the raw result. The model follows the code, and `VectorLaws.RightSquaredLength` states the consequence.
- `modelMatrix` is `scale * rotate * translate`, so a point is translated first, then rotated, then scaled. The model follows the code; `MatrixLaws.ModelMatrixOrder` states the order.
- `mat4::inverseMatrix` reads the translation from row 3. `translate` and `vecMatrix` keep it in column 3. The model keeps the header's inverse as written and adds the corrected inverse next to it (see Findings).

## Findings

| source | as written | input that shows it | evidently intended | confidence | as-written member | corrected member |
|---|---|---|---|---|---|---|
| vulkan-3d/vulkan-3d/forms.h:283-294 | `inverseMatrix` reads the translation from row 3 (`m[3][0..2]`), puts minus the back-substituted translation in row 3, and forces column 3 to (0,0,0,1). But `translate` stores the offsets in column 3, and `vecMatrix` applies them from column 3. So the translation of a `translate` or `modelMatrix` result is dropped. | `translate(1, 0, 0)`: `inverseMatrix` returns the identity, and `identity * translate(1,0,0)` is not the identity | the inverse of an affine matrix in the column-3 layout: the inverted 3x3 block, column 3 equal to minus that block applied to the translation, and row 3 (0,0,0,1). Then `inverse(translate(t)) == translate(-t)` and `inverse(m) * m == identity` | high (not executed) | InverseLaws.InverseOfTranslateIsNotInverse | InverseLaws.AffineInverseLaws |
