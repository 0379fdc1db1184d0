/** The NumPy matrix arithmetic the pipeline relies on, for the two sizes it uses:
    3x3 rotation blocks and 4x4 homogeneous transforms. Entries are named by row
    and column (`a12` is row 1, column 2) and `@` is written out entry by entry. */
module Matrices {

  datatype Vec3 = Vec3(x: real, y: real, z: real)

  datatype Mat3 = Mat3(a00: real, a01: real, a02: real, a10: real, a11: real, a12: real, a20: real, a21: real, a22: real)

  datatype Mat4 = Mat4(
    m00: real, m01: real, m02: real, m03: real,
    m10: real, m11: real, m12: real, m13: real,
    m20: real, m21: real, m22: real, m23: real,
    m30: real, m31: real, m32: real, m33: real)

  function Kronecker(i: int, j: int): real {
    if i == j then 1.0 else 0.0
  }

  function Identity3(): Mat3 {
    Mat3(1.0, 0.0, 0.0, 0.0, 1.0, 0.0, 0.0, 0.0, 1.0)
  }

  /** `np.eye(4)` */
  function Identity4(): Mat4 {
    Mat4(1.0, 0.0, 0.0, 0.0, 0.0, 1.0, 0.0, 0.0, 0.0, 0.0, 1.0, 0.0, 0.0, 0.0, 0.0, 1.0)
  }

  function Transpose3(m: Mat3): Mat3 {
    Mat3(m.a00, m.a10, m.a20, m.a01, m.a11, m.a21, m.a02, m.a12, m.a22)
  }

  /** Row i of m, for i in 0..2 */
  function Row(m: Mat3, i: int): Vec3 {
    if i == 0 then Vec3(m.a00, m.a01, m.a02)
    else if i == 1 then Vec3(m.a10, m.a11, m.a12)
    else Vec3(m.a20, m.a21, m.a22)
  }

  /** Column i of m, for i in 0..2 */
  function Column(m: Mat3, i: int): Vec3 {
    if i == 0 then Vec3(m.a00, m.a10, m.a20)
    else if i == 1 then Vec3(m.a01, m.a11, m.a21)
    else Vec3(m.a02, m.a12, m.a22)
  }

  function Dot(u: Vec3, v: Vec3): real {
    var Vec3(u0, u1, u2) := u;
    var Vec3(v0, v1, v2) := v;
    u0 * v0 + u1 * v1 + u2 * v2
  }

  /** `a @ b` for 3x3 operands: entry (i, j) is row i of a dotted with column j of b. */
  function Mul3(a: Mat3, b: Mat3): Mat3 {
    Mat3(
      Dot(Row(a, 0), Column(b, 0)), Dot(Row(a, 0), Column(b, 1)), Dot(Row(a, 0), Column(b, 2)),
      Dot(Row(a, 1), Column(b, 0)), Dot(Row(a, 1), Column(b, 1)), Dot(Row(a, 1), Column(b, 2)),
      Dot(Row(a, 2), Column(b, 0)), Dot(Row(a, 2), Column(b, 1)), Dot(Row(a, 2), Column(b, 2)))
  }

  datatype Vec4 = Vec4(x: real, y: real, z: real, w: real)

  /** Row i of m, for i in 0..3 */
  function Row4(m: Mat4, i: int): Vec4 {
    if i == 0 then Vec4(m.m00, m.m01, m.m02, m.m03)
    else if i == 1 then Vec4(m.m10, m.m11, m.m12, m.m13)
    else if i == 2 then Vec4(m.m20, m.m21, m.m22, m.m23)
    else Vec4(m.m30, m.m31, m.m32, m.m33)
  }

  /** Column j of m, for j in 0..3 */
  function Column4(m: Mat4, j: int): Vec4 {
    if j == 0 then Vec4(m.m00, m.m10, m.m20, m.m30)
    else if j == 1 then Vec4(m.m01, m.m11, m.m21, m.m31)
    else if j == 2 then Vec4(m.m02, m.m12, m.m22, m.m32)
    else Vec4(m.m03, m.m13, m.m23, m.m33)
  }

  function Dot4(u: Vec4, v: Vec4): real {
    var Vec4(u0, u1, u2, u3) := u;
    var Vec4(v0, v1, v2, v3) := v;
    u0 * v0 + u1 * v1 + u2 * v2 + u3 * v3
  }

  /** `a @ b` for 4x4 operands */
  function Mul4(a: Mat4, b: Mat4): Mat4 {
    Mat4(
      Dot4(Row4(a, 0), Column4(b, 0)), Dot4(Row4(a, 0), Column4(b, 1)), Dot4(Row4(a, 0), Column4(b, 2)), Dot4(Row4(a, 0), Column4(b, 3)),
      Dot4(Row4(a, 1), Column4(b, 0)), Dot4(Row4(a, 1), Column4(b, 1)), Dot4(Row4(a, 1), Column4(b, 2)), Dot4(Row4(a, 1), Column4(b, 3)),
      Dot4(Row4(a, 2), Column4(b, 0)), Dot4(Row4(a, 2), Column4(b, 1)), Dot4(Row4(a, 2), Column4(b, 2)), Dot4(Row4(a, 2), Column4(b, 3)),
      Dot4(Row4(a, 3), Column4(b, 0)), Dot4(Row4(a, 3), Column4(b, 1)), Dot4(Row4(a, 3), Column4(b, 2)), Dot4(Row4(a, 3), Column4(b, 3)))
  }

  /** `m @ v` for a 3x3 matrix and a 3-vector */
  function Apply3(m: Mat3, v: Vec3): Vec3 {
    Vec3(Dot(Row(m, 0), v), Dot(Row(m, 1), v), Dot(Row(m, 2), v))
  }

  function Add3(u: Vec3, v: Vec3): Vec3 {
    Vec3(u.x + v.x, u.y + v.y, u.z + v.z)
  }

  function Neg3(v: Vec3): Vec3 {
    Vec3(-v.x, -v.y, -v.z)
  }

  /** `m[:3, :3]` */
  function RotationBlock(m: Mat4): Mat3 {
    Mat3(m.m00, m.m01, m.m02, m.m10, m.m11, m.m12, m.m20, m.m21, m.m22)
  }

  /** `m[:3, 3]` */
  function Translation(m: Mat4): Vec3 {
    Vec3(m.m03, m.m13, m.m23)
  }

  /** `m[3]`, the bottom row */
  function BottomRow(m: Mat4): seq<real> {
    [m.m30, m.m31, m.m32, m.m33]
  }

  /** `T = np.eye(4); T[:3, :3] = r; T[:3, 3] = t` */
  function Assemble(r: Mat3, t: Vec3): (m: Mat4)
    ensures RotationBlock(m) == r && Translation(m) == t
    ensures BottomRow(m) == [0.0, 0.0, 0.0, 1.0]
  {
    Mat4(r.a00, r.a01, r.a02, t.x,
         r.a10, r.a11, r.a12, t.y,
         r.a20, r.a21, r.a22, t.z,
         0.0, 0.0, 0.0, 1.0)
  }

  /** A homogeneous transform: its bottom row is [0, 0, 0, 1]. */
  predicate IsAffine(m: Mat4) {
    m.m30 == 0.0 && m.m31 == 0.0 && m.m32 == 0.0 && m.m33 == 1.0
  }

  /** A rotation block: its columns are orthonormal and so are its rows, that is
      transpose(m) @ m == I == m @ transpose(m). */
  predicate Orthonormal(m: Mat3) {
    Mul3(Transpose3(m), m) == Identity3() && Mul3(m, Transpose3(m)) == Identity3()
  }

  /** The determinant. */
  function Det3(m: Mat3): real {
    Det9(m.a00, m.a01, m.a02, m.a10, m.a11, m.a12, m.a20, m.a21, m.a22)
  }

  /** The determinant of the matrix with these entries, row by row, by cofactor
      expansion along row 0. */
  function Det9(a00: real, a01: real, a02: real, a10: real, a11: real, a12: real,
                a20: real, a21: real, a22: real): real {
    a00 * (a11 * a22 - a12 * a21) - a01 * (a10 * a22 - a12 * a20) + a02 * (a10 * a21 - a11 * a20)
  }

  /** A homogeneous transform whose block is orthonormal: it keeps distances, and
      may still mirror space (the block may have determinant -1). */
  predicate IsIsometry(m: Mat4) {
    IsAffine(m) && Orthonormal(RotationBlock(m))
  }

  /** A rigid transform: homogeneous, with a proper rotation block (orthonormal and
      of determinant +1). */
  predicate IsRigid(m: Mat4) {
    IsIsometry(m) && Det3(RotationBlock(m)) == 1.0
  }

  /** Sum over k of (sum_p a[k][p] u[p]) * (sum_q a[k][q] w[q]), regrouped by u[p] * w[q]. */
  lemma RegroupDots(a00: real, a01: real, a02: real, a10: real, a11: real, a12: real,
                    a20: real, a21: real, a22: real,
                    u0: real, u1: real, u2: real, w0: real, w1: real, w2: real)
    ensures (a00 * u0 + a01 * u1 + a02 * u2) * (a00 * w0 + a01 * w1 + a02 * w2)
          + (a10 * u0 + a11 * u1 + a12 * u2) * (a10 * w0 + a11 * w1 + a12 * w2)
          + (a20 * u0 + a21 * u1 + a22 * u2) * (a20 * w0 + a21 * w1 + a22 * w2)
       == u0 * (w0 * (a00 * a00 + a10 * a10 + a20 * a20) + w1 * (a00 * a01 + a10 * a11 + a20 * a21) + w2 * (a00 * a02 + a10 * a12 + a20 * a22))
        + u1 * (w0 * (a01 * a00 + a11 * a10 + a21 * a20) + w1 * (a01 * a01 + a11 * a11 + a21 * a21) + w2 * (a01 * a02 + a11 * a12 + a21 * a22))
        + u2 * (w0 * (a02 * a00 + a12 * a10 + a22 * a20) + w1 * (a02 * a01 + a12 * a11 + a22 * a21) + w2 * (a02 * a02 + a12 * a12 + a22 * a22))
  {
  }

  /** RegroupDots when the columns of the matrix with rows r0, r1, r2 are orthonormal:
      multiplying by it keeps dot products. */
  lemma DotsPreserved(r0: Vec3, r1: Vec3, r2: Vec3, u: Vec3, w: Vec3)
    requires r0.x * r0.x + r1.x * r1.x + r2.x * r2.x == 1.0
    requires r0.y * r0.y + r1.y * r1.y + r2.y * r2.y == 1.0
    requires r0.z * r0.z + r1.z * r1.z + r2.z * r2.z == 1.0
    requires r0.x * r0.y + r1.x * r1.y + r2.x * r2.y == 0.0
    requires r0.x * r0.z + r1.x * r1.z + r2.x * r2.z == 0.0
    requires r0.y * r0.z + r1.y * r1.z + r2.y * r2.z == 0.0
    ensures Dot(r0, u) * Dot(r0, w) + Dot(r1, u) * Dot(r1, w) + Dot(r2, u) * Dot(r2, w) == Dot(u, w)
  {
    RegroupDots(r0.x, r0.y, r0.z, r1.x, r1.y, r1.z, r2.x, r2.y, r2.z, u.x, u.y, u.z, w.x, w.y, w.z);
    assert r0.y * r0.x + r1.y * r1.x + r2.y * r2.x == 0.0;
    assert r0.z * r0.x + r1.z * r1.x + r2.z * r2.x == 0.0;
    assert r0.z * r0.y + r1.z * r1.y + r2.z * r2.y == 0.0;
    UnitGram(u.x, u.y, u.z, w.x, w.y, w.z,
             r0.x * r0.x + r1.x * r1.x + r2.x * r2.x, r0.x * r0.y + r1.x * r1.y + r2.x * r2.y,
             r0.x * r0.z + r1.x * r1.z + r2.x * r2.z, r0.y * r0.x + r1.y * r1.x + r2.y * r2.x,
             r0.y * r0.y + r1.y * r1.y + r2.y * r2.y, r0.y * r0.z + r1.y * r1.z + r2.y * r2.z,
             r0.z * r0.x + r1.z * r1.x + r2.z * r2.x, r0.z * r0.y + r1.z * r1.y + r2.z * r2.y,
             r0.z * r0.z + r1.z * r1.z + r2.z * r2.z);
  }

  /** The regrouped sum of RegroupDots once its column products are those of the
      identity. */
  lemma UnitGram(u0: real, u1: real, u2: real, w0: real, w1: real, w2: real,
                 s00: real, s01: real, s02: real, s10: real, s11: real, s12: real,
                 s20: real, s21: real, s22: real)
    requires s00 == 1.0 && s11 == 1.0 && s22 == 1.0
    requires s01 == 0.0 && s02 == 0.0 && s10 == 0.0 && s12 == 0.0 && s20 == 0.0 && s21 == 0.0
    ensures u0 * (w0 * s00 + w1 * s01 + w2 * s02) + u1 * (w0 * s10 + w1 * s11 + w2 * s12)
          + u2 * (w0 * s20 + w1 * s21 + w2 * s22) == u0 * w0 + u1 * w1 + u2 * w2
  {
  }

  /** A matrix whose columns are orthonormal keeps dot products. */
  lemma ApplyKeepsDot(a: Mat3, u: Vec3, w: Vec3)
    requires Mul3(Transpose3(a), a) == Identity3()
    ensures Dot(Apply3(a, u), Apply3(a, w)) == Dot(u, w)
  {
    ColumnsOrthonormalIff(a);
    DotsPreserved(Row(a, 0), Row(a, 1), Row(a, 2), u, w);
  }

  /** transpose(m) @ m == I exactly when the columns of m are orthonormal. */
  lemma ColumnsOrthonormalIff(m: Mat3)
    ensures Mul3(Transpose3(m), m) == Identity3() <==>
      Dot(Column(m, 0), Column(m, 0)) == 1.0
        && Dot(Column(m, 0), Column(m, 1)) == 0.0
        && Dot(Column(m, 0), Column(m, 2)) == 0.0
        && Dot(Column(m, 1), Column(m, 1)) == 1.0
        && Dot(Column(m, 1), Column(m, 2)) == 0.0
        && Dot(Column(m, 2), Column(m, 2)) == 1.0
  {
  }

  /** Column i of a @ b is a applied to column i of b. */
  lemma ColumnOfProduct(a: Mat3, b: Mat3, i: int)
    requires 0 <= i < 3
    ensures Column(Mul3(a, b), i) == Apply3(a, Column(b, i))
  {
  }

  /** `a @ b` has orthonormal columns when a and b do. */
  lemma ColumnsOfProduct(a: Mat3, b: Mat3)
    requires Mul3(Transpose3(a), a) == Identity3() && Mul3(Transpose3(b), b) == Identity3()
    ensures Mul3(Transpose3(Mul3(a, b)), Mul3(a, b)) == Identity3()
  {
    var m := Mul3(a, b);
    ColumnsOrthonormalIff(b);
    ColumnOfProduct(a, b, 0);
    ColumnOfProduct(a, b, 1);
    ColumnOfProduct(a, b, 2);
    ApplyKeepsDot(a, Column(b, 0), Column(b, 0));
    ApplyKeepsDot(a, Column(b, 0), Column(b, 1));
    ApplyKeepsDot(a, Column(b, 0), Column(b, 2));
    ApplyKeepsDot(a, Column(b, 1), Column(b, 1));
    ApplyKeepsDot(a, Column(b, 1), Column(b, 2));
    ApplyKeepsDot(a, Column(b, 2), Column(b, 2));
    ColumnsOrthonormalIff(m);
  }

  lemma TransposeOfProduct(a: Mat3, b: Mat3)
    ensures Transpose3(Mul3(a, b)) == Mul3(Transpose3(b), Transpose3(a))
  {
  }

  /** The product of two rotation blocks is a rotation block. */
  lemma OrthonormalProduct(a: Mat3, b: Mat3)
    requires Orthonormal(a) && Orthonormal(b)
    ensures Orthonormal(Mul3(a, b))
  {
    ColumnsOfProduct(a, b);
    // the rows of a @ b are the columns of transpose(b) @ transpose(a)
    assert Transpose3(Transpose3(a)) == a && Transpose3(Transpose3(b)) == b;
    ColumnsOfProduct(Transpose3(b), Transpose3(a));
    TransposeOfProduct(a, b);
    assert Transpose3(Transpose3(Mul3(a, b))) == Mul3(a, b);
  }

  /** The transpose of a rotation block is a rotation block. */
  lemma OrthonormalTranspose(a: Mat3)
    requires Orthonormal(a)
    ensures Orthonormal(Transpose3(a))
  {
    assert Transpose3(Transpose3(a)) == a;
  }

  /** det(a @ b) == det(a) det(b) */
  lemma DetOfProduct(a: Mat3, b: Mat3)
    ensures Det3(Mul3(a, b)) == Det3(a) * Det3(b)
  {
    ProductEntries(a, b);
    DetOfEntryProducts(a.a00, a.a01, a.a02, a.a10, a.a11, a.a12, a.a20, a.a21, a.a22,
                       b.a00, b.a01, b.a02, b.a10, b.a11, b.a12, b.a20, b.a21, b.a22,
                       Det3(a), Det3(b), Det3(Mul3(a, b)));
  }

  /** a @ b written out entry by entry. */
  lemma ProductEntries(a: Mat3, b: Mat3)
    ensures Mul3(a, b) == Mat3(
      a.a00 * b.a00 + a.a01 * b.a10 + a.a02 * b.a20, a.a00 * b.a01 + a.a01 * b.a11 + a.a02 * b.a21, a.a00 * b.a02 + a.a01 * b.a12 + a.a02 * b.a22,
      a.a10 * b.a00 + a.a11 * b.a10 + a.a12 * b.a20, a.a10 * b.a01 + a.a11 * b.a11 + a.a12 * b.a21, a.a10 * b.a02 + a.a11 * b.a12 + a.a12 * b.a22,
      a.a20 * b.a00 + a.a21 * b.a10 + a.a22 * b.a20, a.a20 * b.a01 + a.a21 * b.a11 + a.a22 * b.a21, a.a20 * b.a02 + a.a21 * b.a12 + a.a22 * b.a22)
  {
  }

  /** The product rule of determinants on the eighteen entries: dab, the determinant
      of the product, is da times db. */
  lemma DetOfEntryProducts(a00: real, a01: real, a02: real, a10: real, a11: real, a12: real, a20: real, a21: real, a22: real,
                           b00: real, b01: real, b02: real, b10: real, b11: real, b12: real, b20: real, b21: real, b22: real,
                           da: real, db: real, dab: real)
    requires da == Det9(a00, a01, a02, a10, a11, a12, a20, a21, a22)
    requires db == Det9(b00, b01, b02, b10, b11, b12, b20, b21, b22)
    requires dab == Det9(a00 * b00 + a01 * b10 + a02 * b20, a00 * b01 + a01 * b11 + a02 * b21, a00 * b02 + a01 * b12 + a02 * b22,
                         a10 * b00 + a11 * b10 + a12 * b20, a10 * b01 + a11 * b11 + a12 * b21, a10 * b02 + a11 * b12 + a12 * b22,
                         a20 * b00 + a21 * b10 + a22 * b20, a20 * b01 + a21 * b11 + a22 * b21, a20 * b02 + a21 * b12 + a22 * b22)
    ensures dab == da * db
  {
  }

  /** det(transpose(a)) == det(a) */
  lemma DetOfTranspose(a: Mat3)
    ensures Det3(Transpose3(a)) == Det3(a)
  {
  }

  /** Composing two homogeneous transforms composes their rotations and maps the
      second translation through the first. */
  lemma ComposeAffine(a: Mat3, u: Vec3, b: Mat3, v: Vec3)
    ensures Mul4(Assemble(a, u), Assemble(b, v)) == Assemble(Mul3(a, b), Add3(Apply3(a, v), u))
  {
  }

  /** One row of (a @ b) @ v regrouped as a @ (b @ v). */
  lemma RowOfProduct(a0: real, a1: real, a2: real,
                     b00: real, b01: real, b02: real, b10: real, b11: real, b12: real,
                     b20: real, b21: real, b22: real, v0: real, v1: real, v2: real)
    ensures (a0 * b00 + a1 * b10 + a2 * b20) * v0 + (a0 * b01 + a1 * b11 + a2 * b21) * v1
          + (a0 * b02 + a1 * b12 + a2 * b22) * v2
         == a0 * (b00 * v0 + b01 * v1 + b02 * v2) + a1 * (b10 * v0 + b11 * v1 + b12 * v2)
          + a2 * (b20 * v0 + b21 * v1 + b22 * v2)
  {
  }

  /** (a @ b) @ v == a @ (b @ v) */
  lemma ApplyOfProduct(a: Mat3, b: Mat3, v: Vec3)
    ensures Apply3(Mul3(a, b), v) == Apply3(a, Apply3(b, v))
  {
    RowOfProduct(a.a00, a.a01, a.a02, b.a00, b.a01, b.a02, b.a10, b.a11, b.a12, b.a20, b.a21, b.a22, v.x, v.y, v.z);
    RowOfProduct(a.a10, a.a11, a.a12, b.a00, b.a01, b.a02, b.a10, b.a11, b.a12, b.a20, b.a21, b.a22, v.x, v.y, v.z);
    RowOfProduct(a.a20, a.a21, a.a22, b.a00, b.a01, b.a02, b.a10, b.a11, b.a12, b.a20, b.a21, b.a22, v.x, v.y, v.z);
  }

  /** a @ (u + w) == a @ u + a @ w */
  lemma ApplyOfSum(a: Mat3, u: Vec3, w: Vec3)
    ensures Apply3(a, Add3(u, w)) == Add3(Apply3(a, u), Apply3(a, w))
  {
  }

  /** A matrix applied to -w gives minus the matrix applied to w. */
  lemma ApplyOfNeg(a: Mat3, w: Vec3)
    ensures Apply3(a, Neg3(w)) == Neg3(Apply3(a, w))
  {
  }

  /** The inverse of a rigid transform: rotation transpose(R) and translation
      -transpose(R) @ t, where R and t are the rotation and translation of m. */
  function RigidInverse(m: Mat4): (inv: Mat4)
    ensures IsAffine(inv)
  {
    var rt := Transpose3(RotationBlock(m));
    Assemble(rt, Neg3(Apply3(rt, Translation(m))))
  }

  /** A rigid transform is the product of its rotation and translation parts. */
  lemma AffineIsAssembled(m: Mat4)
    requires IsAffine(m)
    ensures m == Assemble(RotationBlock(m), Translation(m))
  {
  }

  /** The rigid inverse undoes a rigid transform, and any transform with an
      orthonormal block: inverse(m) @ m == I. */
  lemma RigidInverseIsInverse(m: Mat4)
    requires IsIsometry(m)
    ensures Mul4(RigidInverse(m), m) == Identity4()
  {
    var r, t := RotationBlock(m), Translation(m);
    var rt := Transpose3(r);
    AffineIsAssembled(m);
    ComposeAffine(rt, Neg3(Apply3(rt, t)), r, t);
    assert Add3(Apply3(rt, t), Neg3(Apply3(rt, t))) == Vec3(0.0, 0.0, 0.0);
  }

  /** Relative to the identity, a transform is unchanged. */
  lemma RelativeToIdentity(reference: Mat4, current: Mat4)
    requires reference == Identity4()
    ensures Mul4(RigidInverse(reference), current) == current
  {
    InverseOfIdentity(reference);
    IdentityTimes(RigidInverse(reference), current);
  }

  lemma InverseOfIdentity(m: Mat4)
    requires m == Identity4()
    ensures RigidInverse(m) == m
  {
    IdentityIsRigid(m);
    RigidInverseIsInverse(m);
    TimesIdentity(RigidInverse(m), m);
  }

  lemma IdentityIsRigid(m: Mat4)
    requires m == Identity4()
    ensures IsRigid(m)
  {
    var r := RotationBlock(m);
    assert r == Identity3();
    assert Transpose3(r) == r;
    IdentitySquare(r);
  }

  lemma IdentitySquare(m: Mat3)
    requires m == Identity3()
    ensures Mul3(m, m) == m
  {
    assert Row(m, 0) == Column(m, 0) == Vec3(1.0, 0.0, 0.0);
    assert Row(m, 1) == Column(m, 1) == Vec3(0.0, 1.0, 0.0);
    assert Row(m, 2) == Column(m, 2) == Vec3(0.0, 0.0, 1.0);
  }

  lemma TimesIdentity(m: Mat4, i: Mat4)
    requires i == Identity4()
    ensures Mul4(m, i) == m
  {
  }

  /** The identity rotation with a zero translation is np.eye(4). */
  lemma AssembleIdentity(r: Mat3, t: Vec3)
    requires r == Identity3()
    requires t.x == 0.0 && t.y == 0.0 && t.z == 0.0
    ensures Assemble(r, t) == Identity4()
  {
  }

  lemma IdentityTimes(i: Mat4, m: Mat4)
    requires i == Identity4()
    ensures Mul4(i, m) == m
  {
  }

  /** `inverse(reference) @ current` for two rigid transforms is rigid: its rotation
      is transpose(R0) @ Ri and its translation transpose(R0) @ (ti - t0). */
  lemma RelativeIsRigid(reference: Mat4, current: Mat4)
    requires IsRigid(reference) && IsRigid(current)
    ensures IsRigid(Mul4(RigidInverse(reference), current))
  {
    var r0, t0 := RotationBlock(reference), Translation(reference);
    var rt := Transpose3(r0);
    AffineIsAssembled(current);
    ComposeAffine(rt, Neg3(Apply3(rt, t0)), RotationBlock(current), Translation(current));
    OrthonormalTranspose(r0);
    OrthonormalProduct(rt, RotationBlock(current));
    DetOfTranspose(r0);
    DetOfProduct(rt, RotationBlock(current));
  }

  /** Entry (i, j) of m, for i and j in 0..3 */
  function At(m: Mat4, i: int, j: int): real
    requires 0 <= i < 4 && 0 <= j < 4
  {
    match (i, j)
    case (0, 0) => m.m00 case (0, 1) => m.m01 case (0, 2) => m.m02 case (0, 3) => m.m03
    case (1, 0) => m.m10 case (1, 1) => m.m11 case (1, 2) => m.m12 case (1, 3) => m.m13
    case (2, 0) => m.m20 case (2, 1) => m.m21 case (2, 2) => m.m22 case (2, 3) => m.m23
    case (3, 0) => m.m30 case (3, 1) => m.m31 case (3, 2) => m.m32 case _ => m.m33
  }

  /** `m.flatten().tolist()`: the sixteen entries in row-major order. */
  function Flatten(m: Mat4): (v: seq<real>)
    ensures |v| == 16
  {
    [m.m00, m.m01, m.m02, m.m03, m.m10, m.m11, m.m12, m.m13,
     m.m20, m.m21, m.m22, m.m23, m.m30, m.m31, m.m32, m.m33]
  }

  /** Entry (i, j) lands at position 4i + j of the flattening. */
  lemma FlattenIsRowMajor(m: Mat4)
    ensures forall i, j | 0 <= i < 4 && 0 <= j < 4 :: Flatten(m)[4 * i + j] == At(m, i, j)
  {
  }

  /** `np.array(v).reshape(4, 4)` for sixteen values: row i is v[4i..4i+4]. */
  function Reshape(v: seq<real>): Mat4
    requires |v| == 16
  {
    Mat4(v[0], v[1], v[2], v[3], v[4], v[5], v[6], v[7],
         v[8], v[9], v[10], v[11], v[12], v[13], v[14], v[15])
  }

  /** Position 4i + j of the values becomes entry (i, j). */
  lemma ReshapeIsRowMajor(v: seq<real>)
    requires |v| == 16
    ensures forall i, j | 0 <= i < 4 && 0 <= j < 4 :: At(Reshape(v), i, j) == v[4 * i + j]
  {
  }

  /** Reshaping what was flattened gives the matrix back. */
  lemma ReshapeFlatten(m: Mat4)
    ensures Reshape(Flatten(m)) == m
  {
  }

  /** Flattening what was reshaped gives the sixteen values back. */
  lemma FlattenReshape(v: seq<real>)
    requires |v| == 16
    ensures Flatten(Reshape(v)) == v
  {
  }
}
