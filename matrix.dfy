/**
 * RepoMatrix: a 4x4 transform matrix held as 16 entries in row-major
 * order, with construction, transpose, products, translation, determinant,
 * inverse and (tolerant) comparison. Entries are mathematical reals, so
 * the algebraic laws below hold exactly rather than up to float rounding.
 */
module Matrix4 {
  import opened Vectors

  /** The 16 entries in row-major order: what getData returns. */
  type Matrix = s: seq<real> | |s| == 16 witness [1.0, 0.0, 0.0, 0.0, 0.0, 1.0, 0.0, 0.0, 0.0, 0.0, 1.0, 0.0, 0.0, 0.0, 0.0, 1.0]

  /** The entry in row r, column c. */
  function At(m: Matrix, r: nat, c: nat): real
    requires r < 4 && c < 4
  {
    m[4 * r + c]
  }

  /** Kronecker delta: the entry of the identity in row r, column c. */
  function Delta(r: nat, c: nat): real {
    if r == c then 1.0 else 0.0
  }

  /** The identity matrix, which the default constructor produces. */
  function Identity(): (id: Matrix)
    ensures forall r: nat, c: nat | r < 4 && c < 4 :: At(id, r, c) == Delta(r, c)
  {
    [1.0, 0.0, 0.0, 0.0,
     0.0, 1.0, 0.0, 0.0,
     0.0, 0.0, 1.0, 0.0,
     0.0, 0.0, 0.0, 1.0]
  }

  /**
   * Construction from a flat sequence: 16 values are taken as the entries in
   * row-major order; any other number of values (the empty sequence among
   * them) leaves the matrix at the identity.
   */
  function FromFlat(values: seq<real>): (m: Matrix)
    ensures |values| == 16 ==> forall r: nat, c: nat | r < 4 && c < 4 :: At(m, r, c) == values[4 * r + c]
    ensures |values| != 16 ==> forall r: nat, c: nat | r < 4 && c < 4 :: At(m, r, c) == Delta(r, c)
  {
    if |values| == 16 then values else Identity()
  }

  /** True when the nested sequence has exactly 4 rows of 4 values. */
  predicate IsFourByFour(rows: seq<seq<real>>) {
    |rows| == 4 && forall r | 0 <= r < 4 :: |rows[r]| == 4
  }

  /** The rows of a nested sequence laid end to end. */
  function Flatten(rows: seq<seq<real>>): seq<real> {
    if rows == [] then [] else rows[0] + Flatten(rows[1..])
  }

  /**
   * Construction from a nested sequence: 4 rows of 4 values give the matrix
   * with those rows; any other shape (the empty sequence among them) leaves
   * the matrix at the identity.
   */
  function FromNested(rows: seq<seq<real>>): (m: Matrix)
    ensures IsFourByFour(rows) ==> forall r: nat, c: nat | r < 4 && c < 4 :: At(m, r, c) == rows[r][c]
    ensures !IsFourByFour(rows) ==> m == Identity()
  {
    if IsFourByFour(rows) then
      FlattenFourByFour(rows);
      Flatten(rows)
    else
      Identity()
  }

  /** Flattening 4 rows of 4 puts entry (r, c) at index 4r + c. */
  lemma {:induction false} FlattenFourByFour(rows: seq<seq<real>>)
    requires IsFourByFour(rows)
    ensures |Flatten(rows)| == 16
    ensures forall r: nat, c: nat | r < 4 && c < 4 :: Flatten(rows)[4 * r + c] == rows[r][c]
  {
    assert rows[1..][1..] == rows[2..] && rows[2..][1..] == rows[3..] && rows[3..][1..] == [];
    assert Flatten(rows[3..]) == rows[3];
    assert Flatten(rows[2..]) == rows[2] + rows[3];
    assert Flatten(rows[1..]) == rows[1] + (rows[2] + rows[3]);
    assert Flatten(rows) == rows[0] + (rows[1] + (rows[2] + rows[3]));
  }

  /**
   * Construction from a raw buffer of at least 16 values, read row-major
   * when rowMajor holds and column-major otherwise.
   */
  function FromRaw(values: seq<real>, rowMajor: bool): (m: Matrix)
    requires |values| >= 16
    ensures forall r: nat, c: nat | r < 4 && c < 4 ::
      At(m, r, c) == if rowMajor then values[4 * r + c] else values[4 * c + r]
  {
    if rowMajor then values[..16] else Transpose(values[..16])
  }

  /** The matrix with rows and columns exchanged. */
  function Transpose(m: Matrix): (t: Matrix)
    ensures forall r: nat, c: nat | r < 4 && c < 4 :: At(t, r, c) == At(m, c, r)
  {
    seq(16, i requires 0 <= i < 16 => m[(i % 4) * 4 + i / 4])
  }

  /** Row r of a times column c of b. */
  function RowTimesColumn(a: Matrix, b: Matrix, r: nat, c: nat): real
    requires r < 4 && c < 4
  {
    At(a, r, 0) * At(b, 0, c) + At(a, r, 1) * At(b, 1, c) + At(a, r, 2) * At(b, 2, c) + At(a, r, 3) * At(b, 3, c)
  }

  /** The matrix product a * b: entry (r, c) is row r of a against column c of b. */
  function Mul(a: Matrix, b: Matrix): (p: Matrix)
    ensures forall r: nat, c: nat | r < 4 && c < 4 :: At(p, r, c) == RowTimesColumn(a, b, r, c)
  {
    var p := seq(16, i requires 0 <= i < 16 => RowTimesColumn(a, b, i / 4, i % 4));
    assert forall r: nat, c: nat | r < 4 && c < 4 ::
      (4 * r + c) / 4 == r && (4 * r + c) % 4 == c && At(p, r, c) == RowTimesColumn(a, b, r, c);
    p
  }

  /**
   * The matrix applied to a point: the vector is extended with a fourth
   * coordinate 1 and the first three rows give the result.
   */
  function Apply(m: Matrix, v: Vec3): (w: Vec3)
    ensures v == Vec3(0.0, 0.0, 0.0) ==> w == Vec3(m[3], m[7], m[11])
  {
    Vec3(Row(m[0], m[1], m[2], m[3], v),
         Row(m[4], m[5], m[6], m[7], v),
         Row(m[8], m[9], m[10], m[11], v))
  }

  /** One row (m0, m1, m2, m3) against the point v extended with a fourth coordinate 1. */
  function Row(m0: real, m1: real, m2: real, m3: real, v: Vec3): real {
    m0 * v.x + m1 * v.y + m2 * v.z + m3
  }

  /** The translation by v: the identity with v in the last column. */
  function Translate(v: Vec3): (m: Matrix)
    ensures forall r: nat, c: nat | r < 4 && c < 3 :: At(m, r, c) == Delta(r, c)
    ensures At(m, 0, 3) == v.x && At(m, 1, 3) == v.y && At(m, 2, 3) == v.z && At(m, 3, 3) == 1.0
  {
    [1.0, 0.0, 0.0, v.x,
     0.0, 1.0, 0.0, v.y,
     0.0, 0.0, 1.0, v.z,
     0.0, 0.0, 0.0, 1.0]
  }

  /** True when the last row is (0, 0, 0, 1), as for every rigid transform. */
  predicate IsAffine(m: Matrix) {
    m[12] == 0.0 && m[13] == 0.0 && m[14] == 0.0 && m[15] == 1.0
  }

  /** The 2x2 minors of the top two rows, s[0] to s[5] (columns 01, 02, 03, 12, 13, 23). */
  function TopMinors(m: Matrix): (s: seq<real>)
    ensures |s| == 6
  {
    [m[0] * m[5] - m[4] * m[1], m[0] * m[6] - m[4] * m[2], m[0] * m[7] - m[4] * m[3],
     m[1] * m[6] - m[5] * m[2], m[1] * m[7] - m[5] * m[3], m[2] * m[7] - m[6] * m[3]]
  }

  /** The 2x2 minors of the bottom two rows, c[0] to c[5] (columns 01, 02, 03, 12, 13, 23). */
  function BottomMinors(m: Matrix): (c: seq<real>)
    ensures |c| == 6
  {
    [m[8] * m[13] - m[12] * m[9], m[8] * m[14] - m[12] * m[10], m[8] * m[15] - m[12] * m[11],
     m[9] * m[14] - m[13] * m[10], m[9] * m[15] - m[13] * m[11], m[10] * m[15] - m[14] * m[11]]
  }

  /** The general 4x4 determinant, by Laplace expansion along the top two rows. */
  function Determinant(m: Matrix): (d: real)
    ensures IsAffine(m) ==>
      d == m[0] * (m[5] * m[10] - m[6] * m[9]) - m[1] * (m[4] * m[10] - m[6] * m[8]) + m[2] * (m[4] * m[9] - m[5] * m[8])
  {
    var s, c := TopMinors(m), BottomMinors(m);
    s[0] * c[5] - s[1] * c[4] + s[2] * c[3] + s[3] * c[2] - s[4] * c[1] + s[5] * c[0]
  }

  /** The transposed matrix of cofactors. */
  function Adjugate(m: Matrix): Matrix {
    var s, c := TopMinors(m), BottomMinors(m);
    [
      m[5] * c[5] - m[6] * c[4] + m[7] * c[3], -m[1] * c[5] + m[2] * c[4] - m[3] * c[3], m[13] * s[5] - m[14] * s[4] + m[15] * s[3], -m[9] * s[5] + m[10] * s[4] - m[11] * s[3],
      -m[4] * c[5] + m[6] * c[2] - m[7] * c[1], m[0] * c[5] - m[2] * c[2] + m[3] * c[1], -m[12] * s[5] + m[14] * s[2] - m[15] * s[1], m[8] * s[5] - m[10] * s[2] + m[11] * s[1],
      m[4] * c[4] - m[5] * c[2] + m[7] * c[0], -m[0] * c[4] + m[1] * c[2] - m[3] * c[0], m[12] * s[4] - m[13] * s[2] + m[15] * s[0], -m[8] * s[4] + m[9] * s[2] - m[11] * s[0],
      -m[4] * c[3] + m[5] * c[1] - m[6] * c[0], m[0] * c[3] - m[1] * c[1] + m[2] * c[0], -m[12] * s[3] + m[13] * s[1] - m[14] * s[0], m[8] * s[3] - m[9] * s[1] + m[10] * s[0]
    ]
  }

  /** Every entry multiplied by k. */
  function Scale(m: Matrix, k: real): Matrix {
    seq(16, i requires 0 <= i < 16 => k * m[i])
  }

  /** equals(other, eps): every entry of a lies within eps of b's, inclusively. */
  predicate Equals(a: Matrix, b: Matrix, eps: real)
    ensures Equals(a, b, eps) <==> forall i | 0 <= i < 16 :: b[i] - eps <= a[i] <= b[i] + eps
  {
    forall i | 0 <= i < 16 :: Abs(a[i] - b[i]) <= eps
  }

  /** operator==: the exact comparison, equals with tolerance 0. */
  function Same(a: Matrix, b: Matrix): (r: bool)
    ensures r <==> a == b
  {
    EqualsExactly(a, b);
    Equals(a, b, 0.0)
  }

  /** operator!=: the negation of operator==. */
  function Differ(a: Matrix, b: Matrix): (r: bool)
    ensures r <==> a != b
  {
    !Same(a, b)
  }

  /** isIdentity(eps): every entry lies within eps of the identity's, inclusively. */
  predicate IsIdentity(m: Matrix, eps: real)
    ensures IsIdentity(m, eps) <==> forall r: nat, c: nat | r < 4 && c < 4 :: Delta(r, c) - eps <= At(m, r, c) <= Delta(r, c) + eps
  {
    forall r: nat, c: nat | r < 4 && c < 4 :: Abs(At(m, r, c) - Delta(r, c)) <= eps
  }

  /** m with d added to every entry (the perturbed fixtures of the isIdentity test). */
  function Shift(m: Matrix, d: real): (s: Matrix)
    ensures forall i | 0 <= i < 16 :: s[i] - m[i] == d
  {
    seq(16, i requires 0 <= i < 16 => m[i] + d)
  }

  // ---------------------------------------------------------------------
  // Construction and getData

  /** The default constructor and the constructors from empty input give the identity. */
  lemma EmptyInputIsIdentity()
    ensures FromFlat([]) == Identity()
    ensures FromNested([]) == Identity()
  {
  }

  /** Building from 16 flat values, or from the same values as 4 rows of 4, gives the same data. */
  lemma {:induction false} NestedMatchesFlat(rows: seq<seq<real>>)
    requires IsFourByFour(rows)
    ensures FromNested(rows) == FromFlat(Flatten(rows))
  {
    FlattenFourByFour(rows);
  }

  // ---------------------------------------------------------------------
  // Transpose

  /** Transposing sends the entry at index i to index (i % 4) * 4 + i / 4. */
  lemma TransposeMovesEntry(m: Matrix, i: int)
    requires 0 <= i < 16
    ensures Transpose(m)[(i % 4) * 4 + i / 4] == m[i]
  {
    assert At(Transpose(m), i % 4, i / 4) == At(m, i / 4, i % 4);
  }

  lemma TransposeInvolutive(m: Matrix)
    ensures Transpose(Transpose(m)) == m
  {
    var t := Transpose(Transpose(m));
    forall i | 0 <= i < 16 ensures t[i] == m[i] {
      assert t[i] == At(t, i / 4, i % 4);
    }
  }

  lemma TransposeIdentity()
    ensures Transpose(Identity()) == Identity()
  {
    var t := Transpose(Identity());
    forall i | 0 <= i < 16 ensures t[i] == Identity()[i] {
      assert t[i] == At(t, i / 4, i % 4);
    }
  }

  /** Reading a raw buffer column-major gives the transpose of reading it row-major. */
  lemma ColumnMajorIsTranspose(values: seq<real>)
    requires |values| >= 16
    ensures FromRaw(values, false) == Transpose(FromRaw(values, true))
  {
    var a, b := FromRaw(values, false), Transpose(FromRaw(values, true));
    forall i | 0 <= i < 16 ensures a[i] == b[i] {
      assert a[i] == At(a, i / 4, i % 4) && b[i] == At(b, i / 4, i % 4);
    }
  }

  // ---------------------------------------------------------------------
  // Products

  /** Two matrices that agree entry by entry are equal. */
  lemma EqualByEntries(a: Matrix, b: Matrix)
    requires forall r: nat, c: nat | r < 4 && c < 4 :: At(a, r, c) == At(b, r, c)
    ensures a == b
  {
    forall i | 0 <= i < 16 ensures a[i] == b[i] {
      assert a[i] == At(a, i / 4, i % 4) && b[i] == At(b, i / 4, i % 4);
    }
  }

  lemma MulIdentityLeft(m: Matrix)
    ensures Mul(Identity(), m) == m
  {
    forall r: nat, c: nat | r < 4 && c < 4 ensures At(Mul(Identity(), m), r, c) == At(m, r, c) {
    }
    EqualByEntries(Mul(Identity(), m), m);
  }

  lemma MulIdentityRight(m: Matrix)
    ensures Mul(m, Identity()) == m
  {
    forall r: nat, c: nat | r < 4 && c < 4 ensures At(Mul(m, Identity()), r, c) == At(m, r, c) {
    }
    EqualByEntries(Mul(m, Identity()), m);
  }

  /** The transpose of a product is the product of the transposes, in reverse order. */
  lemma TransposeOfProduct(a: Matrix, b: Matrix)
    ensures Transpose(Mul(a, b)) == Mul(Transpose(b), Transpose(a))
  {
    forall r: nat, c: nat | r < 4 && c < 4
      ensures At(Transpose(Mul(a, b)), r, c) == At(Mul(Transpose(b), Transpose(a)), r, c)
    {
      SwappedRowTimesColumn(a, b, r, c);
    }
    EqualByEntries(Transpose(Mul(a, b)), Mul(Transpose(b), Transpose(a)));
  }

  /** Row r of b's transpose against column c of a's is row c of a against column r of b. */
  lemma SwappedRowTimesColumn(a: Matrix, b: Matrix, r: nat, c: nat)
    requires r < 4 && c < 4
    ensures RowTimesColumn(Transpose(b), Transpose(a), r, c) == RowTimesColumn(a, b, c, r)
  {
    var tb, ta := Transpose(b), Transpose(a);
    assert At(tb, r, 0) * At(ta, 0, c) == At(a, c, 0) * At(b, 0, r);
    assert At(tb, r, 1) * At(ta, 1, c) == At(a, c, 1) * At(b, 1, r);
    assert At(tb, r, 2) * At(ta, 2, c) == At(a, c, 2) * At(b, 2, r);
    assert At(tb, r, 3) * At(ta, 3, c) == At(a, c, 3) * At(b, 3, r);
  }

  lemma ApplyIdentity(v: Vec3)
    ensures Apply(Identity(), v) == v
  {
  }

  /** Translating by a moves every point b to a + b. */
  lemma TranslateMovesPoint(a: Vec3, b: Vec3)
    ensures Apply(Translate(a), b) == Add(a, b)
  {
  }

  /** Composing two translations translates by the sum of their vectors. */
  lemma TranslationsCompose(a: Vec3, b: Vec3)
    ensures Mul(Translate(a), Translate(b)) == Translate(Add(a, b))
  {
    forall r: nat, c: nat | r < 4 && c < 4
      ensures At(Mul(Translate(a), Translate(b)), r, c) == At(Translate(Add(a, b)), r, c)
    {
    }
    EqualByEntries(Mul(Translate(a), Translate(b)), Translate(Add(a, b)));
  }

  /** Applying a product is applying its factors in turn, when the right factor is affine. */
  lemma ApplyProduct(a: Matrix, b: Matrix, v: Vec3)
    requires IsAffine(b)
    ensures Apply(Mul(a, b), v) == Apply(a, Apply(b, v))
  {
    ApplyProductX(a, b, v);
    ApplyProductY(a, b, v);
    ApplyProductZ(a, b, v);
  }

  /** The x coordinate of ApplyProduct. */
  lemma ApplyProductX(a: Matrix, b: Matrix, v: Vec3)
    requires IsAffine(b)
    ensures Apply(Mul(a, b), v).x == Apply(a, Apply(b, v)).x
  {
    var p := Mul(a, b);
    MulRow(a, b, 0);
    ProductRow(a[0], a[1], a[2], a[3], p[0], p[1], p[2], p[3], b, v);
  }

  /** The y coordinate of ApplyProduct. */
  lemma ApplyProductY(a: Matrix, b: Matrix, v: Vec3)
    requires IsAffine(b)
    ensures Apply(Mul(a, b), v).y == Apply(a, Apply(b, v)).y
  {
    var p := Mul(a, b);
    MulRow(a, b, 1);
    ProductRow(a[4], a[5], a[6], a[7], p[4], p[5], p[6], p[7], b, v);
  }

  /** The z coordinate of ApplyProduct. */
  lemma ApplyProductZ(a: Matrix, b: Matrix, v: Vec3)
    requires IsAffine(b)
    ensures Apply(Mul(a, b), v).z == Apply(a, Apply(b, v)).z
  {
    var p := Mul(a, b);
    MulRow(a, b, 2);
    ProductRow(a[8], a[9], a[10], a[11], p[8], p[9], p[10], p[11], b, v);
  }

  /** A row (p0, p1, p2, p3) of a × b against v is the row of a against b's image of v, when b is affine. */
  lemma ProductRow(a0: real, a1: real, a2: real, a3: real, p0: real, p1: real, p2: real, p3: real, b: Matrix, v: Vec3)
    requires IsAffine(b)
    requires p0 == a0 * b[0] + a1 * b[4] + a2 * b[8] + a3 * b[12]
    requires p1 == a0 * b[1] + a1 * b[5] + a2 * b[9] + a3 * b[13]
    requires p2 == a0 * b[2] + a1 * b[6] + a2 * b[10] + a3 * b[14]
    requires p3 == a0 * b[3] + a1 * b[7] + a2 * b[11] + a3 * b[15]
    ensures Row(p0, p1, p2, p3, v) == Row(a0, a1, a2, a3, Apply(b, v))
  {
    RowOfProduct(a0, a1, a2, a3, b, v);
  }

  /** The four entries of row r of a product, written out. */
  lemma MulRow(a: Matrix, b: Matrix, r: nat)
    requires r < 4
    ensures var p := Mul(a, b);
      && p[4 * r] == a[4 * r] * b[0] + a[4 * r + 1] * b[4] + a[4 * r + 2] * b[8] + a[4 * r + 3] * b[12]
      && p[4 * r + 1] == a[4 * r] * b[1] + a[4 * r + 1] * b[5] + a[4 * r + 2] * b[9] + a[4 * r + 3] * b[13]
      && p[4 * r + 2] == a[4 * r] * b[2] + a[4 * r + 1] * b[6] + a[4 * r + 2] * b[10] + a[4 * r + 3] * b[14]
      && p[4 * r + 3] == a[4 * r] * b[3] + a[4 * r + 1] * b[7] + a[4 * r + 2] * b[11] + a[4 * r + 3] * b[15]
  {
    var p := Mul(a, b);
    assert p[4 * r] == RowTimesColumn(a, b, r, 0);
    assert p[4 * r + 1] == RowTimesColumn(a, b, r, 1);
    assert p[4 * r + 2] == RowTimesColumn(a, b, r, 2);
    assert p[4 * r + 3] == RowTimesColumn(a, b, r, 3);
  }

  /** A row of a × b against v is the row of a against b's image of v, when b is affine. */
  lemma RowOfProduct(a0: real, a1: real, a2: real, a3: real, b: Matrix, v: Vec3)
    requires IsAffine(b)
    ensures Row(a0 * b[0] + a1 * b[4] + a2 * b[8] + a3 * b[12],
                a0 * b[1] + a1 * b[5] + a2 * b[9] + a3 * b[13],
                a0 * b[2] + a1 * b[6] + a2 * b[10] + a3 * b[14],
                a0 * b[3] + a1 * b[7] + a2 * b[11] + a3 * b[15], v)
         == Row(a0, a1, a2, a3, Apply(b, v))
  {
  }

  // ---------------------------------------------------------------------
  // Determinant and inverse

  lemma DeterminantOfIdentity()
    ensures Determinant(Identity()) == 1.0
  {
  }

  /** The sample matrix of the determinant and invert tests. */
  const Sample: Matrix := [2.0, 0.3, 0.4, 1.23,
                           0.45, 1.0, 0.488, 12345.0,
                           0.0, 0.0, 3.5, 0.0,
                           0.0, 0.0, 0.0, 1.0]

  /** The exact inverse of Sample over the reals. */
  const SampleInverse: Matrix := [200.0 / 373.0, -60.0 / 373.0, -2536.0 / 65275.0, 740454.0 / 373.0,
                                  -90.0 / 373.0, 400.0 / 373.0, -1592.0 / 13055.0, -49378893.0 / 3730.0,
                                  0.0, 0.0, 2.0 / 7.0, 0.0,
                                  0.0, 0.0, 0.0, 1.0]

  /** The determinant of the sample matrix is exactly 6.5275 over the reals. */
  lemma DeterminantOfSample()
    ensures Determinant(Sample) == 6.5275
  {
  }

  /** Every translation has determinant 1. */
  lemma DeterminantOfTranslation(v: Vec3)
    ensures Determinant(Translate(v)) == 1.0
  {
  }

  /** SampleInverse is a two-sided inverse of Sample. */
  lemma SampleInverseIsInverse()
    ensures Mul(Sample, SampleInverse) == Identity()
    ensures Mul(SampleInverse, Sample) == Identity()
  {
    forall r: nat, c: nat | r < 4 && c < 4
      ensures At(Mul(Sample, SampleInverse), r, c) == At(Identity(), r, c)
      ensures At(Mul(SampleInverse, Sample), r, c) == At(Identity(), r, c)
    {
      SampleInverseEntry(r, c);
    }
    EqualByEntries(Mul(Sample, SampleInverse), Identity());
    EqualByEntries(Mul(SampleInverse, Sample), Identity());
  }

  /** Entry (r, c) of Sample × SampleInverse and of SampleInverse × Sample. */
  lemma SampleInverseEntry(r: nat, c: nat)
    requires r < 4 && c < 4
    ensures RowTimesColumn(Sample, SampleInverse, r, c) == Delta(r, c)
    ensures RowTimesColumn(SampleInverse, Sample, r, c) == Delta(r, c)
  {
  }

  // ---------------------------------------------------------------------
  // Comparison

  /** Exact comparison holds precisely of equal data. */
  lemma EqualsExactly(a: Matrix, b: Matrix)
    ensures Equals(a, b, 0.0) <==> a == b
  {
    if Equals(a, b, 0.0) {
      forall i | 0 <= i < 16 ensures a[i] == b[i] {
        assert Abs(a[i] - b[i]) <= 0.0;
      }
    }
  }

  /** equals is reflexive for any non-negative tolerance. */
  lemma EqualsReflexive(a: Matrix, eps: real)
    requires eps >= 0.0
    ensures Equals(a, a, eps)
  {
    assert Abs(0.0) == 0.0;
  }

  /** equals is symmetric. */
  lemma EqualsSymmetric(a: Matrix, b: Matrix, eps: real)
    ensures Equals(a, b, eps) <==> Equals(b, a, eps)
  {
    if Equals(a, b, eps) {
      forall i | 0 <= i < 16 ensures Abs(b[i] - a[i]) <= eps {
        assert Abs(b[i] - a[i]) == Abs(a[i] - b[i]);
      }
    }
    if Equals(b, a, eps) {
      forall i | 0 <= i < 16 ensures Abs(a[i] - b[i]) <= eps {
        assert Abs(b[i] - a[i]) == Abs(a[i] - b[i]);
      }
    }
  }

  /** isIdentity(eps) is equals(identity, eps). */
  lemma IsIdentityIsEqualsIdentity(m: Matrix, eps: real)
    ensures IsIdentity(m, eps) <==> Equals(m, Identity(), eps)
  {
    if IsIdentity(m, eps) {
      forall i | 0 <= i < 16 ensures Abs(m[i] - Identity()[i]) <= eps {
        assert m[i] == At(m, i / 4, i % 4) && Identity()[i] == At(Identity(), i / 4, i % 4);
      }
    }
    if Equals(m, Identity(), eps) {
      forall r: nat, c: nat | r < 4 && c < 4 ensures Abs(At(m, r, c) - Delta(r, c)) <= eps {
        assert Abs(m[4 * r + c] - Identity()[4 * r + c]) <= eps;
      }
    }
  }

  /**
   * The identity shifted by d in every entry passes isIdentity(eps) exactly
   * when |d| <= eps: the tolerance is inclusive, and a shift beyond it fails.
   */
  lemma ShiftedIdentity(d: real, eps: real)
    ensures IsIdentity(Shift(Identity(), d), eps) <==> Abs(d) <= eps
  {
    var s := Shift(Identity(), d);
    if IsIdentity(s, eps) {
      assert Abs(At(s, 0, 0) - Delta(0, 0)) <= eps;
    }
    if Abs(d) <= eps {
      forall r: nat, c: nat | r < 4 && c < 4 ensures Abs(At(s, r, c) - Delta(r, c)) <= eps {
        assert At(s, r, c) - Delta(r, c) == d;
      }
    }
  }

  /** A single entry off the identity by more than eps makes isIdentity(eps) fail. */
  lemma OneEntryOff(m: Matrix, eps: real, r: nat, c: nat)
    requires r < 4 && c < 4 && Abs(At(m, r, c) - Delta(r, c)) > eps
    ensures !IsIdentity(m, eps)
  {
  }
}
