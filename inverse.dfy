/**
 * The laws behind RepoMatrix::invert: the adjugate times the matrix, on
 * either side, is the determinant times the identity, so for a non-zero
 * determinant the adjugate divided by it is a two-sided inverse.
 */
module Inverse {
  import opened Vectors
  import opened Matrix4
  import Cofactor

  // ---------------------------------------------------------------------
  // The matrix times its adjugate

  /** Row 0 of m against column 0 of its adjugate is the determinant. */
  lemma RowAgainstAdjugate00(m: Matrix)
    ensures RowTimesColumn(m, Adjugate(m), 0, 0) == Determinant(m)
  {
    var s, c, a := TopMinors(m), BottomMinors(m), Adjugate(m);
    Cofactor.DetTop(m[0], m[1], m[2], m[3], m[4], m[5], m[6], m[7], s[0], s[1], s[2], s[3], s[4], s[5], c[0], c[1], c[2], c[3], c[4], c[5], a[0], a[4], a[8], a[12]);
  }

  /** Row 0 of m against column 1 of its adjugate is 0. */
  lemma RowAgainstAdjugate01(m: Matrix)
    ensures RowTimesColumn(m, Adjugate(m), 0, 1) == 0.0
  {
    var s, c, a := TopMinors(m), BottomMinors(m), Adjugate(m);
    Cofactor.VanishSelfSwapped(m[0], m[1], m[2], m[3], c[0], c[1], c[2], c[3], c[4], c[5], a[1], a[5], a[9], a[13]);
  }

  /** Row 0 of m against column 2 of its adjugate is 0. */
  lemma RowAgainstAdjugate02(m: Matrix)
    ensures RowTimesColumn(m, Adjugate(m), 0, 2) == 0.0
  {
    var s, c, a := TopMinors(m), BottomMinors(m), Adjugate(m);
    Cofactor.VanishFirst(m[0], m[1], m[2], m[3], m[12], m[13], m[14], m[15], m[4], m[5], m[6], m[7], s[0], s[1], s[2], s[3], s[4], s[5], a[2], a[6], a[10], a[14]);
  }

  /** Row 0 of m against column 3 of its adjugate is 0. */
  lemma RowAgainstAdjugate03(m: Matrix)
    ensures RowTimesColumn(m, Adjugate(m), 0, 3) == 0.0
  {
    var s, c, a := TopMinors(m), BottomMinors(m), Adjugate(m);
    Cofactor.VanishFirstSwapped(m[0], m[1], m[2], m[3], m[8], m[9], m[10], m[11], m[4], m[5], m[6], m[7], s[0], s[1], s[2], s[3], s[4], s[5], a[3], a[7], a[11], a[15]);
  }

  /** Row 1 of m against column 0 of its adjugate is 0. */
  lemma RowAgainstAdjugate10(m: Matrix)
    ensures RowTimesColumn(m, Adjugate(m), 1, 0) == 0.0
  {
    var s, c, a := TopMinors(m), BottomMinors(m), Adjugate(m);
    Cofactor.VanishSelf(m[4], m[5], m[6], m[7], c[0], c[1], c[2], c[3], c[4], c[5], a[0], a[4], a[8], a[12]);
  }

  /** Row 1 of m against column 1 of its adjugate is the determinant. */
  lemma RowAgainstAdjugate11(m: Matrix)
    ensures RowTimesColumn(m, Adjugate(m), 1, 1) == Determinant(m)
  {
    var s, c, a := TopMinors(m), BottomMinors(m), Adjugate(m);
    Cofactor.DetTopSwapped(m[4], m[5], m[6], m[7], m[0], m[1], m[2], m[3], s[0], s[1], s[2], s[3], s[4], s[5], c[0], c[1], c[2], c[3], c[4], c[5], a[1], a[5], a[9], a[13]);
  }

  /** Row 1 of m against column 2 of its adjugate is 0. */
  lemma RowAgainstAdjugate12(m: Matrix)
    ensures RowTimesColumn(m, Adjugate(m), 1, 2) == 0.0
  {
    var s, c, a := TopMinors(m), BottomMinors(m), Adjugate(m);
    Cofactor.VanishSecond(m[4], m[5], m[6], m[7], m[12], m[13], m[14], m[15], m[0], m[1], m[2], m[3], s[0], s[1], s[2], s[3], s[4], s[5], a[2], a[6], a[10], a[14]);
  }

  /** Row 1 of m against column 3 of its adjugate is 0. */
  lemma RowAgainstAdjugate13(m: Matrix)
    ensures RowTimesColumn(m, Adjugate(m), 1, 3) == 0.0
  {
    var s, c, a := TopMinors(m), BottomMinors(m), Adjugate(m);
    Cofactor.VanishSecondSwapped(m[4], m[5], m[6], m[7], m[8], m[9], m[10], m[11], m[0], m[1], m[2], m[3], s[0], s[1], s[2], s[3], s[4], s[5], a[3], a[7], a[11], a[15]);
  }

  /** Row 2 of m against column 0 of its adjugate is 0. */
  lemma RowAgainstAdjugate20(m: Matrix)
    ensures RowTimesColumn(m, Adjugate(m), 2, 0) == 0.0
  {
    var s, c, a := TopMinors(m), BottomMinors(m), Adjugate(m);
    Cofactor.VanishFirst(m[8], m[9], m[10], m[11], m[4], m[5], m[6], m[7], m[12], m[13], m[14], m[15], c[0], c[1], c[2], c[3], c[4], c[5], a[0], a[4], a[8], a[12]);
  }

  /** Row 2 of m against column 1 of its adjugate is 0. */
  lemma RowAgainstAdjugate21(m: Matrix)
    ensures RowTimesColumn(m, Adjugate(m), 2, 1) == 0.0
  {
    var s, c, a := TopMinors(m), BottomMinors(m), Adjugate(m);
    Cofactor.VanishFirstSwapped(m[8], m[9], m[10], m[11], m[0], m[1], m[2], m[3], m[12], m[13], m[14], m[15], c[0], c[1], c[2], c[3], c[4], c[5], a[1], a[5], a[9], a[13]);
  }

  /** Row 2 of m against column 2 of its adjugate is the determinant. */
  lemma RowAgainstAdjugate22(m: Matrix)
    ensures RowTimesColumn(m, Adjugate(m), 2, 2) == Determinant(m)
  {
    var s, c, a := TopMinors(m), BottomMinors(m), Adjugate(m);
    Cofactor.DetBottom(m[8], m[9], m[10], m[11], m[12], m[13], m[14], m[15], s[0], s[1], s[2], s[3], s[4], s[5], c[0], c[1], c[2], c[3], c[4], c[5], a[2], a[6], a[10], a[14]);
  }

  /** Row 2 of m against column 3 of its adjugate is 0. */
  lemma RowAgainstAdjugate23(m: Matrix)
    ensures RowTimesColumn(m, Adjugate(m), 2, 3) == 0.0
  {
    var s, c, a := TopMinors(m), BottomMinors(m), Adjugate(m);
    Cofactor.VanishSelfSwapped(m[8], m[9], m[10], m[11], s[0], s[1], s[2], s[3], s[4], s[5], a[3], a[7], a[11], a[15]);
  }

  /** Row 3 of m against column 0 of its adjugate is 0. */
  lemma RowAgainstAdjugate30(m: Matrix)
    ensures RowTimesColumn(m, Adjugate(m), 3, 0) == 0.0
  {
    var s, c, a := TopMinors(m), BottomMinors(m), Adjugate(m);
    Cofactor.VanishSecond(m[12], m[13], m[14], m[15], m[4], m[5], m[6], m[7], m[8], m[9], m[10], m[11], c[0], c[1], c[2], c[3], c[4], c[5], a[0], a[4], a[8], a[12]);
  }

  /** Row 3 of m against column 1 of its adjugate is 0. */
  lemma RowAgainstAdjugate31(m: Matrix)
    ensures RowTimesColumn(m, Adjugate(m), 3, 1) == 0.0
  {
    var s, c, a := TopMinors(m), BottomMinors(m), Adjugate(m);
    Cofactor.VanishSecondSwapped(m[12], m[13], m[14], m[15], m[0], m[1], m[2], m[3], m[8], m[9], m[10], m[11], c[0], c[1], c[2], c[3], c[4], c[5], a[1], a[5], a[9], a[13]);
  }

  /** Row 3 of m against column 2 of its adjugate is 0. */
  lemma RowAgainstAdjugate32(m: Matrix)
    ensures RowTimesColumn(m, Adjugate(m), 3, 2) == 0.0
  {
    var s, c, a := TopMinors(m), BottomMinors(m), Adjugate(m);
    Cofactor.VanishSelf(m[12], m[13], m[14], m[15], s[0], s[1], s[2], s[3], s[4], s[5], a[2], a[6], a[10], a[14]);
  }

  /** Row 3 of m against column 3 of its adjugate is the determinant. */
  lemma RowAgainstAdjugate33(m: Matrix)
    ensures RowTimesColumn(m, Adjugate(m), 3, 3) == Determinant(m)
  {
    var s, c, a := TopMinors(m), BottomMinors(m), Adjugate(m);
    Cofactor.DetBottomSwapped(m[12], m[13], m[14], m[15], m[8], m[9], m[10], m[11], s[0], s[1], s[2], s[3], s[4], s[5], c[0], c[1], c[2], c[3], c[4], c[5], a[3], a[7], a[11], a[15]);
  }

  /** Row 0 of the adjugate of m against each column of m: the determinant in column 0, 0 in the others. */
  lemma AdjugateRowAgainstColumns0(m: Matrix)
    ensures RowTimesColumn(Adjugate(m), m, 0, 0) == Determinant(m)
    ensures RowTimesColumn(Adjugate(m), m, 0, 1) == 0.0
    ensures RowTimesColumn(Adjugate(m), m, 0, 2) == 0.0
    ensures RowTimesColumn(Adjugate(m), m, 0, 3) == 0.0
  {
    var s, c, a := TopMinors(m), BottomMinors(m), Adjugate(m);
    Cofactor.AdjugateRow0(m[0], m[1], m[2], m[3], m[4], m[5], m[6], m[7], m[8], m[9], m[10], m[11], m[12], m[13], m[14], m[15], s[0], s[1], s[2], s[3], s[4], s[5], c[0], c[1], c[2], c[3], c[4], c[5], a[0], a[1], a[2], a[3]);
  }

  /** Row 1 of the adjugate of m against each column of m: the determinant in column 1, 0 in the others. */
  lemma AdjugateRowAgainstColumns1(m: Matrix)
    ensures RowTimesColumn(Adjugate(m), m, 1, 0) == 0.0
    ensures RowTimesColumn(Adjugate(m), m, 1, 1) == Determinant(m)
    ensures RowTimesColumn(Adjugate(m), m, 1, 2) == 0.0
    ensures RowTimesColumn(Adjugate(m), m, 1, 3) == 0.0
  {
    var s, c, a := TopMinors(m), BottomMinors(m), Adjugate(m);
    Cofactor.AdjugateRow1(m[0], m[1], m[2], m[3], m[4], m[5], m[6], m[7], m[8], m[9], m[10], m[11], m[12], m[13], m[14], m[15], s[0], s[1], s[2], s[3], s[4], s[5], c[0], c[1], c[2], c[3], c[4], c[5], a[4], a[5], a[6], a[7]);
  }

  /** Row 2 of the adjugate of m against each column of m: the determinant in column 2, 0 in the others. */
  lemma AdjugateRowAgainstColumns2(m: Matrix)
    ensures RowTimesColumn(Adjugate(m), m, 2, 0) == 0.0
    ensures RowTimesColumn(Adjugate(m), m, 2, 1) == 0.0
    ensures RowTimesColumn(Adjugate(m), m, 2, 2) == Determinant(m)
    ensures RowTimesColumn(Adjugate(m), m, 2, 3) == 0.0
  {
    var s, c, a := TopMinors(m), BottomMinors(m), Adjugate(m);
    Cofactor.AdjugateRow2(m[0], m[1], m[2], m[3], m[4], m[5], m[6], m[7], m[8], m[9], m[10], m[11], m[12], m[13], m[14], m[15], s[0], s[1], s[2], s[3], s[4], s[5], c[0], c[1], c[2], c[3], c[4], c[5], a[8], a[9], a[10], a[11]);
  }

  /** Row 3 of the adjugate of m against each column of m: the determinant in column 3, 0 in the others. */
  lemma AdjugateRowAgainstColumns3(m: Matrix)
    ensures RowTimesColumn(Adjugate(m), m, 3, 0) == 0.0
    ensures RowTimesColumn(Adjugate(m), m, 3, 1) == 0.0
    ensures RowTimesColumn(Adjugate(m), m, 3, 2) == 0.0
    ensures RowTimesColumn(Adjugate(m), m, 3, 3) == Determinant(m)
  {
    var s, c, a := TopMinors(m), BottomMinors(m), Adjugate(m);
    Cofactor.AdjugateRow3(m[0], m[1], m[2], m[3], m[4], m[5], m[6], m[7], m[8], m[9], m[10], m[11], m[12], m[13], m[14], m[15], s[0], s[1], s[2], s[3], s[4], s[5], c[0], c[1], c[2], c[3], c[4], c[5], a[12], a[13], a[14], a[15]);
  }

  /**
   * Laplace expansion: row r of m against column r of its adjugate is the
   * determinant, and against any other column of it is 0.
   */
  lemma RowAgainstAdjugate(m: Matrix, r: nat, col: nat)
    requires r < 4 && col < 4
    ensures RowTimesColumn(m, Adjugate(m), r, col) == Determinant(m) * Delta(r, col)
  {
    if r == 0 && col == 0 {
      RowAgainstAdjugate00(m);
    } else if r == 0 && col == 1 {
      RowAgainstAdjugate01(m);
    } else if r == 0 && col == 2 {
      RowAgainstAdjugate02(m);
    } else if r == 0 && col == 3 {
      RowAgainstAdjugate03(m);
    } else if r == 1 && col == 0 {
      RowAgainstAdjugate10(m);
    } else if r == 1 && col == 1 {
      RowAgainstAdjugate11(m);
    } else if r == 1 && col == 2 {
      RowAgainstAdjugate12(m);
    } else if r == 1 && col == 3 {
      RowAgainstAdjugate13(m);
    } else if r == 2 && col == 0 {
      RowAgainstAdjugate20(m);
    } else if r == 2 && col == 1 {
      RowAgainstAdjugate21(m);
    } else if r == 2 && col == 2 {
      RowAgainstAdjugate22(m);
    } else if r == 2 && col == 3 {
      RowAgainstAdjugate23(m);
    } else if r == 3 && col == 0 {
      RowAgainstAdjugate30(m);
    } else if r == 3 && col == 1 {
      RowAgainstAdjugate31(m);
    } else if r == 3 && col == 2 {
      RowAgainstAdjugate32(m);
    } else {
      RowAgainstAdjugate33(m);
    }
  }

  /** Column c of m against row c of its adjugate is the determinant, and 0 for any other row. */
  lemma AdjugateAgainstColumn(m: Matrix, r: nat, col: nat)
    requires r < 4 && col < 4
    ensures RowTimesColumn(Adjugate(m), m, r, col) == Determinant(m) * Delta(r, col)
  {
    if r == 0 {
      AdjugateRowAgainstColumns0(m);
    } else if r == 1 {
      AdjugateRowAgainstColumns1(m);
    } else if r == 2 {
      AdjugateRowAgainstColumns2(m);
    } else {
      AdjugateRowAgainstColumns3(m);
    }
  }

  /** m times its adjugate is the determinant times the identity. */
  lemma MulAdjugate(m: Matrix)
    ensures Mul(m, Adjugate(m)) == Scale(Identity(), Determinant(m))
  {
    forall r: nat, c: nat | r < 4 && c < 4
      ensures At(Mul(m, Adjugate(m)), r, c) == At(Scale(Identity(), Determinant(m)), r, c)
    {
      RowAgainstAdjugate(m, r, c);
    }
    EqualByEntries(Mul(m, Adjugate(m)), Scale(Identity(), Determinant(m)));
  }

  /** The adjugate of m times m is the determinant times the identity. */
  lemma AdjugateMul(m: Matrix)
    ensures Mul(Adjugate(m), m) == Scale(Identity(), Determinant(m))
  {
    forall r: nat, c: nat | r < 4 && c < 4
      ensures At(Mul(Adjugate(m), m), r, c) == At(Scale(Identity(), Determinant(m)), r, c)
    {
      AdjugateAgainstColumn(m, r, c);
    }
    EqualByEntries(Mul(Adjugate(m), m), Scale(Identity(), Determinant(m)));
  }

  // ---------------------------------------------------------------------
  // Scaling

  /** A scalar factor on the right operand moves out of the product. */
  lemma MulScaleRight(a: Matrix, b: Matrix, k: real)
    ensures Mul(a, Scale(b, k)) == Scale(Mul(a, b), k)
  {
    forall r: nat, c: nat | r < 4 && c < 4
      ensures At(Mul(a, Scale(b, k)), r, c) == At(Scale(Mul(a, b), k), r, c)
    {
      ScaledSum(At(a, r, 0), At(a, r, 1), At(a, r, 2), At(a, r, 3), At(b, 0, c), At(b, 1, c), At(b, 2, c), At(b, 3, c), k);
    }
    EqualByEntries(Mul(a, Scale(b, k)), Scale(Mul(a, b), k));
  }

  /** A scalar factor on the left operand moves out of the product. */
  lemma MulScaleLeft(a: Matrix, b: Matrix, k: real)
    ensures Mul(Scale(a, k), b) == Scale(Mul(a, b), k)
  {
    forall r: nat, c: nat | r < 4 && c < 4
      ensures At(Mul(Scale(a, k), b), r, c) == At(Scale(Mul(a, b), k), r, c)
    {
      ScaledSumLeft(At(a, r, 0), At(a, r, 1), At(a, r, 2), At(a, r, 3), At(b, 0, c), At(b, 1, c), At(b, 2, c), At(b, 3, c), k);
    }
    EqualByEntries(Mul(Scale(a, k), b), Scale(Mul(a, b), k));
  }

  /** One row against one column, with every column entry scaled by k. */
  lemma ScaledSum(a0: real, a1: real, a2: real, a3: real, b0: real, b1: real, b2: real, b3: real, k: real)
    ensures a0 * (k * b0) + a1 * (k * b1) + a2 * (k * b2) + a3 * (k * b3) == k * (a0 * b0 + a1 * b1 + a2 * b2 + a3 * b3)
  {
  }

  /** One row against one column, with every row entry scaled by k. */
  lemma ScaledSumLeft(a0: real, a1: real, a2: real, a3: real, b0: real, b1: real, b2: real, b3: real, k: real)
    ensures (k * a0) * b0 + (k * a1) * b1 + (k * a2) * b2 + (k * a3) * b3 == k * (a0 * b0 + a1 * b1 + a2 * b2 + a3 * b3)
  {
  }

  /** Scaling the scaled identity by the reciprocal of a non-zero factor restores the identity. */
  lemma UnscaleIdentity(d: real)
    requires d != 0.0
    ensures Scale(Scale(Identity(), d), 1.0 / d) == Identity()
  {
    forall i | 0 <= i < 16 ensures Scale(Scale(Identity(), d), 1.0 / d)[i] == Identity()[i] {
      assert (1.0 / d) * (d * Identity()[i]) == ((1.0 / d) * d) * Identity()[i];
    }
  }

  // ---------------------------------------------------------------------
  // The inverse

  /**
   * invert: the adjugate divided by the determinant, a two-sided inverse
   * whenever the determinant is non-zero. For a singular matrix the
   * division is skipped and the adjugate itself is returned, whose product
   * with m is then the zero matrix.
   */
  function Invert(m: Matrix): (inv: Matrix)
    ensures Determinant(m) != 0.0 ==> Mul(m, inv) == Identity() && Mul(inv, m) == Identity()
    ensures Determinant(m) == 0.0 ==> inv == Adjugate(m)
    ensures Determinant(m) == 0.0 ==> forall i | 0 <= i < 16 :: Mul(m, inv)[i] == 0.0 && Mul(inv, m)[i] == 0.0
  {
    var d := Determinant(m);
    MulAdjugate(m);
    AdjugateMul(m);
    if d == 0.0 then
      Adjugate(m)
    else
      MulScaleRight(m, Adjugate(m), 1.0 / d);
      MulScaleLeft(Adjugate(m), m, 1.0 / d);
      UnscaleIdentity(d);
      Scale(Adjugate(m), 1.0 / d)
  }

  /** The inverse of the identity is the identity. */
  lemma InvertIdentity()
    ensures Invert(Identity()) == Identity()
  {
    DeterminantOfIdentity();
    MulIdentityLeft(Invert(Identity()));
  }

  /** The inverse of the translation by v is the translation by -v. */
  lemma InvertTranslation(v: Vec3)
    ensures Invert(Translate(v)) == Translate(Vec3(-v.x, -v.y, -v.z))
  {
    DeterminantOfTranslation(v);
  }

  /** Invert computes the exact inverse of the sample matrix. */
  lemma InvertSample()
    ensures Invert(Sample) == SampleInverse
  {
    DeterminantOfSample();
    assert Adjugate(Sample) == [7.0 / 2.0, -21.0 / 20.0, -317.0 / 1250.0, 2591589.0 / 200.0,
                                -63.0 / 40.0, 7.0, -199.0 / 250.0, -345652251.0 / 4000.0,
                                0.0, 0.0, 373.0 / 200.0, 0.0,
                                0.0, 0.0, 0.0, 2611.0 / 400.0];
  }
}
