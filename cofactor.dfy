/**
 * Polynomial identities behind the cofactor expansion of a 4x4 determinant,
 * stated over scalars so that each one is a small problem for the solver.
 */
module Cofactor {
  /**
   * c are the six 2x2 minors of the rows p (above) and q (below), taken over
   * the column pairs (0,1), (0,2), (0,3), (1,2), (1,3), (2,3).
   */
  predicate Minors(p0: real, p1: real, p2: real, p3: real, q0: real, q1: real, q2: real, q3: real, c0: real, c1: real, c2: real, c3: real, c4: real, c5: real) {
    c0 == p0 * q1 - q0 * p1
    && c1 == p0 * q2 - q0 * p2
    && c2 == p0 * q3 - q0 * p3
    && c3 == p1 * q2 - q1 * p2
    && c4 == p1 * q3 - q1 * p3
    && c5 == p2 * q3 - q2 * p3
  }

  /** Multiplying both sides of an equation by z. */
  lemma Times(z: real, x: real, y: real)
    requires x == y
    ensures z * x == z * y
  {
  }

  /** Multiplying both sides of an equation by z, on the right. */
  lemma TimesRight(x: real, y: real, z: real)
    requires x == y
    ensures x * z == y * z
  {
  }

  /** p against the cofactors of q over c is the determinant with rows p, q above the rows whose minors are c. */
  lemma ExpandTop(p0: real, p1: real, p2: real, p3: real, q0: real, q1: real, q2: real, q3: real, c0: real, c1: real, c2: real, c3: real, c4: real, c5: real)
    ensures p0 * (q1 * c5 - q2 * c4 + q3 * c3) + p1 * (-q0 * c5 + q2 * c2 - q3 * c1) + p2 * (q0 * c4 - q1 * c2 + q3 * c0) + p3 * (-q0 * c3 + q1 * c1 - q2 * c0)
         == (p0 * q1 - q0 * p1) * c5 - (p0 * q2 - q0 * p2) * c4 + (p0 * q3 - q0 * p3) * c3 + (p1 * q2 - q1 * p2) * c2 - (p1 * q3 - q1 * p3) * c1 + (p2 * q3 - q2 * p3) * c0
  {
  }

  /** p against the negated cofactors of q over c is the determinant with rows q, p above the rows whose minors are c. */
  lemma ExpandTopSwapped(p0: real, p1: real, p2: real, p3: real, q0: real, q1: real, q2: real, q3: real, c0: real, c1: real, c2: real, c3: real, c4: real, c5: real)
    ensures p0 * (-q1 * c5 + q2 * c4 - q3 * c3) + p1 * (q0 * c5 - q2 * c2 + q3 * c1) + p2 * (-q0 * c4 + q1 * c2 - q3 * c0) + p3 * (q0 * c3 - q1 * c1 + q2 * c0)
         == (q0 * p1 - p0 * q1) * c5 - (q0 * p2 - p0 * q2) * c4 + (q0 * p3 - p0 * q3) * c3 + (q1 * p2 - p1 * q2) * c2 - (q1 * p3 - p1 * q3) * c1 + (q2 * p3 - p2 * q3) * c0
  {
  }

  /** p against the cofactors of q over c is the determinant with rows p, q below the rows whose minors are c. */
  lemma ExpandBottom(p0: real, p1: real, p2: real, p3: real, q0: real, q1: real, q2: real, q3: real, c0: real, c1: real, c2: real, c3: real, c4: real, c5: real)
    ensures p0 * (q1 * c5 - q2 * c4 + q3 * c3) + p1 * (-q0 * c5 + q2 * c2 - q3 * c1) + p2 * (q0 * c4 - q1 * c2 + q3 * c0) + p3 * (-q0 * c3 + q1 * c1 - q2 * c0)
         == c0 * (p2 * q3 - q2 * p3) - c1 * (p1 * q3 - q1 * p3) + c2 * (p1 * q2 - q1 * p2) + c3 * (p0 * q3 - q0 * p3) - c4 * (p0 * q2 - q0 * p2) + c5 * (p0 * q1 - q0 * p1)
  {
  }

  /** p against the negated cofactors of q over c is the determinant with rows q, p below the rows whose minors are c. */
  lemma ExpandBottomSwapped(p0: real, p1: real, p2: real, p3: real, q0: real, q1: real, q2: real, q3: real, c0: real, c1: real, c2: real, c3: real, c4: real, c5: real)
    ensures p0 * (-q1 * c5 + q2 * c4 - q3 * c3) + p1 * (q0 * c5 - q2 * c2 + q3 * c1) + p2 * (-q0 * c4 + q1 * c2 - q3 * c0) + p3 * (q0 * c3 - q1 * c1 + q2 * c0)
         == c0 * (q2 * p3 - p2 * q3) - c1 * (q1 * p3 - p1 * q3) + c2 * (q1 * p2 - p1 * q2) + c3 * (q0 * p3 - p0 * q3) - c4 * (q0 * p2 - p0 * q2) + c5 * (q0 * p1 - p0 * q1)
  {
  }

  /** Exchanging the two rows negates the expansion. */
  lemma Swap(p0: real, p1: real, p2: real, p3: real, q0: real, q1: real, q2: real, q3: real, c0: real, c1: real, c2: real, c3: real, c4: real, c5: real)
    ensures p0 * (q1 * c5 - q2 * c4 + q3 * c3) + p1 * (-q0 * c5 + q2 * c2 - q3 * c1) + p2 * (q0 * c4 - q1 * c2 + q3 * c0) + p3 * (-q0 * c3 + q1 * c1 - q2 * c0)
         == -(q0 * (p1 * c5 - p2 * c4 + p3 * c3) + q1 * (-p0 * c5 + p2 * c2 - p3 * c1) + q2 * (p0 * c4 - p1 * c2 + p3 * c0) + q3 * (-p0 * c3 + p1 * c1 - p2 * c0))
  {
  }

  /** Exchanging the two rows of the negated expansion. */
  lemma SwapNegated(p0: real, p1: real, p2: real, p3: real, q0: real, q1: real, q2: real, q3: real, c0: real, c1: real, c2: real, c3: real, c4: real, c5: real)
    ensures p0 * (-q1 * c5 + q2 * c4 - q3 * c3) + p1 * (q0 * c5 - q2 * c2 + q3 * c1) + p2 * (-q0 * c4 + q1 * c2 - q3 * c0) + p3 * (q0 * c3 - q1 * c1 + q2 * c0)
         == q0 * (p1 * c5 - p2 * c4 + p3 * c3) + q1 * (-p0 * c5 + p2 * c2 - p3 * c1) + q2 * (p0 * c4 - p1 * c2 + p3 * c0) + q3 * (-p0 * c3 + p1 * c1 - p2 * c0)
  {
  }

  /** The cofactors of p over the minors of p and r vanish. */
  lemma SelfCofactor(p0: real, p1: real, p2: real, p3: real, r0: real, r1: real, r2: real, r3: real, c0: real, c1: real, c2: real, c3: real, c4: real, c5: real)
    requires Minors(p0, p1, p2, p3, r0, r1, r2, r3, c0, c1, c2, c3, c4, c5)
    ensures p1 * c5 - p2 * c4 + p3 * c3 == 0.0
    ensures -p0 * c5 + p2 * c2 - p3 * c1 == 0.0
    ensures p0 * c4 - p1 * c2 + p3 * c0 == 0.0
    ensures -p0 * c3 + p1 * c1 - p2 * c0 == 0.0
  {
  }

  /** The cofactors of p over the minors of r and p vanish. */
  lemma SelfCofactorSecond(p0: real, p1: real, p2: real, p3: real, r0: real, r1: real, r2: real, r3: real, c0: real, c1: real, c2: real, c3: real, c4: real, c5: real)
    requires Minors(r0, r1, r2, r3, p0, p1, p2, p3, c0, c1, c2, c3, c4, c5)
    ensures p1 * c5 - p2 * c4 + p3 * c3 == 0.0
    ensures -p0 * c5 + p2 * c2 - p3 * c1 == 0.0
    ensures p0 * c4 - p1 * c2 + p3 * c0 == 0.0
    ensures -p0 * c3 + p1 * c1 - p2 * c0 == 0.0
  {
  }

  /** Row 0 of the adjugate, restricted to two rows p, q with minors s, against column j of those rows. */
  lemma ColumnHalf0(p0: real, p1: real, p2: real, p3: real, q0: real, q1: real, q2: real, q3: real, c0: real, c1: real, c2: real, c3: real, c4: real, c5: real, s0: real, s1: real, s2: real, s3: real, s4: real, s5: real)
    requires Minors(p0, p1, p2, p3, q0, q1, q2, q3, s0, s1, s2, s3, s4, s5)
    ensures (q1 * c5 - q2 * c4 + q3 * c3) * p0 + (-p1 * c5 + p2 * c4 - p3 * c3) * q0
         == s0 * c5 - s1 * c4 + s2 * c3
    ensures (q1 * c5 - q2 * c4 + q3 * c3) * p1 + (-p1 * c5 + p2 * c4 - p3 * c3) * q1
         == -s3 * c4 + s4 * c3
    ensures (q1 * c5 - q2 * c4 + q3 * c3) * p2 + (-p1 * c5 + p2 * c4 - p3 * c3) * q2
         == -s3 * c5 + s5 * c3
    ensures (q1 * c5 - q2 * c4 + q3 * c3) * p3 + (-p1 * c5 + p2 * c4 - p3 * c3) * q3
         == -s4 * c5 + s5 * c4
  {
  }

  /** Row 1 of the adjugate, restricted to two rows p, q with minors s, against column j of those rows. */
  lemma ColumnHalf1(p0: real, p1: real, p2: real, p3: real, q0: real, q1: real, q2: real, q3: real, c0: real, c1: real, c2: real, c3: real, c4: real, c5: real, s0: real, s1: real, s2: real, s3: real, s4: real, s5: real)
    requires Minors(p0, p1, p2, p3, q0, q1, q2, q3, s0, s1, s2, s3, s4, s5)
    ensures (-q0 * c5 + q2 * c2 - q3 * c1) * p0 + (p0 * c5 - p2 * c2 + p3 * c1) * q0
         == s1 * c2 - s2 * c1
    ensures (-q0 * c5 + q2 * c2 - q3 * c1) * p1 + (p0 * c5 - p2 * c2 + p3 * c1) * q1
         == s0 * c5 + s3 * c2 - s4 * c1
    ensures (-q0 * c5 + q2 * c2 - q3 * c1) * p2 + (p0 * c5 - p2 * c2 + p3 * c1) * q2
         == s1 * c5 - s5 * c1
    ensures (-q0 * c5 + q2 * c2 - q3 * c1) * p3 + (p0 * c5 - p2 * c2 + p3 * c1) * q3
         == s2 * c5 - s5 * c2
  {
  }

  /** Row 2 of the adjugate, restricted to two rows p, q with minors s, against column j of those rows. */
  lemma ColumnHalf2(p0: real, p1: real, p2: real, p3: real, q0: real, q1: real, q2: real, q3: real, c0: real, c1: real, c2: real, c3: real, c4: real, c5: real, s0: real, s1: real, s2: real, s3: real, s4: real, s5: real)
    requires Minors(p0, p1, p2, p3, q0, q1, q2, q3, s0, s1, s2, s3, s4, s5)
    ensures (q0 * c4 - q1 * c2 + q3 * c0) * p0 + (-p0 * c4 + p1 * c2 - p3 * c0) * q0
         == -s0 * c2 + s2 * c0
    ensures (q0 * c4 - q1 * c2 + q3 * c0) * p1 + (-p0 * c4 + p1 * c2 - p3 * c0) * q1
         == -s0 * c4 + s4 * c0
    ensures (q0 * c4 - q1 * c2 + q3 * c0) * p2 + (-p0 * c4 + p1 * c2 - p3 * c0) * q2
         == -s1 * c4 + s3 * c2 + s5 * c0
    ensures (q0 * c4 - q1 * c2 + q3 * c0) * p3 + (-p0 * c4 + p1 * c2 - p3 * c0) * q3
         == -s2 * c4 + s4 * c2
  {
  }

  /** Row 3 of the adjugate, restricted to two rows p, q with minors s, against column j of those rows. */
  lemma ColumnHalf3(p0: real, p1: real, p2: real, p3: real, q0: real, q1: real, q2: real, q3: real, c0: real, c1: real, c2: real, c3: real, c4: real, c5: real, s0: real, s1: real, s2: real, s3: real, s4: real, s5: real)
    requires Minors(p0, p1, p2, p3, q0, q1, q2, q3, s0, s1, s2, s3, s4, s5)
    ensures (-q0 * c3 + q1 * c1 - q2 * c0) * p0 + (p0 * c3 - p1 * c1 + p2 * c0) * q0
         == s0 * c1 - s1 * c0
    ensures (-q0 * c3 + q1 * c1 - q2 * c0) * p1 + (p0 * c3 - p1 * c1 + p2 * c0) * q1
         == s0 * c3 - s3 * c0
    ensures (-q0 * c3 + q1 * c1 - q2 * c0) * p2 + (p0 * c3 - p1 * c1 + p2 * c0) * q2
         == s1 * c3 - s3 * c1
    ensures (-q0 * c3 + q1 * c1 - q2 * c0) * p3 + (p0 * c3 - p1 * c1 + p2 * c0) * q3
         == s2 * c3 - s4 * c1 + s5 * c0
  {
  }

  /** The six-term expansion over two sets of minors depends only on their values. */
  lemma Congruence(s0: real, s1: real, s2: real, s3: real, s4: real, s5: real, c0: real, c1: real, c2: real, c3: real, c4: real, c5: real, t0: real, t1: real, t2: real, t3: real, t4: real, t5: real, u0: real, u1: real, u2: real, u3: real, u4: real, u5: real)
    requires s0 == t0 && s1 == t1 && s2 == t2 && s3 == t3 && s4 == t4 && s5 == t5
    requires c0 == u0 && c1 == u1 && c2 == u2 && c3 == u3 && c4 == u4 && c5 == u5
    ensures s0 * c5 - s1 * c4 + s2 * c3 + s3 * c2 - s4 * c1 + s5 * c0 == t0 * u5 - t1 * u4 + t2 * u3 + t3 * u2 - t4 * u1 + t5 * u0
  {
  }

  /** The expansion of ExpandTop, for k the cofactors of q. */
  lemma DetTopExpanded(p0: real, p1: real, p2: real, p3: real, q0: real, q1: real, q2: real, q3: real, c0: real, c1: real, c2: real, c3: real, c4: real, c5: real, k0: real, k1: real, k2: real, k3: real)
    requires k0 == q1 * c5 - q2 * c4 + q3 * c3 && k1 == -q0 * c5 + q2 * c2 - q3 * c1
    requires k2 == q0 * c4 - q1 * c2 + q3 * c0 && k3 == -q0 * c3 + q1 * c1 - q2 * c0
    ensures p0 * k0 + p1 * k1 + p2 * k2 + p3 * k3
         == (p0 * q1 - q0 * p1) * c5 - (p0 * q2 - q0 * p2) * c4 + (p0 * q3 - q0 * p3) * c3 + (p1 * q2 - q1 * p2) * c2 - (p1 * q3 - q1 * p3) * c1 + (p2 * q3 - q2 * p3) * c0
  {
    Times(p0, k0, q1 * c5 - q2 * c4 + q3 * c3);
    Times(p1, k1, -q0 * c5 + q2 * c2 - q3 * c1);
    Times(p2, k2, q0 * c4 - q1 * c2 + q3 * c0);
    Times(p3, k3, -q0 * c3 + q1 * c1 - q2 * c0);
    ExpandTop(p0, p1, p2, p3, q0, q1, q2, q3, c0, c1, c2, c3, c4, c5);
  }

  /** Row p against its cofactors taken with row q is the determinant. */
  lemma DetTop(p0: real, p1: real, p2: real, p3: real, q0: real, q1: real, q2: real, q3: real, s0: real, s1: real, s2: real, s3: real, s4: real, s5: real, c0: real, c1: real, c2: real, c3: real, c4: real, c5: real, k0: real, k1: real, k2: real, k3: real)
    requires k0 == q1 * c5 - q2 * c4 + q3 * c3 && k1 == -q0 * c5 + q2 * c2 - q3 * c1
    requires k2 == q0 * c4 - q1 * c2 + q3 * c0 && k3 == -q0 * c3 + q1 * c1 - q2 * c0
    requires Minors(p0, p1, p2, p3, q0, q1, q2, q3, s0, s1, s2, s3, s4, s5)
    ensures p0 * k0 + p1 * k1 + p2 * k2 + p3 * k3 == s0 * c5 - s1 * c4 + s2 * c3 + s3 * c2 - s4 * c1 + s5 * c0
  {
    DetTopExpanded(p0, p1, p2, p3, q0, q1, q2, q3, c0, c1, c2, c3, c4, c5, k0, k1, k2, k3);
    Congruence(s0, s1, s2, s3, s4, s5, c0, c1, c2, c3, c4, c5, p0 * q1 - q0 * p1, p0 * q2 - q0 * p2, p0 * q3 - q0 * p3, p1 * q2 - q1 * p2, p1 * q3 - q1 * p3, p2 * q3 - q2 * p3, c0, c1, c2, c3, c4, c5);
  }

  /** The expansion of ExpandTopSwapped, for k the negated cofactors of q. */
  lemma DetTopSwappedExpanded(p0: real, p1: real, p2: real, p3: real, q0: real, q1: real, q2: real, q3: real, c0: real, c1: real, c2: real, c3: real, c4: real, c5: real, k0: real, k1: real, k2: real, k3: real)
    requires k0 == -q1 * c5 + q2 * c4 - q3 * c3 && k1 == q0 * c5 - q2 * c2 + q3 * c1
    requires k2 == -q0 * c4 + q1 * c2 - q3 * c0 && k3 == q0 * c3 - q1 * c1 + q2 * c0
    ensures p0 * k0 + p1 * k1 + p2 * k2 + p3 * k3
         == (q0 * p1 - p0 * q1) * c5 - (q0 * p2 - p0 * q2) * c4 + (q0 * p3 - p0 * q3) * c3 + (q1 * p2 - p1 * q2) * c2 - (q1 * p3 - p1 * q3) * c1 + (q2 * p3 - p2 * q3) * c0
  {
    Times(p0, k0, -q1 * c5 + q2 * c4 - q3 * c3);
    Times(p1, k1, q0 * c5 - q2 * c2 + q3 * c1);
    Times(p2, k2, -q0 * c4 + q1 * c2 - q3 * c0);
    Times(p3, k3, q0 * c3 - q1 * c1 + q2 * c0);
    ExpandTopSwapped(p0, p1, p2, p3, q0, q1, q2, q3, c0, c1, c2, c3, c4, c5);
  }

  /** Row p against its negated cofactors taken with row q is the determinant. */
  lemma DetTopSwapped(p0: real, p1: real, p2: real, p3: real, q0: real, q1: real, q2: real, q3: real, s0: real, s1: real, s2: real, s3: real, s4: real, s5: real, c0: real, c1: real, c2: real, c3: real, c4: real, c5: real, k0: real, k1: real, k2: real, k3: real)
    requires k0 == -q1 * c5 + q2 * c4 - q3 * c3 && k1 == q0 * c5 - q2 * c2 + q3 * c1
    requires k2 == -q0 * c4 + q1 * c2 - q3 * c0 && k3 == q0 * c3 - q1 * c1 + q2 * c0
    requires Minors(q0, q1, q2, q3, p0, p1, p2, p3, s0, s1, s2, s3, s4, s5)
    ensures p0 * k0 + p1 * k1 + p2 * k2 + p3 * k3 == s0 * c5 - s1 * c4 + s2 * c3 + s3 * c2 - s4 * c1 + s5 * c0
  {
    DetTopSwappedExpanded(p0, p1, p2, p3, q0, q1, q2, q3, c0, c1, c2, c3, c4, c5, k0, k1, k2, k3);
    Congruence(s0, s1, s2, s3, s4, s5, c0, c1, c2, c3, c4, c5, q0 * p1 - p0 * q1, q0 * p2 - p0 * q2, q0 * p3 - p0 * q3, q1 * p2 - p1 * q2, q1 * p3 - p1 * q3, q2 * p3 - p2 * q3, c0, c1, c2, c3, c4, c5);
  }

  /** The expansion of ExpandBottom, for k the cofactors of q. */
  lemma DetBottomExpanded(p0: real, p1: real, p2: real, p3: real, q0: real, q1: real, q2: real, q3: real, c0: real, c1: real, c2: real, c3: real, c4: real, c5: real, k0: real, k1: real, k2: real, k3: real)
    requires k0 == q1 * c5 - q2 * c4 + q3 * c3 && k1 == -q0 * c5 + q2 * c2 - q3 * c1
    requires k2 == q0 * c4 - q1 * c2 + q3 * c0 && k3 == -q0 * c3 + q1 * c1 - q2 * c0
    ensures p0 * k0 + p1 * k1 + p2 * k2 + p3 * k3
         == c0 * (p2 * q3 - q2 * p3) - c1 * (p1 * q3 - q1 * p3) + c2 * (p1 * q2 - q1 * p2) + c3 * (p0 * q3 - q0 * p3) - c4 * (p0 * q2 - q0 * p2) + c5 * (p0 * q1 - q0 * p1)
  {
    Times(p0, k0, q1 * c5 - q2 * c4 + q3 * c3);
    Times(p1, k1, -q0 * c5 + q2 * c2 - q3 * c1);
    Times(p2, k2, q0 * c4 - q1 * c2 + q3 * c0);
    Times(p3, k3, -q0 * c3 + q1 * c1 - q2 * c0);
    ExpandBottom(p0, p1, p2, p3, q0, q1, q2, q3, c0, c1, c2, c3, c4, c5);
  }

  /** Row p against its cofactors taken with row q is the determinant. */
  lemma DetBottom(p0: real, p1: real, p2: real, p3: real, q0: real, q1: real, q2: real, q3: real, s0: real, s1: real, s2: real, s3: real, s4: real, s5: real, c0: real, c1: real, c2: real, c3: real, c4: real, c5: real, k0: real, k1: real, k2: real, k3: real)
    requires k0 == q1 * s5 - q2 * s4 + q3 * s3 && k1 == -q0 * s5 + q2 * s2 - q3 * s1
    requires k2 == q0 * s4 - q1 * s2 + q3 * s0 && k3 == -q0 * s3 + q1 * s1 - q2 * s0
    requires Minors(p0, p1, p2, p3, q0, q1, q2, q3, c0, c1, c2, c3, c4, c5)
    ensures p0 * k0 + p1 * k1 + p2 * k2 + p3 * k3 == s0 * c5 - s1 * c4 + s2 * c3 + s3 * c2 - s4 * c1 + s5 * c0
  {
    DetBottomExpanded(p0, p1, p2, p3, q0, q1, q2, q3, s0, s1, s2, s3, s4, s5, k0, k1, k2, k3);
    Congruence(s0, s1, s2, s3, s4, s5, c0, c1, c2, c3, c4, c5, s0, s1, s2, s3, s4, s5, p0 * q1 - q0 * p1, p0 * q2 - q0 * p2, p0 * q3 - q0 * p3, p1 * q2 - q1 * p2, p1 * q3 - q1 * p3, p2 * q3 - q2 * p3);
  }

  /** The expansion of ExpandBottomSwapped, for k the negated cofactors of q. */
  lemma DetBottomSwappedExpanded(p0: real, p1: real, p2: real, p3: real, q0: real, q1: real, q2: real, q3: real, c0: real, c1: real, c2: real, c3: real, c4: real, c5: real, k0: real, k1: real, k2: real, k3: real)
    requires k0 == -q1 * c5 + q2 * c4 - q3 * c3 && k1 == q0 * c5 - q2 * c2 + q3 * c1
    requires k2 == -q0 * c4 + q1 * c2 - q3 * c0 && k3 == q0 * c3 - q1 * c1 + q2 * c0
    ensures p0 * k0 + p1 * k1 + p2 * k2 + p3 * k3
         == c0 * (q2 * p3 - p2 * q3) - c1 * (q1 * p3 - p1 * q3) + c2 * (q1 * p2 - p1 * q2) + c3 * (q0 * p3 - p0 * q3) - c4 * (q0 * p2 - p0 * q2) + c5 * (q0 * p1 - p0 * q1)
  {
    Times(p0, k0, -q1 * c5 + q2 * c4 - q3 * c3);
    Times(p1, k1, q0 * c5 - q2 * c2 + q3 * c1);
    Times(p2, k2, -q0 * c4 + q1 * c2 - q3 * c0);
    Times(p3, k3, q0 * c3 - q1 * c1 + q2 * c0);
    ExpandBottomSwapped(p0, p1, p2, p3, q0, q1, q2, q3, c0, c1, c2, c3, c4, c5);
  }

  /** Row p against its negated cofactors taken with row q is the determinant. */
  lemma DetBottomSwapped(p0: real, p1: real, p2: real, p3: real, q0: real, q1: real, q2: real, q3: real, s0: real, s1: real, s2: real, s3: real, s4: real, s5: real, c0: real, c1: real, c2: real, c3: real, c4: real, c5: real, k0: real, k1: real, k2: real, k3: real)
    requires k0 == -q1 * s5 + q2 * s4 - q3 * s3 && k1 == q0 * s5 - q2 * s2 + q3 * s1
    requires k2 == -q0 * s4 + q1 * s2 - q3 * s0 && k3 == q0 * s3 - q1 * s1 + q2 * s0
    requires Minors(q0, q1, q2, q3, p0, p1, p2, p3, c0, c1, c2, c3, c4, c5)
    ensures p0 * k0 + p1 * k1 + p2 * k2 + p3 * k3 == s0 * c5 - s1 * c4 + s2 * c3 + s3 * c2 - s4 * c1 + s5 * c0
  {
    DetBottomSwappedExpanded(p0, p1, p2, p3, q0, q1, q2, q3, s0, s1, s2, s3, s4, s5, k0, k1, k2, k3);
    Congruence(s0, s1, s2, s3, s4, s5, c0, c1, c2, c3, c4, c5, s0, s1, s2, s3, s4, s5, q0 * p1 - p0 * q1, q0 * p2 - p0 * q2, q0 * p3 - p0 * q3, q1 * p2 - p1 * q2, q1 * p3 - p1 * q3, q2 * p3 - p2 * q3);
  }

  /** A row against its own cofactors gives 0. */
  lemma VanishSelf(q0: real, q1: real, q2: real, q3: real, c0: real, c1: real, c2: real, c3: real, c4: real, c5: real, k0: real, k1: real, k2: real, k3: real)
    requires k0 == q1 * c5 - q2 * c4 + q3 * c3 && k1 == -q0 * c5 + q2 * c2 - q3 * c1
    requires k2 == q0 * c4 - q1 * c2 + q3 * c0 && k3 == -q0 * c3 + q1 * c1 - q2 * c0
    ensures q0 * k0 + q1 * k1 + q2 * k2 + q3 * k3 == 0.0
  {
  }

  /** A row against its own negated cofactors gives 0. */
  lemma VanishSelfSwapped(q0: real, q1: real, q2: real, q3: real, c0: real, c1: real, c2: real, c3: real, c4: real, c5: real, k0: real, k1: real, k2: real, k3: real)
    requires k0 == -q1 * c5 + q2 * c4 - q3 * c3 && k1 == q0 * c5 - q2 * c2 + q3 * c1
    requires k2 == -q0 * c4 + q1 * c2 - q3 * c0 && k3 == q0 * c3 - q1 * c1 + q2 * c0
    ensures q0 * k0 + q1 * k1 + q2 * k2 + q3 * k3 == 0.0
  {
  }

  /** Row p against the cofactors of row q gives 0 when the cofactors of p vanish. */
  lemma VanishAgainst(p0: real, p1: real, p2: real, p3: real, q0: real, q1: real, q2: real, q3: real, c0: real, c1: real, c2: real, c3: real, c4: real, c5: real, k0: real, k1: real, k2: real, k3: real)
    requires k0 == q1 * c5 - q2 * c4 + q3 * c3 && k1 == -q0 * c5 + q2 * c2 - q3 * c1
    requires k2 == q0 * c4 - q1 * c2 + q3 * c0 && k3 == -q0 * c3 + q1 * c1 - q2 * c0
    requires p1 * c5 - p2 * c4 + p3 * c3 == 0.0 && -p0 * c5 + p2 * c2 - p3 * c1 == 0.0
    requires p0 * c4 - p1 * c2 + p3 * c0 == 0.0 && -p0 * c3 + p1 * c1 - p2 * c0 == 0.0
    ensures p0 * k0 + p1 * k1 + p2 * k2 + p3 * k3 == 0.0
  {
    Times(p0, k0, q1 * c5 - q2 * c4 + q3 * c3);
    Times(p1, k1, -q0 * c5 + q2 * c2 - q3 * c1);
    Times(p2, k2, q0 * c4 - q1 * c2 + q3 * c0);
    Times(p3, k3, -q0 * c3 + q1 * c1 - q2 * c0);
    Swap(p0, p1, p2, p3, q0, q1, q2, q3, c0, c1, c2, c3, c4, c5);
    Times(q0, p1 * c5 - p2 * c4 + p3 * c3, 0.0);
    Times(q1, -p0 * c5 + p2 * c2 - p3 * c1, 0.0);
    Times(q2, p0 * c4 - p1 * c2 + p3 * c0, 0.0);
    Times(q3, -p0 * c3 + p1 * c1 - p2 * c0, 0.0);
  }

  /** Row p against the negated cofactors of row q gives 0 when the cofactors of p vanish. */
  lemma VanishAgainstSwapped(p0: real, p1: real, p2: real, p3: real, q0: real, q1: real, q2: real, q3: real, c0: real, c1: real, c2: real, c3: real, c4: real, c5: real, k0: real, k1: real, k2: real, k3: real)
    requires k0 == -q1 * c5 + q2 * c4 - q3 * c3 && k1 == q0 * c5 - q2 * c2 + q3 * c1
    requires k2 == -q0 * c4 + q1 * c2 - q3 * c0 && k3 == q0 * c3 - q1 * c1 + q2 * c0
    requires p1 * c5 - p2 * c4 + p3 * c3 == 0.0 && -p0 * c5 + p2 * c2 - p3 * c1 == 0.0
    requires p0 * c4 - p1 * c2 + p3 * c0 == 0.0 && -p0 * c3 + p1 * c1 - p2 * c0 == 0.0
    ensures p0 * k0 + p1 * k1 + p2 * k2 + p3 * k3 == 0.0
  {
    Times(p0, k0, -q1 * c5 + q2 * c4 - q3 * c3);
    Times(p1, k1, q0 * c5 - q2 * c2 + q3 * c1);
    Times(p2, k2, -q0 * c4 + q1 * c2 - q3 * c0);
    Times(p3, k3, q0 * c3 - q1 * c1 + q2 * c0);
    SwapNegated(p0, p1, p2, p3, q0, q1, q2, q3, c0, c1, c2, c3, c4, c5);
    Times(q0, p1 * c5 - p2 * c4 + p3 * c3, 0.0);
    Times(q1, -p0 * c5 + p2 * c2 - p3 * c1, 0.0);
    Times(q2, p0 * c4 - p1 * c2 + p3 * c0, 0.0);
    Times(q3, -p0 * c3 + p1 * c1 - p2 * c0, 0.0);
  }

  /** Row p against the cofactors of row q over the minors of p above r gives 0. */
  lemma VanishFirst(p0: real, p1: real, p2: real, p3: real, q0: real, q1: real, q2: real, q3: real, r0: real, r1: real, r2: real, r3: real, c0: real, c1: real, c2: real, c3: real, c4: real, c5: real, k0: real, k1: real, k2: real, k3: real)
    requires k0 == q1 * c5 - q2 * c4 + q3 * c3 && k1 == -q0 * c5 + q2 * c2 - q3 * c1
    requires k2 == q0 * c4 - q1 * c2 + q3 * c0 && k3 == -q0 * c3 + q1 * c1 - q2 * c0
    requires Minors(p0, p1, p2, p3, r0, r1, r2, r3, c0, c1, c2, c3, c4, c5)
    ensures p0 * k0 + p1 * k1 + p2 * k2 + p3 * k3 == 0.0
  {
    SelfCofactor(p0, p1, p2, p3, r0, r1, r2, r3, c0, c1, c2, c3, c4, c5);
    VanishAgainst(p0, p1, p2, p3, q0, q1, q2, q3, c0, c1, c2, c3, c4, c5, k0, k1, k2, k3);
  }

  /** Row p against the cofactors of row q over the minors of r above p gives 0. */
  lemma VanishSecond(p0: real, p1: real, p2: real, p3: real, q0: real, q1: real, q2: real, q3: real, r0: real, r1: real, r2: real, r3: real, c0: real, c1: real, c2: real, c3: real, c4: real, c5: real, k0: real, k1: real, k2: real, k3: real)
    requires k0 == q1 * c5 - q2 * c4 + q3 * c3 && k1 == -q0 * c5 + q2 * c2 - q3 * c1
    requires k2 == q0 * c4 - q1 * c2 + q3 * c0 && k3 == -q0 * c3 + q1 * c1 - q2 * c0
    requires Minors(r0, r1, r2, r3, p0, p1, p2, p3, c0, c1, c2, c3, c4, c5)
    ensures p0 * k0 + p1 * k1 + p2 * k2 + p3 * k3 == 0.0
  {
    SelfCofactorSecond(p0, p1, p2, p3, r0, r1, r2, r3, c0, c1, c2, c3, c4, c5);
    VanishAgainst(p0, p1, p2, p3, q0, q1, q2, q3, c0, c1, c2, c3, c4, c5, k0, k1, k2, k3);
  }

  /** Row p against the negated cofactors of row q over the minors of p above r gives 0. */
  lemma VanishFirstSwapped(p0: real, p1: real, p2: real, p3: real, q0: real, q1: real, q2: real, q3: real, r0: real, r1: real, r2: real, r3: real, c0: real, c1: real, c2: real, c3: real, c4: real, c5: real, k0: real, k1: real, k2: real, k3: real)
    requires k0 == -q1 * c5 + q2 * c4 - q3 * c3 && k1 == q0 * c5 - q2 * c2 + q3 * c1
    requires k2 == -q0 * c4 + q1 * c2 - q3 * c0 && k3 == q0 * c3 - q1 * c1 + q2 * c0
    requires Minors(p0, p1, p2, p3, r0, r1, r2, r3, c0, c1, c2, c3, c4, c5)
    ensures p0 * k0 + p1 * k1 + p2 * k2 + p3 * k3 == 0.0
  {
    SelfCofactor(p0, p1, p2, p3, r0, r1, r2, r3, c0, c1, c2, c3, c4, c5);
    VanishAgainstSwapped(p0, p1, p2, p3, q0, q1, q2, q3, c0, c1, c2, c3, c4, c5, k0, k1, k2, k3);
  }

  /** Row p against the negated cofactors of row q over the minors of r above p gives 0. */
  lemma VanishSecondSwapped(p0: real, p1: real, p2: real, p3: real, q0: real, q1: real, q2: real, q3: real, r0: real, r1: real, r2: real, r3: real, c0: real, c1: real, c2: real, c3: real, c4: real, c5: real, k0: real, k1: real, k2: real, k3: real)
    requires k0 == -q1 * c5 + q2 * c4 - q3 * c3 && k1 == q0 * c5 - q2 * c2 + q3 * c1
    requires k2 == -q0 * c4 + q1 * c2 - q3 * c0 && k3 == q0 * c3 - q1 * c1 + q2 * c0
    requires Minors(r0, r1, r2, r3, p0, p1, p2, p3, c0, c1, c2, c3, c4, c5)
    ensures p0 * k0 + p1 * k1 + p2 * k2 + p3 * k3 == 0.0
  {
    SelfCofactorSecond(p0, p1, p2, p3, r0, r1, r2, r3, c0, c1, c2, c3, c4, c5);
    VanishAgainstSwapped(p0, p1, p2, p3, q0, q1, q2, q3, c0, c1, c2, c3, c4, c5, k0, k1, k2, k3);
  }

  /** Entries k0, k1 of row 0 of the adjugate against column j of the rows p, q whose minors are s. */
  lemma AdjugateHalf0(p0: real, p1: real, p2: real, p3: real, q0: real, q1: real, q2: real, q3: real, c0: real, c1: real, c2: real, c3: real, c4: real, c5: real, s0: real, s1: real, s2: real, s3: real, s4: real, s5: real, k0: real, k1: real)
    requires k0 == q1 * c5 - q2 * c4 + q3 * c3 && k1 == -p1 * c5 + p2 * c4 - p3 * c3
    requires Minors(p0, p1, p2, p3, q0, q1, q2, q3, s0, s1, s2, s3, s4, s5)
    ensures k0 * p0 + k1 * q0 == s0 * c5 - s1 * c4 + s2 * c3
    ensures k0 * p1 + k1 * q1 == -s3 * c4 + s4 * c3
    ensures k0 * p2 + k1 * q2 == -s3 * c5 + s5 * c3
    ensures k0 * p3 + k1 * q3 == -s4 * c5 + s5 * c4
  {
    TimesRight(k0, q1 * c5 - q2 * c4 + q3 * c3, p0);
    TimesRight(k1, -p1 * c5 + p2 * c4 - p3 * c3, q0);
    TimesRight(k0, q1 * c5 - q2 * c4 + q3 * c3, p1);
    TimesRight(k1, -p1 * c5 + p2 * c4 - p3 * c3, q1);
    TimesRight(k0, q1 * c5 - q2 * c4 + q3 * c3, p2);
    TimesRight(k1, -p1 * c5 + p2 * c4 - p3 * c3, q2);
    TimesRight(k0, q1 * c5 - q2 * c4 + q3 * c3, p3);
    TimesRight(k1, -p1 * c5 + p2 * c4 - p3 * c3, q3);
    ColumnHalf0(p0, p1, p2, p3, q0, q1, q2, q3, c0, c1, c2, c3, c4, c5, s0, s1, s2, s3, s4, s5);
  }

  /** Entries k0, k1 of row 1 of the adjugate against column j of the rows p, q whose minors are s. */
  lemma AdjugateHalf1(p0: real, p1: real, p2: real, p3: real, q0: real, q1: real, q2: real, q3: real, c0: real, c1: real, c2: real, c3: real, c4: real, c5: real, s0: real, s1: real, s2: real, s3: real, s4: real, s5: real, k0: real, k1: real)
    requires k0 == -q0 * c5 + q2 * c2 - q3 * c1 && k1 == p0 * c5 - p2 * c2 + p3 * c1
    requires Minors(p0, p1, p2, p3, q0, q1, q2, q3, s0, s1, s2, s3, s4, s5)
    ensures k0 * p0 + k1 * q0 == s1 * c2 - s2 * c1
    ensures k0 * p1 + k1 * q1 == s0 * c5 + s3 * c2 - s4 * c1
    ensures k0 * p2 + k1 * q2 == s1 * c5 - s5 * c1
    ensures k0 * p3 + k1 * q3 == s2 * c5 - s5 * c2
  {
    TimesRight(k0, -q0 * c5 + q2 * c2 - q3 * c1, p0);
    TimesRight(k1, p0 * c5 - p2 * c2 + p3 * c1, q0);
    TimesRight(k0, -q0 * c5 + q2 * c2 - q3 * c1, p1);
    TimesRight(k1, p0 * c5 - p2 * c2 + p3 * c1, q1);
    TimesRight(k0, -q0 * c5 + q2 * c2 - q3 * c1, p2);
    TimesRight(k1, p0 * c5 - p2 * c2 + p3 * c1, q2);
    TimesRight(k0, -q0 * c5 + q2 * c2 - q3 * c1, p3);
    TimesRight(k1, p0 * c5 - p2 * c2 + p3 * c1, q3);
    ColumnHalf1(p0, p1, p2, p3, q0, q1, q2, q3, c0, c1, c2, c3, c4, c5, s0, s1, s2, s3, s4, s5);
  }

  /** Entries k0, k1 of row 2 of the adjugate against column j of the rows p, q whose minors are s. */
  lemma AdjugateHalf2(p0: real, p1: real, p2: real, p3: real, q0: real, q1: real, q2: real, q3: real, c0: real, c1: real, c2: real, c3: real, c4: real, c5: real, s0: real, s1: real, s2: real, s3: real, s4: real, s5: real, k0: real, k1: real)
    requires k0 == q0 * c4 - q1 * c2 + q3 * c0 && k1 == -p0 * c4 + p1 * c2 - p3 * c0
    requires Minors(p0, p1, p2, p3, q0, q1, q2, q3, s0, s1, s2, s3, s4, s5)
    ensures k0 * p0 + k1 * q0 == -s0 * c2 + s2 * c0
    ensures k0 * p1 + k1 * q1 == -s0 * c4 + s4 * c0
    ensures k0 * p2 + k1 * q2 == -s1 * c4 + s3 * c2 + s5 * c0
    ensures k0 * p3 + k1 * q3 == -s2 * c4 + s4 * c2
  {
    TimesRight(k0, q0 * c4 - q1 * c2 + q3 * c0, p0);
    TimesRight(k1, -p0 * c4 + p1 * c2 - p3 * c0, q0);
    TimesRight(k0, q0 * c4 - q1 * c2 + q3 * c0, p1);
    TimesRight(k1, -p0 * c4 + p1 * c2 - p3 * c0, q1);
    TimesRight(k0, q0 * c4 - q1 * c2 + q3 * c0, p2);
    TimesRight(k1, -p0 * c4 + p1 * c2 - p3 * c0, q2);
    TimesRight(k0, q0 * c4 - q1 * c2 + q3 * c0, p3);
    TimesRight(k1, -p0 * c4 + p1 * c2 - p3 * c0, q3);
    ColumnHalf2(p0, p1, p2, p3, q0, q1, q2, q3, c0, c1, c2, c3, c4, c5, s0, s1, s2, s3, s4, s5);
  }

  /** Entries k0, k1 of row 3 of the adjugate against column j of the rows p, q whose minors are s. */
  lemma AdjugateHalf3(p0: real, p1: real, p2: real, p3: real, q0: real, q1: real, q2: real, q3: real, c0: real, c1: real, c2: real, c3: real, c4: real, c5: real, s0: real, s1: real, s2: real, s3: real, s4: real, s5: real, k0: real, k1: real)
    requires k0 == -q0 * c3 + q1 * c1 - q2 * c0 && k1 == p0 * c3 - p1 * c1 + p2 * c0
    requires Minors(p0, p1, p2, p3, q0, q1, q2, q3, s0, s1, s2, s3, s4, s5)
    ensures k0 * p0 + k1 * q0 == s0 * c1 - s1 * c0
    ensures k0 * p1 + k1 * q1 == s0 * c3 - s3 * c0
    ensures k0 * p2 + k1 * q2 == s1 * c3 - s3 * c1
    ensures k0 * p3 + k1 * q3 == s2 * c3 - s4 * c1 + s5 * c0
  {
    TimesRight(k0, -q0 * c3 + q1 * c1 - q2 * c0, p0);
    TimesRight(k1, p0 * c3 - p1 * c1 + p2 * c0, q0);
    TimesRight(k0, -q0 * c3 + q1 * c1 - q2 * c0, p1);
    TimesRight(k1, p0 * c3 - p1 * c1 + p2 * c0, q1);
    TimesRight(k0, -q0 * c3 + q1 * c1 - q2 * c0, p2);
    TimesRight(k1, p0 * c3 - p1 * c1 + p2 * c0, q2);
    TimesRight(k0, -q0 * c3 + q1 * c1 - q2 * c0, p3);
    TimesRight(k1, p0 * c3 - p1 * c1 + p2 * c0, q3);
    ColumnHalf3(p0, p1, p2, p3, q0, q1, q2, q3, c0, c1, c2, c3, c4, c5, s0, s1, s2, s3, s4, s5);
  }

  /** Row 0 of the adjugate of the rows m0..m15 against each column of those rows. */
  lemma AdjugateRow0(m0: real, m1: real, m2: real, m3: real, m4: real, m5: real, m6: real, m7: real, m8: real, m9: real, m10: real, m11: real, m12: real, m13: real, m14: real, m15: real, s0: real, s1: real, s2: real, s3: real, s4: real, s5: real, c0: real, c1: real, c2: real, c3: real, c4: real, c5: real, k0: real, k1: real, k2: real, k3: real)
    requires k0 == m5 * c5 - m6 * c4 + m7 * c3 && k1 == -m1 * c5 + m2 * c4 - m3 * c3
    requires k2 == m13 * s5 - m14 * s4 + m15 * s3 && k3 == -m9 * s5 + m10 * s4 - m11 * s3
    requires Minors(m0, m1, m2, m3, m4, m5, m6, m7, s0, s1, s2, s3, s4, s5)
    requires Minors(m8, m9, m10, m11, m12, m13, m14, m15, c0, c1, c2, c3, c4, c5)
    ensures k0 * m0 + k1 * m4 + k2 * m8 + k3 * m12 == s0 * c5 - s1 * c4 + s2 * c3 + s3 * c2 - s4 * c1 + s5 * c0
    ensures k0 * m1 + k1 * m5 + k2 * m9 + k3 * m13 == 0.0
    ensures k0 * m2 + k1 * m6 + k2 * m10 + k3 * m14 == 0.0
    ensures k0 * m3 + k1 * m7 + k2 * m11 + k3 * m15 == 0.0
  {
    AdjugateHalf0(m0, m1, m2, m3, m4, m5, m6, m7, c0, c1, c2, c3, c4, c5, s0, s1, s2, s3, s4, s5, k0, k1);
    AdjugateHalf0(m8, m9, m10, m11, m12, m13, m14, m15, s0, s1, s2, s3, s4, s5, c0, c1, c2, c3, c4, c5, k2, k3);
  }

  /** Row 1 of the adjugate of the rows m0..m15 against each column of those rows. */
  lemma AdjugateRow1(m0: real, m1: real, m2: real, m3: real, m4: real, m5: real, m6: real, m7: real, m8: real, m9: real, m10: real, m11: real, m12: real, m13: real, m14: real, m15: real, s0: real, s1: real, s2: real, s3: real, s4: real, s5: real, c0: real, c1: real, c2: real, c3: real, c4: real, c5: real, k0: real, k1: real, k2: real, k3: real)
    requires k0 == -m4 * c5 + m6 * c2 - m7 * c1 && k1 == m0 * c5 - m2 * c2 + m3 * c1
    requires k2 == -m12 * s5 + m14 * s2 - m15 * s1 && k3 == m8 * s5 - m10 * s2 + m11 * s1
    requires Minors(m0, m1, m2, m3, m4, m5, m6, m7, s0, s1, s2, s3, s4, s5)
    requires Minors(m8, m9, m10, m11, m12, m13, m14, m15, c0, c1, c2, c3, c4, c5)
    ensures k0 * m0 + k1 * m4 + k2 * m8 + k3 * m12 == 0.0
    ensures k0 * m1 + k1 * m5 + k2 * m9 + k3 * m13 == s0 * c5 - s1 * c4 + s2 * c3 + s3 * c2 - s4 * c1 + s5 * c0
    ensures k0 * m2 + k1 * m6 + k2 * m10 + k3 * m14 == 0.0
    ensures k0 * m3 + k1 * m7 + k2 * m11 + k3 * m15 == 0.0
  {
    AdjugateHalf1(m0, m1, m2, m3, m4, m5, m6, m7, c0, c1, c2, c3, c4, c5, s0, s1, s2, s3, s4, s5, k0, k1);
    AdjugateHalf1(m8, m9, m10, m11, m12, m13, m14, m15, s0, s1, s2, s3, s4, s5, c0, c1, c2, c3, c4, c5, k2, k3);
  }

  /** Row 2 of the adjugate of the rows m0..m15 against each column of those rows. */
  lemma AdjugateRow2(m0: real, m1: real, m2: real, m3: real, m4: real, m5: real, m6: real, m7: real, m8: real, m9: real, m10: real, m11: real, m12: real, m13: real, m14: real, m15: real, s0: real, s1: real, s2: real, s3: real, s4: real, s5: real, c0: real, c1: real, c2: real, c3: real, c4: real, c5: real, k0: real, k1: real, k2: real, k3: real)
    requires k0 == m4 * c4 - m5 * c2 + m7 * c0 && k1 == -m0 * c4 + m1 * c2 - m3 * c0
    requires k2 == m12 * s4 - m13 * s2 + m15 * s0 && k3 == -m8 * s4 + m9 * s2 - m11 * s0
    requires Minors(m0, m1, m2, m3, m4, m5, m6, m7, s0, s1, s2, s3, s4, s5)
    requires Minors(m8, m9, m10, m11, m12, m13, m14, m15, c0, c1, c2, c3, c4, c5)
    ensures k0 * m0 + k1 * m4 + k2 * m8 + k3 * m12 == 0.0
    ensures k0 * m1 + k1 * m5 + k2 * m9 + k3 * m13 == 0.0
    ensures k0 * m2 + k1 * m6 + k2 * m10 + k3 * m14 == s0 * c5 - s1 * c4 + s2 * c3 + s3 * c2 - s4 * c1 + s5 * c0
    ensures k0 * m3 + k1 * m7 + k2 * m11 + k3 * m15 == 0.0
  {
    AdjugateHalf2(m0, m1, m2, m3, m4, m5, m6, m7, c0, c1, c2, c3, c4, c5, s0, s1, s2, s3, s4, s5, k0, k1);
    AdjugateHalf2(m8, m9, m10, m11, m12, m13, m14, m15, s0, s1, s2, s3, s4, s5, c0, c1, c2, c3, c4, c5, k2, k3);
  }

  /** Row 3 of the adjugate of the rows m0..m15 against each column of those rows. */
  lemma AdjugateRow3(m0: real, m1: real, m2: real, m3: real, m4: real, m5: real, m6: real, m7: real, m8: real, m9: real, m10: real, m11: real, m12: real, m13: real, m14: real, m15: real, s0: real, s1: real, s2: real, s3: real, s4: real, s5: real, c0: real, c1: real, c2: real, c3: real, c4: real, c5: real, k0: real, k1: real, k2: real, k3: real)
    requires k0 == -m4 * c3 + m5 * c1 - m6 * c0 && k1 == m0 * c3 - m1 * c1 + m2 * c0
    requires k2 == -m12 * s3 + m13 * s1 - m14 * s0 && k3 == m8 * s3 - m9 * s1 + m10 * s0
    requires Minors(m0, m1, m2, m3, m4, m5, m6, m7, s0, s1, s2, s3, s4, s5)
    requires Minors(m8, m9, m10, m11, m12, m13, m14, m15, c0, c1, c2, c3, c4, c5)
    ensures k0 * m0 + k1 * m4 + k2 * m8 + k3 * m12 == 0.0
    ensures k0 * m1 + k1 * m5 + k2 * m9 + k3 * m13 == 0.0
    ensures k0 * m2 + k1 * m6 + k2 * m10 + k3 * m14 == 0.0
    ensures k0 * m3 + k1 * m7 + k2 * m11 + k3 * m15 == s0 * c5 - s1 * c4 + s2 * c3 + s3 * c2 - s4 * c1 + s5 * c0
  {
    AdjugateHalf3(m0, m1, m2, m3, m4, m5, m6, m7, c0, c1, c2, c3, c4, c5, s0, s1, s2, s3, s4, s5, k0, k1);
    AdjugateHalf3(m8, m9, m10, m11, m12, m13, m14, m15, s0, s1, s2, s3, s4, s5, c0, c1, c2, c3, c4, c5, k2, k3);
  }
}
