/**
 * The periodic central-difference first derivative `periodic_D1(M, dt)`
 * on a ring of `M` grid points.
 */
module Derivative {
  import opened Complex
  import opened Matrix

  /**
   * Entry `(i, j)` of `periodic_D1(M, dt)`. Each row `i` is written twice,
   * first `+0.5/dt` at column `(i+1) % M`, then `-0.5/dt` at column
   * `(i-1) % M`; where the two columns coincide (`M <= 2`) the second
   * write is the one that stays.
   */
  function D1Entry(M: nat, dt: real, i: int, j: int): C
    requires M > 0 && dt != 0.0
  {
    if j == (i - 1) % M then Real(-0.5 / dt)
    else if j == (i + 1) % M then Real(0.5 / dt)
    else Zero
  }

  /** `periodic_D1(M, dt)` as a value. */
  function D1(M: nat, dt: real): (r: Mat)
    requires dt != 0.0
    ensures IsSquare(r, M)
  {
    seq(M, i requires 0 <= i < M => seq(M, j requires 0 <= j < M => D1Entry(M, dt, i, j)))
  }

  /** Fills a zero `M × M` array row by row, as the source does. */
  method PeriodicD1(M: nat, dt: real) returns (D: array2<C>)
    requires dt != 0.0
    ensures fresh(D) && D.Length0 == M && D.Length1 == M
    ensures forall i, j | 0 <= i < M && 0 <= j < M :: D[i, j] == D1(M, dt)[i][j]
  {
    D := new C[M, M]((i, j) => Zero);
    var i := 0;
    while i < M
      invariant 0 <= i <= M
      invariant forall r, c | 0 <= r < i && 0 <= c < M :: D[r, c] == D1Entry(M, dt, r, c)
      invariant forall r, c | i <= r < M && 0 <= c < M :: D[r, c] == Zero
    {
      D[i, (i + 1) % M] := Real(0.5 / dt);
      D[i, (i - 1) % M] := Real(-0.5 / dt);
      i := i + 1;
    }
  }

  lemma ModNext(i: nat, M: nat)
    requires i < M
    ensures (i + 1) % M == if i + 1 == M then 0 else i + 1
  {
    if i + 1 == M {
      DivModUnique(1, 0, M);
    } else {
      DivModUnique(0, i + 1, M);
    }
  }

  lemma ModPrev(i: nat, M: nat)
    requires i < M
    ensures (i - 1) % M == if i == 0 then M - 1 else i - 1
  {
    if i == 0 {
      DivModUnique(-1, M - 1, M);
    } else {
      DivModUnique(0, i - 1, M);
    }
  }

  /** The cyclic right and left neighbours of `i`, without `%`. */
  lemma Neighbours(i: nat, M: nat)
    requires i < M
    ensures (i + 1) % M == if i + 1 == M then 0 else i + 1
    ensures (i - 1) % M == if i == 0 then M - 1 else i - 1
  {
    ModNext(i, M);
    ModPrev(i, M);
  }

  lemma D1EntrySkew(M: nat, dt: real, i: nat, j: nat)
    requires M >= 3 && dt != 0.0 && i < M && j < M
    ensures D1Entry(M, dt, j, i) == Neg(D1Entry(M, dt, i, j))
    ensures D1Entry(M, dt, i, j) == (if j == (i + 1) % M then Real(0.5 / dt)
                                     else if j == (i - 1) % M then Real(-0.5 / dt)
                                     else Zero)
  {
    Neighbours(i, M);
    Neighbours(j, M);
  }

  /**
   * With at least three grid points the periodic central difference is
   * real skew-symmetric, `D[j][i] == -D[i][j]`: row `i` holds `+0.5/dt`
   * at its cyclic right neighbour, `-0.5/dt` at its cyclic left
   * neighbour and zeros elsewhere.
   */
  lemma D1SkewSymmetric(M: nat, dt: real, i: nat, j: nat)
    requires M >= 3 && dt != 0.0 && i < M && j < M
    ensures D1(M, dt)[j][i] == Neg(D1(M, dt)[i][j])
    ensures D1(M, dt)[i][j] == (if j == (i + 1) % M then Real(0.5 / dt)
                                else if j == (i - 1) % M then Real(-0.5 / dt)
                                else Zero)
  {
    var D := D1(M, dt);
    assert D[i][j] == D1Entry(M, dt, i, j);
    assert D[j][i] == D1Entry(M, dt, j, i);
    D1EntrySkew(M, dt, i, j);
  }

  /**
   * With two grid points both writes of a row land on the same cell, so
   * both off-diagonal entries are `-0.5/dt` and the matrix is not
   * skew-symmetric.
   */
  lemma D1TwoPointsNotSkew(dt: real)
    requires dt != 0.0
    ensures D1(2, dt)[0][1] == Real(-0.5 / dt) && D1(2, dt)[1][0] == Real(-0.5 / dt)
    ensures D1(2, dt)[0][0] == Zero && D1(2, dt)[1][1] == Zero
    ensures D1(2, dt)[1][0] != Neg(D1(2, dt)[0][1])
  {
    ModNext(0, 2);
    ModPrev(0, 2);
    ModNext(1, 2);
    ModPrev(1, 2);
  }

  /** With one grid point the single entry is overwritten to `-0.5/dt`. */
  lemma D1OnePoint(dt: real)
    requires dt != 0.0
    ensures D1(1, dt)[0][0] == Real(-0.5 / dt)
  {
    ModPrev(0, 1);
  }
}
