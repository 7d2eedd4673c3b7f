/**
 * The two composite operators built on top of the scalar one: the
 * two-component spinor operator `Ls⊗I₂ + diag(m)⊗σz + diag(g)⊗σx`
 * and the torus Kronecker sum `Lτ⊗I + ε·(I⊗Lσ)`.
 */
module Composite {
  import opened Complex
  import opened Matrix
  import opened Operator
  import opened Wrappers

  const SigmaX: Mat := [[Zero, One], [One, Zero]]
  const SigmaZ: Mat := [[One, Zero], [Zero, C(-1.0, 0.0)]]

  lemma PaulisHermitian()
    ensures Hermitian(SigmaX) && Hermitian(SigmaZ) && Hermitian(Identity(2))
  {
    IdentityHermitian(2);
  }

  lemma RealDiagHermitian(d: seq<real>)
    ensures Hermitian(RealDiag(d))
  {
    var D := RealDiag(d);
    var v := seq(|d|, i requires 0 <= i < |d| => Real(d[i]));
    assert D == Diag(v);
    forall i, j | 0 <= i < |d| && 0 <= j < |d|
      ensures D[i][j] == Conj(D[j][i])
    {
      assert D[i][j] == if i == j then Real(d[i]) else Zero;
      assert D[j][i] == if i == j then Real(d[i]) else Zero;
    }
  }

  /** `m1·cos(τ)` on the grid. */
  function CosineProfile(M: nat, twoPi: real, amplitude: real, cos: real -> real): (r: seq<real>)
    requires M > 0
    ensures |r| == M
  {
    var tau := Grid(M, twoPi);
    seq(M, i requires 0 <= i < M => amplitude * cos(tau[i]))
  }

  lemma CosineProfileAt(M: nat, twoPi: real, amplitude: real, cos: real -> real, i: nat)
    requires i < M
    ensures CosineProfile(M, twoPi, amplitude, cos)[i] == amplitude * cos(Grid(M, twoPi)[i])
  {
  }

  /** The scalar core of the spinor operator: χ = 1 + c1 cos τ + c2 cos 2τ, U = 0. */
  function SpinorCore(M: nat, theta: real, c1: real, c2: real, twoPi: real, cos: real -> real): (Ls: Mat)
    requires M >= 2 && twoPi > 0.0
    ensures IsSquare(Ls, M) && Hermitian(Ls)
  {
    BuildOperator(Config(M, theta, None, [c1, c2], 0.0, []), twoPi, cos).L
  }

  /** `np.kron(A, I₂)`: each site doubled into two components. */
  function Doubled(A: Mat): (r: Mat)
    requires IsSquare(A, |A|)
    ensures IsSquare(r, |A| * 2)
  {
    Kron(A, Identity(2), 2)
  }

  /** `np.kron(np.diag(d), S)` for a 2 × 2 matrix `S`. */
  function OnSite(d: seq<real>, S: Mat): (r: Mat)
    requires IsSquare(S, 2)
    ensures IsSquare(r, |d| * 2)
  {
    Kron(RealDiag(d), S, 2)
  }

  /** `Ls⊗I₂ + diag(m)⊗σz + diag(g)⊗σx` before symmetrisation. */
  function SpinorRaw(Ls: Mat, m: seq<real>, g: seq<real>): (L: Mat)
    requires IsSquare(Ls, |m|) && |g| == |m|
    ensures IsSquare(L, |m| * 2)
  {
    MAdd(MAdd(Doubled(Ls), OnSite(m, SigmaZ)), OnSite(g, SigmaX))
  }

  /** `Ls⊗I₂ + diag(m)⊗σz + diag(g)⊗σx`, symmetrised. */
  function SpinorSum(Ls: Mat, m: seq<real>, g: seq<real>): (L: Mat)
    requires IsSquare(Ls, |m|) && |g| == |m|
    ensures IsSquare(L, |m| * 2)
  {
    Hermitise(SpinorRaw(Ls, m, g))
  }

  lemma SpinorRawHermitian(Ls: Mat, m: seq<real>, g: seq<real>)
    requires Hermitian(Ls) && |Ls| == |m| && |g| == |m|
    ensures Hermitian(SpinorRaw(Ls, m, g))
    ensures SpinorSum(Ls, m, g) == SpinorRaw(Ls, m, g)
  {
    var K1 := Doubled(Ls);
    var K2 := OnSite(m, SigmaZ);
    var K3 := OnSite(g, SigmaX);
    PaulisHermitian();
    RealDiagHermitian(m);
    RealDiagHermitian(g);
    KronHermitian(Ls, Identity(2));
    KronHermitian(RealDiag(m), SigmaZ);
    KronHermitian(RealDiag(g), SigmaX);
    assert K2 == Kron(RealDiag(m), SigmaZ, |SigmaZ|);
    assert K3 == Kron(RealDiag(g), SigmaX, |SigmaX|);
    MAddHermitian(K1, K2);
    MAddHermitian(MAdd(K1, K2), K3);
  }

  /** `np.kron(A, I)` holds `A[p][q]` on the diagonal of block `(p, q)` and zeros elsewhere. */
  lemma KronIdentityRightEntry(A: Mat, m: nat, p: nat, q: nat, a: nat, b: nat)
    requires IsSquare(A, |A|) && 0 < m && p < |A| && q < |A| && a < m && b < m
    ensures p * m + a < |A| * m && q * m + b < |A| * m
    ensures Kron(A, Identity(m), m)[p * m + a][q * m + b] == if a == b then A[p][q] else Zero
  {
    var Im := Identity(m);
    assert |Im| == m;
    KronEntry(A, Im, m, p, q, a, b);
    if a == b {
      assert Im[a][b] == One;
      MulOne(A[p][q]);
    } else {
      assert Im[a][b] == Zero;
      MulZero(A[p][q]);
    }
  }

  /** `np.kron(I, B)` repeats `B` along the diagonal blocks and is zero off them. */
  lemma KronIdentityLeftEntry(n: nat, B: Mat, p: nat, q: nat, a: nat, b: nat)
    requires IsSquare(B, |B|) && 0 < |B| && p < n && q < n && a < |B| && b < |B|
    ensures p * |B| + a < n * |B| && q * |B| + b < n * |B|
    ensures Kron(Identity(n), B, |B|)[p * |B| + a][q * |B| + b] == if p == q then B[a][b] else Zero
  {
    var In := Identity(n);
    assert |In| == n;
    KronEntry(In, B, |B|, p, q, a, b);
    if p == q {
      assert In[p][q] == One;
      MulOne(B[a][b]);
    } else {
      assert In[p][q] == Zero;
      MulZero(B[a][b]);
    }
  }

  lemma KronRealDiagEntry(m: seq<real>, S: Mat, i: nat, j: nat, a: nat, b: nat)
    requires IsSquare(S, 2) && i < |m| && j < |m| && a < 2 && b < 2
    ensures i * 2 + a < |m| * 2 && j * 2 + b < |m| * 2
    ensures OnSite(m, S)[i * 2 + a][j * 2 + b] ==
            if i == j then Mul(Real(m[i]), S[a][b]) else Zero
  {
    KronEntry(RealDiag(m), S, 2, i, j, a, b);
    assert RealDiag(m)[i][j] == if i == j then Real(m[i]) else Zero;
    MulZero(S[a][b]);
  }

  lemma DoubledEntry(Ls: Mat, i: nat, j: nat, a: nat, b: nat)
    requires IsSquare(Ls, |Ls|) && i < |Ls| && j < |Ls| && a < 2 && b < 2
    ensures i * 2 + a < |Ls| * 2 && j * 2 + b < |Ls| * 2
    ensures Doubled(Ls)[i * 2 + a][j * 2 + b] == if a == b then Ls[i][j] else Zero
  {
    KronIdentityRightEntry(Ls, 2, i, j, a, b);
  }

  lemma SpinorRawEntries(Ls: Mat, m: seq<real>, g: seq<real>, i: nat, j: nat, a: nat, b: nat)
    requires IsSquare(Ls, |m|) && |g| == |m|
    requires i < |m| && j < |m| && a < 2 && b < 2
    ensures i * 2 + a < |m| * 2 && j * 2 + b < |m| * 2
    ensures SpinorRaw(Ls, m, g)[i * 2 + a][j * 2 + b] ==
              if i != j then (if a == b then Ls[i][j] else Zero)
              else if a != b then Real(g[i])
              else if a == 0 then Add(Ls[i][i], Real(m[i]))
              else Add(Ls[i][i], Real(-m[i]))
  {
    DoubledEntry(Ls, i, j, a, b);
    MassEntry(m, i, j, a, b);
    MixingEntry(g, i, j, a, b);
    SpinorRawAt(Ls, m, g, i * 2 + a, j * 2 + b);
    SpinorTermsSum(Ls[i][j], m[i], g[i], i == j, a, b);
  }

  lemma SpinorTermsSum(l: C, mi: real, gi: real, sameSite: bool, a: nat, b: nat)
    ensures Add(Add(if a == b then l else Zero,
                    if !sameSite || a != b then Zero else if a == 0 then Real(mi) else Real(-mi)),
                if !sameSite || a == b then Zero else Real(gi)) ==
            if !sameSite then (if a == b then l else Zero)
            else if a != b then Real(gi)
            else if a == 0 then Add(l, Real(mi))
            else Add(l, Real(-mi))
  {
    AddZero(l);
    AddZero(Real(gi));
  }

  /** `diag(m)⊗σz` holds `+m[i]` and `-m[i]` on the diagonal of site `i` and zeros elsewhere. */
  lemma MassEntry(m: seq<real>, i: nat, j: nat, a: nat, b: nat)
    requires i < |m| && j < |m| && a < 2 && b < 2
    ensures i * 2 + a < |m| * 2 && j * 2 + b < |m| * 2
    ensures OnSite(m, SigmaZ)[i * 2 + a][j * 2 + b] ==
            if i != j || a != b then Zero else if a == 0 then Real(m[i]) else Real(-m[i])
  {
    KronRealDiagEntry(m, SigmaZ, i, j, a, b);
    assert SigmaZ[a][b] == if a != b then Zero else if a == 0 then One else C(-1.0, 0.0);
    MulZero(Real(m[i]));
  }

  /** `diag(g)⊗σx` couples the two components of site `i` with `g[i]` and is zero elsewhere. */
  lemma MixingEntry(g: seq<real>, i: nat, j: nat, a: nat, b: nat)
    requires i < |g| && j < |g| && a < 2 && b < 2
    ensures i * 2 + a < |g| * 2 && j * 2 + b < |g| * 2
    ensures OnSite(g, SigmaX)[i * 2 + a][j * 2 + b] == if i != j || a == b then Zero else Real(g[i])
  {
    KronRealDiagEntry(g, SigmaX, i, j, a, b);
    assert SigmaX[a][b] == if a == b then Zero else One;
    MulZero(Real(g[i]));
  }

  /** An entry of the unsymmetrised spinor operator is the sum of its three terms there. */
  lemma SpinorRawAt(Ls: Mat, m: seq<real>, g: seq<real>, x: nat, y: nat)
    requires IsSquare(Ls, |m|) && |g| == |m|
    requires x < |m| * 2 && y < |m| * 2
    ensures SpinorRaw(Ls, m, g)[x][y] ==
            Add(Add(Doubled(Ls)[x][y], OnSite(m, SigmaZ)[x][y]), OnSite(g, SigmaX)[x][y])
  {
    MAdd3At(Doubled(Ls), OnSite(m, SigmaZ), OnSite(g, SigmaX), |m| * 2, x, y);
  }

  lemma MAdd3At(A: Mat, B: Mat, D: Mat, n: nat, x: nat, y: nat)
    requires IsSquare(A, n) && IsSquare(B, n) && IsSquare(D, n) && x < n && y < n
    ensures MAdd(MAdd(A, B), D)[x][y] == Add(Add(A[x][y], B[x][y]), D[x][y])
  {
  }

  /**
   * The entries of `SpinorSum` for a Hermitian scalar operator,
   * component `a` of site `i` against component `b` of site `j` (flat
   * index `2i + a`): between different sites the two components are
   * decoupled copies of the scalar operator; on one site the σz term
   * `m[i]` splits the two components and the σx term `g[i]` mixes them.
   */
  lemma SpinorSumEntries(Ls: Mat, m: seq<real>, g: seq<real>, i: nat, j: nat, a: nat, b: nat)
    requires Hermitian(Ls) && |Ls| == |m| && |g| == |m|
    requires i < |m| && j < |m| && a < 2 && b < 2
    ensures i * 2 + a < |m| * 2 && j * 2 + b < |m| * 2
    ensures SpinorSum(Ls, m, g)[i * 2 + a][j * 2 + b] ==
              if i != j then (if a == b then Ls[i][j] else Zero)
              else if a != b then Real(g[i])
              else if a == 0 then Add(Ls[i][i], Real(m[i]))
              else Add(Ls[i][i], Real(-m[i]))
  {
    SpinorRawHermitian(Ls, m, g);
    SpinorRawEntries(Ls, m, g, i, j, a, b);
  }

  /**
   * `build_spinor_operator`: a `2M × 2M` Hermitian matrix.
   */
  function BuildSpinorOperator(M: nat, theta: real, c1: real, c2: real, m1: real, g1: real,
                               twoPi: real, cos: real -> real): (L: Mat)
    requires M >= 2 && twoPi > 0.0
    ensures IsSquare(L, M * 2) && Hermitian(L)
  {
    SpinorSum(SpinorCore(M, theta, c1, c2, twoPi, cos),
              CosineProfile(M, twoPi, m1, cos), CosineProfile(M, twoPi, g1, cos))
  }

  /** `np.kron(Z, B)` of an all-zero `Z` is all zero. */
  lemma KronZeroLeft(Z: Mat, B: Mat, m: nat)
    requires IsSquare(Z, |Z|) && IsSquare(B, m) && 0 < m
    requires forall p, q | 0 <= p < |Z| && 0 <= q < |Z| :: Z[p][q] == Zero
    ensures forall x, y | 0 <= x < |Z| * m && 0 <= y < |Z| * m :: Kron(Z, B, m)[x][y] == Zero
  {
    forall x, y | 0 <= x < |Z| * m && 0 <= y < |Z| * m
      ensures Kron(Z, B, m)[x][y] == Zero
    {
      KronIndex(x, m, |Z|);
      KronIndex(y, m, |Z|);
      assert Kron(Z, B, m)[x][y] == KronAt(Z, B, m, x, y);
      MulZero(B[Offset(x, m)][Offset(y, m)]);
    }
  }

  /** `np.kron(np.diag(z), S)` of an all-zero profile `z` is all zero. */
  lemma OnSiteOfZeros(z: seq<real>, S: Mat)
    requires IsSquare(S, 2)
    requires forall i | 0 <= i < |z| :: z[i] == 0.0
    ensures forall x, y | 0 <= x < |z| * 2 && 0 <= y < |z| * 2 :: OnSite(z, S)[x][y] == Zero
  {
    KronZeroLeft(RealDiag(z), S, 2);
  }

  /**
   * With no σz mass and no σx mixing the spinor operator is exactly
   * `Ls ⊗ I₂`: two decoupled copies of the scalar operator.
   */
  lemma SpinorDecouples(M: nat, theta: real, c1: real, c2: real, twoPi: real, cos: real -> real)
    requires M >= 2 && twoPi > 0.0
    ensures BuildSpinorOperator(M, theta, c1, c2, 0.0, 0.0, twoPi, cos) ==
            Kron(SpinorCore(M, theta, c1, c2, twoPi, cos), Identity(2), 2)
  {
    var Ls := SpinorCore(M, theta, c1, c2, twoPi, cos);
    var z := CosineProfile(M, twoPi, 0.0, cos);
    OnSiteOfZeros(z, SigmaZ);
    OnSiteOfZeros(z, SigmaX);
    var K1 := Doubled(Ls);
    MAddZeroRight(K1, OnSite(z, SigmaZ));
    MAddZeroRight(K1, OnSite(z, SigmaX));
    SpinorRawHermitian(Ls, z, z);
  }

  /** The torus Kronecker sum `np.kron(Lτ, I) + ε·np.kron(I, Lσ)`, not symmetrised. */
  function KroneckerSum(Ltau: Mat, Lsig: Mat, eps: real): (L: Mat)
    requires IsSquare(Ltau, |Ltau|) && IsSquare(Lsig, |Lsig|) && 0 < |Lsig|
    ensures IsSquare(L, |Ltau| * |Lsig|)
  {
    MAdd(Kron(Ltau, Identity(|Lsig|), |Lsig|), MScale(eps, Kron(Identity(|Ltau|), Lsig, |Lsig|)))
  }

  /**
   * The entry of the Kronecker sum at `(τ-site iτ, σ-site iσ)` against
   * `(jτ, jσ)`: the τ operator acts on equal σ-sites, `ε` times the σ
   * operator on equal τ-sites; and the sum of two Hermitian legs is
   * Hermitian.
   */
  lemma KroneckerSumEntries(Ltau: Mat, Lsig: Mat, eps: real, it: nat, jt: nat, ps: nat, qs: nat)
    requires IsSquare(Ltau, |Ltau|) && IsSquare(Lsig, |Lsig|) && 0 < |Lsig|
    requires it < |Ltau| && jt < |Ltau| && ps < |Lsig| && qs < |Lsig|
    ensures it * |Lsig| + ps < |Ltau| * |Lsig| && jt * |Lsig| + qs < |Ltau| * |Lsig|
    ensures KroneckerSum(Ltau, Lsig, eps)[it * |Lsig| + ps][jt * |Lsig| + qs] ==
            Add(if ps == qs then Ltau[it][jt] else Zero,
                if it == jt then Scale(eps, Lsig[ps][qs]) else Zero)
  {
    var Ms := |Lsig|;
    KronIdentityRightEntry(Ltau, Ms, it, jt, ps, qs);
    KronIdentityLeftEntry(|Ltau|, Lsig, it, jt, ps, qs);
    KroneckerSumAt(Ltau, Lsig, eps, it * Ms + ps, jt * Ms + qs);
  }

  lemma KroneckerSumAt(Ltau: Mat, Lsig: Mat, eps: real, x: nat, y: nat)
    requires IsSquare(Ltau, |Ltau|) && IsSquare(Lsig, |Lsig|) && 0 < |Lsig|
    requires x < |Ltau| * |Lsig| && y < |Ltau| * |Lsig|
    ensures KroneckerSum(Ltau, Lsig, eps)[x][y] ==
            Add(Kron(Ltau, Identity(|Lsig|), |Lsig|)[x][y], Scale(eps, Kron(Identity(|Ltau|), Lsig, |Lsig|)[x][y]))
  {
    assert |Identity(|Ltau|)| == |Ltau|;
  }

  lemma KroneckerSumHermitian(Ltau: Mat, Lsig: Mat, eps: real)
    requires Hermitian(Ltau) && Hermitian(Lsig) && 0 < |Lsig|
    ensures Hermitian(KroneckerSum(Ltau, Lsig, eps))
  {
    IdentityHermitian(|Lsig|);
    IdentityHermitian(|Ltau|);
    KronHermitian(Ltau, Identity(|Lsig|));
    KronHermitian(Identity(|Ltau|), Lsig);
    MScaleHermitian(eps, Kron(Identity(|Ltau|), Lsig, |Lsig|));
    MAddHermitian(Kron(Ltau, Identity(|Lsig|), |Lsig|), MScale(eps, Kron(Identity(|Ltau|), Lsig, |Lsig|)));
  }

  /**
   * The τ leg of `torus_fit`: the scalar operator with `c1 = c2 = 0`
   * (and the default `c3 = 0`, `U = 0`). It is the uniform operator of
   * the second direction, taken with the τ twist and τ grid size.
   */
  function TorusLegTau(Mt: nat, thetaTau: real, twoPi: real, cos: real -> real): (L: Mat)
    requires Mt >= 2 && twoPi > 0.0
    ensures IsSquare(L, Mt) && Hermitian(L)
    ensures L == BuildOperatorSigma(Mt, thetaTau, None, twoPi)
  {
    var cfg := Config(Mt, thetaTau, None, [0.0, 0.0], 0.0, []);
    UniformOperatorIsSigmaOperator(cfg, twoPi, cos);
    BuildOperator(cfg, twoPi, cos).L
  }

  /**
   * The torus operator of `torus_fit`: the Kronecker sum of the uniform
   * τ leg and the σ leg with its own twist, an `Mτ·Mσ`-square Hermitian
   * matrix.
   */
  function TorusOperator(thetaTau: real, thetaSigma: real, eps: real, Mt: nat, Ms: nat,
                         twoPi: real, cos: real -> real): (L: Mat)
    requires Mt >= 2 && Ms >= 2 && twoPi > 0.0
    ensures IsSquare(L, Mt * Ms) && Hermitian(L)
  {
    var Ltau := TorusLegTau(Mt, thetaTau, twoPi, cos);
    var Lsig := BuildOperatorSigma(Ms, thetaSigma, None, twoPi);
    KroneckerSumHermitian(Ltau, Lsig, eps);
    KroneckerSum(Ltau, Lsig, eps)
  }

  /**
   * With `ε = 0` the torus matrix does not couple σ-sites at all: it is
   * exactly `Lτ ⊗ I`, with `Lτ` the uniform operator of the τ direction.
   */
  lemma TorusUncoupled(thetaTau: real, thetaSigma: real, Mt: nat, Ms: nat, twoPi: real,
                       cos: real -> real)
    requires Mt >= 2 && Ms >= 2 && twoPi > 0.0
    ensures TorusOperator(thetaTau, thetaSigma, 0.0, Mt, Ms, twoPi, cos) ==
            Kron(BuildOperatorSigma(Mt, thetaTau, None, twoPi), Identity(Ms), Ms)
  {
    var Ltau := TorusLegTau(Mt, thetaTau, twoPi, cos);
    var Lsig := BuildOperatorSigma(Ms, thetaSigma, None, twoPi);
    var K1 := Kron(Ltau, Identity(Ms), Ms);
    var K2 := MScale(0.0, Kron(Identity(Mt), Lsig, Ms));
    assert forall x, y | 0 <= x < |K2| && 0 <= y < |K2| :: K2[x][y] == Zero;
    MAddZeroRight(K1, K2);
  }

  /**
   * The torus that the overlay plot rebuilds from a saved summary:
   * `Mτ = 128`, `Mσ = 8` and the τ leg with its default, uniform χ.
   */
  function OverlayTorus(theta: real, thetaSigma: real, eps: real, twoPi: real, cos: real -> real): (L: Mat)
    requires twoPi > 0.0
    ensures IsSquare(L, 1024) && Hermitian(L)
  {
    TorusOperator(theta, thetaSigma, eps, 128, 8, twoPi, cos)
  }
}
