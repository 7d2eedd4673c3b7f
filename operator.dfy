/**
 * The scalar Hilbert–Pólya operator on a ring of `M` points,
 *   L = -χ⁻¹ Dκ χ Dκ + χ⁻¹ U,   Dκ = D1 + iκ I,   κ = θ / 2π,
 * followed by the Hermitian symmetrisation, and the uniform-χ operator
 * used for the second torus direction.
 *
 * `cos` and the constant `2π` are parameters: the model does not
 * compute transcendental functions.
 */
module Operator {
  import opened Complex
  import opened Matrix
  import opened Derivative
  import opened Wrappers

  /** The floor `np.maximum(chi, 1e-6)` applies to the weight χ. */
  const ChiFloor: real := 0.000001

  /** `np.linspace(0, 2π, M, endpoint=False)`. */
  function Grid(M: nat, twoPi: real): (tau: seq<real>)
    requires M > 0
    ensures |tau| == M
  {
    seq(M, i requires 0 <= i < M => i as real * (twoPi / M as real))
  }

  /** `c0 + cs[0]·cos(τ) + cs[1]·cos(2τ) + …`. */
  function Harmonic(c0: real, cs: seq<real>, cos: real -> real, t: real): real
    decreases |cs|
  {
    if |cs| == 0 then c0
    else Harmonic(c0, cs[..|cs| - 1], cos, t) + cs[|cs| - 1] * cos(|cs| as real * t)
  }

  /** A Fourier series with all harmonic coefficients zero is its constant term. */
  lemma {:induction false} HarmonicOfZeros(c0: real, cs: seq<real>, cos: real -> real, t: real)
    requires forall k | 0 <= k < |cs| :: cs[k] == 0.0
    ensures Harmonic(c0, cs, cos, t) == c0
  {
    if |cs| > 0 {
      HarmonicOfZeros(c0, cs[..|cs| - 1], cos, t);
    }
  }

  /** `max(x, 1e-6)`. */
  function Clamp(x: real): (r: real)
    ensures r >= ChiFloor && r >= x
    ensures r == x || r == ChiFloor
  {
    if x > ChiFloor then x else ChiFloor
  }

  /** The clamped weight χ on the grid. */
  function Weight(M: nat, twoPi: real, cs: seq<real>, cos: real -> real): (chi: seq<real>)
    requires M > 0
    ensures |chi| == M
    ensures forall i | 0 <= i < M :: chi[i] >= ChiFloor
  {
    var tau := Grid(M, twoPi);
    seq(M, i requires 0 <= i < M => Clamp(Harmonic(1.0, cs, cos, tau[i])))
  }

  /** The potential `U = u0 + u1·cos τ + u2·cos 2τ` on the grid. */
  function Potential(M: nat, twoPi: real, u0: real, us: seq<real>, cos: real -> real): (u: seq<real>)
    requires M > 0
    ensures |u| == M
  {
    var tau := Grid(M, twoPi);
    seq(M, i requires 0 <= i < M => Harmonic(u0, us, cos, tau[i]))
  }

  /** `Dk = D1 + 1j·κ·I`. */
  function Twisted(D: Mat, kappa: real): (r: Mat)
    requires IsSquare(D, |D|)
    ensures IsSquare(r, |D|)
  {
    seq(|D|, i requires 0 <= i < |D| =>
      seq(|D|, j requires 0 <= j < |D| => if i == j then Add(D[i][j], C(0.0, kappa)) else D[i][j]))
  }

  /**
   * `Dk = periodic_D1(M, dt) + 1j·κ·I` with `dt = tau[1] - tau[0]` and
   * `κ = phase / 2π`.
   */
  function TwistedD1(M: nat, twoPi: real, phase: real): (Dk: Mat)
    requires M >= 2 && twoPi > 0.0
    ensures IsSquare(Dk, M)
  {
    var tau := Grid(M, twoPi);
    Twisted(D1(M, tau[1] - tau[0]), phase / twoPi)
  }

  /** The Bloch phase actually used: `bloch_theta` when given, `theta` otherwise. */
  function Phase(theta: real, bloch: Option<real>): real
  {
    if bloch.Some? then bloch.value else theta
  }

  /**
   * The configuration of one scalar operator: the number of grid points,
   * the twist `θ`, an optional Bloch phase that overrides it, the
   * harmonic coefficients of χ (the constant term is 1) and those of the
   * potential `U`.
   */
  datatype Config = Config(M: nat, theta: real, bloch: Option<real>,
                           chiCoeffs: seq<real>, u0: real, uCoeffs: seq<real>)

  /** `(L, tau, chi, U)` as the builder returns them. */
  datatype Built = Built(L: Mat, tau: seq<real>, chi: seq<real>, U: seq<real>)

  /** `-ChiInv @ (Dk @ (Chi @ Dk)) + ChiInv @ Umat` before symmetrisation. */
  function RawOperator(Dk: Mat, chi: seq<real>, U: seq<real>): (r: Mat)
    requires IsSquare(Dk, |chi|) && |U| == |chi|
    requires forall i | 0 <= i < |chi| :: chi[i] >= ChiFloor
    ensures IsSquare(r, |chi|)
  {
    var inv := Reciprocals(chi);
    MAdd(MNeg(DiagTimes(inv, MatMul(Dk, DiagTimes(chi, Dk)))), DiagTimes(inv, RealDiag(U)))
  }

  /** `1.0 / chi`, elementwise. */
  function Reciprocals(chi: seq<real>): (inv: seq<real>)
    requires forall i | 0 <= i < |chi| :: chi[i] >= ChiFloor
    ensures |inv| == |chi|
  {
    seq(|chi|, i requires 0 <= i < |chi| => 1.0 / chi[i])
  }

  /**
   * `build_operator`: the result is an `M × M` Hermitian matrix, the
   * weight is the clamped harmonic series and never below the floor,
   * and the potential is the harmonic series of `U`.
   */
  function BuildOperator(cfg: Config, twoPi: real, cos: real -> real): (b: Built)
    requires cfg.M >= 2 && twoPi > 0.0
    ensures IsSquare(b.L, cfg.M) && Hermitian(b.L)
    ensures |b.tau| == cfg.M && |b.chi| == cfg.M && |b.U| == cfg.M
    ensures forall i | 0 <= i < cfg.M ::
              b.chi[i] >= ChiFloor &&
              b.chi[i] == Clamp(Harmonic(1.0, cfg.chiCoeffs, cos, b.tau[i])) &&
              b.U[i] == Harmonic(cfg.u0, cfg.uCoeffs, cos, b.tau[i])
  {
    var M := cfg.M;
    var chi := Weight(M, twoPi, cfg.chiCoeffs, cos);
    var U := Potential(M, twoPi, cfg.u0, cfg.uCoeffs, cos);
    var Dk := TwistedD1(M, twoPi, Phase(cfg.theta, cfg.bloch));
    Built(Hermitise(RawOperator(Dk, chi, U)), Grid(M, twoPi), chi, U)
  }

  /**
   * `build_operator_sigma`: the uniform-χ, zero-potential operator
   * `-(Dk @ Dk)` for the second torus direction, symmetrised.
   */
  function BuildOperatorSigma(Ms: nat, thetaS: real, bloch: Option<real>, twoPi: real): (L: Mat)
    requires Ms >= 2 && twoPi > 0.0
    ensures IsSquare(L, Ms) && Hermitian(L)
  {
    var Dk := TwistedD1(Ms, twoPi, Phase(thetaS, bloch));
    Hermitise(MNeg(MatMul(Dk, Dk)))
  }

  lemma DiagTimesOnes(d: seq<real>, A: Mat)
    requires IsSquare(A, |d|)
    requires forall i | 0 <= i < |d| :: d[i] == 1.0
    ensures DiagTimes(d, A) == A
  {
    var r := DiagTimes(d, A);
    forall i | 0 <= i < |d|
      ensures r[i] == A[i]
    {
      assert forall j | 0 <= j < |d| :: r[i][j] == A[i][j];
    }
  }

  lemma MAddZeroRight(A: Mat, Z: Mat)
    requires IsSquare(A, |A|) && IsSquare(Z, |A|)
    requires forall i, j | 0 <= i < |A| && 0 <= j < |A| :: Z[i][j] == Zero
    ensures MAdd(A, Z) == A
  {
    var r := MAdd(A, Z);
    forall i | 0 <= i < |A|
      ensures r[i] == A[i]
    {
      assert forall j | 0 <= j < |A| :: r[i][j] == A[i][j];
    }
  }

  /**
   * With every harmonic coefficient of χ and U equal to zero (χ ≡ 1,
   * U ≡ 0), the scalar operator coincides entry for entry with the
   * uniform operator of the second torus direction.
   */
  lemma UniformOperatorIsSigmaOperator(cfg: Config, twoPi: real, cos: real -> real)
    requires cfg.M >= 2 && twoPi > 0.0
    requires forall k | 0 <= k < |cfg.chiCoeffs| :: cfg.chiCoeffs[k] == 0.0
    requires cfg.u0 == 0.0 && forall k | 0 <= k < |cfg.uCoeffs| :: cfg.uCoeffs[k] == 0.0
    ensures BuildOperator(cfg, twoPi, cos).L == BuildOperatorSigma(cfg.M, cfg.theta, cfg.bloch, twoPi)
  {
    var M := cfg.M;
    var tau := Grid(M, twoPi);
    var chi := Weight(M, twoPi, cfg.chiCoeffs, cos);
    var U := Potential(M, twoPi, cfg.u0, cfg.uCoeffs, cos);
    var Dk := TwistedD1(M, twoPi, Phase(cfg.theta, cfg.bloch));
    forall i | 0 <= i < M
      ensures chi[i] == 1.0 && U[i] == 0.0
    {
      HarmonicOfZeros(1.0, cfg.chiCoeffs, cos, tau[i]);
      HarmonicOfZeros(cfg.u0, cfg.uCoeffs, cos, tau[i]);
    }
    var inv := Reciprocals(chi);
    DiagTimesOnes(chi, Dk);
    var P := MatMul(Dk, Dk);
    assert MatMul(Dk, DiagTimes(chi, Dk)) == P;
    DiagTimesOnes(inv, P);
    var Z := DiagTimes(inv, RealDiag(U));
    assert forall i, j | 0 <= i < M && 0 <= j < M :: Z[i][j] == Zero;
    MAddZeroRight(MNeg(P), Z);
    assert RawOperator(Dk, chi, U) == MNeg(P);
    assert BuildOperator(cfg, twoPi, cos).L == Hermitise(RawOperator(Dk, chi, U));
    assert BuildOperatorSigma(M, cfg.theta, cfg.bloch, twoPi) == Hermitise(MNeg(P));
  }
}
