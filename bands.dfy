/**
 * The wrapped Pascal-hopping Hamiltonian of `test_chiral_phases.py`,
 * `test_multiple_N.py`, `extended_analysis.py` and `test_N_300_350.py`,
 * and the middle-band analysis those scripts run on its spectrum: the
 * skip rule on the band length, the affine fit on 30 training zeros, the
 * validation and extended predictions, the residual drift, the quartile
 * means and the status label.
 */
module Bands {
  import opened Wrappers
  import opened Complex
  import Matrix
  import Fit
  import Spectrum
  import Geo
  import GeoSelect

  // ---------------------------------------------------------------
  // Parameters
  // ---------------------------------------------------------------

  /** `twist_mode`; `Other` is any string the script does not recognise. */
  datatype Mode = Uniform | Sublattice | Center | Ramp | Other

  /** `d_max`, `alpha`, `p`, `n_flux` and the chirality mode. */
  datatype BandParams = BandParams(dMax: nat, alpha: real, p: real, nFlux: real, mode: Mode)

  /** The foreign numerics: `π`, `sqrt`, `u**p` and `e^{ix}`. */
  datatype Numerics = Numerics(pi: real, sqrt: real -> real, pow: (real, real) -> real, cis: real -> C)

  /** The fixed parameters shared by the four scripts: `d_max = 5`, `α = 0.7`, `p = 1.5`, `n_flux = 25`. */
  function ScriptParams(mode: Mode): BandParams
  {
    BandParams(5, 0.7, 1.5, 25.0, mode)
  }

  // ---------------------------------------------------------------
  // build_hamiltonian
  // ---------------------------------------------------------------

  /**
   * The chirality `s_i`: 1 for `uniform` and unknown modes, `±1` by
   * parity for `sublattice`, `+1` up to the midpoint for `center`, and
   * the ramp `(2i - (N-1))/N` strictly inside `(-1, 1)`.
   */
  function Chirality(mode: Mode, i: nat, N: nat): (s: real)
    requires i < N
    ensures mode.Uniform? || mode.Other? ==> s == 1.0
    ensures mode.Sublattice? ==> (s == 1.0 <==> i % 2 == 0) && (s == -1.0 <==> i % 2 == 1)
    ensures mode.Center? ==> (s == 1.0 <==> 2 * i <= N - 1) && (s == -1.0 <==> 2 * i > N - 1)
    ensures mode.Ramp? ==> -1.0 < s < 1.0
    ensures !mode.Ramp? ==> s == 1.0 || s == -1.0
  {
    match mode
    case Uniform => 1.0
    case Sublattice => if i % 2 == 0 then 1.0 else -1.0
    case Center => if i as real <= (N - 1) as real / 2.0 then 1.0 else -1.0
    case Ramp =>
      var s := (2 * i - (N - 1)) as real / N as real;
      assert s * N as real == (2 * i - (N - 1)) as real;
      s
    case Other => 1.0
  }

  /** `u = (i + j)/(2N)`. */
  function U(i: nat, j: nat, N: nat): real
    requires N > 0
  {
    (i + j) as real / (2.0 * N as real)
  }

  /** `1 + α·u^p`. */
  function DecayDenominator(i: nat, j: nat, N: nat, prm: BandParams, num: Numerics): real
    requires N > 0
  {
    1.0 + prm.alpha * num.pow(U(i, j, N), prm.p)
  }

  /** `decay = 1/(1 + α·u^p)` never divides by zero on the lattice. */
  predicate DecayDefined(N: nat, prm: BandParams, num: Numerics)
  {
    forall i: nat, j: nat | i < N && j < N :: DecayDenominator(i, j, N, prm, num) != 0.0
  }

  lemma DecayNonNegative(N: nat, prm: BandParams, num: Numerics)
    requires prm.alpha >= 0.0 && GeoSelect.PowNonNegative(num.pow)
    ensures DecayDefined(N, prm, num)
  {
    forall i: nat, j: nat | i < N && j < N
      ensures DecayDenominator(i, j, N, prm, num) >= 1.0
    {
      assert U(i, j, N) >= 0.0;
      var t := num.pow(U(i, j, N), prm.p);
      assert t >= 0.0;
      assert prm.alpha * t >= 0.0;
    }
  }

  function Decay(i: nat, j: nat, N: nat, prm: BandParams, num: Numerics): real
    requires i < N && j < N && DecayDefined(N, prm, num)
  {
    1.0 / DecayDenominator(i, j, N, prm, num)
  }

  /**
   * The write `H[i, j] = -A·decay·e^{i·s_i·(2π/n_flux)·dj}` for the
   * offset `dj` (the phase follows `dj`, the amplitude `|i - j|`).
   */
  function ChiralHop(i: nat, j: nat, dj: int, N: nat, prm: BandParams, num: Numerics): C
    requires i < N && j < N && DecayDefined(N, prm, num) && prm.nFlux != 0.0
  {
    var amp := Geo.PascalAmpBanded(Geo.Dist(i, j), prm.dMax, num.sqrt) * Decay(i, j, N, prm, num);
    Scale(-amp, num.cis(Chirality(prm.mode, i, N) * (2.0 * num.pi / prm.nFlux) * dj as real))
  }

  /** The number of offsets `dj ∈ [-d_max, d_max]`. */
  function Width(prm: BandParams): nat
  {
    2 * prm.dMax + 1
  }

  /**
   * `H[i, j]` before symmetrisation, after the first `k` offsets of row
   * `i`: the last offset `dj` with `(i + dj) mod N == j != i` wins.
   */
  function RawAt(i: nat, j: nat, N: nat, k: nat, prm: BandParams, num: Numerics): C
    requires i < N && j < N && k <= Width(prm) && DecayDefined(N, prm, num) && prm.nFlux != 0.0
  {
    if k == 0 then Zero
    else
      var dj := (k - 1) as int - prm.dMax as int;
      if (i + dj) % N == j && j != i then ChiralHop(i, j, dj, N, prm, num)
      else RawAt(i, j, N, k - 1, prm, num)
  }

  /** The filled matrix before `(H + H†)/2`. */
  function Raw(N: nat, prm: BandParams, num: Numerics): (H: Matrix.Mat)
    requires DecayDefined(N, prm, num) && prm.nFlux != 0.0
    ensures Matrix.IsSquare(H, N)
  {
    seq(N, i requires 0 <= i < N =>
      seq(N, j requires 0 <= j < N => RawAt(i, j, N, Width(prm), prm, num)))
  }

  /** What `build_hamiltonian` returns. */
  function Hamiltonian(N: nat, prm: BandParams, num: Numerics): (H: Matrix.Mat)
    requires DecayDefined(N, prm, num) && prm.nFlux != 0.0
    ensures Matrix.IsSquare(H, N) && Matrix.Hermitian(H)
  {
    Matrix.Hermitise(Raw(N, prm, num))
  }

  /** One row of the fill: the offsets `dj = -d_max … d_max` of row `i`. */
  method FillRow(A: array2<C>, i: nat, N: nat, prm: BandParams, num: Numerics)
    requires A.Length0 == N && A.Length1 == N && i < N
    requires DecayDefined(N, prm, num) && prm.nFlux != 0.0
    requires forall c | 0 <= c < N :: A[i, c] == Zero
    modifies A
    ensures forall r, c | 0 <= r < N && 0 <= c < N ::
              A[r, c] == if r == i then RawAt(i, c, N, Width(prm), prm, num) else old(A[r, c])
  {
    for dj := -(prm.dMax as int) to prm.dMax as int + 1
      invariant forall r, c | 0 <= r < N && 0 <= c < N ::
                  A[r, c] == if r == i then RawAt(i, c, N, (dj + prm.dMax) as nat, prm, num) else old(A[r, c])
    {
      var j: nat := (i + dj) % N;
      if Geo.Dist(i, j) == 0 {
        continue;
      }
      A[i, j] := ChiralHop(i, j, dj, N, prm, num);
    }
  }

  /**
   * `build_hamiltonian(N, d_max, alpha, p, n_flux, twist_mode)`: fill
   * row by row over the offsets `dj`, skipping the diagonal, then return
   * `(H + H†)/2`, which is Hermitian for every mode.
   */
  method BuildHamiltonian(N: nat, prm: BandParams, num: Numerics) returns (H: Matrix.Mat)
    requires DecayDefined(N, prm, num) && prm.nFlux != 0.0
    ensures H == Matrix.Hermitise(Raw(N, prm, num))
    ensures Matrix.IsSquare(H, N) && Matrix.Hermitian(H)
  {
    var A := new C[N, N]((_, _) => Zero);
    for i := 0 to N
      invariant forall r, c | 0 <= r < N && 0 <= c < N ::
                  A[r, c] == if r < i then RawAt(r, c, N, Width(prm), prm, num) else Zero
    {
      FillRow(A, i, N, prm, num);
    }
    var raw := seq(N, r requires 0 <= r < N reads A => seq(N, c requires 0 <= c < N reads A => A[r, c]));
    forall r | 0 <= r < N
      ensures raw[r] == Raw(N, prm, num)[r]
    {
      assert forall c | 0 <= c < N :: raw[r][c] == Raw(N, prm, num)[r][c];
    }
    assert raw == Raw(N, prm, num);
    H := Matrix.Hermitise(raw);
  }

  // ---------------------------------------------------------------
  // No wrapped hops on a large enough lattice
  // ---------------------------------------------------------------

  /** `(i + dj) % N` for an offset that wraps at most once. */
  lemma WrapOnce(x: int, N: nat)
    requires N > 0 && -(N as int) <= x < 2 * N
    ensures x % N == if x < 0 then x + N else if x >= N then x - N else x
  {
    if x < 0 {
      Matrix.DivModUnique(-1, x + N, N);
    } else if x >= N {
      Matrix.DivModUnique(1, x - N, N);
    } else {
      Matrix.DivModUnique(0, x, N);
    }
  }

  /** A hop longer than `2·d_max` has amplitude zero. */
  lemma LongHopZero(i: nat, j: nat, dj: int, N: nat, prm: BandParams, num: Numerics)
    requires i < N && j < N && DecayDefined(N, prm, num) && prm.nFlux != 0.0
    requires Geo.Dist(i, j) > 2 * prm.dMax
    ensures ChiralHop(i, j, dj, N, prm, num) == Zero
  {
    assert Geo.PascalAmpBanded(Geo.Dist(i, j), prm.dMax, num.sqrt) == 0.0;
  }

  /**
   * With `N > 3·d_max` a wrapped offset lands more than `2·d_max` away
   * and writes zero, and no two offsets of a row meet: after `k`
   * offsets, `H[i, j]` holds the hop of `dj = j - i` if that offset has
   * been visited, and zero otherwise.
   */
  lemma {:induction false} RawAtBand(i: nat, j: nat, N: nat, k: nat, prm: BandParams, num: Numerics)
    requires i < N && j < N && k <= Width(prm) && DecayDefined(N, prm, num) && prm.nFlux != 0.0
    requires N > 3 * prm.dMax
    ensures RawAt(i, j, N, k, prm, num) ==
              if j != i && -(prm.dMax as int) <= j - i < k - prm.dMax then ChiralHop(i, j, j - i, N, prm, num)
              else Zero
  {
    if k > 0 {
      RawAtBand(i, j, N, k - 1, prm, num);
      var dj := (k - 1) as int - prm.dMax as int;
      WrapOnce(i + dj, N);
      if (i + dj) % N == j && j != i && (i + dj < 0 || i + dj >= N) {
        LongHopZero(i, j, dj, N, prm, num);
      }
    }
  }

  /** The filled matrix is banded: the hop of `dj = j - i` inside the band, zero elsewhere. */
  lemma RawBanded(N: nat, prm: BandParams, num: Numerics, i: nat, j: nat)
    requires DecayDefined(N, prm, num) && prm.nFlux != 0.0 && N > 3 * prm.dMax
    requires i < N && j < N
    ensures Raw(N, prm, num)[i][j] ==
              if 1 <= Geo.Dist(i, j) <= prm.dMax then ChiralHop(i, j, j - i, N, prm, num) else Zero
  {
    RawAtBand(i, j, N, Width(prm), prm, num);
  }

  /**
   * `build_hamiltonian` has a zero diagonal and no entry beyond `d_max`
   * once `N > 3·d_max` (`N >= 16` for `d_max = 5`): the wrap-around
   * `% N` never produces a hop.
   */
  lemma HamiltonianBanded(N: nat, prm: BandParams, num: Numerics, i: nat, j: nat)
    requires DecayDefined(N, prm, num) && prm.nFlux != 0.0 && N > 3 * prm.dMax
    requires i < N && j < N && (i == j || Geo.Dist(i, j) > prm.dMax)
    ensures Hamiltonian(N, prm, num)[i][j] == Zero
  {
    RawZeroOutside(N, prm, num, i, j);
    Matrix.HermitiseZeroEntry(Raw(N, prm, num), i, j);
  }

  lemma RawZeroOutside(N: nat, prm: BandParams, num: Numerics, i: nat, j: nat)
    requires DecayDefined(N, prm, num) && prm.nFlux != 0.0 && N > 3 * prm.dMax
    requires i < N && j < N && (i == j || Geo.Dist(i, j) > prm.dMax)
    ensures Raw(N, prm, num)[i][j] == Zero && Raw(N, prm, num)[j][i] == Zero
  {
    RawBanded(N, prm, num, i, j);
    RawBanded(N, prm, num, j, i);
    assert Geo.Dist(j, i) == Geo.Dist(i, j);
  }
}
