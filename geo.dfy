/**
 * The geometry-first toy Hamiltonians of `hp_geo_phase.py` and
 * `hp_geo_amp_validate.py`: the prime sieve behind the prime phase
 * kernels, the Pascal hopping amplitudes, the edge taper and the
 * position-dependent amplitude laws, the open banded builder both
 * scripts share, the phase kernels, the fit metrics and the two loops
 * that keep the best configuration.
 *
 * `sqrt`, `exp`, `log`, `π` and `e^{iφ}` are parameters; the
 * eigen-solver and `np.polyfit` are parameters that stand for the
 * whole evaluation of a configuration.
 */
module Geo {
  import opened Wrappers
  import opened Complex
  import Matrix
  import Fit
  import Ranking
  import Spectrum
  import Sweeps

  // ---------------------------------------------------------------
  // primes_up_to: the sieve of Eratosthenes
  // ---------------------------------------------------------------

  function Product(d: nat, k: nat): nat
  {
    d * k
  }

  /** `x` is a product of two factors that are both at least 2. */
  ghost predicate Composite(x: nat)
  {
    exists d: nat, k: nat | 2 <= d && 2 <= k :: Product(d, k) == x
  }

  ghost predicate Prime(x: nat)
  {
    x >= 2 && !Composite(x)
  }

  /** `x` has a factor pair whose smaller factor is below `p`. */
  ghost predicate CrossedBelow(x: nat, p: nat)
  {
    exists d: nat, k: nat | 2 <= d < p && d <= k :: Product(d, k) == x
  }

  /** `x` is one of `p·p, p·(p+1), …, p·(k-1)`. */
  ghost predicate CrossedBy(x: nat, p: nat, k: nat)
  {
    exists e: nat | p <= e < k :: Product(p, e) == x
  }

  /** `x` is one of `p·p, p·(p+1), …`. */
  ghost predicate MultipleFrom(x: nat, p: nat)
  {
    exists e: nat | p <= e :: Product(p, e) == x
  }

  lemma MulMono(p: nat, a: nat, b: nat)
    requires a <= b
    ensures Product(p, a) <= Product(p, b)
  {
  }

  lemma MulAssoc(f: nat, g: nat, e: nat)
    ensures Product(f, Product(g, e)) == Product(Product(f, g), e)
  {
  }

  /** `int(n**0.5)` for the sizes the script uses: the integer square root. */
  function IntSqrt(n: nat): (r: nat)
    ensures r * r <= n < (r + 1) * (r + 1)
  {
    IntSqrtFrom(n, 0)
  }

  function IntSqrtFrom(n: nat, r: nat): (s: nat)
    requires r * r <= n
    ensures s * s <= n < (s + 1) * (s + 1)
    decreases n - r
  {
    if (r + 1) * (r + 1) > n then r
    else
      MulMono(r + 1, 1, r + 1);
      IntSqrtFrom(n, r + 1)
  }

  /** Crossing out the multiples of `p` from `p·p` on moves the bound past `p`. */
  lemma CrossStep(x: nat, p: nat)
    requires 2 <= p
    ensures CrossedBelow(x, p + 1) <==> CrossedBelow(x, p) || MultipleFrom(x, p)
  {
    if CrossedBelow(x, p + 1) {
      var d: nat, e: nat :| 2 <= d < p + 1 && d <= e && Product(d, e) == x;
      if d == p {
        assert MultipleFrom(x, p);
      }
    }
    if MultipleFrom(x, p) {
      var e: nat :| p <= e && Product(p, e) == x;
      assert 2 <= p < p + 1 && p <= e;
    }
  }

  /** A composite `p` adds nothing: its multiples were crossed out by its factor. */
  lemma CompositeStep(x: nat, p: nat)
    requires p >= 2 && CrossedBelow(p, p)
    ensures CrossedBelow(x, p + 1) <==> CrossedBelow(x, p)
  {
    if CrossedBelow(x, p + 1) {
      var d: nat, e: nat :| 2 <= d < p + 1 && d <= e && Product(d, e) == x;
      if d == p {
        var f: nat, g: nat :| 2 <= f < p && f <= g && Product(f, g) == p;
        var ge := Product(g, e);
        MulAssoc(f, g, e);
        MulMono(g, 1, e);
        assert f <= ge;
        assert 2 <= f < p && f <= ge && Product(f, ge) == x;
      }
    }
  }

  /** Below `(r+1)²`, being crossed out by a factor up to `r` is being composite. */
  lemma CrossedIsComposite(x: nat, r: nat, n: nat)
    requires x <= n < (r + 1) * (r + 1)
    ensures CrossedBelow(x, r + 1) <==> Composite(x)
  {
    if Composite(x) {
      var d: nat, k: nat :| 2 <= d && 2 <= k && Product(d, k) == x;
      var lo, hi := Min(d, k), Max(d, k);
      assert Product(lo, hi) == x;
      if lo >= r + 1 {
        MulMono(lo, r + 1, hi);
        MulMono(r + 1, r + 1, lo);
      }
      assert 2 <= lo < r + 1 && lo <= hi;
    }
  }

  /** `sieve[p*p::p] = False`. */
  method CrossMultiples(sieve: array<bool>, p: nat)
    requires p >= 2
    modifies sieve
    ensures forall x | 0 <= x < sieve.Length :: sieve[x] == (old(sieve[x]) && !MultipleFrom(x, p))
  {
    var e := p;
    var m := p * p;
    while m < sieve.Length
      invariant e >= p && m == Product(p, e)
      invariant forall x | 0 <= x < sieve.Length :: sieve[x] == (old(sieve[x]) && !CrossedBy(x, p, e))
    {
      sieve[m] := false;
      forall x | 0 <= x < sieve.Length
        ensures CrossedBy(x, p, e + 1) <==> CrossedBy(x, p, e) || x == m
      {
        if CrossedBy(x, p, e + 1) && x != m {
          var f: nat :| p <= f < e + 1 && Product(p, f) == x;
          assert f < e;
        }
      }
      e, m := e + 1, m + p;
    }
    forall x | 0 <= x < sieve.Length
      ensures MultipleFrom(x, p) <==> CrossedBy(x, p, e)
    {
      if MultipleFrom(x, p) {
        var f: nat :| p <= f && Product(p, f) == x;
        if f >= e {
          MulMono(p, e, f);
        }
      }
    }
  }

  /** `np.nonzero(sieve)[0].tolist()`: the marked indices, ascending. */
  method MarkedIndices(sieve: array<bool>) returns (ps: seq<nat>)
    ensures forall i, j | 0 <= i < j < |ps| :: ps[i] < ps[j]
    ensures forall y: nat :: y in ps <==> y < sieve.Length && sieve[y]
  {
    ps := [];
    var x := 0;
    while x < sieve.Length
      invariant x <= sieve.Length
      invariant forall i, j | 0 <= i < j < |ps| :: ps[i] < ps[j]
      invariant forall i | 0 <= i < |ps| :: ps[i] < x
      invariant forall y: nat :: y in ps <==> y < x && sieve[y]
    {
      if sieve[x] {
        ps := ps + [x];
      }
      x := x + 1;
    }
  }

  /**
   * `primes_up_to(n)`: exactly the primes in `[2, n]`, ascending. Every
   * `p` up to `int(n**0.5)` that is still marked crosses out
   * `p·p, p·p + p, …`.
   */
  method PrimesUpTo(n: nat) returns (ps: seq<nat>)
    ensures forall i, j | 0 <= i < j < |ps| :: ps[i] < ps[j]
    ensures forall x: nat :: x in ps <==> x <= n && Prime(x)
  {
    var sieve := new bool[n + 1](_ => true);
    sieve[0] := false;
    if n >= 1 {
      sieve[1] := false;
    }
    var r := IntSqrt(n);
    var p := 2;
    while p <= r
      invariant 2 <= p && (p <= r + 1 || p == 2)
      invariant forall x | 0 <= x <= n :: sieve[x] <==> x >= 2 && !CrossedBelow(x, p)
    {
      MulMono(p, 1, p);
      MulMono(r, p, r);
      if sieve[p] {
        CrossMultiples(sieve, p);
        forall x | 0 <= x <= n
          ensures CrossedBelow(x, p + 1) <==> CrossedBelow(x, p) || MultipleFrom(x, p)
        {
          CrossStep(x, p);
        }
      } else {
        forall x | 0 <= x <= n
          ensures CrossedBelow(x, p + 1) <==> CrossedBelow(x, p)
        {
          CompositeStep(x, p);
        }
      }
      p := p + 1;
    }
    forall x | 0 <= x <= n
      ensures sieve[x] <==> Prime(x)
    {
      CrossedIsComposite(x, r, n);
      if p == 2 {
        assert !CrossedBelow(x, 2);
      }
    }
    ps := MarkedIndices(sieve);
  }

  // ---------------------------------------------------------------
  // Pascal hopping amplitudes
  // ---------------------------------------------------------------

  /** `comb(n, k)` by Pascal's rule. */
  function Binomial(n: nat, k: nat): (r: nat)
    ensures k <= n ==> r >= 1
    ensures k > n ==> r == 0
  {
    if k == 0 then 1
    else if n == 0 then 0
    else Binomial(n - 1, k - 1) + Binomial(n - 1, k)
  }

  /** `2.0**d`. */
  function Pow2(d: nat): (r: real)
    ensures r >= 1.0
  {
    if d == 0 then 1.0 else 2.0 * Pow2(d - 1)
  }

  /** `sqrt` is positive on positive arguments. */
  ghost predicate SqrtPositive(sqrt: real -> real)
  {
    forall x: real :: x > 0.0 ==> sqrt(x) > 0.0
  }

  /** The central-binomial amplitude `sqrt(comb(d, d//2)) / 2**d`. */
  function CentralAmp(d: nat, sqrt: real -> real): (r: real)
    ensures SqrtPositive(sqrt) ==> r > 0.0
  {
    sqrt(Binomial(d, d / 2) as real) / Pow2(d)
  }

  /**
   * `pascal_amp` of the `hp_geo_*` scripts: the central-binomial
   * amplitude, except that a unit hop is given amplitude 1.
   */
  function PascalAmpGeo(d: nat, sqrt: real -> real): (r: real)
    ensures SqrtPositive(sqrt) ==> r > 0.0
  {
    if d == 1 then 1.0 else CentralAmp(d, sqrt)
  }

  /**
   * `pascal_amp` of the `test_*` and `extended_analysis` scripts: the
   * central-binomial amplitude inside `0 <= d <= 2·d_max` and 0 outside.
   */
  function PascalAmpBanded(d: int, dMax: nat, sqrt: real -> real): (r: real)
    ensures d < 0 || d > 2 * dMax ==> r == 0.0
  {
    if d < 0 || d > 2 * dMax then 0.0 else CentralAmp(d, sqrt)
  }

  /** With a positive `sqrt`, the banded amplitude is nonzero exactly inside the cutoff. */
  lemma PascalAmpBandedSupport(d: int, dMax: nat, sqrt: real -> real)
    requires SqrtPositive(sqrt)
    ensures PascalAmpBanded(d, dMax, sqrt) != 0.0 <==> 0 <= d <= 2 * dMax
  {
  }

  /**
   * The two families disagree on a unit hop: `hp_geo_*` gives it 1.0,
   * the banded scripts `sqrt(comb(1, 0)) / 2 = 0.5`.
   */
  lemma UnitHopAmplitudes(dMax: nat, sqrt: real -> real)
    requires dMax >= 1 && sqrt(1.0) == 1.0
    ensures PascalAmpGeo(1, sqrt) == 1.0
    ensures PascalAmpBanded(1, dMax, sqrt) == 0.5
  {
    assert Binomial(1, 0) == 1;
  }

  // ---------------------------------------------------------------
  // edge_taper_vec and amplitude_modulation
  // ---------------------------------------------------------------

  /** The `sigma` every caller of `edge_taper_vec` uses. */
  const TaperSigma: real := 6.0

  /** `e^{-x²}`. */
  function Gauss(exp: real -> real, x: real): real
  {
    exp(-(x * x))
  }

  function TaperAt(N: nat, eps: real, exp: real -> real, i: nat): real
    requires i < N
  {
    1.0 - eps * (Gauss(exp, i as real / TaperSigma) + Gauss(exp, (N - 1 - i) as real / TaperSigma))
  }

  /**
   * `edge_taper_vec(N, eps)`: `1 - eps·(e^{-(i/σ)²} + e^{-((N-1-i)/σ)²})`.
   * It is mirror-symmetric, and `eps = 0` switches it off.
   */
  function EdgeTaper(N: nat, eps: real, exp: real -> real): (t: seq<real>)
    ensures |t| == N
    ensures forall i | 0 <= i < N :: t[i] == t[N - 1 - i]
    ensures eps == 0.0 ==> forall i | 0 <= i < N :: t[i] == 1.0
  {
    var t := seq(N, i requires 0 <= i < N => TaperAt(N, eps, exp, i));
    forall i | 0 <= i < N
      ensures t[i] == t[N - 1 - i]
    {
      TaperMirror(N, eps, exp, i);
    }
    t
  }

  lemma TaperMirror(N: nat, eps: real, exp: real -> real, i: nat)
    requires i < N
    ensures TaperAt(N, eps, exp, i) == TaperAt(N, eps, exp, N - 1 - i)
  {
    var j := N - 1 - i;
    assert (N - 1 - j) as real / TaperSigma == i as real / TaperSigma;
  }

  /** The denominator `1 + alpha·avg/N` of `amplitude_modulation`. */
  function ModulationDenominator(i: nat, j: nat, N: nat, alpha: real): real
    requires N > 0
  {
    1.0 + alpha * (0.5 * (i + j) as real) / N as real
  }

  /** `amplitude_modulation` never divides by zero on an `N×N` lattice. */
  predicate ModulationDefined(N: nat, alpha: real)
  {
    alpha == 0.0 ||
    (N > 0 && forall i: nat, j: nat | i < N && j < N :: ModulationDenominator(i, j, N, alpha) != 0.0)
  }

  /**
   * `amplitude_modulation(i, j, N, alpha)`: 1 when `alpha = 0`, else
   * `1 / (1 + alpha·avg/N)`. It depends on `i + j` only.
   */
  function AmplitudeModulation(i: nat, j: nat, N: nat, alpha: real): (r: real)
    requires i < N && j < N && ModulationDefined(N, alpha)
    ensures alpha == 0.0 ==> r == 1.0
    ensures alpha != 0.0 ==> r * ModulationDenominator(i, j, N, alpha) == 1.0
  {
    if alpha == 0.0 then 1.0 else 1.0 / ModulationDenominator(i, j, N, alpha)
  }

  /** A non-negative `amp_alpha` keeps every denominator at least 1. */
  lemma ModulationNonNegative(N: nat, alpha: real)
    requires N > 0 && alpha >= 0.0
    ensures ModulationDefined(N, alpha)
  {
    forall i: nat, j: nat | i < N && j < N
      ensures ModulationDenominator(i, j, N, alpha) >= 1.0
    {
      var q := (0.5 * (i + j) as real) / N as real;
      assert q >= 0.0;
      assert alpha * (0.5 * (i + j) as real) / N as real == alpha * q;
    }
  }

  // ---------------------------------------------------------------
  // Phase kernels
  // ---------------------------------------------------------------

  /** The mean position `0.5·(i + j)` of a hop. */
  function Avg(i: nat, j: nat): real
  {
    0.5 * (i + j) as real
  }

  /** `phase_circle`: `(2π/n)·d`, the same for every hop of length `d`. */
  function PhaseCircle(d: nat, nQuant: real, pi: real): real
    requires nQuant != 0.0
  {
    (2.0 * pi / nQuant) * d as real
  }

  /** `phase_prime_sum`: `π·d·(i mod P + j mod P) / (2P)`. */
  function PhasePrimeSum(i: nat, j: nat, d: nat, npr: nat, pi: real): real
    requires npr > 0
  {
    pi * d as real * ((i % npr) + (j % npr)) as real / (2.0 * npr as real)
  }

  /** `phase_prime_single`: `π·d·(i mod P) / P`. */
  function PhasePrimeSingle(i: nat, j: nat, d: nat, npr: nat, pi: real): real
    requires npr > 0
  {
    pi * d as real * (i % npr) as real / npr as real
  }

  /** `phase_log`: `β·d·log(1 + avg) / log N`. */
  function PhaseLog(i: nat, j: nat, d: nat, N: nat, beta: real, log: real -> real): real
    requires log(N as real) != 0.0
  {
    beta * d as real * log(1.0 + Avg(i, j)) / log(N as real)
  }

  /** `phase_log_inverted`: `-β·d·log(1 + avg) / log N`. */
  function PhaseLogInverted(i: nat, j: nat, d: nat, N: nat, beta: real, log: real -> real): real
    requires log(N as real) != 0.0
  {
    -beta * d as real * log(1.0 + Avg(i, j)) / log(N as real)
  }

  /** `phase_reciprocal`: `β·d / log(2 + avg)`. */
  function PhaseReciprocal(i: nat, j: nat, d: nat, beta: real, log: real -> real): real
    requires log(2.0 + Avg(i, j)) != 0.0
  {
    beta * d as real / log(2.0 + Avg(i, j))
  }

  /** The log curvature `β·log(1 + avg) / log N` of the hybrid kernels. */
  function LogCurvature(i: nat, j: nat, N: nat, beta: real, log: real -> real): real
    requires log(N as real) != 0.0
  {
    beta * log(1.0 + Avg(i, j)) / log(N as real)
  }

  /** `phase_hybrid`: `(2π/n)·d·(1 + curvature)`. */
  function PhaseHybrid(i: nat, j: nat, d: nat, N: nat, nQuant: real, beta: real, pi: real, log: real -> real): real
    requires nQuant != 0.0 && log(N as real) != 0.0
  {
    (2.0 * pi / nQuant) * d as real * (1.0 + LogCurvature(i, j, N, beta, log))
  }

  /** `phase_hybrid_inverted`: `(2π/n)·d·(1 - curvature)`. */
  function PhaseHybridInverted(i: nat, j: nat, d: nat, N: nat, nQuant: real, beta: real, pi: real, log: real -> real): real
    requires nQuant != 0.0 && log(N as real) != 0.0
  {
    (2.0 * pi / nQuant) * d as real * (1.0 - LogCurvature(i, j, N, beta, log))
  }

  /** `phase_hybrid_blend`: `(2π/n)·d·(1 - curvature + γ/(1 + avg))`. */
  function PhaseHybridBlend(i: nat, j: nat, d: nat, N: nat, nQuant: real, beta: real, gamma: real,
                            pi: real, log: real -> real): real
    requires nQuant != 0.0 && log(N as real) != 0.0
  {
    (2.0 * pi / nQuant) * d as real * (1.0 - LogCurvature(i, j, N, beta, log) + gamma / (1.0 + Avg(i, j)))
  }

  /**
   * Every kernel except `phase_prime_single` gives the hop `(i, j)` and
   * its reverse `(j, i)` the same phase.
   */
  lemma KernelsSymmetric(i: nat, j: nat, d: nat, N: nat, npr: nat, nQuant: real, beta: real, gamma: real,
                         pi: real, log: real -> real)
    requires npr > 0 && nQuant != 0.0 && log(N as real) != 0.0 && log(2.0 + Avg(i, j)) != 0.0
    ensures PhasePrimeSum(i, j, d, npr, pi) == PhasePrimeSum(j, i, d, npr, pi)
    ensures PhaseLog(i, j, d, N, beta, log) == PhaseLog(j, i, d, N, beta, log)
    ensures PhaseLogInverted(i, j, d, N, beta, log) == PhaseLogInverted(j, i, d, N, beta, log)
    ensures PhaseReciprocal(i, j, d, beta, log) == PhaseReciprocal(j, i, d, beta, log)
    ensures PhaseHybrid(i, j, d, N, nQuant, beta, pi, log) == PhaseHybrid(j, i, d, N, nQuant, beta, pi, log)
    ensures PhaseHybridInverted(i, j, d, N, nQuant, beta, pi, log) ==
            PhaseHybridInverted(j, i, d, N, nQuant, beta, pi, log)
    ensures PhaseHybridBlend(i, j, d, N, nQuant, beta, gamma, pi, log) ==
            PhaseHybridBlend(j, i, d, N, nQuant, beta, gamma, pi, log)
  {
    assert Avg(i, j) == Avg(j, i);
  }

  /** `phase_prime_single` is not symmetric: hop `(0, 1)` has phase 0, hop `(1, 0)` does not. */
  lemma PrimeSingleAsymmetric(npr: nat, pi: real)
    requires npr >= 2 && pi != 0.0
    ensures PhasePrimeSingle(0, 1, 1, npr, pi) != PhasePrimeSingle(1, 0, 1, npr, pi)
  {
    assert 0 % npr == 0 && 1 % npr == 1;
    var q := PhasePrimeSingle(1, 0, 1, npr, pi);
    assert q * npr as real == pi;
  }

  // ---------------------------------------------------------------
  // The open banded builder
  // ---------------------------------------------------------------

  /** `abs(j - i)`. */
  function Dist(i: nat, j: nat): nat
  {
    if i <= j then j - i else i - j
  }

  /** The hopping matrix: `hop(i, j)` where `1 <= |i-j| <= dMax`, zero elsewhere. */
  function Banded(N: nat, dMax: nat, hop: (nat, nat) --> C): (H: Matrix.Mat)
    requires forall i: nat, j: nat | i < N && j < N && i != j :: hop.requires(i, j)
    ensures Matrix.IsSquare(H, N)
  {
    seq(N, i requires 0 <= i < N =>
      seq(N, j requires 0 <= j < N => if 1 <= Dist(i, j) <= dMax then hop(i, j) else Zero))
  }

  /**
   * The loop shared by `hp_geo_phase.build_operator` and
   * `hp_geo_amp_validate.build_H`: start from zeros, visit
   * `j in [max(0, i-dMax), min(N, i+dMax+1))` for every row `i`, skip
   * the diagonal, and write the hop. The band never wraps around: every
   * entry with `|i - j| > dMax`, and the diagonal, stays zero.
   */
  method BuildBanded(N: nat, dMax: nat, hop: (nat, nat) --> C) returns (H: array2<C>)
    requires forall i: nat, j: nat | i < N && j < N && i != j :: hop.requires(i, j)
    ensures fresh(H) && H.Length0 == N && H.Length1 == N
    ensures forall i, j | 0 <= i < N && 0 <= j < N ::
              H[i, j] == (if 1 <= Dist(i, j) <= dMax then hop(i, j) else Zero)
    ensures forall i, j | 0 <= i < N && 0 <= j < N :: H[i, j] == Banded(N, dMax, hop)[i][j]
  {
    H := new C[N, N]((_, _) => Zero);
    for i := 0 to N
      invariant forall r, c | 0 <= r < N && 0 <= c < N ::
                  H[r, c] == (if r < i && 1 <= Dist(r, c) <= dMax then hop(r, c) else Zero)
    {
      var jMin := if i >= dMax then i - dMax else 0;
      var jMax := Min(N, i + dMax + 1);
      for j := jMin to jMax
        invariant forall r, c | 0 <= r < N && 0 <= c < N ::
                    H[r, c] == (if (r < i || (r == i && c < j)) && 1 <= Dist(r, c) <= dMax then hop(r, c) else Zero)
      {
        if i == j {
          continue;
        }
        var d := Dist(i, j);
        if d == 0 || d > dMax {
          continue;
        }
        H[i, j] := hop(i, j);
      }
    }
  }

  /** When every reverse hop is the conjugate hop, the banded matrix is Hermitian. */
  lemma BandedHermitian(N: nat, dMax: nat, hop: (nat, nat) --> C)
    requires forall i: nat, j: nat | i < N && j < N && i != j :: hop.requires(i, j)
    requires forall i: nat, j: nat | i < N && j < N && i != j :: hop(j, i) == Conj(hop(i, j))
    ensures Matrix.Hermitian(Banded(N, dMax, hop))
  {
    var H := Banded(N, dMax, hop);
    forall i, j | 0 <= i < N && 0 <= j < N
      ensures H[i][j] == Conj(H[j][i])
    {
      if 1 <= Dist(i, j) <= dMax {
        assert Dist(j, i) == Dist(i, j);
        ConjInvolutive(hop(j, i));
      }
    }
  }

  /** `e^{-iφ}` is the conjugate of `e^{iφ}`. */
  ghost predicate ConjugateCis(cis: real -> C)
  {
    forall x: real :: cis(-x) == Conj(cis(x))
  }

  /** The phase of a hop and of its reverse agree on an `N`-site lattice. */
  ghost predicate SymmetricPhase(phase: (nat, nat, nat) -> real, N: nat)
  {
    forall i: nat, j: nat, d: nat | i < N && j < N :: phase(i, j, d) == phase(j, i, d)
  }

  lemma ConjScale(r: real, z: C)
    ensures Conj(Scale(r, z)) == Scale(r, Conj(z))
  {
  }

  /** `-amp·e^{±iφ}` with the sign of `φ` following the direction of the hop. */
  function DirectedHop(amp: real, phi: real, forward: bool, cis: real -> C): C
  {
    Scale(-amp, if forward then cis(phi) else cis(-phi))
  }

  /** Reversing the hop conjugates it. */
  lemma DirectedHopReverse(amp: real, phi: real, cis: real -> C)
    requires ConjugateCis(cis)
    ensures DirectedHop(amp, phi, false, cis) == Conj(DirectedHop(amp, phi, true, cis))
  {
    ConjScale(-amp, cis(phi));
  }

  // ---------------------------------------------------------------
  // hp_geo_phase.build_operator
  // ---------------------------------------------------------------

  /** The hop amplitude: `pascal_amp(d)`, times the modulation when `amp_alpha != 0`. */
  function HopAmp(i: nat, j: nat, N: nat, alpha: real, sqrt: real -> real): real
    requires i < N && j < N && ModulationDefined(N, alpha)
  {
    if alpha != 0.0 then PascalAmpGeo(Dist(i, j), sqrt) * AmplitudeModulation(i, j, N, alpha)
    else PascalAmpGeo(Dist(i, j), sqrt)
  }

  lemma HopAmpSymmetric(i: nat, j: nat, N: nat, alpha: real, sqrt: real -> real)
    requires i < N && j < N && ModulationDefined(N, alpha)
    ensures HopAmp(j, i, N, alpha, sqrt) == HopAmp(i, j, N, alpha, sqrt)
  {
    assert Dist(j, i) == Dist(i, j);
    if alpha != 0.0 {
      var a := PascalAmpGeo(Dist(i, j), sqrt);
      ModulationSymmetric(i, j, N, alpha);
      var f := AmplitudeModulation(i, j, N, alpha);
      assert HopAmp(i, j, N, alpha, sqrt) == a * f;
      assert HopAmp(j, i, N, alpha, sqrt) == a * f;
    }
  }

  /** The modulation depends on the hop only through `i + j`. */
  lemma ModulationSymmetric(i: nat, j: nat, N: nat, alpha: real)
    requires i < N && j < N && ModulationDefined(N, alpha)
    ensures AmplitudeModulation(j, i, N, alpha) == AmplitudeModulation(i, j, N, alpha)
  {
    assert ModulationDenominator(j, i, N, alpha) == ModulationDenominator(i, j, N, alpha);
  }

  /**
   * `H[i, j]` of `hp_geo_phase.build_operator`: the hop amplitude, the
   * directed phase `e^{±iφ}`, and the taper factor `sqrt(taper[i]·taper[j])`.
   */
  function GeoHop(i: nat, j: nat, N: nat, phase: (nat, nat, nat) -> real, cis: real -> C,
                  taper: seq<real>, alpha: real, sqrt: real -> real): C
    requires i < N && j < N && |taper| == N && ModulationDefined(N, alpha)
  {
    Scale(sqrt(taper[i] * taper[j]), DirectedHop(HopAmp(i, j, N, alpha, sqrt), phase(i, j, Dist(i, j)), j > i, cis))
  }

  function GeoHops(N: nat, phase: (nat, nat, nat) -> real, cis: real -> C, taper: seq<real>,
                   alpha: real, sqrt: real -> real): (hop: (nat, nat) --> C)
    ensures |taper| == N && ModulationDefined(N, alpha) ==>
              forall i: nat, j: nat | i < N && j < N ::
                hop.requires(i, j) && hop(i, j) == GeoHop(i, j, N, phase, cis, taper, alpha, sqrt)
  {
    (i: nat, j: nat) requires i < N && j < N && |taper| == N && ModulationDefined(N, alpha) =>
      GeoHop(i, j, N, phase, cis, taper, alpha, sqrt)
  }

  /** The reverse of a geo hop is its conjugate when the phase kernel is symmetric. */
  lemma GeoHopConjugate(i: nat, j: nat, N: nat, phase: (nat, nat, nat) -> real, cis: real -> C,
                        taper: seq<real>, alpha: real, sqrt: real -> real)
    requires i < N && j < N && i != j && |taper| == N && ModulationDefined(N, alpha)
    requires ConjugateCis(cis) && SymmetricPhase(phase, N)
    ensures GeoHop(j, i, N, phase, cis, taper, alpha, sqrt) == Conj(GeoHop(i, j, N, phase, cis, taper, alpha, sqrt))
  {
    HopAmpSymmetric(i, j, N, alpha, sqrt);
    assert Dist(j, i) == Dist(i, j);
    assert taper[j] * taper[i] == taper[i] * taper[j];
    var amp := HopAmp(i, j, N, alpha, sqrt);
    var phi := phase(i, j, Dist(i, j));
    assert phase(j, i, Dist(j, i)) == phi;
    DirectedHopReverse(amp, phi, cis);
    ConjInvolutive(DirectedHop(amp, phi, true, cis));
    ConjScale(sqrt(taper[i] * taper[j]), DirectedHop(amp, phi, j > i, cis));
  }

  /**
   * `build_operator(N, max_distance, phase_fn, taper_eps, amp_alpha)`:
   * the banded loop with the geo hop and the taper of `edge_taper_vec`.
   */
  method BuildGeoOperator(N: nat, maxDistance: nat, phase: (nat, nat, nat) -> real, cis: real -> C,
                          taperEps: real, ampAlpha: real, sqrt: real -> real, exp: real -> real)
    returns (H: array2<C>)
    requires ModulationDefined(N, ampAlpha)
    ensures fresh(H) && H.Length0 == N && H.Length1 == N
    ensures forall i, j | 0 <= i < N && 0 <= j < N ::
              H[i, j] == Banded(N, maxDistance, GeoHops(N, phase, cis, EdgeTaper(N, taperEps, exp), ampAlpha, sqrt))[i][j]
  {
    var taper := EdgeTaper(N, taperEps, exp);
    H := BuildBanded(N, maxDistance, GeoHops(N, phase, cis, taper, ampAlpha, sqrt));
  }

  /**
   * The geo operator is Hermitian whenever the phase kernel is
   * symmetric in `(i, j)`: with `phase_circle`, `phase_prime_sum` and
   * the log kernels, not with `phase_prime_single`.
   */
  lemma GeoOperatorHermitian(N: nat, maxDistance: nat, phase: (nat, nat, nat) -> real, cis: real -> C,
                             taperEps: real, ampAlpha: real, sqrt: real -> real, exp: real -> real)
    requires ModulationDefined(N, ampAlpha) && ConjugateCis(cis) && SymmetricPhase(phase, N)
    ensures Matrix.Hermitian(Banded(N, maxDistance, GeoHops(N, phase, cis, EdgeTaper(N, taperEps, exp), ampAlpha, sqrt)))
  {
    var taper := EdgeTaper(N, taperEps, exp);
    var hop := GeoHops(N, phase, cis, taper, ampAlpha, sqrt);
    forall i: nat, j: nat | i < N && j < N && i != j
      ensures hop(j, i) == Conj(hop(i, j))
    {
      GeoHopConjugate(i, j, N, phase, cis, taper, ampAlpha, sqrt);
    }
    BandedHermitian(N, maxDistance, hop);
  }

  /** `phase_circle` with `n_quant = nQuant`, as a kernel. */
  function CircleKernel(nQuant: real, pi: real): (k: (nat, nat, nat) -> real)
    requires nQuant != 0.0
    ensures forall i: nat, j: nat, d: nat :: k(i, j, d) == PhaseCircle(d, nQuant, pi)
  {
    (i: nat, j: nat, d: nat) => PhaseCircle(d, nQuant, pi)
  }

  /** `phase_prime_sum` over the first `npr` primes, as a kernel. */
  function PrimeSumKernel(npr: nat, pi: real): (k: (nat, nat, nat) -> real)
    requires npr > 0
    ensures forall i: nat, j: nat, d: nat :: k(i, j, d) == PhasePrimeSum(i, j, d, npr, pi)
  {
    (i: nat, j: nat, d: nat) => PhasePrimeSum(i, j, d, npr, pi)
  }

  /** Both kernels `run_all` uses are symmetric, so every configuration it builds is Hermitian. */
  lemma RunAllKernelsSymmetric(N: nat, nQuant: real, npr: nat, pi: real)
    requires nQuant != 0.0 && npr > 0
    ensures SymmetricPhase(CircleKernel(nQuant, pi), N)
    ensures SymmetricPhase(PrimeSumKernel(npr, pi), N)
  {
    forall i: nat, j: nat, d: nat | i < N && j < N
      ensures PhasePrimeSum(i, j, d, npr, pi) == PhasePrimeSum(j, i, d, npr, pi)
    {
      assert (i % npr) + (j % npr) == (j % npr) + (i % npr);
    }
  }
}
