/**
 * The drivers of the geometry-only scans: `stats` and `run_all` of
 * `hp_geo_phase.py`, and `build_H`, `metrics`, `run_once` and `main` of
 * `hp_geo_amp_validate.py`. Eigenvalues come from a solver passed in as
 * a function; `sqrt` and the leading coefficient of the quadratic
 * residual fit (`np.polyfit(idx, res, 2)[0]`) are parameters too.
 */
module GeoSelect {
  import opened Wrappers
  import opened Complex
  import Matrix
  import Fit
  import Ranking
  import Spectrum
  import Sweeps
  import Geo

  // ---------------------------------------------------------------
  // The zero tables
  // ---------------------------------------------------------------

  /** `RIEMANN` of `hp_geo_phase.py`: the first 30 ordinates. */
  const Riemann: seq<real> := [
    14.134725141734693, 21.022039638771555, 25.010857580145689, 30.424876125859513,
    32.935061587739190, 37.586178158825671, 40.918719012147495, 43.327073280914999,
    48.005150881167160, 49.773832477672302, 52.970321477714461, 56.446247697063395,
    59.347044002602353, 60.831778524609810, 65.112544048081607, 67.079810529494174,
    69.546401711173979, 72.067157674481908, 75.704690699083933, 77.144840068874805,
    79.337375020249368, 82.910380854086030, 84.735492980517050, 87.425274613125229,
    88.809111207634465, 92.491899270558484, 94.651344040519887, 95.870634228245310,
    98.831194218193692, 101.317851005731391]

  /** `RZ` of `hp_geo_amp_validate.py`: announced as the first 60, it holds 58. */
  const RZ: seq<real> := Riemann + [
    103.72553804047834, 105.44662305232609, 107.16861118427641, 111.02953554316967,
    111.87465917699264, 114.32022091545271, 116.22668032085755, 118.79078286597622,
    121.37012500242065, 122.94682929355259, 124.25681855434577, 127.5166838795965,
    129.57870419995606, 131.08768853093266, 133.4977372029976, 134.75650975337387,
    138.11604205453344, 139.7362089521214, 141.12370740402112, 143.11184580762063,
    146.00098248676552, 147.4227653425596, 150.05352042078488, 150.92525761224147,
    153.0246938111989, 156.11290929423787, 157.59759181759406, 158.8499881714205]

  predicate AllPositive(s: seq<real>)
  {
    forall i | 0 <= i < |s| :: s[i] > 0.0
  }

  predicate NoZero(s: seq<real>)
  {
    forall i | 0 <= i < |s| :: s[i] != 0.0
  }

  /** Both tables are positive and strictly ascending; `RZ` extends `RIEMANN`. */
  lemma ZeroTables()
    ensures |Riemann| == 30 && |RZ| == 58 && RZ[..30] == Riemann
    ensures AllPositive(RZ) && AllPositive(Riemann)
  {
  }

  // ---------------------------------------------------------------
  // metrics / stats
  // ---------------------------------------------------------------

  /** `sum(|res[i]| / zeros[i])` over the first `k` entries. */
  function RatioSum(res: seq<real>, zeros: seq<real>, k: nat): real
    requires |res| == |zeros| && k <= |res| && NoZero(zeros)
  {
    if k == 0 then 0.0 else RatioSum(res, zeros, k - 1) + Abs(res[k - 1]) / zeros[k - 1]
  }

  lemma {:induction false} RatioTerm(x: real, z: real)
    requires z > 0.0
    ensures Abs(x) / z >= 0.0 && (Abs(x) / z == 0.0 <==> x == 0.0)
  {
    assert Abs(x) / z * z == Abs(x);
  }

  /** Against positive targets the ratio sum is non-negative and vanishes only on zero residuals. */
  lemma {:induction false} RatioSumZero(res: seq<real>, zeros: seq<real>, k: nat)
    requires |res| == |zeros| && k <= |res| && AllPositive(zeros)
    ensures RatioSum(res, zeros, k) >= 0.0
    ensures RatioSum(res, zeros, k) == 0.0 <==> forall i | 0 <= i < k :: res[i] == 0.0
  {
    if k > 0 {
      RatioSumZero(res, zeros, k - 1);
      RatioTerm(res[k - 1], zeros[k - 1]);
    }
  }

  /**
   * `mean(|res| / zeros)·100`. A zero target makes numpy's division
   * infinite or NaN, and the mean of nothing is NaN: both are `None`.
   */
  function Mape(res: seq<real>, zeros: seq<real>): (r: Option<real>)
    requires |res| == |zeros|
    ensures r.None? <==> |zeros| == 0 || !NoZero(zeros)
    ensures r.Some? && AllPositive(zeros) ==>
              r.value >= 0.0 && (r.value == 0.0 <==> forall i | 0 <= i < |res| :: res[i] == 0.0)
  {
    if |zeros| == 0 || !NoZero(zeros) then None
    else
      var s := RatioSum(res, zeros, |res|);
      assert AllPositive(zeros) ==> s >= 0.0 && (s == 0.0 <==> forall i | 0 <= i < |res| :: res[i] == 0.0) by {
        if AllPositive(zeros) {
          RatioSumZero(res, zeros, |res|);
        }
      }
      Some(s / |res| as real * 100.0)
  }

  /** What `stats` / `metrics` return, without the spacing correlation and KS distance. */
  datatype Metrics = Metrics(a: real, b: real, aligned: seq<real>, res: seq<real>,
                             rmse: real, mape: real, quadA: real)

  /**
   * `m` is the affine alignment of `ev` onto `zeros`: the least-squares
   * line, its residuals `aligned - zeros`, `rmse`, the curvature
   * `quad[0]` and, against positive targets, a `mape` that vanishes
   * exactly on a perfect alignment.
   */
  predicate Describes(m: Metrics, ev: seq<real>, zeros: seq<real>, sqrt: real -> real,
                      quadLead: seq<real> -> real)
    requires |ev| == |zeros| > 0
  {
    |m.res| == |zeros| && Fit.AffineImage(m.aligned, ev, m.a, m.b) &&
    (forall i | 0 <= i < |zeros| :: m.res[i] == m.aligned[i] - zeros[i]) &&
    Fit.NormalEquations(ev, zeros, Fit.Line(m.b, m.a)) &&
    m.rmse == sqrt(Fit.MSE(zeros, m.aligned)) &&
    m.quadA == quadLead(m.res) &&
    (AllPositive(zeros) ==> m.mape >= 0.0 && (m.mape == 0.0 <==> m.aligned == zeros))
  }

  /** The residuals vanish exactly when the alignment hits every target. */
  lemma ResidualsZero(aligned: seq<real>, zeros: seq<real>)
    requires |aligned| == |zeros|
    ensures (forall i | 0 <= i < |zeros| :: Fit.Sub(aligned, zeros)[i] == 0.0) <==> aligned == zeros
  {
    if forall i | 0 <= i < |zeros| :: Fit.Sub(aligned, zeros)[i] == 0.0 {
      forall i | 0 <= i < |zeros|
        ensures aligned[i] == zeros[i]
      {
        assert Fit.Sub(aligned, zeros)[i] == aligned[i] - zeros[i];
      }
    }
  }

  /** `affine_fit` followed by the metrics, on eigenvalues already cut to `len(zeros)`. */
  function Align(ev: seq<real>, zeros: seq<real>, sqrt: real -> real, quadLead: seq<real> -> real): (m: Metrics)
    requires |ev| == |zeros| > 0 && NoZero(zeros)
    ensures Describes(m, ev, zeros, sqrt, quadLead)
  {
    var fit := Fit.FitAffine(ev, zeros).value;
    var res := Fit.Sub(fit.pred, zeros);
    var mape := Mape(res, zeros).value;
    assert AllPositive(zeros) ==> mape >= 0.0 && (mape == 0.0 <==> fit.pred == zeros) by {
      ResidualsZero(fit.pred, zeros);
    }
    Metrics(fit.a, fit.b, fit.pred, res, sqrt(fit.mse), mape, quadLead(res))
  }

  /**
   * `stats(evals, zeros)`: the `len(zeros)` lowest eigenvalues aligned
   * onto the zeros. Too few eigenvalues (a shape error in `lstsq`), no
   * zeros and a zero target are `None`.
   */
  function Stats(evals: seq<real>, zeros: seq<real>, sqrt: real -> real,
                 quadLead: seq<real> -> real): (r: Option<Metrics>)
    ensures r.None? <==> |zeros| == 0 || |evals| < |zeros| || !NoZero(zeros)
    ensures r.Some? ==> Describes(r.value, Spectrum.Sort(evals)[..|zeros|], zeros, sqrt, quadLead)
  {
    if |zeros| == 0 || |evals| < |zeros| || !NoZero(zeros) then None
    else Some(Align(Spectrum.Sort(evals)[..|zeros|], zeros, sqrt, quadLead))
  }

  /** `zeros[i] == a0·ev[i] + b0` for every target. */
  predicate AffineIn(zeros: seq<real>, ev: seq<real>, a0: real, b0: real)
    requires |zeros| <= |ev|
  {
    forall i | 0 <= i < |zeros| :: zeros[i] == a0 * ev[i] + b0
  }

  lemma AffinePrefix(zeros: seq<real>, ev: seq<real>, a0: real, b0: real)
    requires |zeros| <= |ev| && AffineIn(zeros, ev, a0, b0)
    ensures AffineIn(zeros, ev[..|zeros|], a0, b0)
  {
  }

  /** On targets that are exactly affine in `ev` the alignment is perfect. */
  lemma AlignExact(ev: seq<real>, zeros: seq<real>, sqrt: real -> real, quadLead: seq<real> -> real,
                   a0: real, b0: real)
    requires |ev| == |zeros| > 0 && AllPositive(zeros) && AffineIn(zeros, ev, a0, b0)
    ensures var m := Align(ev, zeros, sqrt, quadLead);
            m.aligned == zeros && m.mape == 0.0 && m.rmse == sqrt(0.0)
  {
    Fit.FitAffineExact(ev, zeros, a0, b0);
    var m := Align(ev, zeros, sqrt, quadLead);
    assert m.aligned == Fit.FitAffine(ev, zeros).value.pred;
    assert Fit.MSE(zeros, m.aligned) == 0.0;
  }

  /**
   * When the zeros are exactly an affine image of the lowest
   * eigenvalues, `stats` recovers them: zero residuals, `rmse = sqrt(0)`
   * and `mape = 0`.
   */
  lemma StatsExact(evals: seq<real>, zeros: seq<real>, sqrt: real -> real, quadLead: seq<real> -> real,
                   a0: real, b0: real)
    requires 0 < |zeros| <= |evals| && AllPositive(zeros)
    requires AffineIn(zeros, Spectrum.Sort(evals), a0, b0)
    ensures Stats(evals, zeros, sqrt, quadLead).Some?
    ensures var m := Stats(evals, zeros, sqrt, quadLead).value;
            m.aligned == zeros && m.mape == 0.0 && m.rmse == sqrt(0.0) &&
            forall i | 0 <= i < |zeros| :: m.res[i] == 0.0
  {
    var sorted := Spectrum.Sort(evals);
    var ev := sorted[..|zeros|];
    AffinePrefix(zeros, sorted, a0, b0);
    AlignExact(ev, zeros, sqrt, quadLead, a0, b0);
    var m := Align(ev, zeros, sqrt, quadLead);
    StatsAligns(evals, zeros, sqrt, quadLead);
    ExactResidualsVanish(m, ev, zeros, sqrt, quadLead);
  }

  lemma StatsAligns(evals: seq<real>, zeros: seq<real>, sqrt: real -> real, quadLead: seq<real> -> real)
    requires 0 < |zeros| <= |evals| && NoZero(zeros)
    ensures Stats(evals, zeros, sqrt, quadLead) == Some(Align(Spectrum.Sort(evals)[..|zeros|], zeros, sqrt, quadLead))
  {
  }

  lemma ExactResidualsVanish(m: Metrics, ev: seq<real>, zeros: seq<real>, sqrt: real -> real,
                             quadLead: seq<real> -> real)
    requires |ev| == |zeros| > 0 && Describes(m, ev, zeros, sqrt, quadLead) && m.aligned == zeros
    ensures forall i | 0 <= i < |zeros| :: m.res[i] == 0.0
  {
  }

  // ---------------------------------------------------------------
  // hp_geo_phase.run_all
  // ---------------------------------------------------------------

  /** The two kernels `run_all` tries. */
  datatype Kernel = Circle(nQuant: real) | PrimeSum

  datatype GeoConfig = GeoConfig(name: string, kernel: Kernel, ampAlpha: real)

  /** The ten configurations of `run_all`, in order. */
  const RunAllConfigs: seq<GeoConfig> := [
    GeoConfig("circle_n25", Circle(25.0), 0.0),
    GeoConfig("prime_sum", PrimeSum, 0.0),
    GeoConfig("circle_amp0.3", Circle(25.0), 0.3),
    GeoConfig("circle_amp0.5", Circle(25.0), 0.5),
    GeoConfig("circle_amp0.7", Circle(25.0), 0.7),
    GeoConfig("circle_amp1.0", Circle(25.0), 1.0),
    GeoConfig("prime_amp0.3", PrimeSum, 0.3),
    GeoConfig("prime_amp0.5", PrimeSum, 0.5),
    GeoConfig("prime_amp0.7", PrimeSum, 0.7),
    GeoConfig("prime_amp1.0", PrimeSum, 1.0)]

  const RunAllN: nat := 160
  const RunAllDMax: nat := 5
  const RunAllTaperEps: real := 0.0

  predicate ValidConfig(c: GeoConfig)
  {
    c.ampAlpha >= 0.0 && (c.kernel.Circle? ==> c.kernel.nQuant != 0.0)
  }

  lemma RunAllConfigsValid()
    ensures |RunAllConfigs| == 10 && forall k | 0 <= k < |RunAllConfigs| :: ValidConfig(RunAllConfigs[k])
  {
  }

  function KernelPhase(k: Kernel, npr: nat, pi: real): (nat, nat, nat) -> real
    requires npr > 0 && (k.Circle? ==> k.nQuant != 0.0)
  {
    match k
    case Circle(n) => Geo.CircleKernel(n, pi)
    case PrimeSum => Geo.PrimeSumKernel(npr, pi)
  }

  /** The operator `build_operator(160, 5, fn, kw, taper_eps=0, amp_alpha)` of one configuration. */
  function ConfigOperator(c: GeoConfig, npr: nat, pi: real, cis: real -> C, sqrt: real -> real,
                          exp: real -> real): (H: Matrix.Mat)
    requires npr > 0 && ValidConfig(c)
    ensures Matrix.IsSquare(H, RunAllN)
  {
    Geo.ModulationNonNegative(RunAllN, c.ampAlpha);
    Geo.Banded(RunAllN, RunAllDMax,
               Geo.GeoHops(RunAllN, KernelPhase(c.kernel, npr, pi), cis,
                           Geo.EdgeTaper(RunAllN, RunAllTaperEps, exp), c.ampAlpha, sqrt))
  }

  /** Every operator `run_all` diagonalises is Hermitian. */
  lemma ConfigOperatorHermitian(c: GeoConfig, npr: nat, pi: real, cis: real -> C, sqrt: real -> real,
                                exp: real -> real)
    requires npr > 0 && ValidConfig(c) && Geo.ConjugateCis(cis)
    ensures Matrix.Hermitian(ConfigOperator(c, npr, pi, cis, sqrt, exp))
  {
    Geo.ModulationNonNegative(RunAllN, c.ampAlpha);
    var nq := if c.kernel.Circle? then c.kernel.nQuant else 1.0;
    Geo.RunAllKernelsSymmetric(RunAllN, nq, npr, pi);
    Geo.GeoOperatorHermitian(RunAllN, RunAllDMax, KernelPhase(c.kernel, npr, pi), cis,
                             RunAllTaperEps, c.ampAlpha, sqrt, exp);
  }

  /** `np.linalg.eigvalsh` returns one eigenvalue per row. */
  ghost predicate EigvalshCounts(eigvalsh: Matrix.Mat -> seq<real>)
  {
    forall M: Matrix.Mat :: |eigvalsh(M)| == |M|
  }

  /** `stats(eigvalsh(H), RIEMANN[:30])` of one configuration. */
  function ConfigMetrics(c: GeoConfig, eigvalsh: Matrix.Mat -> seq<real>, npr: nat, pi: real,
                         cis: real -> C, sqrt: real -> real, exp: real -> real,
                         quadLead: seq<real> -> real): Metrics
    requires npr > 0 && ValidConfig(c) && EigvalshCounts(eigvalsh)
  {
    ZeroTables();
    Stats(eigvalsh(ConfigOperator(c, npr, pi, cis, sqrt, exp)), Riemann, sqrt, quadLead).value
  }

  /** The key `(mape, |quad[0]|, rmse)` of `run_all`. */
  function RunAllKey(m: Metrics): seq<real>
  {
    [m.mape, Abs(m.quadA), m.rmse]
  }

  /** The keys of the ten configurations, in the order `run_all` visits them. */
  function RunAllKeys(eigvalsh: Matrix.Mat -> seq<real>, npr: nat, pi: real, cis: real -> C,
                      sqrt: real -> real, exp: real -> real, quadLead: seq<real> -> real): (keys: seq<seq<real>>)
    requires npr > 0 && EigvalshCounts(eigvalsh)
    ensures |keys| == |RunAllConfigs|
    ensures forall k | 0 <= k < |keys| :: |keys[k]| == 3
  {
    RunAllConfigsValid();
    seq(|RunAllConfigs|, k requires 0 <= k < |RunAllConfigs| =>
      RunAllKey(ConfigMetrics(RunAllConfigs[k], eigvalsh, npr, pi, cis, sqrt, exp, quadLead)))
  }

  /**
   * `run_all`: evaluate the ten configurations in order and keep the
   * first whose key is strictly smaller than the best so far. The result
   * is the first configuration of lexicographically least key.
   */
  method RunAll(eigvalsh: Matrix.Mat -> seq<real>, npr: nat, pi: real, cis: real -> C,
                sqrt: real -> real, exp: real -> real, quadLead: seq<real> -> real)
    returns (best: nat, info: Metrics)
    requires npr > 0 && EigvalshCounts(eigvalsh)
    ensures best < |RunAllConfigs|
    ensures info == ConfigMetrics(RunAllConfigs[best], eigvalsh, npr, pi, cis, sqrt, exp, quadLead)
    ensures var keys := RunAllKeys(eigvalsh, npr, pi, cis, sqrt, exp, quadLead);
            RunAllKey(info) == keys[best] && Ranking.FirstMinAt(keys, 3, best)
  {
    RunAllConfigsValid();
    var keys := RunAllKeys(eigvalsh, npr, pi, cis, sqrt, exp, quadLead);
    var b := Ranking.FirstMinLex(keys, 3);
    Ranking.FirstMinPick(keys, 3);
    best := b.value;
    info := ConfigMetrics(RunAllConfigs[best], eigvalsh, npr, pi, cis, sqrt, exp, quadLead);
  }

  // ---------------------------------------------------------------
  // hp_geo_amp_validate: amplitude laws and build_H
  // ---------------------------------------------------------------

  /** `amp_mode`: `"power"`, `"log"`, or any other string, which leaves `pascal_amp` unscaled. */
  datatype AmpLaw = Power(alpha: real, p: real) | Log(alpha: real) | Flat

  /** `x ** p` and the natural logarithm never return a negative value where the scan uses them. */
  ghost predicate PowNonNegative(pow: (real, real) -> real)
  {
    forall x: real, p: real :: x >= 0.0 ==> pow(x, p) >= 0.0
  }

  ghost predicate LogPositiveAboveOne(log: real -> real)
  {
    forall x: real :: x > 1.0 ==> log(x) > 0.0
  }

  /** The denominator of `amp_power` (`1 + α·u^p`, `u = avg/N`) or `amp_log` (`1 + α·log(2 + avg)/log N`). */
  function LawDenominator(law: AmpLaw, i: nat, j: nat, N: nat, pow: (real, real) -> real, log: real -> real): real
    requires N > 0 && !law.Flat? && (law.Log? ==> log(N as real) != 0.0)
  {
    if law.Power? then 1.0 + law.alpha * pow(Geo.Avg(i, j) / N as real, law.p)
    else 1.0 + law.alpha * (log(2.0 + Geo.Avg(i, j)) / log(N as real))
  }

  /** Neither amplitude law divides by zero on an `N×N` lattice. */
  predicate LawDefined(law: AmpLaw, N: nat, pow: (real, real) -> real, log: real -> real)
  {
    law.Flat? ||
    (N > 0 && (law.Log? ==> log(N as real) != 0.0) &&
     forall i: nat, j: nat | i < N && j < N :: LawDenominator(law, i, j, N, pow, log) != 0.0)
  }

  /** The factor `build_H` multiplies `pascal_amp(d)` by. */
  function LawFactor(law: AmpLaw, i: nat, j: nat, N: nat, pow: (real, real) -> real, log: real -> real): (r: real)
    requires i < N && j < N && LawDefined(law, N, pow, log)
    ensures law.Flat? ==> r == 1.0
    ensures !law.Flat? ==> r * LawDenominator(law, i, j, N, pow, log) == 1.0
  {
    if law.Flat? then 1.0 else 1.0 / LawDenominator(law, i, j, N, pow, log)
  }

  /** A law with `α >= 0` keeps every denominator at least 1 on a lattice of two or more sites. */
  lemma LawNonNegative(law: AmpLaw, N: nat, pow: (real, real) -> real, log: real -> real)
    requires N > 1 && NonNegativeLaw(law)
    requires PowNonNegative(pow) && LogPositiveAboveOne(log)
    ensures LawDefined(law, N, pow, log)
  {
    if !law.Flat? {
      assert log(N as real) > 0.0;
      forall i: nat, j: nat | i < N && j < N
        ensures LawDenominator(law, i, j, N, pow, log) >= 1.0
      {
        if law.Power? {
          var t := pow(Geo.Avg(i, j) / N as real, law.p);
          assert t >= 0.0;
          assert law.alpha * t >= 0.0;
        } else {
          var q := log(2.0 + Geo.Avg(i, j)) / log(N as real);
          assert log(2.0 + Geo.Avg(i, j)) > 0.0;
          assert q > 0.0;
          assert law.alpha * q >= 0.0;
        }
      }
    }
  }

  /** `pascal_amp(d)` times the law's factor. */
  function LawAmp(i: nat, j: nat, N: nat, law: AmpLaw, sqrt: real -> real,
                  pow: (real, real) -> real, log: real -> real): real
    requires i < N && j < N && LawDefined(law, N, pow, log)
  {
    Geo.PascalAmpGeo(Geo.Dist(i, j), sqrt) * LawFactor(law, i, j, N, pow, log)
  }

  lemma LawAmpSymmetric(i: nat, j: nat, N: nat, law: AmpLaw, sqrt: real -> real,
                        pow: (real, real) -> real, log: real -> real)
    requires i < N && j < N && LawDefined(law, N, pow, log)
    ensures LawAmp(j, i, N, law, sqrt, pow, log) == LawAmp(i, j, N, law, sqrt, pow, log)
  {
    var a := Geo.PascalAmpGeo(Geo.Dist(i, j), sqrt);
    var f := LawFactor(law, i, j, N, pow, log);
    assert Geo.Dist(j, i) == Geo.Dist(i, j);
    LawFactorSymmetric(i, j, N, law, pow, log);
    assert LawAmp(i, j, N, law, sqrt, pow, log) == a * f;
    assert LawAmp(j, i, N, law, sqrt, pow, log) == a * f;
  }

  /** The law's factor depends on the hop only through `(i + j)/2`. */
  lemma LawFactorSymmetric(i: nat, j: nat, N: nat, law: AmpLaw, pow: (real, real) -> real, log: real -> real)
    requires i < N && j < N && LawDefined(law, N, pow, log)
    ensures LawFactor(law, j, i, N, pow, log) == LawFactor(law, i, j, N, pow, log)
  {
    if !law.Flat? {
      LawDenominatorSymmetric(i, j, N, law, pow, log);
    }
  }

  lemma LawDenominatorSymmetric(i: nat, j: nat, N: nat, law: AmpLaw, pow: (real, real) -> real, log: real -> real)
    requires N > 0 && !law.Flat? && (law.Log? ==> log(N as real) != 0.0)
    ensures LawDenominator(law, j, i, N, pow, log) == LawDenominator(law, i, j, N, pow, log)
  {
    assert Geo.Avg(j, i) == Geo.Avg(i, j);
  }

  /** `H[i, j]` of `build_H`: `-pascal_amp(d)·factor·e^{±iφ}` with the circle phase. */
  function AmpHop(i: nat, j: nat, N: nat, law: AmpLaw, nQuant: real, pi: real, cis: real -> C,
                  sqrt: real -> real, pow: (real, real) -> real, log: real -> real): C
    requires i < N && j < N && nQuant != 0.0 && LawDefined(law, N, pow, log)
  {
    Geo.DirectedHop(LawAmp(i, j, N, law, sqrt, pow, log), Geo.PhaseCircle(Geo.Dist(i, j), nQuant, pi), j > i, cis)
  }

  function AmpHops(N: nat, law: AmpLaw, nQuant: real, pi: real, cis: real -> C, sqrt: real -> real,
                   pow: (real, real) -> real, log: real -> real): (hop: (nat, nat) --> C)
    ensures nQuant != 0.0 && LawDefined(law, N, pow, log) ==>
              forall i: nat, j: nat | i < N && j < N ::
                hop.requires(i, j) && hop(i, j) == AmpHop(i, j, N, law, nQuant, pi, cis, sqrt, pow, log)
  {
    (i: nat, j: nat) requires i < N && j < N && nQuant != 0.0 && LawDefined(law, N, pow, log) =>
      AmpHop(i, j, N, law, nQuant, pi, cis, sqrt, pow, log)
  }

  /** The reverse of a hop is its conjugate: the factor depends on `i + j`, the phase on `d`. */
  lemma AmpHopConjugate(i: nat, j: nat, N: nat, law: AmpLaw, nQuant: real, pi: real, cis: real -> C,
                        sqrt: real -> real, pow: (real, real) -> real, log: real -> real)
    requires i < N && j < N && i != j && nQuant != 0.0 && LawDefined(law, N, pow, log) && Geo.ConjugateCis(cis)
    ensures AmpHop(j, i, N, law, nQuant, pi, cis, sqrt, pow, log) == Conj(AmpHop(i, j, N, law, nQuant, pi, cis, sqrt, pow, log))
  {
    LawAmpSymmetric(i, j, N, law, sqrt, pow, log);
    assert Geo.Dist(j, i) == Geo.Dist(i, j);
    var amp := LawAmp(i, j, N, law, sqrt, pow, log);
    var phi := Geo.PhaseCircle(Geo.Dist(i, j), nQuant, pi);
    Geo.DirectedHopReverse(amp, phi, cis);
    ConjInvolutive(Geo.DirectedHop(amp, phi, true, cis));
  }

  /** `build_H(N, dmax, n_quant, amp_mode, alpha, p)`: the shared banded loop with the amplitude-law hop. */
  method BuildH(N: nat, dMax: nat, nQuant: real, law: AmpLaw, pi: real, cis: real -> C, sqrt: real -> real,
                pow: (real, real) -> real, log: real -> real) returns (H: array2<C>)
    requires nQuant != 0.0 && LawDefined(law, N, pow, log)
    ensures fresh(H) && H.Length0 == N && H.Length1 == N
    ensures forall i, j | 0 <= i < N && 0 <= j < N ::
              H[i, j] == Geo.Banded(N, dMax, AmpHops(N, law, nQuant, pi, cis, sqrt, pow, log))[i][j]
  {
    H := Geo.BuildBanded(N, dMax, AmpHops(N, law, nQuant, pi, cis, sqrt, pow, log));
  }

  /** The matrix `build_H` fills. */
  function AmpOperator(N: nat, law: AmpLaw, pi: real, cis: real -> C, sqrt: real -> real,
                       pow: (real, real) -> real, log: real -> real): (H: Matrix.Mat)
    requires LawDefined(law, N, pow, log)
    ensures Matrix.IsSquare(H, N)
  {
    Geo.Banded(N, AmpDMax, AmpHops(N, law, AmpNQuant, pi, cis, sqrt, pow, log))
  }

  /** Every amplitude law gives a Hermitian operator. */
  lemma AmpOperatorHermitian(N: nat, law: AmpLaw, pi: real, cis: real -> C, sqrt: real -> real,
                             pow: (real, real) -> real, log: real -> real)
    requires LawDefined(law, N, pow, log) && Geo.ConjugateCis(cis)
    ensures Matrix.Hermitian(AmpOperator(N, law, pi, cis, sqrt, pow, log))
  {
    var hop := AmpHops(N, law, AmpNQuant, pi, cis, sqrt, pow, log);
    forall i: nat, j: nat | i < N && j < N && i != j
      ensures hop(j, i) == Conj(hop(i, j))
    {
      AmpHopConjugate(i, j, N, law, AmpNQuant, pi, cis, sqrt, pow, log);
    }
    Geo.BandedHermitian(N, AmpDMax, hop);
  }

  const AmpDMax: nat := 5
  const AmpNQuant: real := 25.0
  const TrainTake: nat := 30

  // ---------------------------------------------------------------
  // run_once: train on the first 30 zeros, hold out the next 30
  // ---------------------------------------------------------------

  /** `(train, valid)`; `valid == None` when the hold-out is skipped or fails. */
  datatype RunResult = RunResult(train: Option<Metrics>, valid: Option<Metrics>)

  /** `ev[take:]`, empty when `ev` is shorter than `take`. */
  function Drop(ev: seq<real>, take: nat): (r: seq<real>)
    ensures |r| == if |ev| >= take then |ev| - take else 0
    ensures forall i | 0 <= i < |r| :: r[i] == ev[take + i]
  {
    if |ev| >= take then ev[take..] else []
  }

  /**
   * `run_once` as written: train on `rz[:take]` with `take = min(30,
   * len(rz))`, and hold out `rz[take:2·take]` only when `len(rz) >= 60`.
   */
  function RunOnce(ev: seq<real>, rz: seq<real>, sqrt: real -> real, quadLead: seq<real> -> real): (r: RunResult)
    ensures var take := Min(TrainTake, |rz|);
            r.train.Some? <==> 0 < |rz| && take <= |ev| && NoZero(rz[..take])
    ensures r.valid.Some? <==> |rz| >= 2 * TrainTake && |ev| >= 2 * TrainTake && NoZero(rz[TrainTake..2 * TrainTake])
  {
    var take := Min(TrainTake, |rz|);
    var train := Stats(ev, rz[..take], sqrt, quadLead);
    var valid := if |rz| >= 2 * TrainTake then Stats(Drop(ev, take), rz[take..2 * take], sqrt, quadLead) else None;
    RunResult(train, valid)
  }

  /**
   * With the 58 zeros `RZ` actually holds, `run_once` never computes the
   * hold-out, whatever the spectrum.
   */
  lemma HoldOutNeverRuns(ev: seq<real>, sqrt: real -> real, quadLead: seq<real> -> real)
    ensures RunOnce(ev, RZ, sqrt, quadLead).valid.None?
  {
    ZeroTables();
  }

  /**
   * `run_once` as its comment describes it: hold out the zeros after the
   * first 30 whenever there are any, up to 30 of them.
   */
  function RunOnceIntended(ev: seq<real>, rz: seq<real>, sqrt: real -> real, quadLead: seq<real> -> real): (r: RunResult)
    ensures var take := Min(TrainTake, |rz|);
            r.train.Some? <==> 0 < |rz| && take <= |ev| && NoZero(rz[..take])
    ensures var hold := Min(2 * TrainTake, |rz|);
            r.valid.Some? <==> |rz| > TrainTake && |ev| >= TrainTake + (hold - TrainTake) && NoZero(rz[TrainTake..hold])
  {
    var take := Min(TrainTake, |rz|);
    var train := Stats(ev, rz[..take], sqrt, quadLead);
    var valid := if |rz| > take then Stats(Drop(ev, take), rz[take..Min(2 * take, |rz|)], sqrt, quadLead) else None;
    RunResult(train, valid)
  }

  /**
   * With `RZ` and at least 58 eigenvalues, the intended `run_once` trains
   * on the first 30 zeros and validates on the remaining 28, both aligned
   * against the eigenvalues that follow.
   */
  lemma IntendedHoldOutRuns(ev: seq<real>, sqrt: real -> real, quadLead: seq<real> -> real)
    requires |ev| >= |RZ|
    ensures var r := RunOnceIntended(ev, RZ, sqrt, quadLead);
            r.train.Some? && r.valid.Some? &&
            |r.train.value.aligned| == 30 && |r.valid.value.aligned| == 28
  {
    ZeroTables();
    var r := RunOnceIntended(ev, RZ, sqrt, quadLead);
    assert AllPositive(RZ[..30]) && AllPositive(RZ[30..58]);
    assert Describes(r.train.value, Spectrum.Sort(ev)[..30], RZ[..30], sqrt, quadLead);
    assert Describes(r.valid.value, Spectrum.Sort(Drop(ev, 30))[..28], RZ[30..58], sqrt, quadLead);
  }

  // ---------------------------------------------------------------
  // hp_geo_amp_validate.main
  // ---------------------------------------------------------------

  const PowerAlphas: seq<real> := [0.5, 0.7, 1.0]
  const PowerExps: seq<real> := [0.8, 1.0, 1.2, 1.5]
  const LogAlphas: seq<real> := [0.4, 0.6, 0.8, 1.0]
  const ScanN: nat := 160
  const ScaleN: nat := 220

  lemma PowerGridOrder()
    ensures |Sweeps.RowMajor(PowerAlphas, PowerExps)| == 12
    ensures forall i, j | 0 <= i < 3 && 0 <= j < 4 ::
              Sweeps.RowMajor(PowerAlphas, PowerExps)[4 * i + j] == (PowerAlphas[i], PowerExps[j])
  {
    forall i, j | 0 <= i < 3 && 0 <= j < 4
      ensures Sweeps.RowMajor(PowerAlphas, PowerExps)[4 * i + j] == (PowerAlphas[i], PowerExps[j])
    {
      Sweeps.RowMajorAt(PowerAlphas, PowerExps, i, j);
      assert i * |PowerExps| + j == 4 * i + j;
    }
  }

  /**
   * The sixteen laws `main` scans, in its loop order: `α` outer and `p`
   * inner for the power law, then the log law's four `α`.
   */
  function AmpLaws(): (r: seq<AmpLaw>)
    ensures ScanOrder(r)
  {
    PowerGridOrder();
    var grid := Sweeps.RowMajor(PowerAlphas, PowerExps);
    seq(|grid|, k requires 0 <= k < |grid| => Power(grid[k].0, grid[k].1)) +
    seq(|LogAlphas|, k requires 0 <= k < |LogAlphas| => Log(LogAlphas[k]))
  }

  /** The twelve power laws, `α` outer and `p` inner, then the four log laws. */
  predicate ScanOrder(r: seq<AmpLaw>)
  {
    |r| == 16 &&
    (forall i, j | 0 <= i < 3 && 0 <= j < 4 :: r[4 * i + j] == Power(PowerAlphas[i], PowerExps[j])) &&
    (forall k | 0 <= k < 4 :: r[12 + k] == Log(LogAlphas[k]))
  }

  /** Every law of `laws` is a power or log law with `α >= 0`. */
  predicate ScannableLaws(laws: seq<AmpLaw>)
  {
    forall k | 0 <= k < |laws| :: !laws[k].Flat? && NonNegativeLaw(laws[k])
  }

  /** A law whose denominators stay at least 1. */
  predicate NonNegativeLaw(law: AmpLaw)
  {
    law.Flat? || law.alpha >= 0.0
  }

  /** Every scanned law has a non-negative `α`. */
  lemma AmpLawsNonNegative()
    ensures ScannableLaws(AmpLaws())
  {
    var laws := AmpLaws();
    forall k | 0 <= k < 16
      ensures !laws[k].Flat? && NonNegativeLaw(laws[k])
    {
      if k < 12 {
        var i := if k < 4 then 0 else if k < 8 then 1 else 2;
        assert laws[4 * i + (k - 4 * i)] == Power(PowerAlphas[i], PowerExps[k - 4 * i]);
      } else {
        assert laws[12 + (k - 12)] == Log(LogAlphas[k - 12]);
      }
    }
  }

  /** `run_once(N, law)` with the intended hold-out. */
  function LawRun(law: AmpLaw, N: nat, eigvalsh: Matrix.Mat -> seq<real>, pi: real, cis: real -> C,
                  sqrt: real -> real, pow: (real, real) -> real, log: real -> real,
                  quadLead: seq<real> -> real): RunResult
    requires LawDefined(law, N, pow, log)
  {
    RunOnceIntended(eigvalsh(AmpOperator(N, law, pi, cis, sqrt, pow, log)), RZ, sqrt, quadLead)
  }

  /** `run_once(N, amp_mode, alpha, p)` as written, with the hold-out guard `len(RZ) >= 60`. */
  function LawRunAsWritten(law: AmpLaw, N: nat, eigvalsh: Matrix.Mat -> seq<real>, pi: real, cis: real -> C,
                           sqrt: real -> real, pow: (real, real) -> real, log: real -> real,
                           quadLead: seq<real> -> real): (r: RunResult)
    requires LawDefined(law, N, pow, log)
    ensures r.train == LawRun(law, N, eigvalsh, pi, cis, sqrt, pow, log, quadLead).train
    ensures r.valid.None?
  {
    var ev := eigvalsh(AmpOperator(N, law, pi, cis, sqrt, pow, log));
    HoldOutNeverRuns(ev, sqrt, quadLead);
    RunOnce(ev, RZ, sqrt, quadLead)
  }

  /** The assumptions on the foreign functions the scan relies on. */
  ghost predicate ScanFunctions(eigvalsh: Matrix.Mat -> seq<real>, pow: (real, real) -> real, log: real -> real)
  {
    EigvalshCounts(eigvalsh) && PowNonNegative(pow) && LogPositiveAboveOne(log)
  }

  /** On a lattice of at least 58 sites `run_once` both trains and validates. */
  lemma LawRunComplete(law: AmpLaw, N: nat, eigvalsh: Matrix.Mat -> seq<real>, pi: real, cis: real -> C,
                       sqrt: real -> real, pow: (real, real) -> real, log: real -> real,
                       quadLead: seq<real> -> real)
    requires N >= |RZ| && LawDefined(law, N, pow, log) && EigvalshCounts(eigvalsh)
    ensures LawRun(law, N, eigvalsh, pi, cis, sqrt, pow, log, quadLead).train.Some?
    ensures LawRun(law, N, eigvalsh, pi, cis, sqrt, pow, log, quadLead).valid.Some?
  {
    IntendedHoldOutRuns(eigvalsh(AmpOperator(N, law, pi, cis, sqrt, pow, log)), sqrt, quadLead);
  }

  /** At `N = 220` a law with a non-negative `α` both trains and validates. */
  lemma ScaleRunComplete(law: AmpLaw, eigvalsh: Matrix.Mat -> seq<real>, pi: real, cis: real -> C,
                         sqrt: real -> real, pow: (real, real) -> real, log: real -> real,
                         quadLead: seq<real> -> real)
    requires NonNegativeLaw(law) && ScanFunctions(eigvalsh, pow, log)
    ensures LawDefined(law, ScaleN, pow, log)
    ensures LawRun(law, ScaleN, eigvalsh, pi, cis, sqrt, pow, log, quadLead).train.Some?
    ensures LawRun(law, ScaleN, eigvalsh, pi, cis, sqrt, pow, log, quadLead).valid.Some?
  {
    LawNonNegative(law, ScaleN, pow, log);
    ZeroTables();
    LawRunComplete(law, ScaleN, eigvalsh, pi, cis, sqrt, pow, log, quadLead);
  }

  /** The training metrics of one law at `N = 160`. */
  function LawTrain(law: AmpLaw, eigvalsh: Matrix.Mat -> seq<real>, pi: real, cis: real -> C,
                    sqrt: real -> real, pow: (real, real) -> real, log: real -> real,
                    quadLead: seq<real> -> real): Metrics
    requires NonNegativeLaw(law) && ScanFunctions(eigvalsh, pow, log)
  {
    ZeroTables();
    LawNonNegative(law, ScanN, pow, log);
    LawRunComplete(law, ScanN, eigvalsh, pi, cis, sqrt, pow, log, quadLead);
    LawRun(law, ScanN, eigvalsh, pi, cis, sqrt, pow, log, quadLead).train.value
  }

  /** The key `(mape, |quad_a|)` of `main`. */
  function AmpKey(m: Metrics): seq<real>
  {
    [m.mape, Abs(m.quadA)]
  }

  /** The training keys of a list of laws, in list order. */
  function LawKeys(laws: seq<AmpLaw>, eigvalsh: Matrix.Mat -> seq<real>, pi: real, cis: real -> C, sqrt: real -> real,
                   pow: (real, real) -> real, log: real -> real, quadLead: seq<real> -> real): (keys: seq<seq<real>>)
    requires ScanFunctions(eigvalsh, pow, log)
    requires forall k | 0 <= k < |laws| :: NonNegativeLaw(laws[k])
    ensures |keys| == |laws|
    ensures forall k | 0 <= k < |keys| :: |keys[k]| == 2
  {
    seq(|laws|, k requires 0 <= k < |laws| => AmpKey(LawTrain(laws[k], eigvalsh, pi, cis, sqrt, pow, log, quadLead)))
  }

  function AmpKeys(eigvalsh: Matrix.Mat -> seq<real>, pi: real, cis: real -> C, sqrt: real -> real,
                   pow: (real, real) -> real, log: real -> real, quadLead: seq<real> -> real): (keys: seq<seq<real>>)
    requires ScanFunctions(eigvalsh, pow, log)
    ensures |keys| == |AmpLaws()|
    ensures forall k | 0 <= k < |keys| :: |keys[k]| == 2
  {
    AmpLawsNonNegative();
    LawKeys(AmpLaws(), eigvalsh, pi, cis, sqrt, pow, log, quadLead)
  }

  /**
   * `main`: scan the sixteen laws at `N = 160`, keep the first whose
   * training key is strictly smallest, then rerun it at `N = 220` with
   * `run_once` as written. That rerun trains, but its hold-out never
   * runs (`HoldOutNeverRuns`); `ScanPickRuns` states what the corrected
   * hold-out (`RunOnceIntended`) would give for the chosen law.
   */
  method SelectAmpLaw(eigvalsh: Matrix.Mat -> seq<real>, pi: real, cis: real -> C, sqrt: real -> real,
                      pow: (real, real) -> real, log: real -> real, quadLead: seq<real> -> real)
    returns (best: nat, train: Metrics, scale: RunResult)
    requires ScanFunctions(eigvalsh, pow, log)
    ensures best < |AmpLaws()| && NonNegativeLaw(AmpLaws()[best])
    ensures train == LawTrain(AmpLaws()[best], eigvalsh, pi, cis, sqrt, pow, log, quadLead)
    ensures var keys := AmpKeys(eigvalsh, pi, cis, sqrt, pow, log, quadLead);
            AmpKey(train) == keys[best] && Ranking.FirstMinAt(keys, 2, best)
    ensures LawDefined(AmpLaws()[best], ScaleN, pow, log)
    ensures scale == LawRunAsWritten(AmpLaws()[best], ScaleN, eigvalsh, pi, cis, sqrt, pow, log, quadLead)
    ensures scale.train.Some? && scale.valid.None?
  {
    var keys := AmpKeys(eigvalsh, pi, cis, sqrt, pow, log, quadLead);
    var b := Ranking.FirstMinLex(keys, 2);
    Ranking.FirstMinPick(keys, 2);
    best := b.value;
    AmpKeyAt(best, eigvalsh, pi, cis, sqrt, pow, log, quadLead);
    train := LawTrain(AmpLaws()[best], eigvalsh, pi, cis, sqrt, pow, log, quadLead);
    ScanPickRuns(best, eigvalsh, pi, cis, sqrt, pow, log, quadLead);
    scale := LawRunAsWritten(AmpLaws()[best], ScaleN, eigvalsh, pi, cis, sqrt, pow, log, quadLead);
  }

  /** The `k`-th scanned key is the training key of the `k`-th law. */
  lemma AmpKeyAt(k: nat, eigvalsh: Matrix.Mat -> seq<real>, pi: real, cis: real -> C, sqrt: real -> real,
                 pow: (real, real) -> real, log: real -> real, quadLead: seq<real> -> real)
    requires k < |AmpLaws()| && ScanFunctions(eigvalsh, pow, log)
    ensures NonNegativeLaw(AmpLaws()[k])
    ensures AmpKeys(eigvalsh, pi, cis, sqrt, pow, log, quadLead)[k] ==
            AmpKey(LawTrain(AmpLaws()[k], eigvalsh, pi, cis, sqrt, pow, log, quadLead))
  {
    AmpLawsNonNegative();
  }

  /** Whichever law is picked, its `N = 220` rerun trains and validates. */
  lemma ScanPickRuns(k: nat, eigvalsh: Matrix.Mat -> seq<real>, pi: real, cis: real -> C, sqrt: real -> real,
                     pow: (real, real) -> real, log: real -> real, quadLead: seq<real> -> real)
    requires k < |AmpLaws()| && ScanFunctions(eigvalsh, pow, log)
    ensures NonNegativeLaw(AmpLaws()[k]) && LawDefined(AmpLaws()[k], ScaleN, pow, log)
    ensures LawRun(AmpLaws()[k], ScaleN, eigvalsh, pi, cis, sqrt, pow, log, quadLead).train.Some?
    ensures LawRun(AmpLaws()[k], ScaleN, eigvalsh, pi, cis, sqrt, pow, log, quadLead).valid.Some?
  {
    AmpLawsNonNegative();
    ScaleRunComplete(AmpLaws()[k], eigvalsh, pi, cis, sqrt, pow, log, quadLead);
  }
}
