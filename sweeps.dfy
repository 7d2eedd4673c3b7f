/**
 * The parameter sweeps of the staged fit. Every grid point is turned
 * into a spectrum (the eigen-solver is a parameter `eigs`), the
 * spectrum into the window `sqrt(unique_eigs(...))[skip:][:N]`, the
 * window into a least-squares line against the first `N` zeros `t`,
 * and the line into the score `(R², −rmse)`; the first strictly better
 * score wins. Nested loops are flattened to their row-major order.
 */
module Sweeps {
  import opened Wrappers
  import Spectrum
  import Fit
  import Ranking

  // ---------------------------------------------------------------
  // Grids
  // ---------------------------------------------------------------

  /** `np.linspace(lo, hi, n)`: `n` evenly spaced values from `lo` to `hi`. */
  function Linspace(lo: real, hi: real, n: nat): (r: seq<real>)
    ensures |r| == n
    ensures n > 0 ==> r[0] == lo
    ensures n > 1 ==> r[n - 1] == hi
  {
    if n == 1 then [lo]
    else
      var step := (hi - lo) / (n - 1) as real;
      assert (n - 1) as real * step == hi - lo;
      seq(n, k requires 0 <= k < n => lo + k as real * step)
  }

  /** The nested loop `for x in xs: for y in ys`, in visiting order. */
  function RowMajor<A, B>(xs: seq<A>, ys: seq<B>): (r: seq<(A, B)>)
    ensures |r| == |xs| * |ys|
  {
    if |xs| == 0 then []
    else
      var row := seq(|ys|, j requires 0 <= j < |ys| => (xs[0], ys[j]));
      assert |xs| * |ys| == |ys| + (|xs| - 1) * |ys|;
      row + RowMajor(xs[1..], ys)
  }

  /** Iteration `(i, j)` of the nested loop is visited at position `i·|ys| + j`. */
  lemma {:induction false} RowMajorAt<A, B>(xs: seq<A>, ys: seq<B>, i: nat, j: nat)
    requires i < |xs| && j < |ys|
    ensures i * |ys| + j < |RowMajor(xs, ys)|
    ensures RowMajor(xs, ys)[i * |ys| + j] == (xs[i], ys[j])
  {
    if i > 0 {
      RowMajorAt(xs[1..], ys, i - 1, j);
      assert i * |ys| + j == |ys| + ((i - 1) * |ys| + j);
    }
  }

  /** The nested loop visits exactly the pairs of its two ranges. */
  lemma {:induction false} RowMajorMembers<A, B>(xs: seq<A>, ys: seq<B>, p: (A, B))
    ensures p in RowMajor(xs, ys) <==> p.0 in xs && p.1 in ys
  {
    if |xs| > 0 {
      RowMajorMembers(xs[1..], ys, p);
      assert xs == [xs[0]] + xs[1..];
      if p.0 == xs[0] && p.1 in ys {
        var j :| 0 <= j < |ys| && ys[j] == p.1;
        assert RowMajor(xs, ys)[j] == p;
      }
    }
  }

  // ---------------------------------------------------------------
  // One window fit
  // ---------------------------------------------------------------

  /** A fit's line, its `R²` (`None` for NaN) and its rmse. */
  datatype Outcome = Outcome(line: Fit.Line, r2: Option<real>, rmse: real)

  function ScoreOf(o: Outcome): Ranking.Score
  {
    Ranking.Score(o.r2, o.rmse)
  }

  /**
   * The fit each sweep repeats: the `n`-row design `[1, t[:n]]`, the
   * least-squares line, `yhat = a + b·t`, `R²` and
   * `rmse = sqrt(mean((y − yhat)²))`. The design has `n` rows, so numpy
   * raises when the window does not hold exactly `n` values or `t` holds
   * fewer than `n`. With `n = 0` numpy does not raise: it returns the
   * zero line and a NaN `R²`. All of these are `None` here.
   */
  function LineFit(y: seq<real>, t: seq<real>, n: nat, sqrt: real -> real): (r: Option<Outcome>)
    ensures r.Some? <==> 0 < n == |y| <= |t|
    ensures r.Some? ==>
              var yhat := Fit.Predict(t[..n], r.value.line.a, r.value.line.b);
              Fit.NormalEquations(t[..n], y, r.value.line) &&
              (r.value.r2.None? <==> Fit.Constant(y)) &&
              (r.value.r2.Some? ==> 0.0 <= r.value.r2.value <= 1.0) &&
              r.value.r2 == Fit.R2Score(y, yhat) &&
              r.value.rmse == sqrt(Fit.MSE(y, yhat))
  {
    if 0 < n == |y| <= |t| then
      var tt := t[..n];
      var l := Fit.LeastSquares(tt, y).value;
      Fit.LeastSquaresR2NonNeg(tt, y);
      var yhat := Fit.Predict(tt, l.a, l.b);
      Some(Outcome(l, Fit.R2Score(y, yhat), sqrt(Fit.MSE(y, yhat))))
    else None
  }

  /**
   * On a window lying exactly on a line the fit recovers that line,
   * scores `R² = 1` (unless the window is constant) and rmse `sqrt(0)`.
   */
  lemma {:induction false} LineFitExact(y: seq<real>, t: seq<real>, n: nat, sqrt: real -> real, a0: real, b0: real)
    requires 0 < n == |y| <= |t| && !Fit.Constant(t[..n])
    requires y == Fit.Predict(t[..n], a0, b0)
    ensures var o := LineFit(y, t, n, sqrt).value;
            o.line == Fit.Line(a0, b0) && o.rmse == sqrt(0.0) &&
            (o.r2.None? <==> b0 == 0.0) && (o.r2.Some? ==> o.r2.value == 1.0)
  {
    var tt := t[..n];
    var o := LineFit(y, t, n, sqrt).value;
    Fit.NormalEquationsExact(tt, y, o.line, a0, b0);
    assert Fit.Predict(tt, o.line.a, o.line.b) == y;
    ConstantLine(tt, a0, b0);
  }

  /** Over abscissae that are not all equal, a line's predictions are constant exactly when it is flat. */
  lemma {:induction false} ConstantLine(x: seq<real>, a0: real, b0: real)
    requires !Fit.Constant(x)
    ensures Fit.Constant(Fit.Predict(x, a0, b0)) <==> b0 == 0.0
  {
    var y := Fit.Predict(x, a0, b0);
    if b0 == 0.0 {
      forall i, j | 0 <= i < |y| && 0 <= j < |y|
        ensures y[i] == y[j]
      {
      }
    } else {
      var i, j :| 0 <= i < |x| && 0 <= j < |x| && x[i] != x[j];
      assert y[i] - y[j] == b0 * (x[i] - x[j]);
      NonZeroProduct(b0, x[i] - x[j]);
    }
  }

  lemma {:induction false} NonZeroProduct(x: real, y: real)
    requires x != 0.0 && y != 0.0
    ensures x * y != 0.0
  {
  }

  // ---------------------------------------------------------------
  // The spectra behind a grid point
  // ---------------------------------------------------------------

  /**
   * `sweep_theta` / `sweep_c3`: `spectrum(L, max(N+20, 200))`, then
   * `np.sqrt(unique_eigs(lam))[skip:][:N]` and the fit. The fit exists
   * exactly when at least `skip + N` distinct eigenvalues survive.
   */
  function ScalarFit(evals: seq<real>, t: seq<real>, sqrt: real -> real, skip: nat, n: nat): (r: Option<Outcome>)
    ensures var u := Spectrum.Dedup(Spectrum.Sort(Spectrum.SpectrumOf(evals, Max(n + 20, 200))), Spectrum.DefaultTol);
            r.Some? <==> 0 < n <= |t| && skip + n <= |u|
  {
    var lam := Spectrum.SpectrumOf(evals, Max(n + 20, 200));
    LineFit(Spectrum.ModelWindow(lam, Spectrum.DefaultTol, sqrt, skip, n), t, n, sqrt)
  }

  /**
   * `spinor_fit` / `torus_fit`: all eigenvalues sorted, `lam > 1e-12`,
   * `unique_eigs(lam, tol=1e-8)`, then the same window and fit.
   */
  function PositiveFit(evals: seq<real>, t: seq<real>, sqrt: real -> real, skip: nat, n: nat): (r: Option<Outcome>)
    ensures var u := Spectrum.Dedup(Spectrum.Sort(Spectrum.FilterAbove(evals, Spectrum.PositiveCutoff)), Spectrum.MergeTol);
            r.Some? <==> 0 < n <= |t| && skip + n <= |u|
  {
    var u := Spectrum.Dedup(Spectrum.Sort(Spectrum.FilterAbove(evals, Spectrum.PositiveCutoff)), Spectrum.MergeTol);
    LineFit(Spectrum.SqrtWindowOf(u, sqrt, skip, n), t, n, sqrt)
  }

  /** The merged spectrum of `merged_theta_fit`: two `spectrum(L, 200)` merged. */
  function Merged(evals1: seq<real>, evals2: seq<real>): seq<real>
  {
    Spectrum.MergeOf(Spectrum.SpectrumOf(evals1, 200), Spectrum.SpectrumOf(evals2, 200))
  }

  /** `np.sqrt(lam)[skip:][:N]` of the merged spectrum. */
  function MergedWindow(evals1: seq<real>, evals2: seq<real>, sqrt: real -> real, skip: nat, n: nat): (y: seq<real>)
    ensures |y| == Min(n, Max(0, |Merged(evals1, evals2)| - skip))
    ensures forall i | 0 <= i < |y| :: y[i] == sqrt(Merged(evals1, evals2)[skip + i])
  {
    Spectrum.SqrtWindowOf(Merged(evals1, evals2), sqrt, skip, n)
  }

  /** `merged_theta_fit`: the fit exists exactly when the merge leaves `skip + N` values. */
  function MergedFit(evals1: seq<real>, evals2: seq<real>, t: seq<real>, sqrt: real -> real, skip: nat, n: nat)
    : (r: Option<Outcome>)
    ensures r.Some? <==> 0 < n <= |t| && skip + n <= |Merged(evals1, evals2)|
  {
    LineFit(MergedWindow(evals1, evals2, sqrt, skip, n), t, n, sqrt)
  }

  // ---------------------------------------------------------------
  // The best-so-far loop
  // ---------------------------------------------------------------

  predicate AllFinite(outs: seq<Outcome>)
  {
    forall j | 0 <= j < |outs| :: outs[j].r2.Some?
  }

  /** The score tuples `(R², −rmse)` of the outcomes, in visiting order. */
  function Scores(outs: seq<Outcome>): (s: seq<Ranking.Score>)
    ensures |s| == |outs| && forall j | 0 <= j < |outs| :: s[j] == ScoreOf(outs[j])
  {
    seq(|outs|, j requires 0 <= j < |outs| => ScoreOf(outs[j]))
  }

  /**
   * What a sweep's winner `k` satisfies: it is the index the
   * best-so-far loop holds at the end (`Ranking.FirstBestTo`), which
   * pins it even when some `R²` is NaN; no later point is strictly
   * better; and when every `R²` is a number, no point at all is
   * strictly better and every earlier point is strictly worse, so ties
   * go to the earliest point.
   */
  predicate Winner(outs: seq<Outcome>, k: nat)
  {
    k < |outs| &&
    Ranking.FirstBestTo(Scores(outs), |outs|) == Some(k) &&
    (forall j | k < j < |outs| :: !Ranking.Better(ScoreOf(outs[j]), ScoreOf(outs[k]))) &&
    (AllFinite(outs) ==>
       (forall j | 0 <= j < |outs| :: !Ranking.Better(ScoreOf(outs[j]), ScoreOf(outs[k]))) &&
       (forall j | 0 <= j < k :: Ranking.Better(ScoreOf(outs[k]), ScoreOf(outs[j]))))
  }

  /**
   * Two NaN scores compare on `−rmse` alone (`np.nan is np.nan`), so
   * the loop keeps the first point and the later, worse one never wins.
   */
  lemma NaNTieKeepsFirst(l: Fit.Line)
    ensures var outs := [Outcome(l, None, 1.0), Outcome(l, None, 2.0)];
            Winner(outs, 0) && !Winner(outs, 1)
  {
    var outs := [Outcome(l, None, 1.0), Outcome(l, None, 2.0)];
    assert Scores(outs) == [Ranking.Score(None, 1.0), Ranking.Score(None, 2.0)];
  }

  /** `if best is None or score > best: best = …` over the outcomes in visiting order. */
  method SelectBest(outs: seq<Outcome>) returns (best: Option<nat>)
    ensures best.None? <==> |outs| == 0
    ensures best.Some? ==> Winner(outs, best.value)
  {
    var scores := Scores(outs);
    best := Ranking.FirstBest(scores);
    if best.Some? {
      Ranking.NoLaterBetter(scores, |scores|);
      if AllFinite(outs) {
        assert Ranking.AllFinite(scores);
        Ranking.FirstBestIsFirstMax(scores, |scores|);
      }
    }
  }

  /** The winning grid point: its position in visiting order, its parameters and its fit. */
  datatype Pick<P> = Pick(index: nat, param: P, outcome: Outcome)

  // ---------------------------------------------------------------
  // sweep_theta, sweep_c3 and sweep_all_params
  // ---------------------------------------------------------------

  /** Every `(θ, c3)` of the grid has a fit (otherwise numpy raises). */
  predicate ScalarFits(grid: seq<(real, real)>, eigs: (real, real) -> seq<real>, t: seq<real>,
                       sqrt: real -> real, skip: nat, n: nat)
  {
    forall k | 0 <= k < |grid| :: ScalarFit(eigs(grid[k].0, grid[k].1), t, sqrt, skip, n).Some?
  }

  function ScalarOutcomes(grid: seq<(real, real)>, eigs: (real, real) -> seq<real>, t: seq<real>,
                          sqrt: real -> real, skip: nat, n: nat): (outs: seq<Outcome>)
    requires ScalarFits(grid, eigs, t, sqrt, skip, n)
    ensures |outs| == |grid|
    ensures forall k | 0 <= k < |grid| :: Some(outs[k]) == ScalarFit(eigs(grid[k].0, grid[k].1), t, sqrt, skip, n)
  {
    seq(|grid|, k requires 0 <= k < |grid| => ScalarFit(eigs(grid[k].0, grid[k].1), t, sqrt, skip, n).value)
  }

  /**
   * `sweep_theta` (grid `θ × {c3}`) and `sweep_c3` (grid `{θ} × c3`):
   * `eigs(θ, c3)` are the eigenvalues of `build_operator(M, θ, c1, c2, c3)`.
   */
  method SweepScalar(grid: seq<(real, real)>, eigs: (real, real) -> seq<real>, t: seq<real>,
                     sqrt: real -> real, skip: nat, n: nat) returns (best: Option<Pick<(real, real)>>)
    requires ScalarFits(grid, eigs, t, sqrt, skip, n)
    ensures best.None? <==> |grid| == 0
    ensures best.Some? ==>
              var k := best.value.index;
              k < |grid| && best.value.param == grid[k] &&
              Some(best.value.outcome) == ScalarFit(eigs(grid[k].0, grid[k].1), t, sqrt, skip, n) &&
              Winner(ScalarOutcomes(grid, eigs, t, sqrt, skip, n), k)
  {
    var outs := ScalarOutcomes(grid, eigs, t, sqrt, skip, n);
    var k := SelectBest(outs);
    if k.None? {
      return None;
    }
    best := Some(Pick(k.value, grid[k.value], outs[k.value]));
  }

  /** The default grids: `θ ∈ linspace(π−0.05, π+0.05, 41)`, `c3 ∈ linspace(−0.03, 0.03, 31)`. */
  function ThetaGrid(pi: real): (r: seq<real>)
    ensures |r| == 41 && r[0] == pi - 0.05 && r[40] == pi + 0.05
  {
    Linspace(pi - 0.05, pi + 0.05, 41)
  }

  function C3Grid(): (r: seq<real>)
    ensures |r| == 31 && r[0] == -0.03 && r[30] == 0.03
  {
    Linspace(-0.03, 0.03, 31)
  }

  /** The grid of `sweep_theta`: each `θ` with `c3` fixed. */
  function WithC3(thetas: seq<real>, c3: real): (r: seq<(real, real)>)
    ensures |r| == |thetas| && forall k | 0 <= k < |thetas| :: r[k] == (thetas[k], c3)
  {
    seq(|thetas|, k requires 0 <= k < |thetas| => (thetas[k], c3))
  }

  /** The grid of `sweep_c3`: each `c3` with `θ` fixed. */
  function WithTheta(theta: real, c3s: seq<real>): (r: seq<(real, real)>)
    ensures |r| == |c3s| && forall k | 0 <= k < |c3s| :: r[k] == (theta, c3s[k])
  {
    seq(|c3s|, k requires 0 <= k < |c3s| => (theta, c3s[k]))
  }

  /** What `sweep_all_params` returns. */
  datatype AllParams = AllParams(theta: real, c3: real, outcome: Outcome)

  /**
   * `sweep_all_params` is coordinate-wise: θ is swept with `c3 = 0`,
   * then `c3` is swept with that θ held fixed. The reported θ is the
   * first sweep's winner, the fit is the second sweep's.
   */
  method SweepAllParams(thetas: seq<real>, c3s: seq<real>, eigs: (real, real) -> seq<real>, t: seq<real>,
                        sqrt: real -> real, skip: nat, n: nat) returns (r: AllParams)
    requires |thetas| > 0 && |c3s| > 0
    requires ScalarFits(WithC3(thetas, 0.0), eigs, t, sqrt, skip, n)
    requires forall k | 0 <= k < |thetas| :: ScalarFits(WithTheta(thetas[k], c3s), eigs, t, sqrt, skip, n)
    ensures exists k :: 0 <= k < |thetas| && r.theta == thetas[k] &&
                        Winner(ScalarOutcomes(WithC3(thetas, 0.0), eigs, t, sqrt, skip, n), k)
    ensures exists k :: 0 <= k < |c3s| && r.c3 == c3s[k] &&
                        Some(r.outcome) == ScalarFit(eigs(r.theta, r.c3), t, sqrt, skip, n) &&
                        Winner(ScalarOutcomes(WithTheta(r.theta, c3s), eigs, t, sqrt, skip, n), k)
  {
    var first := SweepScalar(WithC3(thetas, 0.0), eigs, t, sqrt, skip, n);
    var k := first.value.index;
    var theta := thetas[k];
    var second := SweepScalar(WithTheta(theta, c3s), eigs, t, sqrt, skip, n);
    var j := second.value.index;
    r := AllParams(theta, c3s[j], second.value.outcome);
  }

  // ---------------------------------------------------------------
  // sweep_spinor_params and sweep_torus_params
  // ---------------------------------------------------------------

  /** Every pair of the grid has a fit. */
  predicate PositiveFits(grid: seq<(real, real)>, eigs: (real, real) -> seq<real>, t: seq<real>,
                         sqrt: real -> real, skip: nat, n: nat)
  {
    forall k | 0 <= k < |grid| :: PositiveFit(eigs(grid[k].0, grid[k].1), t, sqrt, skip, n).Some?
  }

  function PositiveOutcomes(grid: seq<(real, real)>, eigs: (real, real) -> seq<real>, t: seq<real>,
                            sqrt: real -> real, skip: nat, n: nat): (outs: seq<Outcome>)
    requires PositiveFits(grid, eigs, t, sqrt, skip, n)
    ensures |outs| == |grid|
    ensures forall k | 0 <= k < |grid| :: Some(outs[k]) == PositiveFit(eigs(grid[k].0, grid[k].1), t, sqrt, skip, n)
  {
    seq(|grid|, k requires 0 <= k < |grid| => PositiveFit(eigs(grid[k].0, grid[k].1), t, sqrt, skip, n).value)
  }

  /**
   * `sweep_spinor_params` (grid `m1 × g1`, `eigs` the spinor operator's
   * eigenvalues) and `sweep_torus_params` (grid `ε × θσ`, `eigs` the
   * torus operator's).
   */
  method SweepPositive(grid: seq<(real, real)>, eigs: (real, real) -> seq<real>, t: seq<real>,
                       sqrt: real -> real, skip: nat, n: nat) returns (best: Option<Pick<(real, real)>>)
    requires PositiveFits(grid, eigs, t, sqrt, skip, n)
    ensures best.None? <==> |grid| == 0
    ensures best.Some? ==>
              var k := best.value.index;
              k < |grid| && best.value.param == grid[k] &&
              Some(best.value.outcome) == PositiveFit(eigs(grid[k].0, grid[k].1), t, sqrt, skip, n) &&
              Winner(PositiveOutcomes(grid, eigs, t, sqrt, skip, n), k)
  {
    var outs := PositiveOutcomes(grid, eigs, t, sqrt, skip, n);
    var k := SelectBest(outs);
    if k.None? {
      return None;
    }
    best := Some(Pick(k.value, grid[k.value], outs[k.value]));
  }

  /** The spinor couplings `[0.0, 0.01, 0.02, -0.01]`, `m1` outer, `g1` inner. */
  function SpinorGrid(): (r: seq<(real, real)>)
    ensures |r| == 16 && r[0] == (0.0, 0.0) && r[15] == (-0.01, -0.01)
  {
    var v := [0.0, 0.01, 0.02, -0.01];
    RowMajorAt(v, v, 0, 0);
    RowMajorAt(v, v, 3, 3);
    RowMajor(v, v)
  }

  /** The torus couplings: `ε ∈ [0, 0.01, 0.02, 0.03]` with `θσ = 0` only. */
  function TorusGrid(): (r: seq<(real, real)>)
    ensures |r| == 4 && forall k | 0 <= k < 4 :: r[k] == (k as real * 0.01, 0.0)
  {
    var e := [0.0, 0.01, 0.02, 0.03];
    RowMajorAt(e, [0.0], 0, 0);
    RowMajorAt(e, [0.0], 1, 0);
    RowMajorAt(e, [0.0], 2, 0);
    RowMajorAt(e, [0.0], 3, 0);
    RowMajor(e, [0.0])
  }

  // ---------------------------------------------------------------
  // sweep_two_theta
  // ---------------------------------------------------------------

  /** The second angles `θ2 = θ_base + δ`. */
  function SecondThetas(base: real, deltas: seq<real>): (r: seq<real>)
    ensures |r| == |deltas| && forall k | 0 <= k < |deltas| :: r[k] == base + deltas[k]
  {
    seq(|deltas|, k requires 0 <= k < |deltas| => base + deltas[k])
  }

  /** Every second angle has a merged fit with `θ_base`. */
  predicate MergedFits(base: real, thetas2: seq<real>, eigs: real -> seq<real>, t: seq<real>,
                       sqrt: real -> real, skip: nat, n: nat)
  {
    forall k | 0 <= k < |thetas2| :: MergedFit(eigs(base), eigs(thetas2[k]), t, sqrt, skip, n).Some?
  }

  function MergedOutcomes(base: real, thetas2: seq<real>, eigs: real -> seq<real>, t: seq<real>,
                          sqrt: real -> real, skip: nat, n: nat): (outs: seq<Outcome>)
    requires MergedFits(base, thetas2, eigs, t, sqrt, skip, n)
    ensures |outs| == |thetas2|
    ensures forall k | 0 <= k < |thetas2| :: Some(outs[k]) == MergedFit(eigs(base), eigs(thetas2[k]), t, sqrt, skip, n)
  {
    seq(|thetas2|, k requires 0 <= k < |thetas2| => MergedFit(eigs(base), eigs(thetas2[k]), t, sqrt, skip, n).value)
  }

  /** What `sweep_two_theta` returns: the winning δ, its fit and its merged window. */
  datatype TwoTheta = TwoTheta(index: nat, theta1: real, theta2: real, delta: real, outcome: Outcome, y: seq<real>)

  /**
   * `sweep_two_theta`: the spectrum at `θ_base` merged with the one at
   * `θ_base + δ` for each `δ` (`eigs(θ)` the scalar operator's
   * eigenvalues), scored like every other sweep.
   */
  method SweepTwoTheta(deltas: seq<real>, base: real, eigs: real -> seq<real>, t: seq<real>,
                       sqrt: real -> real, skip: nat, n: nat) returns (best: Option<TwoTheta>)
    requires MergedFits(base, SecondThetas(base, deltas), eigs, t, sqrt, skip, n)
    ensures best.None? <==> |deltas| == 0
    ensures best.Some? ==>
              var b := best.value;
              b.index < |deltas| && b.delta == deltas[b.index] &&
              b.theta1 == base && b.theta2 == base + b.delta &&
              b.y == MergedWindow(eigs(base), eigs(b.theta2), sqrt, skip, n) &&
              Some(b.outcome) == MergedFit(eigs(base), eigs(b.theta2), t, sqrt, skip, n) &&
              Winner(MergedOutcomes(base, SecondThetas(base, deltas), eigs, t, sqrt, skip, n), b.index)
  {
    var thetas2 := SecondThetas(base, deltas);
    var outs := MergedOutcomes(base, thetas2, eigs, t, sqrt, skip, n);
    var k := SelectBest(outs);
    if k.None? {
      return None;
    }
    var i := k.value;
    var y := MergedWindow(eigs(base), eigs(thetas2[i]), sqrt, skip, n);
    best := Some(TwoTheta(i, base, thetas2[i], deltas[i], outs[i], y));
  }

  /** The default offsets `linspace(0.01, 0.06, 11)`. */
  function DeltaGrid(): (r: seq<real>)
    ensures |r| == 11 && r[0] == 0.01 && r[10] == 0.06
  {
    Linspace(0.01, 0.06, 11)
  }

  // ---------------------------------------------------------------
  // sweep_anchors
  // ---------------------------------------------------------------

  /** The inner loop `for j in range(lo, hi + 1)` at row `i`. */
  function AnchorRow(i: nat, lo: nat, hi: nat): (r: seq<(nat, nat)>)
    ensures |r| == if lo <= hi then hi - lo + 1 else 0
    ensures forall k | 0 <= k < |r| :: r[k] == (i, lo + k)
  {
    seq(if lo <= hi then hi - lo + 1 else 0, k requires 0 <= k => (i, lo + k))
  }

  /**
   * The pairs `sweep_anchors` visits, in order:
   * `for i in range(i, iMax+1): for j in range(max(i+3, jMin), jMax+1)`.
   */
  function AnchorPairs(i: nat, iMax: nat, jMin: nat, jMax: nat): (r: seq<(nat, nat)>)
    ensures forall k | 0 <= k < |r| ::
              i <= r[k].0 <= iMax && Max(r[k].0 + 3, jMin) <= r[k].1 <= jMax
    decreases iMax + 1 - i
  {
    if i > iMax then []
    else AnchorRow(i, Max(i + 3, jMin), jMax) + AnchorPairs(i + 1, iMax, jMin, jMax)
  }

  /** Every pair in the ranges is visited. */
  lemma {:induction false} AnchorPairsComplete(i: nat, iMax: nat, jMin: nat, jMax: nat, p: (nat, nat))
    requires i <= p.0 <= iMax && Max(p.0 + 3, jMin) <= p.1 <= jMax
    ensures p in AnchorPairs(i, iMax, jMin, jMax)
    decreases iMax + 1 - i
  {
    var row := AnchorRow(i, Max(i + 3, jMin), jMax);
    var rest := AnchorPairs(i + 1, iMax, jMin, jMax);
    assert AnchorPairs(i, iMax, jMin, jMax) == row + rest;
    if p.0 == i {
      var k := p.1 - Max(i + 3, jMin);
      assert row[k] == p;
    } else {
      AnchorPairsComplete(i + 1, iMax, jMin, jMax, p);
    }
  }

  /** Strictly increasing in the order `(i, j) < (i', j')` of the nested loop. */
  predicate LoopOrdered(r: seq<(nat, nat)>)
  {
    forall a, b | 0 <= a < b < |r| :: r[a].0 < r[b].0 || (r[a].0 == r[b].0 && r[a].1 < r[b].1)
  }

  /** The pairs are visited in strictly increasing `(i, j)` order. */
  lemma {:induction false} AnchorPairsOrdered(i: nat, iMax: nat, jMin: nat, jMax: nat)
    ensures LoopOrdered(AnchorPairs(i, iMax, jMin, jMax))
    decreases iMax + 1 - i
  {
    if i <= iMax {
      AnchorPairsOrdered(i + 1, iMax, jMin, jMax);
      var row := AnchorRow(i, Max(i + 3, jMin), jMax);
      var rest := AnchorPairs(i + 1, iMax, jMin, jMax);
      var r := row + rest;
      assert r == AnchorPairs(i, iMax, jMin, jMax);
      forall a, b | 0 <= a < b < |r|
        ensures r[a].0 < r[b].0 || (r[a].0 == r[b].0 && r[a].1 < r[b].1)
      {
        if a >= |row| {
          assert r[a] == rest[a - |row|] && r[b] == rest[b - |row|];
        } else if b >= |row| {
          assert r[a] == row[a] && r[b] == rest[b - |row|];
        } else {
          assert r[a] == row[a] && r[b] == row[b];
        }
      }
    }
  }

  /**
   * The two-point evaluation at anchors `(i, j)`: the line through both
   * anchors over the whole window, its `R²` and rmse. Equal abscissae
   * (a division by zero) and indices outside the window give `None`.
   */
  function AnchorFit(t: seq<real>, y: seq<real>, i: nat, j: nat, sqrt: real -> real): (r: Option<Outcome>)
    requires |t| == |y|
    ensures r.Some? <==> i < |t| && j < |t| && t[i] != t[j]
    ensures r.Some? ==>
              var l := r.value.line;
              l.a + l.b * t[i] == y[i] && l.a + l.b * t[j] == y[j] &&
              r.value.r2 == Fit.R2Score(y, Fit.Predict(t, l.a, l.b)) &&
              r.value.rmse == sqrt(Fit.MSE(y, Fit.Predict(t, l.a, l.b)))
  {
    if i < |t| && j < |t| && t[i] != t[j] then
      var l := Fit.TwoPointAB(t, y, i, j).value;
      var yhat := Fit.Predict(t, l.a, l.b);
      Some(Outcome(l, Fit.R2Score(y, yhat), sqrt(Fit.MSE(y, yhat))))
    else None
  }

  predicate AnchorFits(pairs: seq<(nat, nat)>, t: seq<real>, y: seq<real>, sqrt: real -> real)
    requires |t| == |y|
  {
    forall k | 0 <= k < |pairs| :: AnchorFit(t, y, pairs[k].0, pairs[k].1, sqrt).Some?
  }

  function AnchorOutcomes(pairs: seq<(nat, nat)>, t: seq<real>, y: seq<real>, sqrt: real -> real): (outs: seq<Outcome>)
    requires |t| == |y| && AnchorFits(pairs, t, y, sqrt)
    ensures |outs| == |pairs|
    ensures forall k | 0 <= k < |pairs| :: Some(outs[k]) == AnchorFit(t, y, pairs[k].0, pairs[k].1, sqrt)
  {
    seq(|pairs|, k requires 0 <= k < |pairs| => AnchorFit(t, y, pairs[k].0, pairs[k].1, sqrt).value)
  }

  /** Row `i` of the anchor loop is empty: `range(max(i+3, jMin), jMax+1)` has no element. */
  predicate EmptyRow(i: nat, jMin: nat, jMax: nat)
  {
    Max(i + 3, jMin) > jMax
  }

  /**
   * `sweep_anchors(t, y, i_min, i_max, j_min, j_max)`: the first anchor
   * pair of best `(R², −rmse)`. It returns `None` exactly when the
   * ranges hold no pair; the winner lies in the ranges with `j ≥ i+3`,
   * its line passes through both anchors, and no pair visited after it
   * is strictly better.
   */
  method SweepAnchors(t: seq<real>, y: seq<real>, iMin: nat, iMax: nat, jMin: nat, jMax: nat, sqrt: real -> real)
    returns (best: Option<Pick<(nat, nat)>>)
    requires |t| == |y| && AnchorFits(AnchorPairs(iMin, iMax, jMin, jMax), t, y, sqrt)
    ensures best.None? <==> forall i | iMin <= i <= iMax :: EmptyRow(i, jMin, jMax)
    ensures best.Some? ==>
              var i, j := best.value.param.0, best.value.param.1;
              iMin <= i <= iMax && Max(i + 3, jMin) <= j <= jMax &&
              Some(best.value.outcome) == AnchorFit(t, y, i, j, sqrt) &&
              Winner(AnchorOutcomes(AnchorPairs(iMin, iMax, jMin, jMax), t, y, sqrt), best.value.index)
  {
    var pairs := AnchorPairs(iMin, iMax, jMin, jMax);
    var outs := AnchorOutcomes(pairs, t, y, sqrt);
    var k := SelectBest(outs);
    if k.None? {
      forall i: nat | iMin <= i <= iMax
        ensures EmptyRow(i, jMin, jMax)
      {
        if !EmptyRow(i, jMin, jMax) {
          AnchorPairsComplete(iMin, iMax, jMin, jMax, (i, jMax));
          assert false;
        }
      }
      return None;
    }
    var p := pairs[k.value];
    assert !EmptyRow(p.0, jMin, jMax);
    best := Some(Pick(k.value, p, outs[k.value]));
  }

  /** The default anchor ranges `i ∈ [4, 14]`, `j ∈ [max(i+3, 22), 36]` hold 11 rows of 15 pairs. */
  lemma DefaultAnchorCount()
    ensures |AnchorPairs(4, 14, 22, 36)| == 165
  {
    var k := 14;
    while k >= 4
      invariant 3 <= k <= 14
      invariant |AnchorPairs(k + 1, 14, 22, 36)| == 15 * (14 - k)
      decreases k
    {
      k := k - 1;
    }
  }

  // ---------------------------------------------------------------
  // parameter_sweep
  // ---------------------------------------------------------------

  /** The potential coefficients `(u0, u1, u2)` of one scan point. */
  datatype Potential = Potential(u0: real, u1: real, u2: real)

  /**
   * One point of the potential scan: `spectrum(L, k=60)` with cutoff
   * `1e-10`, then `affine_fit(lam, T)`. `None` when the fit has nothing
   * to fit (numpy reports a NaN `R²` there, which is never selected
   * either).
   */
  function PotentialFit(evals: seq<real>, t: seq<real>): Option<Fit.AffineResult>
  {
    Fit.AffineFit(Spectrum.Lowest(evals, Spectrum.PotentialCutoff, 60), t)
  }

  /** The value the scan compares: `None` for no fit, `Some(None)` for a NaN `R²`. */
  function PotentialR2(evals: seq<real>, t: seq<real>): Option<Option<real>>
  {
    match PotentialFit(evals, t)
    case None => None
    case Some(res) => Some(res.r2)
  }

  function PotentialR2s(grid: seq<Potential>, eigs: Potential -> seq<real>, t: seq<real>): (r: seq<Option<Option<real>>>)
    ensures |r| == |grid| && forall k | 0 <= k < |grid| :: r[k] == PotentialR2(eigs(grid[k]), t)
  {
    seq(|grid|, k requires 0 <= k < |grid| => PotentialR2(eigs(grid[k]), t))
  }

  /** The grid `u0, u1, u2 ∈ linspace(−0.1, 0.1, 11)`, `u0` outermost: 1331 points. */
  function PotentialGrid(): (r: seq<Potential>)
    ensures |r| == 1331
  {
    var u := Linspace(-0.1, 0.1, 11);
    var g := RowMajor(u, RowMajor(u, u));
    seq(|g|, k requires 0 <= k < |g| => Potential(g[k].0, g[k].1.0, g[k].1.1))
  }

  /** What `parameter_sweep` returns when something was selected. */
  datatype PotentialPick = PotentialPick(index: nat, params: Potential, r2: real, fit: Fit.AffineResult)

  /**
   * `parameter_sweep`: the triple loop keeping the first point of
   * strictly larger `R²`, starting from `best_R2 = −inf`. It returns
   * `None` exactly when no point has a fit with a numeric `R²`;
   * otherwise its pick has the largest `R²` and every earlier point
   * with a numeric `R²` has a smaller one.
   */
  method ParameterSweep(grid: seq<Potential>, eigs: Potential -> seq<real>, t: seq<real>)
    returns (best: Option<PotentialPick>)
    ensures var r := PotentialR2s(grid, eigs, t);
            best.None? <==> forall j | 0 <= j < |grid| :: !Ranking.Finite(r[j])
    ensures best.Some? ==>
              var k := best.value.index;
              k < |grid| && best.value.params == grid[k] &&
              Some(best.value.fit) == PotentialFit(eigs(grid[k]), t) &&
              best.value.fit.r2 == Some(best.value.r2) &&
              Ranking.FirstMaxAt(PotentialR2s(grid, eigs, t), k, best.value.r2)
  {
    var r := PotentialR2s(grid, eigs, t);
    var k := Ranking.MaxR2(r);
    Ranking.MaxR2IsFirstMax(r, |grid|);
    if k.None? {
      return None;
    }
    var i := k.value;
    assert r[i] == PotentialR2(eigs(grid[i]), t);
    PotentialR2OfFit(eigs(grid[i]), t);
    var fit := PotentialFit(eigs(grid[i]), t).value;
    Ranking.FirstMaxValue(r, i, fit.r2.value);
    best := Some(PotentialPick(i, grid[i], fit.r2.value, fit));
  }

  /** A numeric `R²` at a scan point comes from that point's fit. */
  lemma PotentialR2OfFit(evals: seq<real>, t: seq<real>)
    requires Ranking.Finite(PotentialR2(evals, t))
    ensures PotentialFit(evals, t).Some? && PotentialFit(evals, t).value.r2 == PotentialR2(evals, t).value
  {
  }
}
