/**
 * The middle-band analysis of `test_chiral_phases.py`,
 * `test_multiple_N.py`, `extended_analysis.py` and `test_N_300_350.py`:
 * the window `[N//3, 2N//3)` of the spectrum of `build_hamiltonian`, the
 * skip rule on its length, the affine map fitted on 30 zeros and applied
 * to the validation and extended slices, the residual drift and its
 * quartiles, the status label, the gap vectors, and the sweeps over
 * lattice sizes and chirality modes.
 */
module BandAnalysis {
  import opened Wrappers
  import Matrix
  import Fit
  import Spectrum
  import GeoSelect
  import Bands

  // ---------------------------------------------------------------
  // The middle band
  // ---------------------------------------------------------------

  /** `N // 3` and `2 * N // 3` through the remainder of `N` by 3. */
  lemma BandSplit(N: nat)
    ensures N / 3 == (N - N % 3) / 3
    ensures 2 * N / 3 == 2 * (N / 3) + (if N % 3 == 2 then 1 else 0)
  {
    var q, r := N / 3, N % 3;
    assert N == 3 * q + r;
    Matrix.DivModUnique(q, r, 3);
    if r == 2 {
      Matrix.DivModUnique(2 * q + 1, 1, 3);
      assert 2 * N == (2 * q + 1) * 3 + 1;
    } else {
      Matrix.DivModUnique(2 * q, 2 * r, 3);
      assert 2 * N == (2 * q) * 3 + 2 * r;
    }
  }

  /** `start_idx = N // 3`. */
  function BandStart(N: nat): nat
  {
    N / 3
  }

  /** `end_idx = 2 * N // 3`: never before the start, never past `N`. */
  function BandEnd(N: nat): (e: nat)
    ensures BandStart(N) <= e <= N
  {
    BandSplit(N);
    2 * N / 3
  }

  /** `n_evals = end_idx - start_idx`. */
  function BandLength(N: nat): nat
  {
    BandEnd(N) - BandStart(N)
  }

  /** The number of zeros the analysis consumes: 30 train, 28 validation, 15 extended. */
  const TrainEnd: nat := 30
  const ValidEnd: nat := 58
  const ExtendEnd: nat := 73

  /** `if n_evals < 73: continue`. */
  predicate Kept(N: nat)
  {
    BandLength(N) >= ExtendEnd
  }

  /**
   * The band holds `N // 3` values, one more when `N ≡ 2 (mod 3)`; so a
   * size is kept exactly when `N >= 218`.
   */
  lemma KeptThreshold(N: nat)
    ensures BandLength(N) == N / 3 + (if N % 3 == 2 then 1 else 0)
    ensures Kept(N) <==> N >= 218
  {
    BandSplit(N);
    var q, r := N / 3, N % 3;
    assert N == 3 * q + r;
    if N >= 218 {
      assert q >= 73 || (q == 72 && r == 2);
    } else {
      assert q < 72 || (q == 72 && r < 2);
    }
  }

  /** From `N = 300` on the band holds at least 100 values. */
  lemma BandAtLeastHundred(N: nat)
    requires N >= 300
    ensures BandLength(N) >= 100 && Kept(N)
  {
    KeptThreshold(N);
    var q, r := N / 3, N % 3;
    assert N == 3 * q + r;
  }

  /** `N = 220`, the size of `extended_analysis.py`: the band is `[73, 146)`, exactly 73 values. */
  lemma BandAt220()
    ensures BandStart(220) == 73 && BandEnd(220) == 146 && BandLength(220) == 73 && Kept(220)
  {
    BandSplit(220);
  }

  /** `np.sort(evals[start_idx:end_idx])`. */
  function MiddleBand(evals: seq<real>, N: nat): (band: seq<real>)
    requires |evals| == N
    ensures |band| == BandLength(N) && Spectrum.Sorted(band)
    ensures multiset(band) == multiset(evals[BandStart(N)..BandEnd(N)])
  {
    Spectrum.Sort(evals[BandStart(N)..BandEnd(N)])
  }

  /** `eigh` already returns ascending eigenvalues, so the sort changes nothing. */
  lemma MiddleBandOfSorted(evals: seq<real>, N: nat)
    requires |evals| == N && Spectrum.Sorted(evals)
    ensures MiddleBand(evals, N) == evals[BandStart(N)..BandEnd(N)]
  {
    Spectrum.SortOfSorted(evals[BandStart(N)..BandEnd(N)]);
  }

  // ---------------------------------------------------------------
  // Drift, quartiles, status
  // ---------------------------------------------------------------

  /** `total_drift = mean(res[-5:]) - mean(res[:5])`. */
  function Drift(res: seq<real>): real
    requires |res| >= 5
  {
    Fit.Mean(res[|res| - 5..]) - Fit.Mean(res[..5])
  }

  /** `res + c`, elementwise. */
  function Shift(res: seq<real>, c: real): (r: seq<real>)
    ensures |r| == |res|
    ensures forall i | 0 <= i < |res| :: r[i] == c + res[i]
  {
    seq(|res|, i requires 0 <= i < |res| => c + res[i])
  }

  /** Adding `c` to every entry adds `c` to the mean. */
  lemma MeanShift(res: seq<real>, c: real)
    requires |res| > 0
    ensures Fit.Mean(Shift(res, c)) == c + Fit.Mean(res)
  {
    var n := |res| as real;
    Fit.SumAffine(Shift(res, c), res, c, 1.0, |res|);
    assert Fit.Sum(Shift(res, c)) == c * n + Fit.Sum(res);
    assert (c * n + Fit.Sum(res)) / n == c + Fit.Sum(res) / n;
  }

  /**
   * The drift is blind to the intercept: shifting every residual by the
   * same amount leaves it unchanged, so a constant residual has no drift.
   */
  lemma DriftShiftInvariant(res: seq<real>, c: real)
    requires |res| >= 5
    ensures Drift(Shift(res, c)) == Drift(res)
  {
    var s := Shift(res, c);
    assert s[|s| - 5..] == Shift(res[|res| - 5..], c);
    assert s[..5] == Shift(res[..5], c);
    MeanShift(res[|res| - 5..], c);
    MeanShift(res[..5], c);
  }

  /** A constant residual vector has zero drift. */
  lemma DriftOfConstant(res: seq<real>, c: real)
    requires |res| >= 5 && forall i | 0 <= i < |res| :: res[i] == c
    ensures Drift(res) == 0.0
  {
    var zero := seq(|res|, i requires 0 <= i < |res| => 0.0);
    assert res == Shift(zero, c);
    DriftShiftInvariant(zero, c);
    Fit.SumAffine(zero[|res| - 5..], zero, 0.0, 0.0, 5);
    Fit.SumAffine(zero[..5], zero, 0.0, 0.0, 5);
  }

  /** `Σ (a + b) = Σ a + Σ b`. */
  lemma {:induction false} SumConcat(a: seq<real>, b: seq<real>)
    ensures Fit.Sum(a + b) == Fit.Sum(a) + Fit.Sum(b)
  {
    if |b| > 0 {
      var b' := b[..|b| - 1];
      var n := |a + b|;
      SumConcat(a, b');
      assert (a + b)[..n - 1] == a + b';
      SumPrefix(a + b, n - 1);
      SumPrefix(b, |b| - 1);
      assert Fit.Sum(a + b) == Fit.SumTo(a + b, n - 1) + b[|b| - 1];
      assert Fit.Sum(b) == Fit.SumTo(b, |b| - 1) + b[|b| - 1];
    } else {
      assert a + b == a;
    }
  }

  /** The running sum over a prefix is the sum of that prefix. */
  lemma {:induction false} SumPrefix(s: seq<real>, k: nat)
    requires k <= |s|
    ensures Fit.SumTo(s, k) == Fit.Sum(s[..k])
  {
    SumToPrefix(s, s[..k], k);
  }

  lemma {:induction false} SumToPrefix(s: seq<real>, t: seq<real>, k: nat)
    requires k <= |s| && k <= |t| && forall i | 0 <= i < k :: s[i] == t[i]
    ensures Fit.SumTo(s, k) == Fit.SumTo(t, k)
  {
    if k > 0 {
      SumToPrefix(s, t, k - 1);
    }
  }

  /** The quartile means `res[:7]`, `res[7:14]`, `res[14:21]`, `res[21:]`. */
  function Quartiles(res: seq<real>): (q: seq<real>)
    requires |res| == 28
    ensures |q| == 4
  {
    [Fit.Mean(res[..7]), Fit.Mean(res[7..14]), Fit.Mean(res[14..21]), Fit.Mean(res[21..])]
  }

  /**
   * The four quartiles partition the 28 validation residuals into
   * blocks of 7, so the mean of the quartile means is the overall mean.
   */
  lemma QuartilesPartition(res: seq<real>)
    requires |res| == 28
    ensures res[..7] + res[7..14] + res[14..21] + res[21..] == res
    ensures |res[..7]| == |res[7..14]| == |res[14..21]| == |res[21..]| == 7
    ensures Fit.Mean(Quartiles(res)) == Fit.Mean(res)
  {
    var q1, q2, q3, q4 := res[..7], res[7..14], res[14..21], res[21..];
    assert q1 + q2 + q3 + q4 == res;
    SumConcat(q1 + q2 + q3, q4);
    SumConcat(q1 + q2, q3);
    SumConcat(q1, q2);
    var q := Quartiles(res);
    assert Fit.SumTo(q, 1) == q[0];
    assert Fit.SumTo(q, 2) == q[0] + q[1];
    assert Fit.SumTo(q, 3) == q[0] + q[1] + q[2];
    assert Fit.Sum(q) == q[0] + q[1] + q[2] + q[3];
    assert Fit.Sum(res) == Fit.Sum(q1) + Fit.Sum(q2) + Fit.Sum(q3) + Fit.Sum(q4);
  }

  /** The label of the drift table. */
  datatype Status = Normalizing | UnderPredict | OverPredict

  /**
   * `NORMALIZING` when `|drift| < 1`, else `Under-predict` when the
   * drift is positive, else `Over-predict`.
   */
  function Classify(drift: real): (s: Status)
    ensures s == Normalizing <==> -1.0 < drift < 1.0
    ensures s == UnderPredict <==> drift >= 1.0
    ensures s == OverPredict <==> drift <= -1.0
  {
    if Abs(drift) < 1.0 then Normalizing
    else if drift > 0.0 then UnderPredict
    else OverPredict
  }

  // ---------------------------------------------------------------
  // Gap vectors
  // ---------------------------------------------------------------

  /** `np.diff`. */
  function Diff(s: seq<real>): (d: seq<real>)
    ensures |d| == if |s| == 0 then 0 else |s| - 1
  {
    if |s| <= 1 then [] else seq(|s| - 1, i requires 0 <= i < |s| - 1 => s[i + 1] - s[i])
  }

  /** `c * v`, elementwise. */
  function ScaleAll(c: real, v: seq<real>): (r: seq<real>)
    ensures |r| == |v|
  {
    seq(|v|, i requires 0 <= i < |v| => c * v[i])
  }

  /**
   * `np.diff(zeros[:58])[30:]` are the gaps of the validation zeros:
   * 27 of them, matching the gaps of the 28 validation predictions.
   */
  lemma GapsAligned(zeros: seq<real>, predValid: seq<real>)
    requires |zeros| >= ValidEnd && |predValid| == ValidEnd - TrainEnd
    ensures Diff(zeros[..ValidEnd])[TrainEnd..] == Diff(zeros[TrainEnd..ValidEnd])
    ensures |Diff(zeros[..ValidEnd])[TrainEnd..]| == |Diff(predValid)| == 27
  {
    var d := Diff(zeros[..ValidEnd]);
    var e := Diff(zeros[TrainEnd..ValidEnd]);
    assert forall i | 0 <= i < |e| :: d[TrainEnd + i] == e[i];
  }

  /** The gaps of `a·λ + b` are `a` times the gaps of `λ`: the intercept drops out. */
  lemma ModelGapsScale(x: seq<real>, intercept: real, slope: real)
    ensures Diff(Fit.Predict(x, intercept, slope)) == ScaleAll(slope, Diff(x))
  {
    var p := Fit.Predict(x, intercept, slope);
    var dp, sd := Diff(p), ScaleAll(slope, Diff(x));
    forall i | 0 <= i < |dp|
      ensures dp[i] == sd[i]
    {
      GapOfLine(intercept, slope, x[i], x[i + 1]);
      assert dp[i] == p[i + 1] - p[i];
      assert sd[i] == slope * (x[i + 1] - x[i]);
    }
  }

  lemma GapOfLine(intercept: real, slope: real, u: real, v: real)
    ensures (intercept + slope * v) - (intercept + slope * u) == slope * (v - u)
  {
  }

  // ---------------------------------------------------------------
  // One lattice size
  // ---------------------------------------------------------------

  /**
   * The map `γ = a·λ + b` fitted by `lstsq` on the design `[λ, 1]`
   * over the first 30 band values; as a `Fit.Line` the source's slope
   * `a` is `b` and its intercept `b` is `a`.
   */
  function TrainLine(model: seq<real>, zeros: seq<real>): (l: Fit.Line)
    requires |model| >= TrainEnd && |zeros| >= TrainEnd
    ensures Fit.NormalEquations(model[..TrainEnd], zeros[..TrainEnd], l)
  {
    Fit.LeastSquares(model[..TrainEnd], zeros[..TrainEnd]).value
  }

  /** `pred_train`, `pred_valid`, `pred_extended`. */
  datatype Predictions = Predictions(train: seq<real>, valid: seq<real>, extended: seq<real>)

  /** The line applied to the band slices `[0, 30)`, `[30, 58)` and `[58, 73)`. */
  function PredictionsOf(model: seq<real>, l: Fit.Line): (p: Predictions)
    requires |model| >= ExtendEnd
    ensures |p.train| == TrainEnd && |p.valid| == ValidEnd - TrainEnd && |p.extended| == ExtendEnd - ValidEnd
    ensures forall i | 0 <= i < TrainEnd :: p.train[i] == l.a + l.b * model[i]
    ensures forall i | 0 <= i < ValidEnd - TrainEnd :: p.valid[i] == l.a + l.b * model[TrainEnd + i]
    ensures forall i | 0 <= i < ExtendEnd - ValidEnd :: p.extended[i] == l.a + l.b * model[ValidEnd + i]
  {
    Predictions(Fit.Predict(model[..TrainEnd], l.a, l.b),
                Fit.Predict(model[TrainEnd..ValidEnd], l.a, l.b),
                Fit.Predict(model[ValidEnd..ExtendEnd], l.a, l.b))
  }

  /** `mean(|(zeros - pred) / zeros|)·100`. */
  function MapeOf(pred: seq<real>, zeros: seq<real>): (r: Option<real>)
    requires |pred| == |zeros|
    ensures GeoSelect.AllPositive(zeros) && |zeros| > 0 ==>
              r.Some? && r.value >= 0.0 && (r.value == 0.0 <==> pred == zeros)
  {
    Fit.SubZero(pred, zeros);
    GeoSelect.Mape(Fit.Sub(pred, zeros), zeros)
  }

  /** `train_mape`, `valid_mape`, `extended_mape`. */
  datatype Mapes = Mapes(train: Option<real>, valid: Option<real>, extended: Option<real>)

  function MapesOf(p: Predictions, zeros: seq<real>): (m: Mapes)
    requires |zeros| == ExtendEnd
    requires |p.train| == TrainEnd && |p.valid| == ValidEnd - TrainEnd && |p.extended| == ExtendEnd - ValidEnd
    ensures GeoSelect.AllPositive(zeros) ==>
              m.train.Some? && m.valid.Some? && m.extended.Some? &&
              (m.train.value == 0.0 <==> p.train == zeros[..TrainEnd]) &&
              (m.valid.value == 0.0 <==> p.valid == zeros[TrainEnd..ValidEnd]) &&
              (m.extended.value == 0.0 <==> p.extended == zeros[ValidEnd..ExtendEnd])
  {
    assert GeoSelect.AllPositive(zeros) ==>
             GeoSelect.AllPositive(zeros[..TrainEnd]) && GeoSelect.AllPositive(zeros[TrainEnd..ValidEnd]) &&
             GeoSelect.AllPositive(zeros[ValidEnd..ExtendEnd]);
    Mapes(MapeOf(p.train, zeros[..TrainEnd]), MapeOf(p.valid, zeros[TrainEnd..ValidEnd]),
          MapeOf(p.extended, zeros[ValidEnd..ExtendEnd]))
  }

  /** The drift statistics of the 28 validation residuals. */
  datatype DriftStats = DriftStats(first5: real, middle14: real, last5: real, quartiles: seq<real>, drift: real)

  /**
   * `drift_first5`, `drift_middle14`, `drift_last5`, the quartile means
   * and `total_drift = drift_last5 - drift_first5`.
   */
  function DriftOf(res: seq<real>): (d: DriftStats)
    requires |res| == ValidEnd - TrainEnd
    ensures d.drift == d.last5 - d.first5 && d.drift == Drift(res)
    ensures |d.quartiles| == 4 && Fit.Mean(d.quartiles) == Fit.Mean(res)
  {
    QuartilesPartition(res);
    DriftStats(Fit.Mean(res[..5]), Fit.Mean(res[14..28]), Fit.Mean(res[23..]),
               Quartiles(res), Fit.Mean(res[23..]) - Fit.Mean(res[..5]))
  }

  /** One row of the results table. */
  datatype BandFit = BandFit(mode: Bands.Mode, n: nat, line: Fit.Line, pred: Predictions, mape: Mapes,
                             residuals: seq<real>, stats: DriftStats)

  /**
   * The fit of a sorted middle band (at least 73 values) onto the 73
   * zeros: the line from the first 30, the predictions of the three
   * slices, their MAPEs, and the drift statistics of the validation
   * residuals `pred_valid - valid_zeros`.
   */
  function FitBand(model: seq<real>, N: nat, mode: Bands.Mode, zeros: seq<real>): (f: BandFit)
    requires |model| >= ExtendEnd && |zeros| == ExtendEnd
    ensures f.n == N && f.mode == mode
    ensures Fit.NormalEquations(model[..TrainEnd], zeros[..TrainEnd], f.line)
    ensures f.pred == PredictionsOf(model, f.line) && f.mape == MapesOf(f.pred, zeros)
    ensures |f.residuals| == ValidEnd - TrainEnd
    ensures forall i | 0 <= i < ValidEnd - TrainEnd :: f.residuals[i] == f.pred.valid[i] - zeros[TrainEnd + i]
    ensures f.stats == DriftOf(f.residuals)
  {
    var l := TrainLine(model, zeros);
    var p := PredictionsOf(model, l);
    var res := Fit.Sub(p.valid, zeros[TrainEnd..ValidEnd]);
    BandFit(mode, N, l, p, MapesOf(p, zeros), res, DriftOf(res))
  }

  /**
   * The body of the `for N in N_values` loop: `None` for a skipped size,
   * otherwise the fit of the sorted middle band.
   */
  function Analyse(evals: seq<real>, N: nat, mode: Bands.Mode, zeros: seq<real>): (r: Option<BandFit>)
    requires |evals| == N && |zeros| == ExtendEnd
    ensures r.None? <==> !Kept(N)
    ensures r.Some? ==> r.value == FitBand(MiddleBand(evals, N), N, mode, zeros)
  {
    if !Kept(N) then None
    else Some(FitBand(MiddleBand(evals, N), N, mode, zeros))
  }

  /** The data of `FitBandExact`: every zero lies on the line `γ = s·λ + c`. */
  predicate OnLine(model: seq<real>, zeros: seq<real>, s: real, c: real)
    requires |model| >= ExtendEnd && |zeros| == ExtendEnd
  {
    forall i | 0 <= i < ExtendEnd :: zeros[i] == c + s * model[i]
  }

  /**
   * On a band whose values map exactly onto all 73 zeros by
   * `γ = s·λ + c` (with at least two distinct training values), the fit
   * recovers `s` and `c`, every prediction hits its zero, every
   * validation residual vanishes and there is no drift.
   */
  lemma FitBandExact(model: seq<real>, N: nat, mode: Bands.Mode, zeros: seq<real>, s: real, c: real)
    requires |model| >= ExtendEnd && |zeros| == ExtendEnd
    requires OnLine(model, zeros, s, c) && !Fit.Constant(model[..TrainEnd])
    ensures var f := FitBand(model, N, mode, zeros);
            f.line == Fit.Line(c, s) &&
            f.pred == Predictions(zeros[..TrainEnd], zeros[TrainEnd..ValidEnd], zeros[ValidEnd..ExtendEnd]) &&
            (forall i | 0 <= i < |f.residuals| :: f.residuals[i] == 0.0) &&
            f.stats.drift == 0.0
  {
    var f := FitBand(model, N, mode, zeros);
    TrainOnLine(model, zeros, s, c);
    Fit.NormalEquationsExact(model[..TrainEnd], zeros[..TrainEnd], f.line, c, s);
    ExactPredictions(model, zeros, s, c);
    ExactResiduals(f.residuals, f.pred.valid, zeros);
    DriftOfConstant(f.residuals, 0.0);
  }

  /** The first 30 zeros are the line's predictions on the first 30 band values. */
  lemma TrainOnLine(model: seq<real>, zeros: seq<real>, s: real, c: real)
    requires |model| >= ExtendEnd && |zeros| == ExtendEnd && OnLine(model, zeros, s, c)
    ensures zeros[..TrainEnd] == Fit.Predict(model[..TrainEnd], c, s)
  {
    forall i | 0 <= i < TrainEnd
      ensures zeros[..TrainEnd][i] == Fit.Predict(model[..TrainEnd], c, s)[i]
    {
    }
  }

  /** Residuals of predictions that hit the validation zeros vanish. */
  lemma ExactResiduals(res: seq<real>, valid: seq<real>, zeros: seq<real>)
    requires |zeros| == ExtendEnd && valid == zeros[TrainEnd..ValidEnd] && |res| == ValidEnd - TrainEnd
    requires forall i | 0 <= i < ValidEnd - TrainEnd :: res[i] == valid[i] - zeros[TrainEnd + i]
    ensures forall i | 0 <= i < |res| :: res[i] == 0.0
  {
  }

  /** The line through exactly affine data predicts every zero. */
  lemma ExactPredictions(model: seq<real>, zeros: seq<real>, s: real, c: real)
    requires |model| >= ExtendEnd && |zeros| == ExtendEnd && OnLine(model, zeros, s, c)
    ensures PredictionsOf(model, Fit.Line(c, s)) ==
            Predictions(zeros[..TrainEnd], zeros[TrainEnd..ValidEnd], zeros[ValidEnd..ExtendEnd])
  {
    var p := PredictionsOf(model, Fit.Line(c, s));
    assert p.train == zeros[..TrainEnd] by {
      assert forall i | 0 <= i < TrainEnd :: p.train[i] == zeros[..TrainEnd][i];
    }
    assert p.valid == zeros[TrainEnd..ValidEnd] by {
      assert forall i | 0 <= i < ValidEnd - TrainEnd :: p.valid[i] == zeros[TrainEnd..ValidEnd][i];
    }
    assert p.extended == zeros[ValidEnd..ExtendEnd] by {
      assert forall i | 0 <= i < ExtendEnd - ValidEnd :: p.extended[i] == zeros[ValidEnd..ExtendEnd][i];
    }
  }

  /** Against positive zeros, an exact fit has all three MAPEs zero. */
  lemma FitBandExactMape(model: seq<real>, N: nat, mode: Bands.Mode, zeros: seq<real>, s: real, c: real)
    requires |model| >= ExtendEnd && |zeros| == ExtendEnd && GeoSelect.AllPositive(zeros)
    requires OnLine(model, zeros, s, c) && !Fit.Constant(model[..TrainEnd])
    ensures FitBand(model, N, mode, zeros).mape == Mapes(Some(0.0), Some(0.0), Some(0.0))
  {
    FitBandExact(model, N, mode, zeros, s, c);
  }

  // ---------------------------------------------------------------
  // extended_analysis.py
  // ---------------------------------------------------------------

  /** The lattice size of `extended_analysis.py`. */
  const ExtendedN: nat := 220

  /** What `extended_analysis.py` computes before plotting. */
  datatype Extended = Extended(slope: real, intercept: real, predTrain: seq<real>, predValid: seq<real>,
                               predExtended: Option<seq<real>>, residualsValid: seq<real>,
                               riemannGaps: seq<real>, modelGaps: seq<real>)

  /**
   * The script on the 220-site spectrum: no skip rule, but the extended
   * prediction is guarded by `len(model_evals) >= 73`, and the residual
   * is `valid_zeros - pred_valid`, the opposite sign of the sweeps.
   * At `N = 220` the band holds exactly 73 values (`BandAt220`), so that
   * guard never fails and `predExtended` is always `Some`. The `Option`
   * is kept only to mirror the script's `pred_extended = None` default.
   */
  function ExtendedAnalysis(evals: seq<real>, zeros: seq<real>): (r: Extended)
    requires |evals| == ExtendedN && |zeros| == ExtendEnd
    ensures r.predExtended.Some? && |r.predExtended.value| == ExtendEnd - ValidEnd
    ensures |r.predValid| == |r.residualsValid| == ValidEnd - TrainEnd && |r.riemannGaps| == ValidEnd - 1
    ensures forall i | 0 <= i < ValidEnd - TrainEnd :: r.residualsValid[i] == -(r.predValid[i] - zeros[TrainEnd + i])
    ensures |r.riemannGaps[TrainEnd..]| == |r.modelGaps| == 27
    ensures r.riemannGaps[TrainEnd..] == Diff(zeros[TrainEnd..ValidEnd])
    ensures r.modelGaps == ScaleAll(r.slope, Diff(MiddleBand(evals, ExtendedN)[TrainEnd..ValidEnd]))
  {
    BandAt220();
    ExtendedOf(MiddleBand(evals, ExtendedN), zeros)
  }

  /**
   * The script's computation on a band of at least 73 values. Under this
   * precondition the `>= 73` guard always holds and its `None` branch is
   * dead.
   */
  function ExtendedOf(model: seq<real>, zeros: seq<real>): (r: Extended)
    requires |model| >= ExtendEnd && |zeros| == ExtendEnd
    ensures r.predExtended.Some? && |r.predExtended.value| == ExtendEnd - ValidEnd
    ensures |r.predValid| == |r.residualsValid| == ValidEnd - TrainEnd && |r.riemannGaps| == ValidEnd - 1
    ensures forall i | 0 <= i < ValidEnd - TrainEnd :: r.residualsValid[i] == -(r.predValid[i] - zeros[TrainEnd + i])
    ensures |r.riemannGaps[TrainEnd..]| == |r.modelGaps| == 27
    ensures r.riemannGaps[TrainEnd..] == Diff(zeros[TrainEnd..ValidEnd])
    ensures r.modelGaps == ScaleAll(r.slope, Diff(model[TrainEnd..ValidEnd]))
  {
    var l := TrainLine(model, zeros);
    var predValid := Fit.Predict(model[TrainEnd..ValidEnd], l.a, l.b);
    var predExtended :=
      if |model| >= ExtendEnd then Some(Fit.Predict(model[ValidEnd..ExtendEnd], l.a, l.b)) else None;
    GapsAligned(zeros, predValid);
    ModelGapsScale(model[TrainEnd..ValidEnd], l.a, l.b);
    Extended(l.b, l.a, Fit.Predict(model[..TrainEnd], l.a, l.b), predValid, predExtended,
             Fit.Sub(zeros[TrainEnd..ValidEnd], predValid),
             Diff(zeros[..ValidEnd]), Diff(predValid))
  }

  // ---------------------------------------------------------------
  // The sweeps over lattice sizes
  // ---------------------------------------------------------------

  /** `list(range(lo, hi, step))`. */
  function Range(lo: nat, hi: nat, step: nat): (r: seq<nat>)
    requires step > 0
    ensures forall i | 0 <= i < |r| :: lo <= r[i] < hi
    decreases hi - lo
  {
    if lo >= hi then [] else [lo] + Range(lo + step, hi, step)
  }

  /** The sizes the skip rule lets through, in order. */
  function KeptSizes(ns: seq<nat>): (r: seq<nat>)
    ensures forall i | 0 <= i < |r| :: Kept(r[i])
  {
    if |ns| == 0 then []
    else KeptSizes(ns[..|ns| - 1]) + (if Kept(ns[|ns| - 1]) then [ns[|ns| - 1]] else [])
  }

  lemma {:induction false} KeptSizesConcat(a: seq<nat>, b: seq<nat>)
    ensures KeptSizes(a + b) == KeptSizes(a) + KeptSizes(b)
  {
    if |b| == 0 {
      assert a + b == a;
    } else {
      KeptSizesConcat(a, b[..|b| - 1]);
      assert (a + b)[..|a + b| - 1] == a + b[..|b| - 1];
    }
  }

  /** Sizes from 218 on are all kept. */
  lemma {:induction false} KeptAllLarge(ns: seq<nat>)
    requires forall i | 0 <= i < |ns| :: ns[i] >= 218
    ensures KeptSizes(ns) == ns
  {
    if |ns| > 0 {
      KeptAllLarge(ns[..|ns| - 1]);
      KeptThreshold(ns[|ns| - 1]);
      assert ns[..|ns| - 1] + [ns[|ns| - 1]] == ns;
    }
  }

  /** The first point of the grid `lo, lo + step, …` at or above 218. */
  function FirstKept(lo: nat, step: nat): (r: nat)
    requires step > 0
    ensures r >= lo && r >= 218
    decreases 218 - lo
  {
    if lo >= 218 then lo else FirstKept(lo + step, step)
  }

  /** A grid loses exactly its points below 218. */
  lemma {:induction false} KeptRange(lo: nat, hi: nat, step: nat)
    requires step > 0
    ensures KeptSizes(Range(lo, hi, step)) == Range(FirstKept(lo, step), hi, step)
    decreases hi - lo
  {
    if lo >= 218 {
      KeptAllLarge(Range(lo, hi, step));
    } else if lo < hi {
      KeptRange(lo + step, hi, step);
      KeptSizesConcat([lo], Range(lo + step, hi, step));
      KeptThreshold(lo);
      assert KeptSizes([lo]) == [];
    }
  }

  /** `range(160, 301, 10)` of `test_multiple_N.py`: 160 … 210 are skipped, 220 … 300 kept. */
  lemma MultipleNGrid()
    ensures KeptSizes(Range(160, 301, 10)) == Range(220, 301, 10) == [220, 230, 240, 250, 260, 270, 280, 290, 300]
  {
    KeptRange(160, 301, 10);
    assert FirstKept(160, 10) == 220;
    MultipleNKeptList();
  }

  lemma MultipleNKeptList()
    ensures Range(220, 301, 10) == [220, 230, 240, 250, 260, 270, 280, 290, 300]
  {
  }

  /** `range(300, 351, 5)` of `test_N_300_350.py`: nothing is skipped, every band holds at least 100 values. */
  lemma HighNGrid()
    ensures KeptSizes(Range(300, 351, 5)) == Range(300, 351, 5)
    ensures |Range(300, 351, 5)| == 11
    ensures forall i | 0 <= i < |Range(300, 351, 5)| :: BandLength(Range(300, 351, 5)[i]) >= 100
  {
    HighNKept();
    HighNCount();
    HighNBands();
  }

  lemma HighNKept()
    ensures KeptSizes(Range(300, 351, 5)) == Range(300, 351, 5)
  {
    KeptRange(300, 351, 5);
  }

  lemma HighNCount()
    ensures |Range(300, 351, 5)| == 11
  {
  }

  lemma HighNBands()
    ensures forall i | 0 <= i < |Range(300, 351, 5)| :: BandLength(Range(300, 351, 5)[i]) >= 100
  {
    var g := Range(300, 351, 5);
    forall i | 0 <= i < |g|
      ensures BandLength(g[i]) >= 100
    {
      BandAtLeastHundred(g[i]);
    }
  }

  /** `N_test_values` of `test_chiral_phases.py`. */
  const ChiralSizes: seq<nat> := [220, 240, 260, 280, 300, 320, 350]

  /** No size of the chiral test is skipped. */
  lemma ChiralGridKept()
    ensures KeptSizes(ChiralSizes) == ChiralSizes
  {
    KeptAllLarge(ChiralSizes);
  }

  /** The foreign numerics the scripts rely on: `u**p >= 0` for `u >= 0` and `eigh` returns one value per row. */
  ghost predicate ScriptNumerics(num: Bands.Numerics, eigh: Matrix.Mat -> seq<real>)
  {
    GeoSelect.PowNonNegative(num.pow) && GeoSelect.EigvalshCounts(eigh)
  }

  /** The fixed parameters admit every lattice: the decay never divides by zero. */
  predicate ScriptParamsOk(prm: Bands.BandParams)
  {
    prm.alpha >= 0.0 && prm.nFlux != 0.0
  }

  /** One pass of the sweep loop at size `N`. */
  function AnalyseAt(N: nat, prm: Bands.BandParams, num: Bands.Numerics, eigh: Matrix.Mat -> seq<real>,
                     zeros: seq<real>): (r: Option<BandFit>)
    requires ScriptParamsOk(prm) && ScriptNumerics(num, eigh) && |zeros| == ExtendEnd
    ensures r.None? <==> !Kept(N)
    ensures r.Some? ==> r.value.n == N
    ensures r.Some? ==> Bands.DecayDefined(N, prm, num) &&
                        r.value == FitBand(MiddleBand(eigh(Bands.Hamiltonian(N, prm, num)), N), N, prm.mode, zeros)
  {
    Bands.DecayNonNegative(N, prm, num);
    Analyse(eigh(Bands.Hamiltonian(N, prm, num)), N, prm.mode, zeros)
  }

  /** The `results` list after the sweep over `ns`. */
  function SweepSpec(ns: seq<nat>, prm: Bands.BandParams, num: Bands.Numerics, eigh: Matrix.Mat -> seq<real>,
                     zeros: seq<real>): seq<BandFit>
    requires ScriptParamsOk(prm) && ScriptNumerics(num, eigh) && |zeros| == ExtendEnd
  {
    if |ns| == 0 then []
    else
      var rest := SweepSpec(ns[..|ns| - 1], prm, num, eigh, zeros);
      match AnalyseAt(ns[|ns| - 1], prm, num, eigh, zeros)
      case None => rest
      case Some(f) => rest + [f]
  }

  function SizesOf(results: seq<BandFit>): (r: seq<nat>)
    ensures |r| == |results|
  {
    seq(|results|, i requires 0 <= i < |results| => results[i].n)
  }

  /** The sweep reports exactly the sizes the skip rule keeps, in grid order. */
  lemma {:induction false} SweepReportsKept(ns: seq<nat>, prm: Bands.BandParams, num: Bands.Numerics,
                                            eigh: Matrix.Mat -> seq<real>, zeros: seq<real>)
    requires ScriptParamsOk(prm) && ScriptNumerics(num, eigh) && |zeros| == ExtendEnd
    ensures SizesOf(SweepSpec(ns, prm, num, eigh, zeros)) == KeptSizes(ns)
  {
    if |ns| > 0 {
      var prev := SweepSpec(ns[..|ns| - 1], prm, num, eigh, zeros);
      var all := SweepSpec(ns, prm, num, eigh, zeros);
      var N := ns[|ns| - 1];
      SweepReportsKept(ns[..|ns| - 1], prm, num, eigh, zeros);
      SweepSpecLast(ns, prm, num, eigh, zeros);
      KeptSizesLast(ns);
      if Kept(N) {
        SizesOfSnoc(prev, all, N);
      }
    }
  }

  /** Every row of the sweep is the fit of the sorted middle band of the lattice of its own size. */
  lemma {:induction false} SweepRowsAnalysed(ns: seq<nat>, prm: Bands.BandParams, num: Bands.Numerics,
                                             eigh: Matrix.Mat -> seq<real>, zeros: seq<real>)
    requires ScriptParamsOk(prm) && ScriptNumerics(num, eigh) && |zeros| == ExtendEnd
    ensures var rows := SweepSpec(ns, prm, num, eigh, zeros);
            forall i | 0 <= i < |rows| :: AnalyseAt(rows[i].n, prm, num, eigh, zeros) == Some(rows[i])
  {
    if |ns| > 0 {
      SweepRowsAnalysed(ns[..|ns| - 1], prm, num, eigh, zeros);
      SweepSpecLast(ns, prm, num, eigh, zeros);
    }
  }

  lemma KeptSizesLast(ns: seq<nat>)
    requires |ns| > 0
    ensures KeptSizes(ns) == KeptSizes(ns[..|ns| - 1]) + (if Kept(ns[|ns| - 1]) then [ns[|ns| - 1]] else [])
  {
  }

  lemma SizesOfSnoc(prev: seq<BandFit>, all: seq<BandFit>, N: nat)
    requires |all| == |prev| + 1 && all[..|prev|] == prev && all[|prev|].n == N
    ensures SizesOf(all) == SizesOf(prev) + [N]
  {
    assert forall i | 0 <= i < |prev| :: all[i] == prev[i];
  }

  /** The last size adds one row, carrying that size and the sweep's mode, exactly when it is kept. */
  lemma SweepSpecLast(ns: seq<nat>, prm: Bands.BandParams, num: Bands.Numerics, eigh: Matrix.Mat -> seq<real>,
                      zeros: seq<real>)
    requires |ns| > 0 && ScriptParamsOk(prm) && ScriptNumerics(num, eigh) && |zeros| == ExtendEnd
    ensures var prev := SweepSpec(ns[..|ns| - 1], prm, num, eigh, zeros);
            var all := SweepSpec(ns, prm, num, eigh, zeros);
            var N := ns[|ns| - 1];
            if Kept(N) then |all| == |prev| + 1 && all[..|prev|] == prev && all[|prev|].n == N &&
                            all[|prev|].mode == prm.mode
            else all == prev
  {
    var N := ns[|ns| - 1];
    var o := AnalyseAt(N, prm, num, eigh, zeros);
    if Kept(N) {
      assert o.Some? && o.value.n == N;
      Bands.DecayNonNegative(N, prm, num);
      assert o.value.mode == prm.mode;
    }
  }

  /**
   * `for N in N_values`: build, diagonalise, skip a short band, fit and
   * append.
   */
  method SweepSizes(ns: seq<nat>, prm: Bands.BandParams, num: Bands.Numerics, eigh: Matrix.Mat -> seq<real>,
                    zeros: seq<real>) returns (results: seq<BandFit>)
    requires ScriptParamsOk(prm) && ScriptNumerics(num, eigh) && |zeros| == ExtendEnd
    ensures results == SweepSpec(ns, prm, num, eigh, zeros)
  {
    results := [];
    for k := 0 to |ns|
      invariant results == SweepSpec(ns[..k], prm, num, eigh, zeros)
    {
      assert ns[..k + 1][..k] == ns[..k];
      var N := ns[k];
      Bands.DecayNonNegative(N, prm, num);
      var H := Bands.BuildHamiltonian(N, prm, num);
      var evals := eigh(H);
      var startIdx := N / 3;
      var endIdx := 2 * N / 3;
      if endIdx - startIdx < ExtendEnd {
        continue;
      }
      var model := MiddleBand(evals, N);
      results := results + [FitBand(model, N, prm.mode, zeros)];
    }
    assert ns[..|ns|] == ns;
  }

  /** `test_multiple_N.py` and `test_N_300_350.py`: the uniform chirality. */
  method MultipleN(num: Bands.Numerics, eigh: Matrix.Mat -> seq<real>, zeros: seq<real>)
    returns (results: seq<BandFit>)
    requires ScriptNumerics(num, eigh) && |zeros| == ExtendEnd
    ensures |results| == 9 && SizesOf(results) == [220, 230, 240, 250, 260, 270, 280, 290, 300]
    ensures results == SweepSpec(Range(160, 301, 10), Bands.ScriptParams(Bands.Uniform), num, eigh, zeros)
    ensures forall i | 0 <= i < |results| ::
              AnalyseAt(results[i].n, Bands.ScriptParams(Bands.Uniform), num, eigh, zeros) == Some(results[i])
  {
    SweepRowsAnalysed(Range(160, 301, 10), Bands.ScriptParams(Bands.Uniform), num, eigh, zeros);
    results := SweepSizes(Range(160, 301, 10), Bands.ScriptParams(Bands.Uniform), num, eigh, zeros);
    SweepReportsKept(Range(160, 301, 10), Bands.ScriptParams(Bands.Uniform), num, eigh, zeros);
    MultipleNGrid();
  }

  /**
   * `test_N_300_350.py`: the uniform chirality over a grid of sizes that
   * are all kept (the script's `range(300, 351, 5)` is, by `HighNGrid`),
   * then the status of each row's total drift.
   */
  method HighN(ns: seq<nat>, num: Bands.Numerics, eigh: Matrix.Mat -> seq<real>, zeros: seq<real>)
    returns (results: seq<BandFit>, status: seq<Status>)
    requires ScriptNumerics(num, eigh) && |zeros| == ExtendEnd
    requires forall i | 0 <= i < |ns| :: ns[i] >= 218
    ensures |results| == |status| == |ns| && SizesOf(results) == ns
    ensures forall i | 0 <= i < |results| :: status[i] == Classify(results[i].stats.drift)
    ensures results == SweepSpec(ns, Bands.ScriptParams(Bands.Uniform), num, eigh, zeros)
    ensures forall i | 0 <= i < |results| ::
              AnalyseAt(ns[i], Bands.ScriptParams(Bands.Uniform), num, eigh, zeros) == Some(results[i])
  {
    SweepRowsAnalysed(ns, Bands.ScriptParams(Bands.Uniform), num, eigh, zeros);
    results := SweepSizes(ns, Bands.ScriptParams(Bands.Uniform), num, eigh, zeros);
    SweepReportsKept(ns, Bands.ScriptParams(Bands.Uniform), num, eigh, zeros);
    KeptAllLarge(ns);
    status := Statuses(results);
  }

  /** The drift table loop: one status per row. */
  method Statuses(results: seq<BandFit>) returns (status: seq<Status>)
    ensures |status| == |results|
    ensures forall i | 0 <= i < |results| :: status[i] == Classify(results[i].stats.drift)
  {
    status := [];
    for i := 0 to |results|
      invariant |status| == i
      invariant forall k | 0 <= k < i :: status[k] == Classify(results[k].stats.drift)
    {
      status := status + [Classify(results[i].stats.drift)];
    }
  }

  /** `modes` of `test_chiral_phases.py`. */
  const ChiralModes: seq<Bands.Mode> := [Bands.Uniform, Bands.Sublattice, Bands.Center, Bands.Ramp]

  /** `all_results` after the modes `ms`, each swept over `ChiralSizes`. */
  function ChiralSpec(ms: seq<Bands.Mode>, num: Bands.Numerics, eigh: Matrix.Mat -> seq<real>,
                      zeros: seq<real>): seq<BandFit>
    requires ScriptNumerics(num, eigh) && |zeros| == ExtendEnd
  {
    if |ms| == 0 then []
    else ChiralSpec(ms[..|ms| - 1], num, eigh, zeros) +
         SweepSpec(ChiralSizes, Bands.ScriptParams(ms[|ms| - 1]), num, eigh, zeros)
  }

  /** One mode's sweep over `ChiralSizes`: seven rows, one per size, in order. */
  lemma ChiralRows(prm: Bands.BandParams, num: Bands.Numerics, eigh: Matrix.Mat -> seq<real>, zeros: seq<real>)
    requires ScriptParamsOk(prm) && ScriptNumerics(num, eigh) && |zeros| == ExtendEnd
    ensures var rows := SweepSpec(ChiralSizes, prm, num, eigh, zeros);
            |rows| == 7 &&
            forall k | 0 <= k < 7 :: rows[k].mode == prm.mode && rows[k].n == ChiralSizes[k]
  {
    var rows := SweepSpec(ChiralSizes, prm, num, eigh, zeros);
    SweepReportsKept(ChiralSizes, prm, num, eigh, zeros);
    ChiralGridKept();
    SweepModes(ChiralSizes, prm, num, eigh, zeros);
    forall k | 0 <= k < 7
      ensures rows[k].n == ChiralSizes[k]
    {
      assert SizesOf(rows)[k] == rows[k].n;
    }
  }

  /** `all` holds one row per mode of `ms` and size of `ChiralSizes`, mode-major. */
  predicate ModeMajor(all: seq<BandFit>, ms: seq<Bands.Mode>)
  {
    |all| == 7 * |ms| &&
    forall i | 0 <= i < |all| :: all[i].mode == ms[i / 7] && all[i].n == ChiralSizes[i % 7]
  }

  /** Appending one mode's seven rows keeps the table mode-major. */
  lemma ModeMajorAppend(prev: seq<BandFit>, last: seq<BandFit>, ms: seq<Bands.Mode>)
    requires |ms| > 0 && ModeMajor(prev, ms[..|ms| - 1])
    requires |last| == 7 && forall k | 0 <= k < 7 :: last[k].mode == ms[|ms| - 1] && last[k].n == ChiralSizes[k]
    ensures ModeMajor(prev + last, ms)
  {
    var all := prev + last;
    forall i | 0 <= i < |all|
      ensures all[i].mode == ms[i / 7] && all[i].n == ChiralSizes[i % 7]
    {
      if i < |prev| {
        assert ms[i / 7] == ms[..|ms| - 1][i / 7];
      } else {
        var k := i - |prev|;
        assert i == 7 * (|ms| - 1) + k;
        assert i / 7 == |ms| - 1 && i % 7 == k;
        assert all[i] == last[k];
      }
    }
  }

  /** Every mode contributes one row per size, mode-major. */
  lemma {:induction false} ChiralSpecShape(ms: seq<Bands.Mode>, num: Bands.Numerics, eigh: Matrix.Mat -> seq<real>,
                                           zeros: seq<real>)
    requires ScriptNumerics(num, eigh) && |zeros| == ExtendEnd
    ensures ModeMajor(ChiralSpec(ms, num, eigh, zeros), ms)
  {
    if |ms| > 0 {
      var ms' := ms[..|ms| - 1];
      ChiralSpecShape(ms', num, eigh, zeros);
      var prm := Bands.ScriptParams(ms[|ms| - 1]);
      ChiralRows(prm, num, eigh, zeros);
      ModeMajorAppend(ChiralSpec(ms', num, eigh, zeros), SweepSpec(ChiralSizes, prm, num, eigh, zeros), ms);
    }
  }

  /** Every row of a sweep carries the sweep's mode. */
  lemma {:induction false} SweepModes(ns: seq<nat>, prm: Bands.BandParams, num: Bands.Numerics,
                                      eigh: Matrix.Mat -> seq<real>, zeros: seq<real>)
    requires ScriptParamsOk(prm) && ScriptNumerics(num, eigh) && |zeros| == ExtendEnd
    ensures forall i | 0 <= i < |SweepSpec(ns, prm, num, eigh, zeros)| ::
              SweepSpec(ns, prm, num, eigh, zeros)[i].mode == prm.mode
  {
    if |ns| > 0 {
      SweepModes(ns[..|ns| - 1], prm, num, eigh, zeros);
      SweepSpecLast(ns, prm, num, eigh, zeros);
    }
  }

  /** One more mode appends that mode's sweep. */
  lemma ChiralSpecStep(ms: seq<Bands.Mode>, m: nat, num: Bands.Numerics, eigh: Matrix.Mat -> seq<real>,
                       zeros: seq<real>)
    requires m < |ms| && ScriptNumerics(num, eigh) && |zeros| == ExtendEnd
    ensures ChiralSpec(ms[..m + 1], num, eigh, zeros) ==
            ChiralSpec(ms[..m], num, eigh, zeros) + SweepSpec(ChiralSizes, Bands.ScriptParams(ms[m]), num, eigh, zeros)
  {
    assert ms[..m + 1][..m] == ms[..m];
  }

  /**
   * The mode-major double loop of `test_chiral_phases.py`, run over the
   * modes `ms` (the script passes `ChiralModes`): one row per mode and
   * size, in loop order.
   */
  method ChiralSweep(ms: seq<Bands.Mode>, num: Bands.Numerics, eigh: Matrix.Mat -> seq<real>, zeros: seq<real>)
    returns (all: seq<BandFit>)
    requires ScriptNumerics(num, eigh) && |zeros| == ExtendEnd
    ensures all == ChiralSpec(ms, num, eigh, zeros)
    ensures ModeMajor(all, ms)
  {
    all := [];
    for m := 0 to |ms|
      invariant all == ChiralSpec(ms[..m], num, eigh, zeros)
    {
      var rows := SweepSizes(ChiralSizes, Bands.ScriptParams(ms[m]), num, eigh, zeros);
      ChiralSpecStep(ms, m, num, eigh, zeros);
      all := all + rows;
    }
    assert ms[..|ms|] == ms;
    ChiralSpecShape(ms, num, eigh, zeros);
  }
}
