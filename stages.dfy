/**
 * The staged accept/reject logic at the end of both pipeline scripts.
 * After Stage 0 (the single-θ sweep) come three challengers: the two-θ
 * merge (Stage 1), the spinor operator (Stage 2) and the torus
 * (Stage 3). Each stage arrives here as the score of its best sweep
 * point, and each stage's spectrum window as a sequence; the sweeps and
 * builders that produce them live in other modules.
 *
 * `equation_test2` gates every stage with a plain strict `>` on R².
 * `hp_two_point_balance_vector_riemann` takes the better of Stages 0 and
 * 1 as a baseline and selects the torus only under a coupling floor and a
 * 1e-3 margin rule.
 */
module Stages {
  import opened Wrappers
  import Ranking

  /** Python's `a > b` on floats, with `None` for NaN: false whenever either is NaN. */
  predicate Gt(a: Option<real>, b: Option<real>)
  {
    a.Some? && b.Some? && a.value > b.value
  }

  /**
   * Python's builtin `max(a, b)`: it keeps `a` unless `b > a`, so a NaN
   * first argument is kept and a NaN second argument is ignored.
   */
  function PyMax(a: Option<real>, b: Option<real>): (m: Option<real>)
    ensures m == a || m == b
    ensures a.Some? && b.Some? ==> m.value >= a.value && m.value >= b.value
    ensures a.None? ==> m.None?
    ensures b.None? ==> m == a
  {
    if Gt(b, a) then b else a
  }

  datatype Stage = Single | Merged | Spinor | Torus

  /** Stage order, used to say "a tie keeps the earlier stage". */
  function Rank(s: Stage): nat
  {
    match s
    case Single => 0
    case Merged => 1
    case Spinor => 2
    case Torus => 3
  }

  /** The best sweep score of each stage: `(R², rmse)`. */
  datatype Fits = Fits(single: Ranking.Score, merged: Ranking.Score,
                       spinor: Ranking.Score, torus: Ranking.Score)

  function ScoreOf(f: Fits, s: Stage): Ranking.Score
  {
    match s
    case Single => f.single
    case Merged => f.merged
    case Spinor => f.spinor
    case Torus => f.torus
  }

  function R2(f: Fits, s: Stage): Option<real>
  {
    ScoreOf(f, s).r2
  }

  predicate AllFinite(f: Fits)
  {
    f.single.r2.Some? && f.merged.r2.Some? && f.spinor.r2.Some? && f.torus.r2.Some?
  }

  /** The `sqrt(λ)[skip:][:N]` window each stage's spectrum gives. */
  datatype Spectra = Spectra(single: seq<real>, merged: seq<real>,
                             spinor: seq<real>, torus: seq<real>)

  function Of(y: Spectra, s: Stage): seq<real>
  {
    match s
    case Single => y.single
    case Merged => y.merged
    case Spinor => y.spinor
    case Torus => y.torus
  }

  /**
   * What a script ends its staging with: the spectrum `y_opt` that the
   * anchor sweep then fits, whether the Stage-1 gate passed, and the three
   * `improved` flags it reports (what each flag means differs between the
   * two scripts: see `StrictStages` and `BalancedStages`).
   */
  datatype Report = Report(y: seq<real>, mergedAdopted: bool, improvedMerged: bool,
                           improvedSpinor: bool, improvedTorus: bool)

  // ---------------------------------------------------------------
  // equation_test2: strict gates
  // ---------------------------------------------------------------

  /**
   * The stage whose spectrum `equation_test2` ends with. Stage 2 is
   * compared against Stage 0 alone, Stage 3 against the better of those
   * two, and the rebuild after a rejected torus knows only the spinor and
   * the single-θ operator.
   */
  function StrictFinal(f: Fits): Stage
  {
    var prev := if Gt(f.spinor.r2, f.single.r2) then f.spinor.r2 else f.single.r2;
    if Gt(f.torus.r2, prev) then Torus
    else if Gt(f.spinor.r2, f.single.r2) then Spinor
    else Single
  }

  /** The flag threading of `equation_test2`'s main block, Stage 1 to Stage 3. */
  method StrictStages(symmetric: bool, f: Fits, y: Spectra) returns (o: Report)
    ensures o.y == Of(y, StrictFinal(f))
    ensures o.mergedAdopted <==> !symmetric && Gt(f.merged.r2, f.single.r2)
    ensures o.improvedTorus <==> StrictFinal(f) == Torus
    ensures !o.improvedMerged && !o.improvedSpinor
  {
    // Stage 1: the symmetric mode skips the merge
    var yOpt: seq<real>;
    var useMerged: bool;
    if symmetric {
      yOpt, useMerged := y.single, false;
    } else if Gt(f.merged.r2, f.single.r2) {
      yOpt, useMerged := y.merged, true;
    } else {
      yOpt, useMerged := y.single, false;
    }
    var adopted := useMerged;
    // Stage 2, against Stage 0 alone; both flags are re-initialised here
    var stage01 := f.single.r2;
    var useSpinor := false;
    useMerged := false;
    var stagePrev: Option<real>;
    var useSpinorTemp: bool;
    if Gt(f.spinor.r2, stage01) {
      stagePrev, useSpinorTemp := f.spinor.r2, true;
    } else {
      stagePrev, useSpinorTemp := stage01, false;
    }
    // Stage 3
    var useTorus: bool;
    if Gt(f.torus.r2, stagePrev) {
      yOpt, useTorus, useSpinor := y.torus, true, false;
    } else {
      if useSpinorTemp && Gt(f.spinor.r2, stage01) {
        useSpinor := true;
        yOpt := y.spinor;
      } else {
        yOpt := y.single;
      }
      useTorus := false;
      useSpinor := false;
    }
    o := Report(yOpt, adopted, useMerged, useSpinor, useTorus);
  }

  /**
   * Over Stages 0, 2 and 3 with finite R² the strict gates pick the first
   * maximum: no stage has a larger R², and every earlier stage a smaller
   * one. The merge is never the final stage.
   */
  lemma StrictFinalFirstMax(f: Fits)
    requires f.single.r2.Some? && f.spinor.r2.Some? && f.torus.r2.Some?
    ensures StrictFinal(f) != Merged
    ensures forall s | s != Merged :: R2(f, s).value <= R2(f, StrictFinal(f)).value
    ensures forall s | s != Merged && Rank(s) < Rank(StrictFinal(f)) ::
              R2(f, s).value < R2(f, StrictFinal(f)).value
  {
  }

  /** A NaN Stage-0 R² shuts every later gate: the single-θ spectrum is kept. */
  lemma StrictNaNBaseline(f: Fits)
    requires f.single.r2.None?
    ensures StrictFinal(f) == Single
  {
  }

  /**
   * As written, an adopted Stage-1 merge is lost: here the merge has the
   * largest R² of all stages, its gate passes, and the script still ends
   * with the single-θ spectrum and reports Stage 1 as not improved.
   */
  lemma StrictDropsMerge()
    ensures var f := Fits(Ranking.Score(Some(0.5), 1.0), Ranking.Score(Some(0.9), 1.0),
                          Ranking.Score(Some(0.1), 1.0), Ranking.Score(Some(0.1), 1.0));
            Gt(f.merged.r2, f.single.r2) && StrictFinal(f) == Single &&
            forall s | s != Merged :: R2(f, s).value < R2(f, Merged).value
  {
  }

  /**
   * As written, Stage 2 is compared with Stage 0 alone: a spinor worse
   * than the adopted merge still wins.
   */
  lemma StrictSpinorBelowMerge()
    ensures var f := Fits(Ranking.Score(Some(0.5), 1.0), Ranking.Score(Some(0.9), 1.0),
                          Ranking.Score(Some(0.7), 1.0), Ranking.Score(Some(0.1), 1.0));
            Gt(f.merged.r2, f.single.r2) && StrictFinal(f) == Spinor &&
            R2(f, Spinor).value < R2(f, Merged).value
  {
  }

  /**
   * As written, the spinor spectrum can be the one the script ends with
   * while its report says Stage 2 did not improve.
   */
  lemma StrictSpinorUnreported()
    ensures var f := Fits(Ranking.Score(Some(0.5), 1.0), Ranking.Score(Some(0.5), 1.0),
                          Ranking.Score(Some(0.7), 1.0), Ranking.Score(Some(0.1), 1.0));
            StrictFinal(f) == Spinor && !Gt(f.torus.r2, f.spinor.r2)
  {
  }

  /**
   * The evidently intended staging: each gate compares a stage with the
   * running best, and the script ends with the spectrum of the last stage
   * that passed its gate.
   */
  function IntendedStrictFinal(symmetric: bool, f: Fits): Stage
  {
    var b := if !symmetric && Gt(f.merged.r2, f.single.r2) then Merged else Single;
    var s := if Gt(f.spinor.r2, R2(f, b)) then Spinor else b;
    if Gt(f.torus.r2, R2(f, s)) then Torus else s
  }

  /** Whether `s` takes part in the staging (the symmetric mode skips the merge). */
  predicate Considered(symmetric: bool, s: Stage)
  {
    s != Merged || !symmetric
  }

  /**
   * With finite R² the intended staging ends with the first maximum over
   * the stages it considers, merge included.
   */
  lemma IntendedStrictFirstMax(symmetric: bool, f: Fits)
    requires AllFinite(f)
    ensures Considered(symmetric, IntendedStrictFinal(symmetric, f))
    ensures forall s | Considered(symmetric, s) ::
              R2(f, s).value <= R2(f, IntendedStrictFinal(symmetric, f)).value
    ensures forall s | Considered(symmetric, s) && Rank(s) < Rank(IntendedStrictFinal(symmetric, f)) ::
              R2(f, s).value < R2(f, IntendedStrictFinal(symmetric, f)).value
  {
  }

  /**
   * When the merge does not pass its gate the intended staging and the
   * code as written end with the same stage.
   */
  lemma IntendedStrictAgrees(symmetric: bool, f: Fits)
    requires symmetric || !Gt(f.merged.r2, f.single.r2)
    ensures IntendedStrictFinal(symmetric, f) == StrictFinal(f)
  {
  }

  /** The corrected staging of `equation_test2`, with flags that report what was used. */
  method IntendedStrictStages(symmetric: bool, f: Fits, y: Spectra) returns (o: Report)
    ensures o.y == Of(y, IntendedStrictFinal(symmetric, f))
    ensures o.mergedAdopted <==> !symmetric && Gt(f.merged.r2, f.single.r2)
    ensures o.improvedMerged <==> IntendedStrictFinal(symmetric, f) == Merged
    ensures o.improvedSpinor <==> IntendedStrictFinal(symmetric, f) == Spinor
    ensures o.improvedTorus <==> IntendedStrictFinal(symmetric, f) == Torus
  {
    var current := Single;
    var adopted := false;
    if !symmetric && Gt(f.merged.r2, f.single.r2) {
      current, adopted := Merged, true;
    }
    if Gt(f.spinor.r2, R2(f, current)) {
      current := Spinor;
    }
    if Gt(f.torus.r2, R2(f, current)) {
      current := Torus;
    }
    o := Report(Of(y, current), adopted, current == Merged, current == Spinor, current == Torus);
  }

  // ---------------------------------------------------------------
  // hp_two_point_balance_vector_riemann: baseline and margin rule
  // ---------------------------------------------------------------

  /** Stage 3 needs a real coupling to be selected. */
  const EpsMin: real := 0.005
  /** The R² and RMSE margin of the Stage-3 rule. */
  const Margin: real := 0.001

  /** The Stage-0/1 baseline: its stage tag, its R² and its RMSE. */
  datatype Baseline = Baseline(stage: Stage, r2: Option<real>, rmse: real)

  /**
   * `stage01_best_*`: the R² is `max(R²₀, R²₁)`, and the tag and RMSE
   * are Stage 1's only when its R² is strictly larger, so a tie labels
   * the baseline Stage 0 and takes Stage 0's RMSE.
   */
  function Stage01(f: Fits): (b: Baseline)
    ensures b.r2 == PyMax(f.single.r2, f.merged.r2)
    ensures b.stage == Single || b.stage == Merged
    ensures b.stage == Merged <==> Gt(f.merged.r2, f.single.r2)
    ensures b.r2 == R2(f, b.stage) && b.rmse == ScoreOf(f, b.stage).rmse
    ensures f.single.r2.Some? && f.merged.r2.Some? ==>
              b.r2.value >= f.single.r2.value && b.r2.value >= f.merged.r2.value
    ensures f.single.r2 == f.merged.r2 ==> b.stage == Single && b.rmse == f.single.rmse
  {
    if Gt(f.merged.r2, f.single.r2) then Baseline(Merged, f.merged.r2, f.merged.rmse)
    else Baseline(Single, f.single.r2, f.single.rmse)
  }

  /** `r2_better`: the torus R² beats the previous best by more than the margin. */
  predicate R2Better(torus: Option<real>, prev: Option<real>)
  {
    torus.Some? && prev.Some? && torus.value > prev.value + Margin
  }

  /** `r2_tied`: the two R² are within the margin of each other. */
  predicate R2Tied(torus: Option<real>, prev: Option<real>)
  {
    torus.Some? && prev.Some? && Abs(torus.value - prev.value) <= Margin
  }

  /** `rmse_better`: the torus RMSE is below the baseline's by more than the margin. */
  predicate RmseBetter(torus: real, baseline: real)
  {
    torus < baseline - Margin
  }

  /**
   * `select_torus`: a coupling of at least `EpsMin`, and either a clear R²
   * gain or a tie with a clearly smaller RMSE.
   */
  function SelectTorus(eps: real, torus: Ranking.Score, prev: Option<real>, baselineRmse: real): (sel: bool)
    ensures sel ==> eps >= EpsMin
    ensures sel ==> torus.r2.Some? && prev.Some? && torus.r2.value >= prev.value - Margin
    ensures sel && torus.r2.value <= prev.value + Margin ==> torus.rmse < baselineRmse - Margin
    ensures eps >= EpsMin && R2Better(torus.r2, prev) ==> sel
    ensures torus.r2.None? || prev.None? ==> !sel
  {
    eps >= EpsMin &&
    (R2Better(torus.r2, prev) || (R2Tied(torus.r2, prev) && RmseBetter(torus.rmse, baselineRmse)))
  }

  /**
   * The two R² outcomes exclude each other; a gain of exactly the margin
   * is a tie, not an improvement; and an uncoupled torus (ε = 0) is never
   * selected.
   */
  lemma MarginRule(eps: real, torus: Ranking.Score, prev: Option<real>, baselineRmse: real)
    ensures !(R2Better(torus.r2, prev) && R2Tied(torus.r2, prev))
    ensures torus.r2.Some? && prev.Some? && torus.r2.value == prev.value + Margin ==>
              R2Tied(torus.r2, prev) && !R2Better(torus.r2, prev)
    ensures eps == 0.0 ==> !SelectTorus(eps, torus, prev, baselineRmse)
  {
  }

  /** The quantities the Stage-3 comparison of `hp_two_point` is made on. */
  datatype Gate = Gate(base: Baseline, spinorTemp: bool, prev: Option<real>, baselineRmse: real, torus: bool)

  function BalancedGate(f: Fits, eps: real): (g: Gate)
    ensures g.base == Stage01(f)
    ensures g.spinorTemp <==> Gt(f.spinor.r2, g.base.r2)
    ensures g.prev == PyMax(g.base.r2, f.spinor.r2)
    ensures g.baselineRmse == (if g.spinorTemp then f.spinor.rmse else g.base.rmse)
    ensures g.torus == SelectTorus(eps, f.torus, g.prev, g.baselineRmse)
  {
    var b := Stage01(f);
    var spinorTemp := Gt(f.spinor.r2, b.r2);
    var prev := PyMax(b.r2, f.spinor.r2);
    var rmse := if spinorTemp then f.spinor.rmse else b.rmse;
    Gate(b, spinorTemp, prev, rmse, SelectTorus(eps, f.torus, prev, rmse))
  }

  /**
   * The stage whose spectrum `hp_two_point` ends with: the torus when
   * selected, else the spinor when it beat the baseline, else the
   * single-θ rebuild.
   */
  function BalancedFinal(f: Fits, eps: real): Stage
  {
    var g := BalancedGate(f, eps);
    if g.torus then Torus
    else if g.spinorTemp && Gt(f.spinor.r2, g.base.r2) then Spinor
    else Single
  }

  /** The previous best is the running maximum of Stages 0, 1 and 2. */
  lemma {:induction false} BalancedPrevIsMax(f: Fits, eps: real)
    requires AllFinite(f)
    ensures var g := BalancedGate(f, eps);
            g.prev.Some? &&
            g.prev.value >= f.single.r2.value && g.prev.value >= f.merged.r2.value &&
            g.prev.value >= f.spinor.r2.value &&
            (g.prev == f.single.r2 || g.prev == f.merged.r2 || g.prev == f.spinor.r2)
  {
    var g := BalancedGate(f, eps);
    assert g.base.r2.Some?;
  }

  /**
   * The flag threading of `hp_two_point`'s main block, Stage 1 to Stage 3,
   * and the flags its summary reports: Stage 1 improved iff `R²₁ > R²₀`,
   * Stage 2 iff the spinor beat the Stage-0/1 baseline (whatever the
   * torus decision), Stage 3 iff the torus is final.
   */
  method BalancedStages(f: Fits, eps: real, y: Spectra) returns (o: Report)
    ensures o.y == Of(y, BalancedFinal(f, eps))
    ensures o.mergedAdopted <==> Gt(f.merged.r2, f.single.r2)
    ensures o.improvedMerged <==> Gt(f.merged.r2, f.single.r2)
    ensures o.improvedSpinor <==> BalancedGate(f, eps).spinorTemp
    ensures o.improvedTorus <==> BalancedFinal(f, eps) == Torus
  {
    var yOpt: seq<real>;
    var useMerged: bool;
    if Gt(f.merged.r2, f.single.r2) {
      yOpt, useMerged := y.merged, true;
    } else {
      yOpt, useMerged := y.single, false;
    }
    var base01R2 := PyMax(f.single.r2, f.merged.r2);
    var base01Rmse := if Gt(f.merged.r2, f.single.r2) then f.merged.rmse else f.single.rmse;
    var useSpinorTemp := Gt(f.spinor.r2, base01R2);
    var stagePrev := PyMax(base01R2, f.spinor.r2);
    var rmseForTie := if useSpinorTemp then f.spinor.rmse else base01Rmse;
    var selectTorus := eps >= EpsMin &&
      (R2Better(f.torus.r2, stagePrev) || (R2Tied(f.torus.r2, stagePrev) && RmseBetter(f.torus.rmse, rmseForTie)));
    var useSpinor: bool;
    var useTorus: bool;
    if selectTorus {
      yOpt, useTorus, useSpinor := y.torus, true, false;
    } else {
      if useSpinorTemp && Gt(f.spinor.r2, base01R2) {
        useSpinor := true;
        yOpt := y.spinor;
      } else {
        yOpt := y.single;
        useSpinor := false;
      }
      useTorus := false;
    }
    var improvedSpinor := useSpinorTemp && Gt(f.spinor.r2, base01R2);
    o := Report(yOpt, useMerged, useMerged, improvedSpinor, useTorus);
  }

  /**
   * The Stage-2 and Stage-3 flags can both be set: a spinor that beats the
   * baseline and is then displaced by the torus is still reported improved.
   */
  lemma BalancedSpinorAndTorus()
    ensures var f := Fits(Ranking.Score(Some(0.5), 1.0), Ranking.Score(Some(0.5), 1.0),
                          Ranking.Score(Some(0.7), 1.0), Ranking.Score(Some(0.8), 1.0));
            BalancedGate(f, 0.01).spinorTemp && BalancedFinal(f, 0.01) == Torus
  {
    var f := Fits(Ranking.Score(Some(0.5), 1.0), Ranking.Score(Some(0.5), 1.0),
                  Ranking.Score(Some(0.7), 1.0), Ranking.Score(Some(0.8), 1.0));
    assert Stage01(f).r2 == Some(0.5);
    assert BalancedGate(f, 0.01).prev == Some(0.7);
  }

  /**
   * As written, a Stage-1 baseline is lost when neither the spinor nor the
   * torus replaces it: the script rebuilds the single-θ spectrum although
   * it labels the baseline Stage 1.
   */
  lemma BalancedDropsMerge()
    ensures var f := Fits(Ranking.Score(Some(0.5), 1.0), Ranking.Score(Some(0.9), 1.0),
                          Ranking.Score(Some(0.1), 1.0), Ranking.Score(Some(0.1), 1.0));
            Stage01(f).stage == Merged && BalancedFinal(f, 0.0) == Single
  {
  }

  /** The evidently intended ending: the baseline's own spectrum when nothing replaces it. */
  function IntendedBalancedFinal(f: Fits, eps: real): Stage
  {
    var g := BalancedGate(f, eps);
    if g.torus then Torus
    else if g.spinorTemp then Spinor
    else g.base.stage
  }

  /**
   * The intended ending keeps the best of Stages 0 to 2 (first maximum)
   * unless the torus passes the margin rule, and it agrees with the code
   * as written whenever the baseline is Stage 0.
   */
  lemma IntendedBalancedSound(f: Fits, eps: real)
    requires AllFinite(f)
    ensures var s := IntendedBalancedFinal(f, eps);
            s != Torus ==>
              (forall t | t != Torus :: R2(f, t).value <= R2(f, s).value) &&
              (forall t | Rank(t) < Rank(s) :: R2(f, t).value < R2(f, s).value)
    ensures IntendedBalancedFinal(f, eps) == Torus ==>
              eps >= EpsMin &&
              forall t | t != Torus :: R2(f, Torus).value >= R2(f, t).value - Margin
    ensures Stage01(f).stage == Single ==> IntendedBalancedFinal(f, eps) == BalancedFinal(f, eps)
  {
    BalancedPrevIsMax(f, eps);
  }
}
