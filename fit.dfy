/**
 * The fit engine: residual sums, the coefficient of determination
 * `r2_score` (NaN modelled as `None`), the least-squares line that
 * `np.linalg.lstsq` returns for the design `[1, t]`, the two-point
 * line `two_point_ab`, the two-mass dressing `two_point_delta_gamma`
 * and the fit wrappers built on them.
 */
module Fit {
  import opened Wrappers
  import Spectrum

  // ---------------------------------------------------------------
  // Sums
  // ---------------------------------------------------------------

  /** `s[0] + … + s[k-1]`. */
  function SumTo(s: seq<real>, k: nat): real
    requires k <= |s|
  {
    if k == 0 then 0.0 else SumTo(s, k - 1) + s[k - 1]
  }

  /** `u[0]*v[0] + … + u[k-1]*v[k-1]`. */
  function DotTo(u: seq<real>, v: seq<real>, k: nat): real
    requires k <= |u| && k <= |v|
  {
    if k == 0 then 0.0 else DotTo(u, v, k - 1) + u[k - 1] * v[k - 1]
  }

  /** `np.sum(s)`. */
  function Sum(s: seq<real>): real
  {
    SumTo(s, |s|)
  }

  /** `np.sum(u * v)`. */
  function Inner(u: seq<real>, v: seq<real>): real
    requires |u| == |v|
  {
    DotTo(u, v, |u|)
  }

  /** `np.sum(s**2)`: never negative. */
  function SumSq(s: seq<real>): (r: real)
    ensures r >= 0.0
  {
    SquaresNonNeg(s, |s|);
    DotTo(s, s, |s|)
  }

  /** `s.mean()` of a non-empty vector. */
  function Mean(s: seq<real>): real
    requires |s| > 0
  {
    Sum(s) / |s| as real
  }

  /** `a + b*x`, elementwise. */
  function Predict(x: seq<real>, a: real, b: real): (r: seq<real>)
    ensures |r| == |x|
  {
    seq(|x|, i requires 0 <= i < |x| => a + b * x[i])
  }

  /** `y - z`, elementwise. */
  function Sub(y: seq<real>, z: seq<real>): (r: seq<real>)
    requires |y| == |z|
    ensures |r| == |y|
  {
    seq(|y|, i requires 0 <= i < |y| => y[i] - z[i])
  }

  predicate Constant(y: seq<real>)
  {
    forall i, j | 0 <= i < |y| && 0 <= j < |y| :: y[i] == y[j]
  }

  // ---------------------------------------------------------------
  // Algebra of the sums
  // ---------------------------------------------------------------

  lemma {:induction false} SquarePos(x: real)
    ensures x * x >= 0.0 && (x != 0.0 ==> x * x > 0.0)
  {
  }

  lemma {:induction false} SquaresNonNeg(s: seq<real>, k: nat)
    requires k <= |s|
    ensures DotTo(s, s, k) >= 0.0
  {
    if k > 0 {
      SquaresNonNeg(s, k - 1);
      SquarePos(s[k - 1]);
    }
  }

  lemma {:induction false} NegativeProduct(x: real, y: real, q: real)
    requires x < 0.0 && y < 0.0 && q == x * y
    ensures q > 0.0
  {
    var a, b := -x, -y;
    assert a * b > 0.0;
    assert x * y == a * b;
  }

  /** The square `q = x·y` of a non-zero `x = y` is positive. */
  lemma {:induction false} NonZeroSquare(x: real, y: real, q: real)
    requires x == y && q == x * y && x != 0.0
    ensures q > 0.0
  {
    if x > 0.0 {
      assert y > 0.0;
    } else {
      NegativeProduct(x, y, q);
    }
  }

  /** The square `q = x·y` of `x = y` is never negative. */
  lemma {:induction false} SquareNonNeg(x: real, y: real, q: real)
    requires x == y && q == x * y
    ensures q >= 0.0
  {
    if x > 0.0 {
      assert y > 0.0;
    } else if x < 0.0 {
      NegativeProduct(x, y, q);
    }
  }

  lemma {:induction false} PositiveStep(prev: real, q: real)
    requires prev >= 0.0 && q > 0.0
    ensures prev + q > 0.0
  {
  }

  /** A sum of squares vanishes exactly when every term does. */
  lemma {:induction false} SquaresZero(s: seq<real>, k: nat)
    requires k <= |s|
    ensures DotTo(s, s, k) == 0.0 <==> forall i | 0 <= i < k :: s[i] == 0.0
  {
    if k > 0 {
      SquaresZero(s, k - 1);
      SquaresNonNeg(s, k - 1);
      var sk := s[k - 1];
      if sk != 0.0 {
        NonZeroSquare(sk, sk, sk * sk);
        PositiveStep(DotTo(s, s, k - 1), sk * sk);
      }
    }
  }

  /** `Σ (y − z) = Σ y − Σ z`. */
  lemma {:induction false} SumSub(w: seq<real>, y: seq<real>, z: seq<real>, k: nat)
    requires k <= |w| && k <= |y| && k <= |z|
    requires forall i | 0 <= i < k :: w[i] == y[i] - z[i]
    ensures SumTo(w, k) == SumTo(y, k) - SumTo(z, k)
  {
    if k > 0 {
      SumSub(w, y, z, k - 1);
    }
  }

  /** `Σ x·(y − z) = Σ x·y − Σ x·z`. */
  lemma {:induction false} DotSub(x: seq<real>, w: seq<real>, y: seq<real>, z: seq<real>, k: nat)
    requires k <= |x| && k <= |w| && k <= |y| && k <= |z|
    requires forall i | 0 <= i < k :: w[i] == y[i] - z[i]
    ensures DotTo(x, w, k) == DotTo(x, y, k) - DotTo(x, z, k)
  {
    if k > 0 {
      DotSub(x, w, y, z, k - 1);
      var xk := x[k - 1];
      assert xk * w[k - 1] == xk * y[k - 1] - xk * z[k - 1];
    }
  }

  lemma {:induction false} AffineStep(s: real, t: real, uk: real, al: real, be: real, k: real)
    ensures (s == al * k + be * t) ==> s + (al + be * uk) == al * (k + 1.0) + be * (t + uk)
  {
  }

  /** `Σ (α + β·u) = α·k + β·Σ u`. */
  lemma {:induction false} SumAffine(w: seq<real>, u: seq<real>, al: real, be: real, k: nat)
    requires k <= |w| && k <= |u|
    requires forall i | 0 <= i < k :: w[i] == al + be * u[i]
    ensures SumTo(w, k) == al * k as real + be * SumTo(u, k)
  {
    if k == 0 {
      MulZero(al, k as real);
      MulZero(be, SumTo(u, k));
    } else {
      SumAffine(w, u, al, be, k - 1);
      AffineStep(SumTo(w, k - 1), SumTo(u, k - 1), u[k - 1], al, be, (k - 1) as real);
    }
  }

  lemma {:induction false} DotAffineStep(p: real, s: real, d: real, zk: real, uk: real, al: real, be: real)
    requires p == al * s + be * d
    ensures p + zk * (al + be * uk) == al * (s + zk) + be * (d + zk * uk)
  {
  }

  /** `Σ z·(α + β·u) = α·Σ z + β·Σ z·u`. */
  lemma {:induction false} DotAffine(z: seq<real>, w: seq<real>, u: seq<real>, al: real, be: real, k: nat)
    requires k <= |z| && k <= |w| && k <= |u|
    requires forall i | 0 <= i < k :: w[i] == al + be * u[i]
    ensures DotTo(z, w, k) == al * SumTo(z, k) + be * DotTo(z, u, k)
  {
    if k == 0 {
      MulZero(al, SumTo(z, k));
      MulZero(be, DotTo(z, u, k));
    } else {
      DotAffine(z, w, u, al, be, k - 1);
      DotAffineStep(DotTo(z, w, k - 1), SumTo(z, k - 1), DotTo(z, u, k - 1), z[k - 1], u[k - 1], al, be);
    }
  }

  lemma {:induction false} DotComm(u: seq<real>, v: seq<real>, k: nat)
    requires k <= |u| && k <= |v|
    ensures DotTo(u, v, k) == DotTo(v, u, k)
  {
    if k > 0 {
      DotComm(u, v, k - 1);
    }
  }

  lemma {:induction false} SquareStep(p: real, a: real, c: real, b: real, uk: real, vk: real)
    requires p == a + 2.0 * c + b
    ensures p + (uk + vk) * (uk + vk) == (a + uk * uk) + 2.0 * (c + uk * vk) + (b + vk * vk)
  {
  }

  /** `Σ (u+v)² = Σ u² + 2 Σ u·v + Σ v²`. */
  lemma {:induction false} SquareOfSum(w: seq<real>, u: seq<real>, v: seq<real>, k: nat)
    requires k <= |w| && k <= |u| && k <= |v|
    requires forall i | 0 <= i < k :: w[i] == u[i] + v[i]
    ensures DotTo(w, w, k) == DotTo(u, u, k) + 2.0 * DotTo(u, v, k) + DotTo(v, v, k)
  {
    if k > 0 {
      SquareOfSum(w, u, v, k - 1);
      SquareStep(DotTo(w, w, k - 1), DotTo(u, u, k - 1), DotTo(u, v, k - 1), DotTo(v, v, k - 1),
                 u[k - 1], v[k - 1]);
    }
  }

  // ---------------------------------------------------------------
  // Residual sums and r2_score
  // ---------------------------------------------------------------

  /** `np.sum((y - yhat)**2)`. */
  function SSRes(y: seq<real>, yhat: seq<real>): real
    requires |y| == |yhat|
  {
    SumSq(Sub(y, yhat))
  }

  /** `np.sum((y - y.mean())**2)`; an empty vector sums to 0. */
  function SSTot(y: seq<real>): real
  {
    if |y| == 0 then 0.0 else SSRes(y, Predict(y, Mean(y), 0.0))
  }

  /** The residual sum vanishes exactly when the prediction is the data. */
  lemma {:induction false} SSResZero(y: seq<real>, yhat: seq<real>)
    requires |y| == |yhat|
    ensures SSRes(y, yhat) == 0.0 <==> y == yhat
  {
    var d := Sub(y, yhat);
    SquaresZero(d, |d|);
    if SSRes(y, yhat) == 0.0 {
      assert forall i | 0 <= i < |y| :: y[i] == yhat[i] by {
        forall i | 0 <= i < |y|
          ensures y[i] == yhat[i]
        {
          assert d[i] == 0.0;
        }
      }
    }
  }

  lemma {:induction false} CenteredStep(p: real, syy: real, sy: real, yk: real, m: real, k: real,
                                        p1: real, syy1: real, sy1: real, k1: real)
    requires p == syy - 2.0 * m * sy + m * m * k
    requires p1 == p + (yk - m) * (yk - m) && syy1 == syy + yk * yk && sy1 == sy + yk && k1 == k + 1.0
    ensures p1 == syy1 - 2.0 * m * sy1 + m * m * k1
  {
  }

  lemma {:induction false} ZeroWeight(m: real, z: real)
    requires z == 0.0
    ensures m * m * z == 0.0
  {
  }

  lemma {:induction false} MulZero(a: real, z: real)
    requires z == 0.0
    ensures a * z == 0.0
  {
  }

  /** `Σ (y − m)² = Σ y² − 2m·Σ y + m²·k`. */
  lemma {:induction false} CenteredSquares(y: seq<real>, d: seq<real>, m: real, k: nat)
    requires k <= |y| && k <= |d|
    requires forall i | 0 <= i < k :: d[i] == y[i] - m
    ensures DotTo(d, d, k) == DotTo(y, y, k) - 2.0 * m * SumTo(y, k) + m * m * k as real
  {
    if k == 0 {
      ZeroWeight(m, k as real);
    } else {
      CenteredSquares(y, d, m, k - 1);
      assert d[k - 1] == y[k - 1] - m;
      CenteredStep(DotTo(d, d, k - 1), DotTo(y, y, k - 1), SumTo(y, k - 1), y[k - 1], m, (k - 1) as real,
                   DotTo(d, d, k), DotTo(y, y, k), SumTo(y, k), k as real);
    }
  }

  lemma {:induction false} ExpandArith(n: real, m: real, sy: real, syy: real, dd: real)
    requires n > 0.0 && m == sy / n
    requires dd == syy - 2.0 * m * sy + m * m * n
    ensures n * dd == n * syy - sy * sy
  {
    assert m * n == sy;
    assert n * (m * m * n) == (m * n) * (m * n);
    assert n * (2.0 * m * sy) == 2.0 * (m * n) * sy;
  }

  /** `n · SSTot(y) = n·Σy² − (Σy)²`. */
  lemma {:induction false} SSTotExpand(y: seq<real>)
    requires |y| > 0
    ensures |y| as real * SSTot(y) == |y| as real * DotTo(y, y, |y|) - SumTo(y, |y|) * SumTo(y, |y|)
  {
    var n := |y|;
    SSTotCentered(y);
    ExpandArith(n as real, Mean(y), SumTo(y, n), DotTo(y, y, n), SSTot(y));
  }

  lemma {:induction false} SSTotCentered(y: seq<real>)
    requires |y| > 0
    ensures SSTot(y) == DotTo(y, y, |y|) - 2.0 * Mean(y) * SumTo(y, |y|) + Mean(y) * Mean(y) * |y| as real
  {
    var m := Mean(y);
    var d := Sub(y, Predict(y, m, 0.0));
    assert SSTot(y) == DotTo(d, d, |y|);
    assert forall i | 0 <= i < |y| :: d[i] == y[i] - m;
    CenteredSquares(y, d, m, |y|);
  }

  lemma {:induction false} ScaledMean(s: real, c: real, t: real, n: real)
    requires n > 0.0 && s == c * n + 0.0 * t
    ensures s / n == c
  {
    assert s == c * n;
  }

  /** `ss_tot` vanishes exactly on constant data. */
  lemma {:induction false} SSTotZero(y: seq<real>)
    ensures SSTot(y) == 0.0 <==> Constant(y)
  {
    if |y| > 0 {
      var n := |y|;
      var m := Mean(y);
      var p := Predict(y, m, 0.0);
      SSResZero(y, p);
      if Constant(y) {
        assert forall i | 0 <= i < n :: y[i] == y[0] + 0.0 * y[i];
        SumAffine(y, y, y[0], 0.0, n);
        ScaledMean(Sum(y), y[0], Sum(y), n as real);
        assert m == y[0];
        assert forall i | 0 <= i < n :: p[i] == y[i];
      }
    }
  }

  /**
   * `r2_score(y, yhat)`: `None` (NaN) exactly when `y` is constant;
   * otherwise at most 1, and equal to 1 exactly when `yhat == y`.
   */
  function R2Score(y: seq<real>, yhat: seq<real>): (r: Option<real>)
    requires |y| == |yhat|
    ensures r.None? <==> Constant(y)
    ensures r.Some? ==> r.value <= 1.0 && (r.value == 1.0 <==> yhat == y)
  {
    SSTotZero(y);
    SSResZero(y, yhat);
    var tot := SSTot(y);
    if tot > 0.0 then
      assert SSRes(y, yhat) / tot >= 0.0;
      Some(1.0 - SSRes(y, yhat) / tot)
    else None
  }

  /** `np.mean((y - yhat)**2)`: the mean squared error (`rmse` is its square root). */
  function MSE(y: seq<real>, yhat: seq<real>): (r: real)
    requires |y| == |yhat| && |y| > 0
    ensures r >= 0.0 && (r == 0.0 <==> y == yhat)
  {
    SSResZero(y, yhat);
    SSRes(y, yhat) / |y| as real
  }

  // ---------------------------------------------------------------
  // The least-squares line
  // ---------------------------------------------------------------

  /** The line `a + b*t`: intercept `a`, slope `b`. */
  datatype Line = Line(a: real, b: real)

  function Residual(x: seq<real>, y: seq<real>, l: Line): (r: seq<real>)
    requires |x| == |y|
    ensures |r| == |x|
  {
    Sub(y, Predict(x, l.a, l.b))
  }

  /**
   * The normal equations of the design `[1, x]`: the residual is
   * orthogonal to both columns.
   */
  predicate NormalEquations(x: seq<real>, y: seq<real>, l: Line)
    requires |x| == |y|
  {
    Sum(Residual(x, y, l)) == 0.0 && Inner(x, Residual(x, y, l)) == 0.0
  }

  /** `n·Σx² − (Σx)²`, the determinant of the normal matrix. */
  function Det(x: seq<real>): real
  {
    |x| as real * DotTo(x, x, |x|) - SumTo(x, |x|) * SumTo(x, |x|)
  }

  /** The residual sum, in terms of the data sums. */
  lemma {:induction false} ResidualSum(x: seq<real>, y: seq<real>, l: Line)
    requires |x| == |y|
    ensures Sum(Residual(x, y, l)) == SumTo(y, |x|) - (l.a * |x| as real + l.b * SumTo(x, |x|))
  {
    ResidualSumSplit(x, y, l);
    PredictSum(x, l.a, l.b);
  }

  lemma {:induction false} ResidualSumSplit(x: seq<real>, y: seq<real>, l: Line)
    requires |x| == |y|
    ensures SumTo(Residual(x, y, l), |x|) == SumTo(y, |x|) - SumTo(Predict(x, l.a, l.b), |x|)
  {
    ResidualElems(x, y, l);
    SumSub(Residual(x, y, l), y, Predict(x, l.a, l.b), |x|);
  }

  lemma {:induction false} PredictSum(x: seq<real>, a: real, b: real)
    ensures SumTo(Predict(x, a, b), |x|) == a * |x| as real + b * SumTo(x, |x|)
  {
    PredictElems(x, a, b);
    SumAffine(Predict(x, a, b), x, a, b, |x|);
  }

  lemma PredictElems(x: seq<real>, a: real, b: real)
    ensures forall i | 0 <= i < |x| :: Predict(x, a, b)[i] == a + b * x[i]
  {
  }

  lemma ResidualElems(x: seq<real>, y: seq<real>, l: Line)
    requires |x| == |y|
    ensures forall i | 0 <= i < |x| :: Residual(x, y, l)[i] == y[i] - Predict(x, l.a, l.b)[i]
  {
  }

  lemma {:induction false} InnerResidual(x: seq<real>, y: seq<real>, l: Line)
    requires |x| == |y|
    ensures Inner(x, Residual(x, y, l)) == DotTo(x, y, |x|) - DotTo(x, Predict(x, l.a, l.b), |x|)
  {
    ResidualElems(x, y, l);
    DotSub(x, Residual(x, y, l), y, Predict(x, l.a, l.b), |x|);
  }

  lemma {:induction false} InnerPredict(x: seq<real>, a: real, b: real)
    ensures DotTo(x, Predict(x, a, b), |x|) == a * SumTo(x, |x|) + b * DotTo(x, x, |x|)
  {
    PredictElems(x, a, b);
    DotAffine(x, Predict(x, a, b), x, a, b, |x|);
  }

  /** The residual's inner product with `x`, in terms of the data sums. */
  lemma {:induction false} ResidualInner(x: seq<real>, y: seq<real>, l: Line)
    requires |x| == |y|
    ensures Inner(x, Residual(x, y, l)) == DotTo(x, y, |x|) - (l.a * SumTo(x, |x|) + l.b * DotTo(x, x, |x|))
  {
    InnerResidual(x, y, l);
    InnerPredict(x, l.a, l.b);
  }

  /** The data sums the normal equations are written in: `n, Σx, Σy, Σx², Σxy`. */
  datatype Moments = Moments(n: real, sx: real, sy: real, sxx: real, sxy: real)

  function MomentsOf(x: seq<real>, y: seq<real>): Moments
    requires |x| == |y|
  {
    Moments(|x| as real, SumTo(x, |x|), SumTo(y, |x|), DotTo(x, x, |x|), DotTo(x, y, |x|))
  }

  /** `l` zeroes both normal equations written on the sums `m`. */
  predicate SolvesMoments(m: Moments, l: Line)
  {
    m.sy - (l.a * m.n + l.b * m.sx) == 0.0 && m.sxy - (l.a * m.sx + l.b * m.sxx) == 0.0
  }

  /** The normal equations, stated on the data sums. */
  lemma {:induction false} NormalFromSums(x: seq<real>, y: seq<real>, l: Line, m: Moments)
    requires |x| == |y| && m == MomentsOf(x, y) && SolvesMoments(m, l)
    ensures NormalEquations(x, y, l)
  {
    ResidualSumZero(x, y, l, m);
    ResidualInnerZero(x, y, l, m);
  }

  lemma {:induction false} ResidualSumZero(x: seq<real>, y: seq<real>, l: Line, m: Moments)
    requires |x| == |y| && m == MomentsOf(x, y) && m.sy - (l.a * m.n + l.b * m.sx) == 0.0
    ensures Sum(Residual(x, y, l)) == 0.0
  {
    ResidualSum(x, y, l);
  }

  lemma {:induction false} ResidualInnerZero(x: seq<real>, y: seq<real>, l: Line, m: Moments)
    requires |x| == |y| && m == MomentsOf(x, y) && m.sxy - (l.a * m.sx + l.b * m.sxx) == 0.0
    ensures Inner(x, Residual(x, y, l)) == 0.0
  {
    ResidualInner(x, y, l);
  }

  /** The closed form `b = (n·Σxy − Σx·Σy) / det`, `a = (Σy − b·Σx) / n`. */
  function RegularFromMoments(m: Moments): Line
    requires m.n > 0.0 && m.n * m.sxx - m.sx * m.sx != 0.0
  {
    var b := (m.n * m.sxy - m.sx * m.sy) / (m.n * m.sxx - m.sx * m.sx);
    Line((m.sy - b * m.sx) / m.n, b)
  }

  lemma {:induction false} RegularArith(m: Moments)
    requires m.n > 0.0 && m.n * m.sxx - m.sx * m.sx != 0.0
    ensures SolvesMoments(m, RegularFromMoments(m))
  {
    var det := m.n * m.sxx - m.sx * m.sx;
    var l := RegularFromMoments(m);
    var a, b := l.a, l.b;
    assert a * m.n == m.sy - b * m.sx;
    assert b * det == m.n * m.sxy - m.sx * m.sy;
    assert m.n * (m.sxy - (a * m.sx + b * m.sxx)) == m.n * m.sxy - (a * m.n) * m.sx - b * (m.n * m.sxx);
  }

  /** `lstsq` on a full-rank design: the closed-form solution of the normal equations. */
  function RegularLine(x: seq<real>, y: seq<real>): (l: Line)
    requires |x| == |y| && |x| > 0 && Det(x) != 0.0
    ensures NormalEquations(x, y, l)
  {
    var m := MomentsOf(x, y);
    RegularArith(m);
    NormalFromSums(x, y, RegularFromMoments(m), m);
    RegularFromMoments(m)
  }

  /** The minimum-norm solution `mean(y)/(1+c²)·(1, c)` for a column constant at `c`. */
  function RankOneFromMoments(m: Moments, c: real): Line
    requires m.n > 0.0
  {
    SquareNonNeg(c, c, c * c);
    var mean := m.sy / m.n;
    Line(mean / (1.0 + c * c), mean * c / (1.0 + c * c))
  }

  lemma {:induction false} RankOneArith(m: Moments, c: real)
    requires m.n > 0.0 && m.sx == c * m.n && m.sxx == c * (c * m.n) && m.sxy == c * m.sy
    ensures SolvesMoments(m, RankOneFromMoments(m, c))
  {
    var l := RankOneFromMoments(m, c);
    var a, b, n, sy := l.a, l.b, m.n, m.sy;
    var mean := sy / n;
    var w := 1.0 + c * c;
    SquareNonNeg(c, c, c * c);
    assert w * a == mean;
    assert w * b == mean * c;
    assert a + b * c == mean by {
      assert w * (a + b * c) == w * mean;
    }
    assert a * n + b * (c * n) == (a + b * c) * n;
    assert mean * n == sy;
    assert a * (c * n) + b * (c * (c * n)) == c * ((a + b * c) * n);
  }

  /** The data sums of a constant column `x ≡ c`. */
  lemma {:induction false} ConstantSums(x: seq<real>, y: seq<real>, c: real)
    requires |x| == |y| && forall i | 0 <= i < |x| :: x[i] == c
    ensures SumTo(x, |x|) == c * |x| as real
    ensures DotTo(x, x, |x|) == c * (c * |x| as real)
    ensures DotTo(x, y, |x|) == c * SumTo(y, |x|)
  {
    var k := |x|;
    assert forall i | 0 <= i < k :: x[i] == c + 0.0 * x[i];
    SumAffine(x, x, c, 0.0, k);
    DotAffine(x, x, x, c, 0.0, k);
    DotAffine(y, x, x, c, 0.0, k);
    DotComm(x, y, k);
  }

  /**
   * `lstsq` on a rank-one design (every `x` equal to `c`): the
   * minimum-norm solution `mean(y)/(1+c²)·(1, c)`.
   */
  function RankOneLine(x: seq<real>, y: seq<real>): (l: Line)
    requires |x| == |y| && |x| > 0 && Det(x) == 0.0
    ensures NormalEquations(x, y, l)
  {
    var m := MomentsOf(x, y);
    RankOneConstant(x);
    ConstantSums(x, y, x[0]);
    RankOneArith(m, x[0]);
    NormalFromSums(x, y, RankOneFromMoments(m, x[0]), m);
    RankOneFromMoments(m, x[0])
  }

  /**
   * `np.linalg.lstsq([1, x], y)[0]` as its closed form: the solution of
   * the normal equations, the minimum-norm one when the design has rank
   * one. For an empty design numpy returns the zero line; the model
   * returns `None` there.
   */
  function LeastSquares(x: seq<real>, y: seq<real>): (r: Option<Line>)
    requires |x| == |y|
    ensures r.None? <==> |x| == 0
    ensures r.Some? ==> NormalEquations(x, y, r.value)
  {
    if |x| == 0 then None
    else if Det(x) != 0.0 then Some(RegularLine(x, y))
    else Some(RankOneLine(x, y))
  }

  /** A rank-one design is a constant column. */
  lemma {:induction false} RankOneConstant(x: seq<real>)
    requires |x| > 0 && Det(x) == 0.0
    ensures forall i | 0 <= i < |x| :: x[i] == x[0]
  {
    SSTotExpand(x);
    SSTotZero(x);
  }

  lemma {:induction false} ShiftStep(yi: real, xi: real, a: real, b: real, a2: real, b2: real)
    ensures yi - (a2 + b2 * xi) == (yi - (a + b * xi)) + ((a - a2) + (b - b2) * xi)
  {
  }

  lemma {:induction false} ZeroCross(cross: real, da: real, sr: real, db: real, xr: real)
    requires cross == da * sr + db * xr && sr == 0.0 && xr == 0.0
    ensures cross == 0.0
  {
  }

  lemma {:induction false} MinimalArith(ss: real, ss2: real, cross: real, dd: real)
    requires ss2 == ss + 2.0 * cross + dd && cross == 0.0 && dd >= 0.0
    ensures ss <= ss2
  {
  }

  /**
   * A line satisfying the normal equations has the smallest residual
   * sum of squares among all lines.
   */
  lemma {:induction false} NormalMinimal(x: seq<real>, y: seq<real>, l: Line, other: Line)
    requires |x| == |y|
    requires NormalEquations(x, y, l)
    ensures SSRes(y, Predict(x, l.a, l.b)) <= SSRes(y, Predict(x, other.a, other.b))
  {
    var k := |x|;
    var r := Residual(x, y, l);
    var r2 := Residual(x, y, other);
    var d := Predict(x, l.a - other.a, l.b - other.b);
    ResidualShift(x, y, l, other);
    SquareOfSum(r2, r, d, k);
    CrossVanishes(x, y, l, l.a - other.a, l.b - other.b);
    SquaresNonNeg(d, k);
    MinimalArith(DotTo(r, r, k), DotTo(r2, r2, k), DotTo(r, d, k), DotTo(d, d, k));
  }

  /** Moving from `l` to `other` adds the prediction of the difference line to every residual. */
  lemma {:induction false} ResidualShift(x: seq<real>, y: seq<real>, l: Line, other: Line)
    requires |x| == |y|
    ensures forall i | 0 <= i < |x| ::
              Residual(x, y, other)[i] == Residual(x, y, l)[i] + Predict(x, l.a - other.a, l.b - other.b)[i]
  {
    var r := Residual(x, y, l);
    var r2 := Residual(x, y, other);
    var d := Predict(x, l.a - other.a, l.b - other.b);
    forall i | 0 <= i < |x|
      ensures r2[i] == r[i] + d[i]
    {
      ShiftStep(y[i], x[i], l.a, l.b, other.a, other.b);
    }
  }

  /** Residuals satisfying the normal equations are orthogonal to every line's predictions. */
  lemma {:induction false} CrossVanishes(x: seq<real>, y: seq<real>, l: Line, da: real, db: real)
    requires |x| == |y| && NormalEquations(x, y, l)
    ensures DotTo(Residual(x, y, l), Predict(x, da, db), |x|) == 0.0
  {
    var k := |x|;
    var r := Residual(x, y, l);
    var d := Predict(x, da, db);
    PredictElems(x, da, db);
    DotAffine(r, d, x, da, db, k);
    DotComm(r, x, k);
    ZeroCross(DotTo(r, d, k), da, SumTo(r, k), db, DotTo(x, r, k));
  }

  /** The least-squares line fits at least as well as any other line. */
  lemma {:induction false} LeastSquaresMinimal(x: seq<real>, y: seq<real>, other: Line)
    requires |x| == |y| && |x| > 0
    ensures var l := LeastSquares(x, y).value;
            SSRes(y, Predict(x, l.a, l.b)) <= SSRes(y, Predict(x, other.a, other.b))
  {
    NormalMinimal(x, y, LeastSquares(x, y).value, other);
  }

  /** On exactly affine data the least-squares line reproduces the data. */
  lemma {:induction false} LeastSquaresExact(x: seq<real>, y: seq<real>, a0: real, b0: real)
    requires |x| == |y| && |x| > 0 && y == Predict(x, a0, b0)
    ensures var l := LeastSquares(x, y).value; Predict(x, l.a, l.b) == y
  {
    var l := LeastSquares(x, y).value;
    LeastSquaresMinimal(x, y, Line(a0, b0));
    SSResZero(y, Predict(x, a0, b0));
    SSResZero(y, Predict(x, l.a, l.b));
  }

  /** Two points with distinct abscissae fix a line. */
  lemma {:induction false} SameLine(a: real, b: real, a0: real, b0: real, xi: real, xj: real)
    requires xi != xj
    requires a + b * xi == a0 + b0 * xi && a + b * xj == a0 + b0 * xj
    ensures a == a0 && b == b0
  {
    var db, dx := b - b0, xi - xj;
    assert db * dx == 0.0;
    assert db == (db * dx) / dx;
  }

  /** On data with at least two distinct abscissae, a line is fixed by its predictions. */
  lemma {:induction false} PredictionsFixLine(x: seq<real>, l: Line, a0: real, b0: real)
    requires Predict(x, l.a, l.b) == Predict(x, a0, b0) && !Constant(x)
    ensures l == Line(a0, b0)
  {
    var p, q := Predict(x, l.a, l.b), Predict(x, a0, b0);
    var i, j :| 0 <= i < |x| && 0 <= j < |x| && x[i] != x[j];
    assert p[i] == q[i] && p[j] == q[j];
    SameLine(l.a, l.b, a0, b0, x[i], x[j]);
  }

  /** On affine data with at least two distinct abscissae the parameters are recovered. */
  lemma {:induction false} LeastSquaresRecovers(x: seq<real>, y: seq<real>, a0: real, b0: real)
    requires |x| == |y| && |x| > 0 && y == Predict(x, a0, b0) && !Constant(x)
    ensures LeastSquares(x, y) == Some(Line(a0, b0))
  {
    LeastSquaresExact(x, y, a0, b0);
    PredictionsFixLine(x, LeastSquares(x, y).value, a0, b0);
  }

  /**
   * On exactly affine data with at least two distinct abscissae, the
   * only line solving the normal equations is the data's own line.
   */
  lemma {:induction false} NormalEquationsExact(x: seq<real>, y: seq<real>, l: Line, a0: real, b0: real)
    requires |x| == |y| && y == Predict(x, a0, b0) && !Constant(x)
    requires NormalEquations(x, y, l)
    ensures l == Line(a0, b0)
  {
    NormalMinimal(x, y, l, Line(a0, b0));
    SSResZero(y, Predict(x, a0, b0));
    SSResZero(y, Predict(x, l.a, l.b));
    PredictionsFixLine(x, l, a0, b0);
  }

  lemma {:induction false} NonNegFactor(a: real, t: real)
    requires t > 0.0
    ensures a * t >= 0.0 ==> a >= 0.0
  {
  }

  lemma {:induction false} RatioAtMostOne(res: real, tot: real)
    requires 0.0 <= res <= tot && tot > 0.0
    ensures 0.0 <= 1.0 - res / tot
  {
    var q := res / tot;
    assert q * tot == res;
    assert (1.0 - q) * tot == tot - res;
    NonNegFactor(1.0 - q, tot);
  }

  /** A prediction no worse than the mean has a non-negative `R²`. */
  lemma {:induction false} R2NonNegWhenBetter(y: seq<real>, yhat: seq<real>)
    requires |y| == |yhat| && |y| > 0
    requires SSRes(y, yhat) <= SSRes(y, Predict(y, Mean(y), 0.0))
    ensures var r := R2Score(y, yhat); r.Some? ==> 0.0 <= r.value
  {
    if SSTot(y) > 0.0 {
      RatioAtMostOne(SSRes(y, yhat), SSTot(y));
    }
  }

  /** With an intercept in the design, the least-squares `R²` is never negative. */
  lemma {:induction false} LeastSquaresR2NonNeg(x: seq<real>, y: seq<real>)
    requires |x| == |y| && |x| > 0
    ensures var l := LeastSquares(x, y).value;
            var r := R2Score(y, Predict(x, l.a, l.b));
            r.Some? ==> 0.0 <= r.value
  {
    var l := LeastSquares(x, y).value;
    var m := Mean(y);
    LeastSquaresMinimal(x, y, Line(m, 0.0));
    assert Predict(x, m, 0.0) == Predict(y, m, 0.0);
    R2NonNegWhenBetter(y, Predict(x, l.a, l.b));
  }

  // ---------------------------------------------------------------
  // Two-point balances
  // ---------------------------------------------------------------

  /**
   * `two_point_ab(t, y, i, j)`: the line through `(t[i], y[i])` and
   * `(t[j], y[j])`. Equal abscissae divide by zero and give no line.
   */
  function TwoPointAB(t: seq<real>, y: seq<real>, i: nat, j: nat): (r: Option<Line>)
    requires i < |t| && j < |t| && i < |y| && j < |y|
    ensures r.None? <==> t[i] == t[j]
    ensures r.Some? ==> r.value.a + r.value.b * t[i] == y[i] && r.value.a + r.value.b * t[j] == y[j]
  {
    if t[j] == t[i] then None
    else
      var b := (y[j] - y[i]) / (t[j] - t[i]);
      assert b * (t[j] - t[i]) == y[j] - y[i];
      Some(Line(y[i] - b * t[i], b))
  }

  /** Only one line passes through two points with distinct abscissae. */
  lemma {:induction false} TwoPointABUnique(t: seq<real>, y: seq<real>, i: nat, j: nat, l: Line)
    requires i < |t| && j < |t| && i < |y| && j < |y| && t[i] != t[j]
    requires l.a + l.b * t[i] == y[i] && l.a + l.b * t[j] == y[j]
    ensures TwoPointAB(t, y, i, j) == Some(l)
  {
    var r := TwoPointAB(t, y, i, j).value;
    SameLine(r.a, r.b, l.a, l.b, t[i], t[j]);
  }

  /** `two_point_delta_gamma`'s result: the map `m ↦ δ + γ·m`. */
  datatype Dressing = Dressing(delta: real, gamma: real)

  /**
   * `two_point_delta_gamma(t, a, b, mp, mq, p, q)`: the affine map
   * taking the fitted values at `p` and `q` onto `mp` and `mq`. Equal
   * fitted values divide by zero and give no map.
   */
  function TwoPointDeltaGamma(t: seq<real>, l: Line, mp: real, mq: real, p: nat, q: nat): (r: Option<Dressing>)
    requires p < |t| && q < |t|
    ensures var fp, fq := l.a + l.b * t[p], l.a + l.b * t[q];
            (r.None? <==> fp == fq) &&
            (r.Some? ==> r.value.delta + r.value.gamma * fp == mp && r.value.delta + r.value.gamma * fq == mq)
  {
    var fp := l.a + l.b * t[p];
    var fq := l.a + l.b * t[q];
    if fq == fp then None
    else
      var gamma := (mq - mp) / (fq - fp);
      assert gamma * (fq - fp) == mq - mp;
      Some(Dressing(mp - gamma * fp, gamma))
  }

  /**
   * `dressed_map(y_core, t, a, b, delta, gamma)`: `δ + γ·(a + b·t)`.
   * `y_core` is accepted and ignored, so it is not a parameter here.
   */
  function DressedMap(t: seq<real>, l: Line, d: Dressing): (r: seq<real>)
    ensures |r| == |t|
    ensures forall i | 0 <= i < |t| :: r[i] == d.delta + d.gamma * Predict(t, l.a, l.b)[i]
  {
    seq(|t|, i requires 0 <= i < |t| => d.delta + d.gamma * (l.a + l.b * t[i]))
  }

  /** With `δ = 0, γ = 1` the dressed map is the fitted line itself. */
  lemma {:induction false} DressedMapIdentity(t: seq<real>, l: Line)
    ensures DressedMap(t, l, Dressing(0.0, 1.0)) == Predict(t, l.a, l.b)
  {
  }

  /** Dressing with the two-point `(δ, γ)` puts the anchors `p`, `q` onto `mp`, `mq`. */
  lemma {:induction false} DressedAnchors(t: seq<real>, l: Line, mp: real, mq: real, p: nat, q: nat)
    requires p < |t| && q < |t| && l.a + l.b * t[p] != l.a + l.b * t[q]
    ensures var d := TwoPointDeltaGamma(t, l, mp, mq, p, q).value;
            DressedMap(t, l, d)[p] == mp && DressedMap(t, l, d)[q] == mq
  {
  }

  // ---------------------------------------------------------------
  // The fit wrappers
  // ---------------------------------------------------------------

  /** What `affine_fit` and `affine_fit_block` return. */
  datatype AffineResult = AffineResult(line: Line, r2: Option<real>, y: seq<real>, yhat: seq<real>)

  /**
   * `affine_fit(y, t)`: both vectors cut to their common length `N`,
   * the least-squares line, its prediction and its `R²`. When `N = 0`
   * numpy returns the zero line and a NaN `R²`; that is `None` here.
   */
  function AffineFit(y: seq<real>, t: seq<real>): (r: Option<AffineResult>)
    ensures r.None? <==> |y| == 0 || |t| == 0
    ensures r.Some? ==>
              var n := Min(|y|, |t|);
              r.value.y == y[..n] && r.value.yhat == Predict(t[..n], r.value.line.a, r.value.line.b) &&
              NormalEquations(t[..n], y[..n], r.value.line) &&
              (r.value.r2.None? <==> Constant(y[..n])) &&
              (r.value.r2.Some? ==> 0.0 <= r.value.r2.value <= 1.0)
  {
    var n := Min(|y|, |t|);
    var yy, tt := y[..n], t[..n];
    match LeastSquares(tt, yy)
    case None => None
    case Some(l) =>
      LeastSquaresR2NonNeg(tt, yy);
      var yhat := Predict(tt, l.a, l.b);
      Some(AffineResult(l, R2Score(yy, yhat), yy, yhat))
  }

  /**
   * `affine_fit_block(lam, t, transform, skip, N)`: `unique_eigs` (which
   * drops values `≤ 1e-12`, tolerance `1e-6`), the square root only when
   * `transform == 'sqrt'`, the first `skip` values dropped, then the
   * common length — `min(|y|, |t|)`, or `min(N, |t|, |y|)` when `N` is
   * given — and the affine fit on that block.
   */
  function AffineFitBlock(lam: seq<real>, t: seq<real>, sqrtTransform: bool, sqrt: real -> real,
                          skip: nat, n: Option<nat>): (r: Option<AffineResult>)
    ensures var u := Spectrum.Dedup(Spectrum.Sort(Spectrum.FilterAbove(lam, Spectrum.PositiveCutoff)), Spectrum.DefaultTol);
            var y := BlockValues(u, sqrtTransform, sqrt, skip);
            var m := BlockLength(|y|, |t|, n);
            (r.None? <==> m == 0) &&
            (r.Some? ==>
               r.value.y == y[..m] && skip + m <= |u| &&
               (forall i | 0 <= i < m :: r.value.y[i] == if sqrtTransform then sqrt(u[skip + i]) else u[skip + i]) &&
               r.value.yhat == Predict(t[..m], r.value.line.a, r.value.line.b) &&
               NormalEquations(t[..m], r.value.y, r.value.line) &&
               (r.value.r2.None? <==> Constant(r.value.y)) &&
               (r.value.r2.Some? ==> 0.0 <= r.value.r2.value <= 1.0))
  {
    var u := Spectrum.Dedup(Spectrum.Sort(Spectrum.FilterAbove(lam, Spectrum.PositiveCutoff)), Spectrum.DefaultTol);
    FitOnBlock(BlockValues(u, sqrtTransform, sqrt, skip), t, n)
  }

  /**
   * `N = min(len(y), len(t)) if N is None else min(N, len(t), len(y))`:
   * the largest length within every bound, so one of the bounds itself.
   */
  function BlockLength(ny: nat, nt: nat, n: Option<nat>): (m: nat)
    ensures m <= ny && m <= nt && (n.Some? ==> m <= n.value)
    ensures m == ny || m == nt || (n.Some? && m == n.value)
  {
    match n
    case None => Min(ny, nt)
    case Some(k) => Min(k, Min(nt, ny))
  }

  /** The affine fit on the common length of the block values `y` and `t`, capped at `n` when given. */
  function FitOnBlock(y: seq<real>, t: seq<real>, n: Option<nat>): (r: Option<AffineResult>)
    ensures var m := BlockLength(|y|, |t|, n);
            (r.None? <==> m == 0) &&
            (r.Some? ==>
               r.value.y == y[..m] &&
               r.value.yhat == Predict(t[..m], r.value.line.a, r.value.line.b) &&
               NormalEquations(t[..m], r.value.y, r.value.line) &&
               (r.value.r2.None? <==> Constant(r.value.y)) &&
               (r.value.r2.Some? ==> 0.0 <= r.value.r2.value <= 1.0))
  {
    var m := BlockLength(|y|, |t|, n);
    var ym := y[..m];
    match LeastSquares(t[..m], ym)
    case None => None
    case Some(l) =>
      LeastSquaresR2NonNeg(t[..m], ym);
      var yhat := Predict(t[..m], l.a, l.b);
      Some(AffineResult(l, R2Score(ym, yhat), ym, yhat))
  }

  /** The block's values: `u`, square-rooted when asked, its first `skip` entries dropped. */
  function BlockValues(u: seq<real>, sqrtTransform: bool, sqrt: real -> real, skip: nat): (y: seq<real>)
    ensures |y| == if skip <= |u| then |u| - skip else 0
    ensures forall i | 0 <= i < |y| :: y[i] == if sqrtTransform then sqrt(u[skip + i]) else u[skip + i]
  {
    var yraw := if sqrtTransform then Spectrum.MapSqrt(sqrt, u) else u;
    if skip <= |yraw| then yraw[skip..] else []
  }

  /** What `fit_affine` returns: slope `a`, intercept `b`, the prediction and its errors. */
  datatype SlopeFit = SlopeFit(a: real, b: real, pred: seq<real>, mse: real, mae: real)

  /** `np.mean(np.abs(err))`, over the first `k` terms as a sum. */
  function AbsSumTo(e: seq<real>, k: nat): (r: real)
    requires k <= |e|
    ensures r >= 0.0
    ensures r == 0.0 <==> forall i | 0 <= i < k :: e[i] == 0.0
  {
    if k == 0 then 0.0 else AbsSumTo(e, k - 1) + Abs(e[k - 1])
  }

  /** `np.mean(np.abs(y - yhat))`: the mean absolute error. */
  function MAE(y: seq<real>, yhat: seq<real>): (r: real)
    requires |y| == |yhat| && |y| > 0
    ensures r >= 0.0 && (r == 0.0 <==> y == yhat)
  {
    SubZero(y, yhat);
    AbsSumTo(Sub(y, yhat), |y|) / |y| as real
  }

  /** The difference vanishes exactly when the vectors agree. */
  lemma {:induction false} SubZero(y: seq<real>, z: seq<real>)
    requires |y| == |z|
    ensures (forall i | 0 <= i < |y| :: Sub(y, z)[i] == 0.0) <==> y == z
  {
    if forall i | 0 <= i < |y| :: Sub(y, z)[i] == 0.0 {
      forall i | 0 <= i < |y|
        ensures y[i] == z[i]
      {
        assert Sub(y, z)[i] == 0.0;
      }
    }
  }

  /** `p[i] == a·x[i] + b` at every point. */
  predicate AffineImage(p: seq<real>, x: seq<real>, a: real, b: real)
  {
    |p| == |x| && forall i | 0 <= i < |x| :: p[i] == a * x[i] + b
  }

  /** The predictions of intercept `a` and slope `b` are the affine image `b·x + a`. */
  lemma {:induction false} PredictAffine(x: seq<real>, a: real, b: real)
    ensures AffineImage(Predict(x, a, b), x, b, a)
  {
    var p := Predict(x, a, b);
    forall i | 0 <= i < |x|
      ensures p[i] == b * x[i] + a
    {
      assert p[i] == a + b * x[i];
    }
  }

  /**
   * `fit_affine(x, y)` with the slope-first design `[x, 1]`:
   * `pred = a·x + b`; `rms` is the square root of `mse`.
   */
  function FitAffine(x: seq<real>, y: seq<real>): (r: Option<SlopeFit>)
    requires |x| == |y|
    ensures r.None? <==> |x| == 0
    ensures r.Some? ==>
              AffineImage(r.value.pred, x, r.value.a, r.value.b) &&
              NormalEquations(x, y, Line(r.value.b, r.value.a)) &&
              r.value.mse == MSE(y, r.value.pred) && r.value.mse >= 0.0 && r.value.mae >= 0.0 &&
              (r.value.mse == 0.0 <==> r.value.pred == y) &&
              (r.value.mae == 0.0 <==> r.value.pred == y)
  {
    match LeastSquares(x, y)
    case None => None
    case Some(l) =>
      var pred := Predict(x, l.a, l.b);
      PredictAffine(x, l.a, l.b);
      Some(SlopeFit(l.b, l.a, pred, MSE(y, pred), MAE(y, pred)))
  }

  /** On exactly affine data `fit_affine` has zero `rms` and zero `mae`. */
  lemma {:induction false} FitAffineExact(x: seq<real>, y: seq<real>, a0: real, b0: real)
    requires |x| == |y| && |x| > 0
    requires forall i | 0 <= i < |x| :: y[i] == a0 * x[i] + b0
    ensures FitAffine(x, y).value.mse == 0.0 && FitAffine(x, y).value.mae == 0.0
  {
    var p := Predict(x, b0, a0);
    forall i | 0 <= i < |x|
      ensures y[i] == p[i]
    {
    }
    assert y == p;
    LeastSquaresExact(x, y, b0, a0);
  }

  /**
   * The overlay's line: the stored `a`, `b` when the summary has both,
   * otherwise the least-squares line of the window.
   */
  function OverlayLine(stored: Option<Line>, t: seq<real>, y: seq<real>): (r: Option<Line>)
    requires |t| == |y|
    ensures stored.Some? ==> r == stored
    ensures stored.None? && |t| > 0 ==> r.Some? && NormalEquations(t, y, r.value)
  {
    if stored.Some? then stored else LeastSquares(t, y)
  }
}
