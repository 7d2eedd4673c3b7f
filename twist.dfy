/**
 * The twisted-boundary experiment: the ring Laplacian with a phase
 * `e^{iθ}` on its corner entries, its positive spectrum, the slope-first
 * affine fit, the (L, θ) grid search on a training subset, the
 * coordinate-descent fit of the closed-form model
 * `a·((2πn + θ)/L)² + b`, and the spacing statistics (number variance,
 * the Kolmogorov–Smirnov distance to a given CDF).
 *
 * `e^{iθ}`, `π`, `sqrt`, the spacing CDF and the eigen-solver are
 * parameters; the model does not compute them.
 */
module Twist {
  import opened Wrappers
  import opened Complex
  import opened Matrix
  import Spectrum
  import Fit
  import Ranking
  import Sweeps

  // ---------------------------------------------------------------
  // build_twisted_matrix
  // ---------------------------------------------------------------

  /** The squared grid spacing `h²` with `h = L / M`. */
  function H2(L: real, M: nat): (h2: real)
    requires M > 0 && L != 0.0
    ensures h2 > 0.0
  {
    var h := L / M as real;
    Fit.NonZeroSquare(h, h, h * h);
    h * h
  }

  /**
   * Entry `(i, j)` of the kinetic part after the diagonal fill, the two
   * off-diagonal fills and the two corner writes, in that order: the
   * later corner write `A[M-1, 0]` wins where the writes meet.
   */
  function Kinetic(L: real, M: nat, phase: C, i: nat, j: nat): C
    requires M > 0 && L != 0.0
  {
    var h2 := H2(L, M);
    if i == M - 1 && j == 0 then Scale(-1.0 / h2, phase)
    else if i == 0 && j == M - 1 then Scale(-1.0 / h2, Conj(phase))
    else if i == j then Real(2.0 / h2)
    else if i == j + 1 || j == i + 1 then Real(-1.0 / h2)
    else Zero
  }

  /** The weak potential `V0 + k2·(τ - L/2)²` on the grid `τ_i = i·L/M`. */
  function PotentialAt(L: real, M: nat, V0: real, k2: real, i: nat): real
    requires M > 0
  {
    var d := i as real * (L / M as real) - 0.5 * L;
    V0 + k2 * (d * d)
  }

  /** The potential is added only when `V0` or `k2` is non-zero. */
  predicate HasPotential(V0: real, k2: real)
  {
    V0 != 0.0 || k2 != 0.0
  }

  function TwistedEntry(L: real, M: nat, phase: C, V0: real, k2: real, i: nat, j: nat): C
    requires M > 0 && L != 0.0
  {
    if HasPotential(V0, k2) && i == j then Add(Kinetic(L, M, phase, i, j), Real(PotentialAt(L, M, V0, k2, i)))
    else Kinetic(L, M, phase, i, j)
  }

  /** `build_twisted_matrix(L, M, θ, V0, k2)` as a value, with `phase = e^{iθ}`. */
  function TwistedMatrix(L: real, M: nat, phase: C, V0: real, k2: real): (A: Mat)
    requires M > 0 && L != 0.0
    ensures IsSquare(A, M)
  {
    seq(M, i requires 0 <= i < M => seq(M, j requires 0 <= j < M => TwistedEntry(L, M, phase, V0, k2, i, j)))
  }

  /**
   * Fills a zero array in the order of the source: the diagonal, the
   * sub- and super-diagonals, the two corners, then the potential.
   */
  method BuildTwistedMatrix(L: real, M: nat, phase: C, V0: real, k2: real) returns (A: array2<C>)
    requires M > 0 && L != 0.0
    ensures fresh(A) && A.Length0 == M && A.Length1 == M
    ensures forall i, j | 0 <= i < M && 0 <= j < M :: A[i, j] == TwistedEntry(L, M, phase, V0, k2, i, j)
  {
    var h2 := H2(L, M);
    var main := Real(2.0 / h2);
    var off := Real(-1.0 / h2);
    A := new C[M, M]((i, j) => Zero);
    for i := 0 to M
      invariant forall r, c | 0 <= r < M && 0 <= c < M ::
                  A[r, c] == if r == c && r < i then main else Zero
    {
      A[i, i] := main;
    }
    for i := 0 to M - 1
      invariant forall r, c | 0 <= r < M && 0 <= c < M ::
                  A[r, c] == if r == c then main else if r == c + 1 && c < i then off else Zero
    {
      A[i + 1, i] := off;
    }
    for i := 0 to M - 1
      invariant forall r, c | 0 <= r < M && 0 <= c < M ::
                  A[r, c] == if r == c then main
                             else if r == c + 1 || (c == r + 1 && r < i) then off
                             else Zero
    {
      A[i, i + 1] := off;
    }
    A[0, M - 1] := Scale(-1.0 / h2, Conj(phase));
    A[M - 1, 0] := Scale(-1.0 / h2, phase);
    if HasPotential(V0, k2) {
      for i := 0 to M
        invariant forall r, c | 0 <= r < M && 0 <= c < M ::
                    A[r, c] == if r == c && r < i then TwistedEntry(L, M, phase, V0, k2, r, c)
                               else Kinetic(L, M, phase, r, c)
      {
        A[i, i] := Add(A[i, i], Real(PotentialAt(L, M, V0, k2, i)));
      }
    }
  }

  lemma CornerConj(phase: C, h2: real)
    requires h2 != 0.0
    ensures Conj(Scale(-1.0 / h2, phase)) == Scale(-1.0 / h2, Conj(phase))
    ensures Conj(Scale(-1.0 / h2, Conj(phase))) == Scale(-1.0 / h2, phase)
  {
  }

  /** With at least two grid points the twisted ring is Hermitian for every phase. */
  lemma TwistedHermitian(L: real, M: nat, phase: C, V0: real, k2: real)
    requires M >= 2 && L != 0.0
    ensures Hermitian(TwistedMatrix(L, M, phase, V0, k2))
  {
    var A := TwistedMatrix(L, M, phase, V0, k2);
    CornerConj(phase, H2(L, M));
    forall i, j | 0 <= i < M && 0 <= j < M
      ensures A[i][j] == Conj(A[j][i])
    {
      assert A[i][j] == TwistedEntry(L, M, phase, V0, k2, i, j);
      assert A[j][i] == TwistedEntry(L, M, phase, V0, k2, j, i);
    }
  }

  /**
   * The matrix is tridiagonal apart from the two corners: every other
   * entry is zero, and the diagonal carries `2/h²` plus the potential.
   */
  lemma TwistedBand(L: real, M: nat, phase: C, V0: real, k2: real, i: nat, j: nat)
    requires M >= 3 && L != 0.0 && i < M && j < M
    ensures var A := TwistedMatrix(L, M, phase, V0, k2);
            var h2 := H2(L, M);
            (i != j && i != j + 1 && j != i + 1 && !(i == 0 && j == M - 1) && !(i == M - 1 && j == 0) ==>
               A[i][j] == Zero) &&
            (i == j ==> A[i][j] == if HasPotential(V0, k2) then Add(Real(2.0 / h2), Real(PotentialAt(L, M, V0, k2, i)))
                                   else Real(2.0 / h2)) &&
            (i == j + 1 || j == i + 1 ==> A[i][j] == Real(-1.0 / h2)) &&
            (i == 0 && j == M - 1 ==> A[i][j] == Scale(-1.0 / h2, Conj(phase))) &&
            (i == M - 1 && j == 0 ==> A[i][j] == Scale(-1.0 / h2, phase))
  {
    assert TwistedMatrix(L, M, phase, V0, k2)[i][j] == TwistedEntry(L, M, phase, V0, k2, i, j);
  }

  /** With `θ = 0` (`phase = 1`) the corners are ordinary hops: the periodic ring. */
  lemma UntwistedIsPeriodic(L: real, M: nat, V0: real, k2: real)
    requires M >= 3 && L != 0.0
    ensures var A := TwistedMatrix(L, M, One, V0, k2);
            A[0][M - 1] == Real(-1.0 / H2(L, M)) && A[M - 1][0] == Real(-1.0 / H2(L, M))
  {
    var A := TwistedMatrix(L, M, One, V0, k2);
    var h2 := H2(L, M);
    assert A[0][M - 1] == TwistedEntry(L, M, One, V0, k2, 0, M - 1);
    assert A[M - 1][0] == TwistedEntry(L, M, One, V0, k2, M - 1, 0);
  }


  /**
   * With one grid point both corner writes land on the diagonal: the
   * `2/h²` is replaced by `-e^{iθ}/h²`, and for `θ = π/2` the 1×1 matrix
   * is not Hermitian.
   */
  lemma OnePointRing(L: real, phase: C)
    requires L != 0.0
    ensures TwistedMatrix(L, 1, phase, 0.0, 0.0)[0][0] == Scale(-1.0 / H2(L, 1), phase)
    ensures !Hermitian(TwistedMatrix(L, 1, I, 0.0, 0.0))
  {
    assert TwistedMatrix(L, 1, phase, 0.0, 0.0)[0][0] == TwistedEntry(L, 1, phase, 0.0, 0.0, 0, 0);
    var A := TwistedMatrix(L, 1, I, 0.0, 0.0);
    var h2 := H2(L, 1);
    var q := -1.0 / h2;
    assert q * h2 == -1.0;
    assert A[0][0] == TwistedEntry(L, 1, I, 0.0, 0.0, 0, 0) == Scale(q, I);
    assert A[0][0].im == q * 1.0 != 0.0;
  }

  // ---------------------------------------------------------------
  // number_variance
  // ---------------------------------------------------------------

  /** How many of `u` lie in the half-open window `[a, b)`. */
  function Count(u: seq<real>, a: real, b: real): (c: nat)
    ensures c <= |u|
  {
    if |u| == 0 then 0
    else (if a <= u[0] && u[0] < b then 1 else 0) + Count(u[1..], a, b)
  }

  /**
   * Adjacent half-open windows never count a point twice or miss one:
   * `[a, m)` and `[m, b)` together count exactly `[a, b)`.
   */
  lemma {:induction false} CountSplit(u: seq<real>, a: real, m: real, b: real)
    requires a <= m <= b
    ensures Count(u, a, m) + Count(u, m, b) == Count(u, a, b)
  {
    if |u| > 0 {
      CountSplit(u[1..], a, m, b);
    }
  }

  /** A window past every point is empty. */
  lemma {:induction false} CountEmpty(u: seq<real>, a: real, b: real)
    requires forall k | 0 <= k < |u| :: u[k] < a
    ensures Count(u, a, b) == 0
  {
    if |u| > 0 {
      CountEmpty(u[1..], a, b);
    }
  }

  /** `(cnt - L)²` for the window `[a, a + L)`. */
  function Deviation(u: seq<real>, a: real, L: real): (d: real)
    ensures d >= 0.0
  {
    var e := Count(u, a, a + L) as real - L;
    Fit.SquareNonNeg(e, e, e * e);
    e * e
  }

  function Deviations(u: seq<real>, starts: seq<real>, L: real): (r: seq<real>)
    ensures |r| == |starts|
    ensures forall i | 0 <= i < |starts| :: r[i] == Deviation(u, starts[i], L)
  {
    seq(|starts|, i requires 0 <= i < |starts| => Deviation(u, starts[i], L))
  }

  lemma DeviationsSnoc(u: seq<real>, starts: seq<real>, k: nat, L: real)
    requires k < |starts|
    ensures Deviations(u, starts[..k + 1], L) == Deviations(u, starts[..k], L) + [Deviation(u, starts[k], L)]
  {
    assert starts[..k + 1] == starts[..k] + [starts[k]];
  }

  lemma {:induction false} SumNonNeg(s: seq<real>, k: nat)
    requires k <= |s| && forall i | 0 <= i < |s| :: s[i] >= 0.0
    ensures Fit.SumTo(s, k) >= 0.0
  {
    if k > 0 {
      SumNonNeg(s, k - 1);
    }
  }

  /**
   * `number_variance(u, L, steps)`: NaN (`None`) when the points span no
   * more than `L`, when there are fewer than six of them, or when there
   * are no window starts; otherwise the mean over `steps` evenly spaced
   * starts of `(count in [a, a+L) - L)²`, which is never negative.
   */
  method NumberVariance(u: seq<real>, L: real, steps: nat) returns (r: Option<real>)
    requires |u| > 0
    ensures r.None? <==> u[|u| - 1] - u[0] <= L || |u| < 6 || steps == 0
    ensures r.Some? ==>
              r.value >= 0.0 &&
              r.value == Fit.Mean(Deviations(u, Sweeps.Linspace(u[0], u[|u| - 1] - L, steps), L))
  {
    var umin, umax := u[0], u[|u| - 1];
    if umax - umin <= L || |u| < 6 {
      return None;
    }
    var starts := Sweeps.Linspace(umin, umax - L, steps);
    var vals: seq<real> := [];
    for k := 0 to |starts|
      invariant vals == Deviations(u, starts[..k], L)
    {
      var a := starts[k];
      var b := a + L;
      var cnt := Count(u, a, b);
      var e := cnt as real - L;
      assert e * e == Deviation(u, a, L);
      vals := vals + [e * e];
      DeviationsSnoc(u, starts, k, L);
    }
    assert starts[..|starts|] == starts;
    if |vals| == 0 {
      return None;
    }
    SumNonNeg(vals, |vals|);
    r := Some(Fit.Mean(vals));
  }

  // ---------------------------------------------------------------
  // ks_stat_against_wigner
  // ---------------------------------------------------------------

  /** The empirical CDF `i/n` at the `i`-th smallest of `n` values. */
  function Ecdf(n: nat): (r: seq<real>)
    ensures |r| == n
    ensures forall i | 0 <= i < n :: 0.0 < r[i] <= 1.0
    ensures forall i, j | 0 <= i < j < n :: r[i] < r[j]
    ensures n > 0 ==> r[n - 1] == 1.0
  {
    EcdfAscending(n);
    seq(n, i requires 0 <= i < n => EcdfAt(i, n))
  }

  /** `(i + 1)/n`. */
  function EcdfAt(i: nat, n: nat): real
    requires n > 0
  {
    (i + 1) as real / n as real
  }

  /** `1/n < 2/n < … < n/n = 1`. */
  lemma EcdfAscending(n: nat)
    ensures forall i | 0 <= i < n :: 0.0 < EcdfAt(i, n) <= 1.0
    ensures forall i, j | 0 <= i < j < n :: EcdfAt(i, n) < EcdfAt(j, n)
    ensures n > 0 ==> EcdfAt(n - 1, n) == 1.0
  {
    forall i, j | 0 <= i < j < n
      ensures EcdfAt(i, n) < EcdfAt(j, n)
    {
      FractionLess(i + 1, j + 1, n);
    }
    forall i | 0 <= i < n
      ensures 0.0 < EcdfAt(i, n) <= 1.0
    {
      FractionLess(0, i + 1, n);
      FractionOne(n);
      if i + 1 < n {
        FractionLess(i + 1, n, n);
      }
    }
    if n > 0 {
      FractionOne(n);
    }
  }

  lemma FractionLess(a: nat, b: nat, n: nat)
    requires a < b && n > 0
    ensures a as real / n as real < b as real / n as real
  {
    var x, y, d := a as real / n as real, b as real / n as real, n as real;
    assert x * d == a as real && y * d == b as real;
    assert (y - x) * d == (b - a) as real;
  }

  lemma FractionOne(n: nat)
    requires n > 0
    ensures n as real / n as real == 1.0
  {
  }

  /** The largest `|e[i] - c[i]|`; it is reached at some `i`. */
  function MaxAbsDiff(e: seq<real>, c: seq<real>): (m: real)
    requires |e| == |c| > 0
    ensures m >= 0.0
    ensures forall i | 0 <= i < |e| :: Abs(e[i] - c[i]) <= m
    ensures exists i | 0 <= i < |e| :: Abs(e[i] - c[i]) == m
  {
    if |e| == 1 then Abs(e[0] - c[0])
    else
      var rest := MaxAbsDiff(e[1..], c[1..]);
      assert forall i | 1 <= i < |e| :: e[i] - c[i] == e[1..][i - 1] - c[1..][i - 1];
      if Abs(e[0] - c[0]) >= rest then Abs(e[0] - c[0]) else rest
  }

  /**
   * `d` is the largest distance between the empirical CDF of `s` and
   * `cdf` at the points of `s`, and some point reaches it.
   */
  predicate IsKsDistance(s: seq<real>, cdf: real -> real, d: real)
  {
    (forall i | 0 <= i < |s| :: Abs(Ecdf(|s|)[i] - cdf(s[i])) <= d) &&
    (exists i | 0 <= i < |s| :: Abs(Ecdf(|s|)[i] - cdf(s[i])) == d)
  }

  function KsDistance(s: seq<real>, cdf: real -> real): (d: real)
    requires |s| > 0
    ensures d >= 0.0 && IsKsDistance(s, cdf, d)
  {
    var e := Ecdf(|s|);
    var c := seq(|s|, i requires 0 <= i < |s| => cdf(s[i]));
    var d := MaxAbsDiff(e, c);
    assert forall i | 0 <= i < |s| :: c[i] == cdf(s[i]);
    d
  }

  /**
   * `ks_stat_against_wigner(spacings)`: the largest distance between the
   * empirical CDF of the sorted spacings and the reference CDF `cdf`.
   */
  function KsStat(spacings: seq<real>, cdf: real -> real): (d: real)
    requires |spacings| > 0
    ensures d >= 0.0 && IsKsDistance(Spectrum.Sort(spacings), cdf, d)
  {
    KsDistance(Spectrum.Sort(spacings), cdf)
  }

  // ---------------------------------------------------------------
  // Train / test split
  // ---------------------------------------------------------------

  /** `min(train, K - 10)`. */
  function TrainSize(req: int, K: nat): (t: int)
    ensures t <= req && t <= K - 10 && (t == req || t == K - 10)
  {
    if K - 10 < req then K - 10 else req
  }

  /** Where the slice `idx[:t]` ends: a negative bound counts from the end. */
  function SliceEnd(t: int, n: nat): (e: nat)
    ensures e <= n
    ensures 0 <= t <= n ==> e == t
  {
    if t < 0 then (if t + n < 0 then 0 else t + n)
    else if t > n then n
    else t
  }

  datatype Split = Split(train: seq<nat>, test: seq<nat>)

  /** `train_idx, test_idx = idx[:train], idx[train:]` on the shuffled indices. */
  function SplitIndices(idx: seq<nat>, req: int): (s: Split)
    ensures s.train + s.test == idx
    ensures |s.train| == SliceEnd(TrainSize(req, |idx|), |idx|)
  {
    var e := SliceEnd(TrainSize(req, |idx|), |idx|);
    assert idx[..e] + idx[e..] == idx;
    Split(idx[..e], idx[e..])
  }

  /** `idx` is a shuffle of `0 .. K-1`: every index once. */
  predicate IsShuffle(idx: seq<nat>)
  {
    (forall i | 0 <= i < |idx| :: idx[i] < |idx|) &&
    (forall i, j | 0 <= i < j < |idx| :: idx[i] != idx[j])
  }

  /**
   * With at least ten zeros and a non-negative request the split keeps
   * `min(train, K - 10)` indices for training and at least ten for the
   * test, and the two parts are disjoint and together cover `0 .. K-1`.
   */
  lemma {:induction false} SplitPartition(idx: seq<nat>, req: int)
    requires IsShuffle(idx) && |idx| >= 10 && req >= 0
    ensures var s := SplitIndices(idx, req);
            |s.train| == TrainSize(req, |idx|) && |s.test| >= 10 &&
            (forall k :: k in s.train ==> k !in s.test) &&
            (forall k :: 0 <= k < |idx| <==> k in s.train || k in s.test)
  {
    var e := SliceEnd(TrainSize(req, |idx|), |idx|);
    var s := SplitIndices(idx, req);
    assert s.train == idx[..e] && s.test == idx[e..];
    PrefixSuffixDisjoint(idx, e);
    PrefixSuffixCover(idx, e);
  }

  /** No index of a shuffle's prefix reappears in the rest. */
  lemma PrefixSuffixDisjoint(idx: seq<nat>, e: nat)
    requires IsShuffle(idx) && e <= |idx|
    ensures forall k :: k in idx[..e] ==> k !in idx[e..]
  {
    forall k | k in idx[..e]
      ensures k !in idx[e..]
    {
      var i :| 0 <= i < e && idx[..e][i] == k;
      forall j | 0 <= j < |idx| - e
        ensures idx[e..][j] != k
      {
        assert idx[e..][j] == idx[e + j] && idx[..e][i] == idx[i];
      }
    }
  }

  /** A shuffle's prefix and the rest hold exactly the indices `0 .. K-1`. */
  lemma PrefixSuffixCover(idx: seq<nat>, e: nat)
    requires IsShuffle(idx) && e <= |idx|
    ensures forall k :: 0 <= k < |idx| <==> k in idx[..e] || k in idx[e..]
  {
    forall k | 0 <= k < |idx|
      ensures k in idx[..e] || k in idx[e..]
    {
      ShuffleCovers(idx, k);
      var i :| 0 <= i < |idx| && idx[i] == k;
      if i < e {
        assert idx[..e][i] == k;
      } else {
        assert idx[e..][i - e] == k;
      }
    }
    forall k | k in idx[..e] || k in idx[e..]
      ensures 0 <= k < |idx|
    {
      assert k in idx;
    }
  }

  /** A shuffle of `0 .. K-1` holds every index below `K`. */
  lemma {:induction false} ShuffleCovers(idx: seq<nat>, k: nat)
    requires IsShuffle(idx) && k < |idx|
    ensures k in idx
  {
    var present := set i | 0 <= i < |idx| :: idx[i];
    var all := Below(|idx|);
    assert present <= all;
    CardOfImage(idx);
    if k !in idx {
      assert present <= all - {k};
      SubsetCard(present, all - {k});
      assert false;
    }
  }

  lemma {:induction false} CardOfImage(idx: seq<nat>)
    requires forall i, j | 0 <= i < j < |idx| :: idx[i] != idx[j]
    ensures |set i | 0 <= i < |idx| :: idx[i]| == |idx|
  {
    if |idx| > 0 {
      var n := |idx| - 1;
      CardOfImage(idx[..n]);
      var before := set i | 0 <= i < n :: idx[..n][i];
      assert (set i | 0 <= i < |idx| :: idx[i]) == before + {idx[n]};
      assert idx[n] !in before;
    }
  }

  /** The set `{0, …, n-1}`. */
  function Below(n: nat): (r: set<nat>)
    ensures |r| == n && forall x: nat :: x in r <==> x < n
  {
    if n == 0 then {} else Below(n - 1) + {n - 1}
  }

  lemma SubsetCard<T>(a: set<T>, b: set<T>)
    requires a <= b
    ensures |a| <= |b|
  {
    assert b == a + (b - a);
  }

  // ---------------------------------------------------------------
  // grid_theta_L_train_only
  // ---------------------------------------------------------------

  /** Every index of `idx` is below `n`. */
  predicate InRange(idx: seq<nat>, n: nat)
  {
    forall k | 0 <= k < |idx| :: idx[k] < n
  }

  /** `v[idx]`, numpy's fancy indexing. */
  function Pick(v: seq<real>, idx: seq<nat>): (r: seq<real>)
    requires InRange(idx, |v|)
    ensures |r| == |idx| && forall k | 0 <= k < |idx| :: r[k] == v[idx[k]]
  {
    seq(|idx|, k requires 0 <= k < |idx| => v[idx[k]])
  }

  /** The L-major, θ-minor grid of `np.linspace` values. */
  function TwistGrid(lMin: real, lMax: real, lSteps: nat, thMin: real, thMax: real, thSteps: nat): (g: seq<(real, real)>)
    ensures |g| == lSteps * thSteps
  {
    Sweeps.RowMajor(Sweeps.Linspace(lMin, lMax, lSteps), Sweeps.Linspace(thMin, thMax, thSteps))
  }

  /** What the grid search keeps of a point: `(rms, mae, a, b, θ, L, lam_all)`. */
  datatype GridPoint = GridPoint(rms: real, mae: real, a: real, b: real, theta: real, L: real, lam: seq<real>)

  /**
   * Every grid point's spectrum is long enough for the training indices
   * (the source raises an index error otherwise).
   */
  predicate GridFits(grid: seq<(real, real)>, eigs: (real, real) -> seq<real>, K: nat, trainIdx: seq<nat>)
  {
    forall k | 0 <= k < |grid| :: InRange(trainIdx, |Spectrum.EigvalsHermitian(eigs(grid[k].0, grid[k].1), K)|)
  }

  /**
   * One point `(L, θ)`: the first `K` positive eigenvalues of the
   * twisted ring (`eigs` stands for building it and calling the
   * solver) and the slope-first fit of the zeros on them, training
   * indices only.
   */
  function Evaluate(point: (real, real), eigs: (real, real) -> seq<real>, K: nat, gam: seq<real>,
                    trainIdx: seq<nat>, sqrt: real -> real): (g: GridPoint)
    requires |trainIdx| > 0 && InRange(trainIdx, |gam|)
    requires InRange(trainIdx, |Spectrum.EigvalsHermitian(eigs(point.0, point.1), K)|)
    ensures g.L == point.0 && g.theta == point.1
    ensures g.lam == Spectrum.EigvalsHermitian(eigs(point.0, point.1), K)
    ensures var f := Fit.FitAffine(Pick(g.lam, trainIdx), Pick(gam, trainIdx));
            f.Some? && g.a == f.value.a && g.b == f.value.b &&
            g.rms == sqrt(f.value.mse) && g.mae == f.value.mae
  {
    var lam := Spectrum.EigvalsHermitian(eigs(point.0, point.1), K);
    var f := Fit.FitAffine(Pick(lam, trainIdx), Pick(gam, trainIdx)).value;
    GridPoint(sqrt(f.mse), f.mae, f.a, f.b, point.1, point.0, lam)
  }

  function Evaluations(grid: seq<(real, real)>, eigs: (real, real) -> seq<real>, K: nat, gam: seq<real>,
                       trainIdx: seq<nat>, sqrt: real -> real): (r: seq<GridPoint>)
    requires |trainIdx| > 0 && InRange(trainIdx, |gam|) && GridFits(grid, eigs, K, trainIdx)
    ensures |r| == |grid|
    ensures forall k | 0 <= k < |grid| :: r[k] == Evaluate(grid[k], eigs, K, gam, trainIdx, sqrt)
  {
    seq(|grid|, k requires 0 <= k < |grid| => Evaluate(grid[k], eigs, K, gam, trainIdx, sqrt))
  }

  /** `pts[k]` has the smallest rms, and every earlier point a larger one. */
  predicate FirstMinRms(pts: seq<GridPoint>, k: nat)
  {
    k < |pts| &&
    (forall j | 0 <= j < |pts| :: pts[j].rms >= pts[k].rms) &&
    (forall j | 0 <= j < k :: pts[j].rms > pts[k].rms)
  }

  lemma LexSingle(x: real, y: real)
    ensures Ranking.LexLess([x], [y]) <==> x < y
  {
    assert [x][1..] == [] && [y][1..] == [];
  }

  lemma ProductZero(m: nat, n: nat)
    ensures m * n == 0 <==> m == 0 || n == 0
  {
    if m > 0 && n > 0 {
      assert m * n >= n;
    }
  }

  /** The one-element keys `(rms,)` the grid search compares. */
  function RmsKeys(pts: seq<GridPoint>): (keys: seq<seq<real>>)
    ensures |keys| == |pts| && forall k | 0 <= k < |pts| :: keys[k] == [pts[k].rms]
  {
    seq(|pts|, k requires 0 <= k < |pts| => [pts[k].rms])
  }

  /** On one-element keys the first lexicographic minimum is the first smallest rms. */
  lemma SingleKeyFirstMin(pts: seq<GridPoint>)
    requires |pts| > 0
    ensures FirstMinRms(pts, Ranking.FirstMinTo(RmsKeys(pts), 1, |pts|).value)
  {
    var keys := RmsKeys(pts);
    var i := Ranking.FirstMinTo(keys, 1, |pts|).value;
    Ranking.FirstMinIsFirstMin(keys, 1, |keys|);
    forall j | 0 <= j < |pts|
      ensures pts[j].rms >= pts[i].rms && (j < i ==> pts[j].rms > pts[i].rms)
    {
      LexSingle(pts[j].rms, pts[i].rms);
      LexSingle(pts[i].rms, pts[j].rms);
    }
  }

  /**
   * `grid_theta_L_train_only`: the first grid point in (L, θ) order with
   * the strictly smallest training rms, or `None` for an empty grid.
   */
  method GridThetaLTrainOnly(eigs: (real, real) -> seq<real>, K: nat, gam: seq<real>, trainIdx: seq<nat>,
                             lMin: real, lMax: real, lSteps: nat, thMin: real, thMax: real, thSteps: nat,
                             sqrt: real -> real) returns (best: Option<GridPoint>)
    requires |trainIdx| > 0 && InRange(trainIdx, |gam|)
    requires GridFits(TwistGrid(lMin, lMax, lSteps, thMin, thMax, thSteps), eigs, K, trainIdx)
    ensures best.None? <==> lSteps == 0 || thSteps == 0
    ensures best.Some? ==>
              var pts := Evaluations(TwistGrid(lMin, lMax, lSteps, thMin, thMax, thSteps), eigs, K, gam, trainIdx, sqrt);
              exists k | 0 <= k < |pts| :: pts[k] == best.value && FirstMinRms(pts, k)
  {
    var grid := TwistGrid(lMin, lMax, lSteps, thMin, thMax, thSteps);
    ProductZero(lSteps, thSteps);
    var pts := Evaluations(grid, eigs, K, gam, trainIdx, sqrt);
    var keys := RmsKeys(pts);
    var k := Ranking.FirstMinLex(keys, 1);
    if k.None? {
      return None;
    }
    SingleKeyFirstMin(pts);
    var i := k.value;
    best := Some(pts[i]);
  }

  // ---------------------------------------------------------------
  // fit_closed_form_abthL
  // ---------------------------------------------------------------

  /** The four fitted parameters `(a, b, θ, L)`. */
  datatype Params = Params(a: real, b: real, theta: real, L: real)

  function Coord(p: Params, i: nat): real
    requires i < 4
  {
    if i == 0 then p.a else if i == 1 then p.b else if i == 2 then p.theta else p.L
  }

  /** `p_try[i] += d`: one coordinate moves, the others stay. */
  function Shift(p: Params, i: nat, d: real): (q: Params)
    requires i < 4
    ensures Coord(q, i) == Coord(p, i) + d
    ensures forall c | 0 <= c < 4 && c != i :: Coord(q, c) == Coord(p, c)
  {
    if i == 0 then p.(a := p.a + d)
    else if i == 1 then p.(b := p.b + d)
    else if i == 2 then p.(theta := p.theta + d)
    else p.(L := p.L + d)
  }

  /** The initial guess `(0.5, 10, π/2, 22)`. */
  function Start(pi: real): Params
  {
    Params(0.5, 10.0, pi / 2.0, 22.0)
  }

  /** The loss of a non-positive length. */
  const Penalty: real := 1000000000.0

  /** `k_square_model`: `a·((2πn + θ)/L)² + b`. */
  function KSquareModel(p: Params, n: real, pi: real): real
    requires p.L != 0.0
  {
    var k := (2.0 * pi * n + p.theta) / p.L;
    p.a * (k * k) + p.b
  }

  function Preds(p: Params, nList: seq<nat>, pi: real): (r: seq<real>)
    requires p.L != 0.0
    ensures |r| == |nList| && forall k | 0 <= k < |nList| :: r[k] == KSquareModel(p, nList[k] as real, pi)
  {
    seq(|nList|, k requires 0 <= k < |nList| => KSquareModel(p, nList[k] as real, pi))
  }

  /**
   * The loss of `fit_closed_form_abthL`: the penalty for `L <= 0`, else
   * the mean squared error of the model at `n_list` against the first
   * zeros. It is never negative, and zero exactly when the model hits
   * every zero.
   */
  function Loss(p: Params, gam: seq<real>, nList: seq<nat>, pi: real): (r: real)
    requires 0 < |nList| <= |gam|
    ensures r >= 0.0
    ensures p.L <= 0.0 ==> r == Penalty
    ensures p.L > 0.0 ==>
              (r == 0.0 <==> forall k | 0 <= k < |nList| :: KSquareModel(p, nList[k] as real, pi) == gam[k])
  {
    if p.L <= 0.0 then Penalty
    else
      var y := Preds(p, nList, pi);
      var z := gam[..|nList|];
      assert (y == z) <==> forall k | 0 <= k < |nList| :: y[k] == z[k];
      Fit.MSE(y, z)
  }

  const MaxRounds: nat := 2000
  const InitialStep: real := 0.01
  const MinStep: real := 0.000001

  /** The common step size after `h` halvings. */
  function StepAfter(h: nat): (s: real)
    ensures s > 0.0
  {
    if h == 0 then InitialStep else StepAfter(h - 1) * 0.5
  }

  lemma {:induction false} StepShrinks(h: nat, k: nat)
    requires h <= k
    ensures StepAfter(k) <= StepAfter(h)
  {
    if h < k {
      StepShrinks(h, k - 1);
    }
  }

  /** The step falls below `1e-6` exactly at the fourteenth halving. */
  lemma StepFloor(h: nat)
    ensures StepAfter(h) < MinStep <==> h >= 14
  {
    assert StepAfter(13) == 0.01 / 8192.0;
    assert StepAfter(14) == 0.01 / 16384.0;
    if h <= 13 {
      StepShrinks(h, 13);
    } else {
      StepShrinks(14, h);
    }
  }

  function Uniform(s: real): (r: seq<real>)
  {
    [s, s, s, s]
  }

  /** `steps *= 0.5`. */
  function Halve(steps: seq<real>): (r: seq<real>)
    ensures |r| == |steps| && forall k | 0 <= k < |steps| :: r[k] == steps[k] * 0.5
  {
    seq(|steps|, k requires 0 <= k < |steps| => steps[k] * 0.5)
  }

  /** `np.max(steps)`. */
  function MaxOf(s: seq<real>): (m: real)
    requires |s| > 0
    ensures forall k | 0 <= k < |s| :: s[k] <= m
    ensures exists k | 0 <= k < |s| :: s[k] == m
  {
    if |s| == 1 then s[0]
    else
      var rest := MaxOf(s[1..]);
      assert forall k | 1 <= k < |s| :: s[k] == s[1..][k - 1];
      if s[0] >= rest then s[0] else rest
  }

  /** No single-coordinate move by `±s` lowers the loss. */
  predicate LocallyMinimal(loss: Params -> real, p: Params, s: real)
  {
    forall c | 0 <= c < 4 :: loss(Shift(p, c, s)) >= loss(p) && loss(Shift(p, c, -s)) >= loss(p)
  }

  /**
   * One round of the descent: for each coordinate in turn, `+step` then
   * `-step`, keeping a strictly smaller loss. A round without
   * improvement leaves the point alone and proves it locally minimal.
   */
  method DescentRound(loss: Params -> real, p0: Params, best0: real, steps: seq<real>)
    returns (p: Params, best: real, improved: bool)
    requires |steps| == 4 && best0 == loss(p0)
    ensures best == loss(p) && best <= best0
    ensures !improved ==>
              p == p0 &&
              forall c | 0 <= c < 4 :: loss(Shift(p, c, steps[c])) >= best && loss(Shift(p, c, -steps[c])) >= best
  {
    p, best, improved := p0, best0, false;
    for i := 0 to 4
      invariant best == loss(p) && best <= best0
      invariant !improved ==>
                  p == p0 &&
                  forall c | 0 <= c < i :: loss(Shift(p, c, steps[c])) >= best && loss(Shift(p, c, -steps[c])) >= best
    {
      var pTry := Shift(p, i, steps[i]);
      var val := loss(pTry);
      if val < best {
        best, p := val, pTry;
        improved := true;
      }
      pTry := Shift(p, i, -steps[i]);
      val := loss(pTry);
      if val < best {
        best, p := val, pTry;
        improved := true;
      }
    }
  }

  lemma HalveUniform(s: real)
    ensures Halve(Uniform(s)) == Uniform(s * 0.5)
  {
  }

  lemma UniformMax(s: real)
    ensures MaxOf(Uniform(s)) == s
  {
    assert Uniform(s)[0] == s;
  }

  /** Halving the uniform steps gives the next step size; the descent stops at the fourteenth. */
  lemma HalvingStep(h: nat)
    ensures Halve(Uniform(StepAfter(h))) == Uniform(StepAfter(h + 1))
    ensures MaxOf(Uniform(StepAfter(h + 1))) < MinStep <==> h + 1 >= 14
  {
    HalveUniform(StepAfter(h));
    UniformMax(StepAfter(h + 1));
    StepFloor(h + 1);
  }

  /** After a round without improvement: the halved steps, and when the loop stops. */
  lemma HalvingFacts(loss: Params -> real, p: Params, best: real, h0: nat, steps0: seq<real>, steps: seq<real>, stop: bool)
    requires best == loss(p) && h0 <= 13 && steps0 == Uniform(StepAfter(h0))
    requires forall c | 0 <= c < 4 :: loss(Shift(p, c, steps0[c])) >= best && loss(Shift(p, c, -steps0[c])) >= best
    requires steps == Halve(steps0) && stop == (MaxOf(steps) < MinStep)
    ensures steps == Uniform(StepAfter(h0 + 1))
    ensures stop ==> h0 == 13 && LocallyMinimal(loss, p, StepAfter(h0))
    ensures !stop ==> h0 + 1 <= 13
  {
    RoundMinimal(loss, p, best, steps0, StepAfter(h0));
    HalvingStep(h0);
  }

  /** A round with uniform steps `s` that improved nothing leaves a point no `±s` move lowers. */
  lemma RoundMinimal(loss: Params -> real, p: Params, best: real, steps: seq<real>, s: real)
    requires best == loss(p) && steps == Uniform(s)
    requires forall c | 0 <= c < 4 :: loss(Shift(p, c, steps[c])) >= best && loss(Shift(p, c, -steps[c])) >= best
    ensures LocallyMinimal(loss, p, s)
  {
    forall c | 0 <= c < 4
      ensures loss(Shift(p, c, s)) >= loss(p) && loss(Shift(p, c, -s)) >= loss(p)
    {
      assert steps[c] == s;
    }
  }

  /**
   * One pass of the descent loop: a round at the current steps, then, if
   * it improved nothing, `steps *= 0.5` and the `np.max(steps) < 1e-6`
   * test.
   */
  method DescentStep(loss: Params -> real, p0: Params, best0: real, steps0: seq<real>, ghost h0: nat)
    returns (p: Params, best: real, steps: seq<real>, ghost h: nat, stop: bool)
    requires best0 == loss(p0) && h0 <= 13 && steps0 == Uniform(StepAfter(h0))
    ensures best == loss(p) && best <= best0
    ensures steps == Uniform(StepAfter(h))
    ensures stop ==> h == 14 && LocallyMinimal(loss, p, StepAfter(h - 1))
    ensures !stop ==> h <= 13
  {
    var improved;
    p, best, improved := DescentRound(loss, p0, best0, steps0);
    steps, h, stop := steps0, h0, false;
    if !improved {
      steps := Halve(steps0);
      h := h0 + 1;
      stop := MaxOf(steps) < MinStep;
      HalvingFacts(loss, p, best, h0, steps0, steps, stop);
    }
  }

  /**
   * The coordinate descent of `fit_closed_form_abthL` on any loss: try
   * `±step` on each coordinate in turn, keep a strictly smaller loss,
   * halve every step after a round without improvement, and stop when
   * the steps fall below `1e-6` or after 2000 rounds. The loss never
   * increases and the returned value is the loss of the returned point;
   * stopping early happens exactly at the fourteenth halving, after a
   * round in which no move of the last step size helped.
   */
  method CoordinateDescent(loss: Params -> real, start: Params)
    returns (p: Params, best: real, ghost rounds: nat, ghost halvings: nat)
    ensures best == loss(p) && best <= loss(start)
    ensures rounds <= MaxRounds && halvings <= 14
    ensures rounds < MaxRounds ==> halvings == 14 && LocallyMinimal(loss, p, StepAfter(halvings - 1))
  {
    p := start;
    var steps := Uniform(InitialStep);
    best := loss(p);
    halvings := 0;
    var round := 0;
    while round < MaxRounds
      invariant round <= MaxRounds
      invariant best == loss(p) && best <= loss(start)
      invariant halvings <= 13 && steps == Uniform(StepAfter(halvings))
    {
      var stop;
      p, best, steps, halvings, stop := DescentStep(loss, p, best, steps, halvings);
      round := round + 1;
      if stop {
        rounds := round;
        return;
      }
    }
    rounds := round;
  }

  /**
   * `fit_closed_form_abthL(gam, n_list)`: the descent on the penalised
   * loss from `(0.5, 10, π/2, 22)`. The result is never worse than the
   * start, and when the start is not penalised the fitted `L` stays
   * positive.
   */
  method FitClosedForm(gam: seq<real>, nList: seq<nat>, pi: real) returns (p: Params, best: real)
    requires 0 < |nList| <= |gam|
    ensures best == Loss(p, gam, nList, pi)
    ensures 0.0 <= best <= Loss(Start(pi), gam, nList, pi)
    ensures Loss(Start(pi), gam, nList, pi) < Penalty ==> p.L > 0.0
  {
    var loss := (q: Params) => Loss(q, gam, nList, pi);
    ghost var rounds, halvings;
    p, best, rounds, halvings := CoordinateDescent(loss, Start(pi));
  }
}
