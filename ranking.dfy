/**
 * The selection rules shared by every sweep: "first strictly better
 * wins" on the score tuple `(R², −rmse)`, "first strictly smaller
 * wins" on a lexicographic key such as `(mape, |quad_a|, rmse)`, and
 * the `R² > best_R2` rule of the potential scan, which skips failed and
 * NaN evaluations.
 */
module Ranking {
  import opened Wrappers

  // ---------------------------------------------------------------
  // The score tuple (R², −rmse)
  // ---------------------------------------------------------------

  /** A fit's score; `r2 == None` is the NaN that `r2_score` returns. */
  datatype Score = Score(r2: Option<real>, rmse: real)

  /**
   * `score > best` on the tuples `(R2, -rmse)`. Python compares tuples
   * element by element, treating two references to the one `np.nan`
   * object as equal; NaN against a number is neither greater nor equal,
   * so such a pair is never "better" in either direction.
   */
  predicate Better(s: Score, b: Score)
  {
    if s.r2 == b.r2 then s.rmse < b.rmse
    else s.r2.Some? && b.r2.Some? && s.r2.value > b.r2.value
  }

  /** `Better` is a strict partial order. */
  lemma BetterStrictOrder(a: Score, b: Score, c: Score)
    ensures !Better(a, a)
    ensures Better(a, b) ==> !Better(b, a)
    ensures Better(a, b) && Better(b, c) ==> Better(a, c)
  {
  }

  /** On finite `R²` it is total: two different scores are always ordered. */
  lemma BetterTotalOnFinite(a: Score, b: Score)
    requires a.r2.Some? && b.r2.Some?
    ensures Better(a, b) || Better(b, a) || a == b
  {
  }

  /** A NaN `R²` and a finite one are incomparable. */
  lemma NaNIncomparable(a: Score, b: Score)
    requires a.r2.None? && b.r2.Some?
    ensures !Better(a, b) && !Better(b, a)
  {
  }

  predicate AllFinite(s: seq<Score>)
  {
    forall i | 0 <= i < |s| :: s[i].r2.Some?
  }

  /**
   * The index the loop `if best is None or score > best: best = …`
   * holds after visiting `s[..n]`.
   */
  function FirstBestTo(s: seq<Score>, n: nat): (r: Option<nat>)
    requires n <= |s|
    ensures r.None? <==> n == 0
    ensures r.Some? ==> r.value < n
  {
    if n == 0 then None
    else
      match FirstBestTo(s, n - 1)
      case None => Some(n - 1)
      case Some(b) => if Better(s[n - 1], s[b]) then Some(n - 1) else Some(b)
  }

  /** The best-so-far loop of every sweep. */
  method FirstBest(s: seq<Score>) returns (best: Option<nat>)
    ensures best == FirstBestTo(s, |s|)
  {
    best := None;
    var i := 0;
    while i < |s|
      invariant 0 <= i <= |s|
      invariant best == FirstBestTo(s, i)
    {
      if best.None? || Better(s[i], s[best.value]) {
        best := Some(i);
      }
      i := i + 1;
    }
  }

  /** No point visited after the winner beats it. */
  lemma {:induction false} NoLaterBetter(s: seq<Score>, n: nat)
    requires 0 < n <= |s|
    ensures var k := FirstBestTo(s, n).value;
            forall j | k < j < n :: !Better(s[j], s[k])
  {
    if n > 1 {
      NoLaterBetter(s, n - 1);
      var k' := FirstBestTo(s, n - 1).value;
      if Better(s[n - 1], s[k']) {
        BetterStrictOrder(s[n - 1], s[n - 1], s[n - 1]);
      }
    }
  }

  /**
   * With every `R²` finite the winner is the first maximum: nothing
   * beats it, and it beats everything visited before it.
   */
  lemma {:induction false} FirstBestIsFirstMax(s: seq<Score>, n: nat)
    requires 0 < n <= |s| && AllFinite(s)
    ensures var k := FirstBestTo(s, n).value;
            (forall j | 0 <= j < n :: !Better(s[j], s[k])) &&
            (forall j | 0 <= j < k :: Better(s[k], s[j]))
  {
    if n > 1 {
      FirstBestIsFirstMax(s, n - 1);
      var k' := FirstBestTo(s, n - 1).value;
      if Better(s[n - 1], s[k']) {
        forall j | 0 <= j < n - 1
          ensures Better(s[n - 1], s[j]) && !Better(s[j], s[n - 1])
        {
          BetterTotalOnFinite(s[k'], s[j]);
          BetterStrictOrder(s[n - 1], s[k'], s[j]);
          BetterStrictOrder(s[n - 1], s[j], s[n - 1]);
        }
      }
    }
  }

  /**
   * A sweep whose first point has a NaN `R²` keeps a NaN winner: no
   * finite score is ever "better" than it.
   */
  lemma {:induction false} NaNFirstSticks(s: seq<Score>, n: nat)
    requires 0 < n <= |s| && s[0].r2.None?
    ensures s[FirstBestTo(s, n).value].r2.None?
  {
    if n > 1 {
      NaNFirstSticks(s, n - 1);
    }
  }

  // ---------------------------------------------------------------
  // Lexicographic keys
  // ---------------------------------------------------------------

  /** Python's `<` on tuples of numbers of the same length. */
  predicate LexLess(a: seq<real>, b: seq<real>)
    requires |a| == |b|
  {
    |a| > 0 && (a[0] < b[0] || (a[0] == b[0] && LexLess(a[1..], b[1..])))
  }

  /** `LexLess` is irreflexive, transitive and total on different keys. */
  lemma {:induction false} LexLessStrictTotal(a: seq<real>, b: seq<real>, c: seq<real>)
    requires |a| == |b| == |c|
    ensures !LexLess(a, a)
    ensures LexLess(a, b) && LexLess(b, c) ==> LexLess(a, c)
    ensures LexLess(a, b) || LexLess(b, a) || a == b
  {
    if |a| > 0 {
      LexLessStrictTotal(a[1..], b[1..], c[1..]);
      if a[0] == b[0] && a[1..] == b[1..] {
        assert a == [a[0]] + a[1..] && b == [b[0]] + b[1..];
      }
    }
  }

  /**
   * The index the loop `if best is None or key < best_key: best = …`
   * holds after visiting `keys[..n]`.
   */
  function FirstMinTo(keys: seq<seq<real>>, width: nat, n: nat): (r: Option<nat>)
    requires n <= |keys| && forall i | 0 <= i < |keys| :: |keys[i]| == width
    ensures r.None? <==> n == 0
    ensures r.Some? ==> r.value < n
  {
    if n == 0 then None
    else
      match FirstMinTo(keys, width, n - 1)
      case None => Some(n - 1)
      case Some(b) => if LexLess(keys[n - 1], keys[b]) then Some(n - 1) else Some(b)
  }

  /** The best-so-far loop on lexicographic keys. */
  method FirstMinLex(keys: seq<seq<real>>, width: nat) returns (best: Option<nat>)
    requires forall i | 0 <= i < |keys| :: |keys[i]| == width
    ensures best == FirstMinTo(keys, width, |keys|)
  {
    best := None;
    var i := 0;
    while i < |keys|
      invariant 0 <= i <= |keys|
      invariant best == FirstMinTo(keys, width, i)
    {
      if best.None? || LexLess(keys[i], keys[best.value]) {
        best := Some(i);
      }
      i := i + 1;
    }
  }

  /**
   * `keys[k]` is the first lexicographic minimum: no key is below it and
   * every earlier key is strictly above it.
   */
  predicate FirstMinAt(keys: seq<seq<real>>, width: nat, k: nat)
  {
    k < |keys| && (forall i | 0 <= i < |keys| :: |keys[i]| == width) &&
    (forall j | 0 <= j < |keys| :: !LexLess(keys[j], keys[k])) &&
    (forall j | 0 <= j < k :: LexLess(keys[k], keys[j]))
  }

  /** The pick of `FirstMinTo` over all of a non-empty `keys` is its first minimum. */
  lemma FirstMinPick(keys: seq<seq<real>>, width: nat)
    requires 0 < |keys| && forall i | 0 <= i < |keys| :: |keys[i]| == width
    ensures FirstMinAt(keys, width, FirstMinTo(keys, width, |keys|).value)
  {
    FirstMinIsFirstMin(keys, width, |keys|);
  }

  lemma {:induction false} FirstMinIsFirstMin(keys: seq<seq<real>>, width: nat, n: nat)
    requires 0 < n <= |keys| && forall i | 0 <= i < |keys| :: |keys[i]| == width
    ensures var k := FirstMinTo(keys, width, n).value;
            (forall j | 0 <= j < n :: !LexLess(keys[j], keys[k])) &&
            (forall j | 0 <= j < k :: LexLess(keys[k], keys[j]))
  {
    var k := FirstMinTo(keys, width, n).value;
    LexLessStrictTotal(keys[k], keys[k], keys[k]);
    if n > 1 {
      FirstMinIsFirstMin(keys, width, n - 1);
      var k' := FirstMinTo(keys, width, n - 1).value;
      if LexLess(keys[n - 1], keys[k']) {
        forall j | 0 <= j < n - 1
          ensures LexLess(keys[n - 1], keys[j]) && !LexLess(keys[j], keys[n - 1])
        {
          LexLessStrictTotal(keys[n - 1], keys[k'], keys[j]);
          LexLessStrictTotal(keys[k'], keys[j], keys[n - 1]);
          LexLessStrictTotal(keys[j], keys[n - 1], keys[j]);
        }
      } else {
        LexLessStrictTotal(keys[n - 1], keys[k'], keys[n - 1]);
      }
    }
  }

  // ---------------------------------------------------------------
  // R² > best_R2, skipping failures
  // ---------------------------------------------------------------

  /**
   * The index `parameter_sweep` holds after visiting `r[..n]`, where
   * `r[i]` is `None` when evaluation `i` raised and `Some(None)` when
   * its `R²` is NaN. `best_R2` starts at `-inf`, and `NaN > x` is
   * false, so failed and NaN points are never taken.
   */
  function MaxR2To(r: seq<Option<Option<real>>>, n: nat): (k: Option<nat>)
    requires n <= |r|
    ensures k.Some? ==> k.value < n && r[k.value].Some? && r[k.value].value.Some?
  {
    if n == 0 then None
    else
      var prev := MaxR2To(r, n - 1);
      if r[n - 1].Some? && r[n - 1].value.Some? &&
         (prev.None? || r[n - 1].value.value > r[prev.value].value.value)
      then Some(n - 1)
      else prev
  }

  predicate Finite(o: Option<Option<real>>)
  {
    o.Some? && o.value.Some?
  }

  /** The strict-`>` loop of `parameter_sweep`. */
  method MaxR2(r: seq<Option<Option<real>>>) returns (best: Option<nat>)
    ensures best == MaxR2To(r, |r|)
  {
    best := None;
    var i := 0;
    while i < |r|
      invariant 0 <= i <= |r|
      invariant best == MaxR2To(r, i)
    {
      if Finite(r[i]) && (best.None? || r[i].value.value > r[best.value].value.value) {
        best := Some(i);
      }
      i := i + 1;
    }
  }

  /**
   * `parameter_sweep` returns no parameters exactly when no evaluation
   * succeeded with a finite `R²`; otherwise its pick is the first
   * point of largest `R²`.
   */
  lemma {:induction false} MaxR2IsFirstMax(r: seq<Option<Option<real>>>, n: nat)
    requires n <= |r|
    ensures MaxR2To(r, n).None? <==> forall j | 0 <= j < n :: !Finite(r[j])
    ensures var k := MaxR2To(r, n);
            k.Some? ==>
              (forall j | 0 <= j < n && Finite(r[j]) :: r[j].value.value <= r[k.value].value.value) &&
              (forall j | 0 <= j < k.value && Finite(r[j]) :: r[j].value.value < r[k.value].value.value)
  {
    if n > 0 {
      MaxR2IsFirstMax(r, n - 1);
    }
  }

  /**
   * `v`, the numeric score of point `k`, is the largest numeric score of
   * `r` and strictly larger than every numeric score before `k`.
   */
  predicate FirstMaxAt(r: seq<Option<Option<real>>>, k: nat, v: real)
  {
    k < |r| && r[k] == Some(Some(v)) &&
    (forall j | 0 <= j < |r| && Finite(r[j]) :: r[j].value.value <= v) &&
    (forall j | 0 <= j < k && Finite(r[j]) :: r[j].value.value < v)
  }

  /** The pick of `MaxR2To` over all of `r` is its first maximum. */
  lemma FirstMaxValue(r: seq<Option<Option<real>>>, i: nat, v: real)
    requires MaxR2To(r, |r|) == Some(i) && r[i] == Some(Some(v))
    ensures FirstMaxAt(r, i, v)
  {
    MaxR2IsFirstMax(r, |r|);
  }
}
