/**
 * What happens to an operator's eigenvalues after the (foreign)
 * eigen-solver: the positivity filter, the sort, taking the lowest `k`,
 * the tolerance deduplication `unique_eigs`, the merge of two spectra
 * and the `[skip:][:N]` window that feeds the fit.
 *
 * Eigenvalues enter as a sequence of reals (their real parts).
 */
module Spectrum {
  import opened Wrappers

  /** The cutoff `lam > 1e-12` of the scalar pipeline. */
  const PositiveCutoff: real := 0.000000000001
  /** The cutoff `lam > 1e-10` of the potential-scan scripts. */
  const PotentialCutoff: real := 0.0000000001
  /** The default tolerance of `unique_eigs`. */
  const DefaultTol: real := 0.000001
  /** The tolerance used when two spectra are merged. */
  const MergeTol: real := 0.00000001

  predicate Sorted(s: seq<real>)
  {
    forall i, j | 0 <= i < j < |s| :: s[i] <= s[j]
  }

  predicate StrictlyAscending(s: seq<real>)
  {
    forall i, j | 0 <= i < j < |s| :: s[i] < s[j]
  }

  // ---------------------------------------------------------------
  // np.sort
  // ---------------------------------------------------------------

  function Insert(x: real, s: seq<real>): (r: seq<real>)
    requires Sorted(s)
    ensures Sorted(r) && multiset(r) == multiset(s) + multiset{x}
    ensures |r| == |s| + 1
  {
    if |s| == 0 then [x]
    else if x <= s[0] then [x] + s
    else
      var rest := Insert(x, s[1..]);
      InsertTailAbove(x, s, rest);
      [s[0]] + rest
  }

  /** Every value of `rest`, a rearrangement of `s[1..]` and `x > s[0]`, is at least `s[0]`. */
  lemma InsertTailAbove(x: real, s: seq<real>, rest: seq<real>)
    requires Sorted(s) && |s| > 0 && s[0] < x
    requires multiset(rest) == multiset(s[1..]) + multiset{x}
    ensures multiset([s[0]] + rest) == multiset(s) + multiset{x}
    ensures forall k | 0 <= k < |rest| :: s[0] <= rest[k]
  {
    assert s == [s[0]] + s[1..];
    forall k | 0 <= k < |rest|
      ensures s[0] <= rest[k]
    {
      assert rest[k] in multiset(rest);
      if rest[k] != x {
        assert rest[k] in multiset(s[1..]);
        assert rest[k] in s[1..];
      }
    }
  }

  /** `np.sort`: the ascending permutation of its input. */
  function Sort(s: seq<real>): (r: seq<real>)
    ensures Sorted(r) && multiset(r) == multiset(s)
    ensures |r| == |s|
  {
    if |s| == 0 then []
    else
      assert s == s[..|s| - 1] + [s[|s| - 1]];
      Insert(s[|s| - 1], Sort(s[..|s| - 1]))
  }

  /** The head of an ascending sequence is below every one of its values. */
  lemma SortedHeadIsMin(s: seq<real>, x: real)
    requires Sorted(s) && x in multiset(s)
    ensures |s| > 0 && s[0] <= x
  {
    assert x in s;
  }

  /** There is only one ascending arrangement of a multiset of values. */
  lemma {:induction false} SortedUnique(a: seq<real>, b: seq<real>)
    requires Sorted(a) && Sorted(b) && multiset(a) == multiset(b)
    ensures a == b
    decreases |a|
  {
    assert |a| == |multiset(a)| == |b|;
    if |a| > 0 {
      SortedHeadIsMin(a, b[0]);
      SortedHeadIsMin(b, a[0]);
      var h := a[0];
      assert b[0] == h;
      assert a == [h] + a[1..] && b == [h] + b[1..];
      assert multiset(a) == multiset{h} + multiset(a[1..]);
      assert multiset(b) == multiset{h} + multiset(b[1..]);
      forall z
        ensures multiset(a[1..])[z] == multiset(b[1..])[z]
      {
        assert multiset(a)[z] == multiset{h}[z] + multiset(a[1..])[z];
        assert multiset(b)[z] == multiset{h}[z] + multiset(b[1..])[z];
      }
      assert multiset(a[1..]) == multiset(b[1..]);
      SortedUnique(a[1..], b[1..]);
    }
  }

  /** Sorting an already ascending sequence changes nothing. */
  lemma SortOfSorted(s: seq<real>)
    requires Sorted(s)
    ensures Sort(s) == s
  {
    SortedUnique(Sort(s), s);
  }

  // ---------------------------------------------------------------
  // lam[lam > thr]
  // ---------------------------------------------------------------

  /** `lam[lam > thr]`: the values above `thr`, in their original order. */
  function FilterAbove(s: seq<real>, thr: real): (r: seq<real>)
    ensures forall k | 0 <= k < |r| :: r[k] > thr
    ensures forall x :: multiset(r)[x] == if x > thr then multiset(s)[x] else 0
    ensures |r| <= |s|
  {
    if |s| == 0 then []
    else
      assert s == [s[0]] + s[1..];
      (if s[0] > thr then [s[0]] else []) + FilterAbove(s[1..], thr)
  }

  lemma {:induction false} FilterAboveSorted(s: seq<real>, thr: real)
    requires Sorted(s)
    ensures Sorted(FilterAbove(s, thr))
    decreases |s|
  {
    if |s| > 0 {
      var rest := FilterAbove(s[1..], thr);
      FilterAboveSorted(s[1..], thr);
      forall k | 0 <= k < |rest|
        ensures s[0] <= rest[k]
      {
        assert rest[k] in multiset(rest);
        assert rest[k] in multiset(s[1..]);
        assert rest[k] in s[1..];
      }
    }
  }

  /** Filtering before or after the sort gives the same sequence. */
  lemma FilterSortCommute(s: seq<real>, thr: real)
    ensures FilterAbove(Sort(s), thr) == Sort(FilterAbove(s, thr))
  {
    FilterAboveSorted(Sort(s), thr);
    var a := FilterAbove(Sort(s), thr);
    var b := Sort(FilterAbove(s, thr));
    assert forall x :: multiset(a)[x] == multiset(b)[x];
    assert multiset(a) == multiset(b);
    SortedUnique(a, b);
  }

  // ---------------------------------------------------------------
  // The k lowest positive eigenvalues
  // ---------------------------------------------------------------

  /**
   * The reference meaning of every `spectrum`-like helper: the values
   * above `thr`, ascending, cut after the first `k`. Every value above
   * `thr` that is left out is at least as large as every value kept.
   */
  function Lowest(evals: seq<real>, thr: real, k: nat): (r: seq<real>)
    ensures Sorted(r) && |r| == Min(k, |FilterAbove(evals, thr)|)
    ensures forall i | 0 <= i < |r| :: r[i] > thr
    ensures forall i, j | 0 <= i < |r| <= j < |Sort(FilterAbove(evals, thr))| ::
              r[i] <= Sort(FilterAbove(evals, thr))[j]
    ensures multiset(r) <= multiset(evals)
  {
    var p := Sort(FilterAbove(evals, thr));
    SortFilterFacts(evals, thr);
    PrefixFacts(p, Min(k, |p|), thr, evals);
    p[..Min(k, |p|)]
  }

  lemma SortFilterFacts(s: seq<real>, thr: real)
    ensures multiset(Sort(FilterAbove(s, thr))) <= multiset(s)
    ensures forall i | 0 <= i < |Sort(FilterAbove(s, thr))| :: Sort(FilterAbove(s, thr))[i] > thr
  {
    var f := FilterAbove(s, thr);
    var p := Sort(f);
    forall x
      ensures multiset(f)[x] <= multiset(s)[x]
    {
    }
    forall i | 0 <= i < |p|
      ensures p[i] > thr
    {
      assert p[i] in multiset(f);
    }
  }

  lemma PrefixFacts(p: seq<real>, m: nat, thr: real, e: seq<real>)
    requires Sorted(p) && m <= |p| && forall i | 0 <= i < |p| :: p[i] > thr
    requires multiset(p) <= multiset(e)
    ensures Sorted(p[..m]) && multiset(p[..m]) <= multiset(e)
    ensures forall i | 0 <= i < m :: p[..m][i] > thr
    ensures forall i, j | 0 <= i < m <= j < |p| :: p[..m][i] <= p[j]
  {
    assert p == p[..m] + p[m..];
    assert multiset(p) == multiset(p[..m]) + multiset(p[m..]);
  }

  /**
   * `spectrum(L, k)` of the scalar pipeline: `np.sort` of the real
   * parts, then `lam[lam > 1e-12]`, then `lam[:k]`.
   */
  function SpectrumOf(evals: seq<real>, k: nat): seq<real>
  {
    var lam := FilterAbove(Sort(evals), PositiveCutoff);
    lam[..Min(k, |lam|)]
  }

  /** `spectrum` returns the `k` lowest eigenvalues above `1e-12`, ascending. */
  lemma SpectrumIsLowest(evals: seq<real>, k: nat)
    ensures SpectrumOf(evals, k) == Lowest(evals, PositiveCutoff, k)
  {
    FilterSortCommute(evals, PositiveCutoff);
  }

  /** The result of `spectrum` is ascending, above `1e-12` and at most `k` long. */
  lemma SpectrumBounds(evals: seq<real>, k: nat)
    ensures Sorted(SpectrumOf(evals, k)) && |SpectrumOf(evals, k)| <= k
    ensures forall i | 0 <= i < |SpectrumOf(evals, k)| :: SpectrumOf(evals, k)[i] > PositiveCutoff
  {
    SpectrumIsLowest(evals, k);
  }

  /**
   * `eigvals_hermitian(A, keep)`: the strictly positive eigenvalues,
   * ascending, the first `keep` of them; each comes from the solver's
   * output.
   */
  function EigvalsHermitian(vals: seq<real>, keep: nat): (r: seq<real>)
    ensures |r| <= keep && |r| <= |vals|
    ensures forall i | 0 <= i < |r| :: r[i] > 0.0
    ensures Sorted(r)
    ensures multiset(r) <= multiset(vals)
    ensures |r| == Min(keep, |FilterAbove(vals, 0.0)|)
  {
    Lowest(vals, 0.0, keep)
  }

  // ---------------------------------------------------------------
  // lam.sort() in place
  // ---------------------------------------------------------------

  /** `lam.sort()`: an in-place insertion sort. */
  method SortInPlace(a: array<real>)
    modifies a
    ensures Sorted(a[..]) && multiset(a[..]) == multiset(old(a[..]))
  {
    var i := 0;
    while i < a.Length
      invariant 0 <= i <= a.Length
      invariant forall p, q | 0 <= p < q < i :: a[p] <= a[q]
      invariant multiset(a[..]) == multiset(old(a[..]))
    {
      var j := i;
      while j > 0 && a[j - 1] > a[j]
        invariant 0 <= j <= i
        invariant forall p, q | 0 <= p < q <= i && q != j :: a[p] <= a[q]
        invariant multiset(a[..]) == multiset(old(a[..]))
      {
        a[j - 1], a[j] := a[j], a[j - 1];
        j := j - 1;
      }
      i := i + 1;
    }
  }

  /**
   * `spectrum(L, k)` of the potential scans: `lam[lam > 1e-10]`, then
   * `lam.sort()` in place, then `lam[:k]`.
   */
  method SpectrumSorted(evals: seq<real>, k: nat) returns (lam: seq<real>)
    ensures lam == Lowest(evals, PotentialCutoff, k)
  {
    var f := FilterAbove(evals, PotentialCutoff);
    var a := new real[|f|](i requires 0 <= i < |f| => f[i]);
    assert a[..] == f;
    SortInPlace(a);
    SortedUnique(a[..], Sort(f));
    lam := a[..Min(k, a.Length)];
  }

  // ---------------------------------------------------------------
  // unique_eigs
  // ---------------------------------------------------------------

  /**
   * The list `unique_eigs` builds from the values `s` in the order it
   * visits them: a value is appended when the list is empty or it lies
   * more than `tol` from the last value appended.
   */
  function Dedup(s: seq<real>, tol: real): (r: seq<real>)
    ensures |r| <= |s|
    ensures |s| > 0 ==> |r| > 0
  {
    if |s| == 0 then []
    else
      var d := Dedup(s[..|s| - 1], tol);
      if |d| == 0 || Abs(s[|s| - 1] - d[|d| - 1]) > tol then d + [s[|s| - 1]] else d
  }

  /** Every kept value is one of the input values. */
  lemma {:induction false} DedupFromInput(s: seq<real>, tol: real)
    ensures forall k | 0 <= k < |Dedup(s, tol)| :: Dedup(s, tol)[k] in s
    decreases |s|
  {
    if |s| > 0 {
      var t := s[..|s| - 1];
      DedupFromInput(t, tol);
      forall k | 0 <= k < |Dedup(t, tol)|
        ensures Dedup(t, tol)[k] in s
      {
        var j :| 0 <= j < |t| && t[j] == Dedup(t, tol)[k];
        assert s[j] == t[j];
      }
    }
  }

  /** `unique_eigs(vals, tol)`: appends to `out` while walking `np.sort(vals)`. */
  method UniqueEigs(vals: seq<real>, tol: real) returns (out: seq<real>)
    ensures out == Dedup(Sort(vals), tol)
  {
    var sorted := Sort(vals);
    out := [];
    var i := 0;
    while i < |sorted|
      invariant 0 <= i <= |sorted|
      invariant out == Dedup(sorted[..i], tol)
    {
      var v := sorted[i];
      DedupSnoc(sorted, i, tol);
      if |out| == 0 || Abs(v - out[|out| - 1]) > tol {
        out := out + [v];
      }
      i := i + 1;
    }
    assert sorted[..i] == sorted;
  }

  /** One more step of the `unique_eigs` walk. */
  lemma DedupSnoc(s: seq<real>, i: nat, tol: real)
    requires i < |s|
    ensures var d := Dedup(s[..i], tol);
            Dedup(s[..i + 1], tol) == if |d| == 0 || Abs(s[i] - d[|d| - 1]) > tol then d + [s[i]] else d
  {
    var p := s[..i + 1];
    assert p[..|p| - 1] == s[..i] && p[|p| - 1] == s[i];
  }

  /** The first value of a non-empty input is always kept. */
  lemma {:induction false} DedupKeepsFirst(s: seq<real>, tol: real)
    requires |s| > 0
    ensures Dedup(s, tol)[0] == s[0]
    decreases |s|
  {
    if |s| > 1 {
      var t := s[..|s| - 1];
      DedupKeepsFirst(t, tol);
      assert t[0] == s[0];
    }
  }

  /** On ascending input the last value kept is the largest value seen. */
  lemma DedupLastBelow(s: seq<real>, tol: real, v: real)
    requires Sorted(s) && forall k | 0 <= k < |s| :: s[k] <= v
    ensures forall k | 0 <= k < |Dedup(s, tol)| :: Dedup(s, tol)[k] <= v
  {
  }

  /**
   * On ascending input, consecutive kept values are more than `tol`
   * apart, so for `tol ≥ 0` the result is strictly ascending.
   */
  lemma {:induction false} DedupGaps(s: seq<real>, tol: real)
    requires Sorted(s)
    ensures forall k | 0 <= k < |Dedup(s, tol)| - 1 :: Dedup(s, tol)[k + 1] - Dedup(s, tol)[k] > tol
    ensures Sorted(Dedup(s, tol))
    decreases |s|
  {
    if |s| > 0 {
      var t := s[..|s| - 1];
      var d := Dedup(t, tol);
      DedupGaps(t, tol);
      DedupLastBelow(t, tol, s[|s| - 1]);
    }
  }

  lemma StrictFromGaps(r: seq<real>, tol: real)
    requires tol >= 0.0 && Sorted(r)
    requires forall k | 0 <= k < |r| - 1 :: r[k + 1] - r[k] > tol
    ensures StrictlyAscending(r)
  {
    forall i, j | 0 <= i < j < |r|
      ensures r[i] < r[j]
    {
      assert r[i] < r[i + 1] <= r[j];
    }
  }

  /**
   * Every input value is within `tol` above some kept value: nothing is
   * dropped unless a kept value represents it.
   */
  predicate Covered(r: seq<real>, x: real, tol: real)
  {
    exists k :: 0 <= k < |r| && r[k] <= x <= r[k] + tol
  }

  lemma {:induction false} DedupCovers(s: seq<real>, tol: real)
    requires Sorted(s) && tol >= 0.0
    ensures forall i | 0 <= i < |s| :: Covered(Dedup(s, tol), s[i], tol)
    decreases |s|
  {
    if |s| > 0 {
      var t := s[..|s| - 1];
      var d := Dedup(t, tol);
      var r := Dedup(s, tol);
      DedupCovers(t, tol);
      assert d <= r;
      var v := s[|s| - 1];
      if |d| == 0 || Abs(v - d[|d| - 1]) > tol {
        assert r[|r| - 1] <= v <= r[|r| - 1] + tol;
      } else {
        DedupLastBelow(t, tol, v);
        assert r[|d| - 1] <= v <= r[|d| - 1] + tol;
      }
      assert Covered(r, v, tol);
      forall i | 0 <= i < |t|
        ensures Covered(r, s[i], tol)
      {
        assert t[i] == s[i];
        assert Covered(d, t[i], tol);
        var k :| 0 <= k < |d| && d[k] <= t[i] <= d[k] + tol;
        assert r[k] == d[k];
      }
    }
  }

  /** A sequence whose consecutive gaps already exceed `tol` is kept whole. */
  lemma {:induction false} DedupOfSpread(s: seq<real>, tol: real)
    requires tol >= 0.0
    requires forall k | 0 <= k < |s| - 1 :: s[k + 1] - s[k] > tol
    ensures Dedup(s, tol) == s
    decreases |s|
  {
    if |s| > 0 {
      var t := s[..|s| - 1];
      var v := s[|s| - 1];
      GapsOfPrefix(s, t, tol);
      DedupOfSpread(t, tol);
      if |t| > 0 {
        assert v - t[|t| - 1] > tol;
      }
      DedupAppendFar(t, v, tol);
      assert t + [v] == s;
    }
  }

  lemma GapsOfPrefix(s: seq<real>, t: seq<real>, tol: real)
    requires |s| > 0 && t == s[..|s| - 1]
    requires forall k | 0 <= k < |s| - 1 :: s[k + 1] - s[k] > tol
    ensures forall k | 0 <= k < |t| - 1 :: t[k + 1] - t[k] > tol
  {
  }

  /** A kept sequence followed by a value more than `tol` above its last one is kept whole. */
  lemma DedupAppendFar(t: seq<real>, v: real, tol: real)
    requires Dedup(t, tol) == t
    requires |t| > 0 ==> v - t[|t| - 1] > tol && tol >= 0.0
    ensures Dedup(t + [v], tol) == t + [v]
  {
    assert (t + [v])[..|t|] == t;
  }

  /** `unique_eigs(unique_eigs(v)) == unique_eigs(v)`. */
  lemma UniqueEigsIdempotent(vals: seq<real>, tol: real)
    requires tol >= 0.0
    ensures Dedup(Sort(Dedup(Sort(vals), tol)), tol) == Dedup(Sort(vals), tol)
  {
    var r := Dedup(Sort(vals), tol);
    DedupGaps(Sort(vals), tol);
    SortOfSorted(r);
    DedupOfSpread(r, tol);
  }

  /**
   * The result of `unique_eigs` for `tol ≥ 0`: strictly ascending, gaps
   * above `tol`, every value from the input, the smallest input kept.
   */
  lemma UniqueEigsShape(vals: seq<real>, tol: real)
    requires tol >= 0.0
    ensures StrictlyAscending(Dedup(Sort(vals), tol))
    ensures forall k | 0 <= k < |Dedup(Sort(vals), tol)| - 1 ::
              Dedup(Sort(vals), tol)[k + 1] - Dedup(Sort(vals), tol)[k] > tol
    ensures forall k | 0 <= k < |Dedup(Sort(vals), tol)| :: Dedup(Sort(vals), tol)[k] in vals
    ensures |vals| > 0 ==> Dedup(Sort(vals), tol)[0] == Sort(vals)[0]
  {
    var s := Sort(vals);
    DedupGaps(s, tol);
    StrictFromGaps(Dedup(s, tol), tol);
    DedupFromInput(s, tol);
    forall k | 0 <= k < |Dedup(s, tol)|
      ensures Dedup(s, tol)[k] in vals
    {
      assert Dedup(s, tol)[k] in multiset(s);
    }
    if |vals| > 0 {
      DedupKeepsFirst(s, tol);
    }
  }

  /**
   * `unique_eigs` of the potential scans, which first drops values
   * `≤ 1e-12`: every value it returns is above the cutoff.
   */
  method UniquePositiveEigs(vals: seq<real>, tol: real) returns (out: seq<real>)
    ensures out == Dedup(Sort(FilterAbove(vals, PositiveCutoff)), tol)
    ensures forall k | 0 <= k < |out| :: out[k] > PositiveCutoff
  {
    var f := FilterAbove(vals, PositiveCutoff);
    out := UniqueEigs(f, tol);
    DedupFromInput(Sort(f), tol);
    forall k | 0 <= k < |out|
      ensures out[k] > PositiveCutoff
    {
      assert out[k] in Sort(f);
      assert out[k] in multiset(f);
    }
  }

  /**
   * The merged spectrum of `merged_theta_fit`: both spectra joined,
   * filtered above `1e-12`, sorted and deduplicated at `1e-8`.
   */
  function MergeOf(lam1: seq<real>, lam2: seq<real>): seq<real>
  {
    Dedup(Sort(FilterAbove(lam1 + lam2, PositiveCutoff)), MergeTol)
  }

  /**
   * The merged spectrum is strictly ascending, positive, spaced more
   * than `1e-8` apart, and each of its values comes from one of the two
   * spectra.
   */
  lemma MergeShape(lam1: seq<real>, lam2: seq<real>)
    ensures StrictlyAscending(MergeOf(lam1, lam2))
    ensures forall k | 0 <= k < |MergeOf(lam1, lam2)| - 1 :: MergeOf(lam1, lam2)[k + 1] - MergeOf(lam1, lam2)[k] > MergeTol
    ensures forall k | 0 <= k < |MergeOf(lam1, lam2)| ::
              MergeOf(lam1, lam2)[k] > PositiveCutoff && (MergeOf(lam1, lam2)[k] in lam1 || MergeOf(lam1, lam2)[k] in lam2)
  {
    var joined := lam1 + lam2;
    var f := FilterAbove(joined, PositiveCutoff);
    var lam := MergeOf(lam1, lam2);
    UniqueEigsShape(f, MergeTol);
    forall k | 0 <= k < |lam|
      ensures lam[k] > PositiveCutoff && (lam[k] in lam1 || lam[k] in lam2)
    {
      assert lam[k] in f;
      assert lam[k] in multiset(f);
      assert lam[k] in multiset(joined);
      assert lam[k] in joined;
    }
  }

  /** The merge step of `merged_theta_fit`, through the `unique_eigs` loop. */
  method MergeSpectra(lam1: seq<real>, lam2: seq<real>) returns (lam: seq<real>)
    ensures lam == MergeOf(lam1, lam2)
  {
    var sorted := Sort(FilterAbove(lam1 + lam2, PositiveCutoff));
    lam := UniqueEigs(sorted, MergeTol);
    SortOfSorted(sorted);
  }

  // ---------------------------------------------------------------
  // The fit window
  // ---------------------------------------------------------------

  /** `ys[skip:][:n]`. */
  function Window(ys: seq<real>, skip: nat, n: nat): (r: seq<real>)
    ensures |r| == Min(n, Max(0, |ys| - skip))
    ensures forall i | 0 <= i < |r| :: r[i] == ys[skip + i]
  {
    var rest := if skip <= |ys| then ys[skip..] else [];
    rest[..Min(n, |rest|)]
  }

  /** The window holds all `n` rows the fit needs exactly when `skip + n` values exist. */
  lemma WindowFull(ys: seq<real>, skip: nat, n: nat)
    requires n > 0
    ensures |Window(ys, skip, n)| == n <==> |ys| >= skip + n
  {
  }

  /** `np.sqrt(v)` applied elementwise, with `sqrt` a parameter. */
  function MapSqrt(sqrt: real -> real, v: seq<real>): (r: seq<real>)
    ensures |r| == |v| && forall i | 0 <= i < |v| :: r[i] == sqrt(v[i])
  {
    seq(|v|, i requires 0 <= i < |v| => sqrt(v[i]))
  }

  /**
   * The model vector of the fits: `np.sqrt(unique_eigs(lam))[skip:][:n]`.
   * Every entry is the square root of a deduplicated eigenvalue.
   */
  function ModelWindow(lam: seq<real>, tol: real, sqrt: real -> real, skip: nat, n: nat): (y: seq<real>)
    ensures IsSqrtWindow(y, Dedup(Sort(lam), tol), sqrt, skip, n)
  {
    SqrtWindowOf(Dedup(Sort(lam), tol), sqrt, skip, n)
  }

  /** `y` is `np.sqrt(d)[skip:][:n]`: as long as the window allows, entry `i` the root of `d[skip + i]`. */
  predicate IsSqrtWindow(y: seq<real>, d: seq<real>, sqrt: real -> real, skip: nat, n: nat)
  {
    |y| == Min(n, Max(0, |d| - skip)) &&
    forall i | 0 <= i < |y| :: skip + i < |d| && y[i] == sqrt(d[skip + i])
  }

  /** `np.sqrt(d)[skip:][:n]`. */
  function SqrtWindowOf(d: seq<real>, sqrt: real -> real, skip: nat, n: nat): (y: seq<real>)
    ensures IsSqrtWindow(y, d, sqrt, skip, n)
  {
    SqrtWindow(d, sqrt, skip, n);
    Window(MapSqrt(sqrt, d), skip, n)
  }

  lemma SqrtWindow(d: seq<real>, sqrt: real -> real, skip: nat, n: nat)
    ensures IsSqrtWindow(Window(MapSqrt(sqrt, d), skip, n), d, sqrt, skip, n)
  {
    var v := MapSqrt(sqrt, d);
    var y := Window(v, skip, n);
    forall i | 0 <= i < |y|
      ensures y[i] == sqrt(d[skip + i])
    {
      assert y[i] == v[skip + i];
    }
  }
}
