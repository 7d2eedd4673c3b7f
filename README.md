# Hilbert–Pólya operator-spectrum-fit pipeline, modelled in Dafny

The `Hilbert-Polya/python` scripts look for a self-adjoint operator whose spectrum lines up with the imaginary parts of the nontrivial Riemann zeros. Each script repeats one pipeline:

1. build a small operator (a Bloch-twisted, weighted finite-difference operator, its spinor and torus composites, a twisted ring, or a banded "Pascal hopping" Hamiltonian);
2. take its eigenvalues, filter, sort and deduplicate them, and cut a window;
3. fit the window against the zeros with a least-squares or two-point line;
4. keep the best point of a parameter grid, and accept a richer operator only when it beats the running best.

This project models that pipeline. Numbers are exact `real`s and complex entries are pairs of reals. Eigen-solvers, `sqrt`, `cos`, `exp`, `log`, `u**p`, `e^{iφ}` and `π` are function parameters. A fact a proof needs about one of them (for example `conj(e^{iφ}) = e^{−iφ}`, or `eigvalsh` returning one value per row) is a precondition on that parameter.

| file | module | models |
|---|---|---|
| `wrappers.dfy` | `Wrappers` | `Option`, `Abs`, `Min`, `Max` |
| `complex.dfy` | `Complex` | complex arithmetic and conjugation |
| `matrix.dfy` | `Matrix` | dense matrices, `(L + L†)/2`, `np.kron`, block/offset index arithmetic |
| `derivative.dfy` | `Derivative` | `periodic_D1` |
| `operator.dfy` | `Operator` | `build_operator`, `build_operator_sigma` and the potential variant of `chi_vortex_static*.py` |
| `composite.dfy` | `Composite` | `build_spinor_operator`, the torus Kronecker sum, the overlay torus rebuild |
| `spectrum.dfy` | `Spectrum` | `spectrum`, `unique_eigs`, the merged spectrum, the `[skip:][:N]` window, `eigvals_hermitian` |
| `fit.dfy` | `Fit` | residual sums, `r2_score`, `lstsq` by its normal equations, `two_point_ab`, `two_point_delta_gamma`, `affine_fit`, `affine_fit_block`, `dressed_map`, `fit_affine` |
| `ranking.dfy` | `Ranking` | the "first strictly better wins" loops: `(R², −rmse)` with Python's NaN comparisons, lexicographic keys, plain `R²` |
| `sweeps.dfy` | `Sweeps` | `sweep_*`, `sweep_all_params`, `sweep_anchors`, `parameter_sweep` |
| `stages.dfy` | `Stages` | the staged selection of `equation_test2.py` (strict gates) and `hp_two_point_balance_vector_riemann.py` (ε floor and 1e-3 margin) |
| `twist.dfy` | `Twist` | `hp_twist_grok.py`: the twisted ring, `number_variance`, `ks_stat_against_wigner`, the train/test split, the grid search and the coordinate descent |
| `geo.dfy` | `Geo` | `hp_geo_*`: the sieve, `pascal_amp`, `edge_taper_vec`, `amplitude_modulation`, the phase kernels, the open banded builder |
| `geo_select.dfy` | `GeoSelect` | `stats`/`metrics`, `run_all`, `amp_power`/`amp_log`, `build_H`, `run_once`, `main` of `hp_geo_amp_validate.py` |
| `bands.dfy` | `Bands` | `build_hamiltonian` of `test_chiral_phases.py`, `test_multiple_N.py`, `extended_analysis.py`, `test_N_300_350.py` |
| `band_analysis.dfy` | `BandAnalysis` | the middle band `[N//3, 2N//3)`, its skip rule, the 30/28/15 split, MAPEs, drift, quartiles, status, gap vectors and the size and mode sweeps |

Several scripts carry copies of the same function. Each is modelled once. Script-specific constants, such as the positivity cutoff (`1e-12` or `1e-10`) and the deduplication tolerance, are parameters. The table below cites one copy:

- `periodic_D1`, `build_operator`, `spectrum`, `unique_eigs` and `r2_score` cite `equation_test2.py`. The same code appears in `chi_vortex_static.py`, `chi_vortex_static2.py`, `overlay_map_Reimann.py`, `overlay_map_Reimann2.py` and `hp_two_point_balance_vector_riemann.py`.
- `pascal_amp` and `build_hamiltonian` cite `test_chiral_phases.py`. Its `uniform` mode is the builder of the other three band scripts.

Loops that the scripts run by mutating state are Dafny methods with loop invariants. Each is proved against a specification function, and the properties are proved about that function:

- `periodic_D1`;
- the `unique_eigs` list build and the in-place sort;
- every best-tracking sweep;
- the sieve and the banded fills;
- the twisted-ring fill;
- the coordinate descent;
- the stage flag threading.

A few behaviours of the code are easy to misread. The model keeps each one as written:

- `periodic_D1` (`equation_test2.py:28-33`) writes `+0.5/dt` at `(i, (i+1) % M)` and then `−0.5/dt` at `(i, (i−1) % M)`. For `M ≥ 3` the matrix is skew-symmetric. For `M = 2` both writes hit the same entry, and the second overwrites the first, so the matrix is not skew (`Derivative.D1TwoPointsNotSkew`). For `M = 1` it is the single entry `−0.5/dt` (`Derivative.D1OnePoint`).
- `np.linalg.lstsq` (`equation_test2.py:101`) does not reject a design with fewer than two distinct abscissae. It returns the minimum-norm solution, and `Fit.LeastSquares` does the same. Only an empty design has no line in the model.
- Stage 2 of `equation_test2.py` is gated on the Stage-0 `R²` alone (`equation_test2.py:445-461`), even when Stage 1 was adopted. The final rebuild has no branch for the merged spectrum (`equation_test2.py:508-531`). See Findings.
- `pascal_amp(1)` is `1.0` in `hp_geo_*` (`hp_geo_amp_validate.py:24-25`), but `sqrt(comb(1, 0))/2 = 0.5` in the band scripts (`test_chiral_phases.py:29-32`); see `Geo.UnitHopAmplitudes`.
- `RZ` in `hp_geo_amp_validate.py` sits under the comment "first 60" (`hp_geo_amp_validate.py:5`), but the table holds 58 entries (`GeoSelect.ZeroTables`).

## Model

| member | source | states |
|---|---|---|
| Matrix.Hermitise | Hilbert-Polya/python/equation_test2.py:49 | `0.5*(L + L†)`: every entry is the Hermitian part of the pair `(L[i][j], L[j][i])`, the result is Hermitian for any input, and a Hermitian input comes back unchanged |
| Matrix.HermitiseZeroEntry | Hilbert-Polya/python/test_chiral_phases.py:78-79 | an entry that is zero in both triangles before `(H + H†)/2` is still zero after it |
| Matrix.Kron | Hilbert-Polya/python/equation_test2.py:143 | `np.kron(A, B)` of an `n×n` and an `m×m` matrix is `nm×nm` |
| Matrix.KronEntry | Hilbert-Polya/python/equation_test2.py:143 | the Kronecker product's entry in block `(p, q)` at offset `(a, b)` is `A[p][q]·B[a][b]` |
| Matrix.KronIndex | Hilbert-Polya/python/equation_test2.py:143 | every index below `n·m` splits uniquely into a block below `n` and an offset below `m` |
| Matrix.KronHermitian | Hilbert-Polya/python/equation_test2.py:143 | the Kronecker product of two Hermitian matrices is Hermitian |
| Matrix.MAddHermitian | Hilbert-Polya/python/equation_test2.py:143 | the sum of two Hermitian matrices is Hermitian |
| Matrix.MScaleHermitian | Hilbert-Polya/python/equation_test2.py:143 | a real multiple (`eps·…`) of a Hermitian matrix is Hermitian |
| Matrix.IdentityHermitian | Hilbert-Polya/python/equation_test2.py:143 | `np.eye(n)` is Hermitian |
| Complex.ConjMul | Hilbert-Polya/python/equation_test2.py:143 | conjugation distributes over the complex product, so `conj(A⊗B) = conj(A)⊗conj(B)` entry by entry |
| Derivative.D1 | Hilbert-Polya/python/equation_test2.py:28-33 | `periodic_D1(M, dt)` as a value: an `M×M` matrix whose entry `(i, j)` is the last of the two row writes that lands on it |
| Derivative.PeriodicD1 | Hilbert-Polya/python/equation_test2.py:28-33 | the row-by-row filling loop on a fresh zero `M×M` array leaves exactly the entries of `D1(M, dt)` |
| Derivative.Neighbours | Hilbert-Polya/python/equation_test2.py:31-32 | `(i+1) % M` and `(i-1) % M` are the cyclic right and left neighbours: `0` after `M-1` and `M-1` before `0` (Python's floored `%`) |
| Derivative.D1SkewSymmetric | Hilbert-Polya/python/equation_test2.py:28-33 | for `M ≥ 3`, `D[j][i] = −D[i][j]`; row `i` holds `+0.5/dt` at its right neighbour, `−0.5/dt` at its left neighbour and zero elsewhere |
| Derivative.D1TwoPointsNotSkew | Hilbert-Polya/python/equation_test2.py:31-32 | for `M = 2` the second write overwrites the first, both off-diagonal entries are `−0.5/dt`, the diagonal is zero, and the matrix is not skew-symmetric |
| Derivative.D1OnePoint | Hilbert-Polya/python/equation_test2.py:31-32 | for `M = 1` the single entry ends up as `−0.5/dt` |
| Operator.Grid | Hilbert-Polya/python/equation_test2.py:37 | `np.linspace(0, 2π, M, endpoint=False)` has `M` points |
| Operator.HarmonicOfZeros | Hilbert-Polya/python/equation_test2.py:41 | a weight series `1 + c1·cos τ + c2·cos 2τ + c3·cos 3τ` with all `ck = 0` is its constant term |
| Operator.Clamp | Hilbert-Polya/python/equation_test2.py:42 | `max(x, 1e-6)` is at least `1e-6` and at least `x`, and equals one of the two |
| Operator.Weight | Hilbert-Polya/python/equation_test2.py:41-42 | the clamped weight χ has `M` entries, each at least `1e-6`, so `1/χ` is always defined |
| Operator.Potential | Hilbert-Polya/python/chi_vortex_static2.py:25-43 | the potential `U = u0 + u1·cos τ + u2·cos 2τ` has one value per grid point |
| Operator.Twisted | Hilbert-Polya/python/equation_test2.py:46 | `Dk = D1 + iκ·I` is square of the same size as `D1` |
| Operator.TwistedD1 | Hilbert-Polya/python/equation_test2.py:37-46 | `Dk` built from the grid step and `κ = θ/2π` is `M×M` |
| Operator.RawOperator | Hilbert-Polya/python/chi_vortex_static2.py:25-43 | `−χ⁻¹·Dk·χ·Dk + χ⁻¹·diag(U)` before symmetrisation is `M×M` |
| Operator.Reciprocals | Hilbert-Polya/python/equation_test2.py:48 | `1.0/chi` is defined entrywise because every weight is clamped, and keeps the length |
| Operator.BuildOperator | Hilbert-Polya/python/equation_test2.py:35-51 | `build_operator` returns an `M×M` Hermitian `L` for every `θ`, Bloch phase, weight and potential coefficients; the returned χ is the clamped harmonic series (never below `1e-6`) and `U` the potential series on the same grid |
| Operator.BuildOperatorSigma | Hilbert-Polya/python/equation_test2.py:126-137 | `build_operator_sigma` (`−Dk·Dk` symmetrised) is `Ms×Ms` and Hermitian |
| Operator.UniformOperatorIsSigmaOperator | Hilbert-Polya/python/equation_test2.py:35-51 | with all weight and potential coefficients zero (χ ≡ 1, U ≡ 0), `build_operator(M, θ)` equals `build_operator_sigma(M, θ)` entry for entry |
| Composite.PaulisHermitian | Hilbert-Polya/python/equation_test2.py:67-69 | `σx`, `σz` and `I₂` are Hermitian |
| Composite.RealDiagHermitian | Hilbert-Polya/python/equation_test2.py:84-85 | a diagonal matrix of real couplings is Hermitian |
| Composite.CosineProfileAt | Hilbert-Polya/python/equation_test2.py:82-83 | the coupling profile at grid point `i` is `m1·cos(τᵢ)` |
| Composite.SpinorCore | Hilbert-Polya/python/equation_test2.py:79 | the scalar core of the spinor build is an `M×M` Hermitian matrix |
| Composite.Doubled | Hilbert-Polya/python/equation_test2.py:87 | `np.kron(Ls, I₂)` is `2M×2M` |
| Composite.OnSite | Hilbert-Polya/python/equation_test2.py:87 | `np.kron(diag(d), S)` for a 2×2 `S` is `2M×2M` |
| Composite.SpinorRawHermitian | Hilbert-Polya/python/equation_test2.py:87-88 | for a Hermitian scalar core, `Ls⊗I₂ + diag(m)⊗σz + diag(g)⊗σx` is already Hermitian, so the final symmetrisation leaves it unchanged |
| Composite.KronIdentityRightEntry | Hilbert-Polya/python/equation_test2.py:143 | `np.kron(A, I)` holds `A[p][q]` on the diagonal of block `(p, q)` and zero elsewhere |
| Composite.KronIdentityLeftEntry | Hilbert-Polya/python/equation_test2.py:143 | `np.kron(I, B)` repeats `B` on the diagonal blocks and is zero off them |
| Composite.DoubledEntry | Hilbert-Polya/python/equation_test2.py:87 | entry `(2i+a, 2j+b)` of `Ls⊗I₂` is `Ls[i][j]` when `a = b` and zero otherwise |
| Composite.MassEntry | Hilbert-Polya/python/equation_test2.py:87 | `diag(m)⊗σz` holds `+m[i]` and `−m[i]` on the two components of site `i` and zero elsewhere |
| Composite.MixingEntry | Hilbert-Polya/python/equation_test2.py:87 | `diag(g)⊗σx` couples the two components of site `i` with `g[i]` and is zero elsewhere |
| Composite.SpinorRawEntries | Hilbert-Polya/python/equation_test2.py:87 | each entry of the unsymmetrised spinor operator is the sum of the three Kronecker terms at that entry |
| Composite.SpinorSumEntries | Hilbert-Polya/python/equation_test2.py:71-89 | entry `(2i+a, 2j+b)` of the spinor operator: `Ls[i][j]·[a=b]` between sites, plus `±m[i]` on the diagonal and `g[i]` between the components of one site |
| Composite.BuildSpinorOperator | Hilbert-Polya/python/equation_test2.py:71-89 | `build_spinor_operator` is a `2M×2M` Hermitian matrix for every `θ, c1, c2, m1, g1` |
| Composite.KronZeroLeft | Hilbert-Polya/python/equation_test2.py:87 | the Kronecker product of an all-zero matrix is all zero |
| Composite.OnSiteOfZeros | Hilbert-Polya/python/equation_test2.py:82-87 | a zero coupling profile gives an all-zero Kronecker term |
| Composite.SpinorDecouples | Hilbert-Polya/python/equation_test2.py:71-89 | with `m1 = g1 = 0` the spinor operator is exactly `Ls ⊗ I₂`: entry `(2i+a, 2j+b)` is `Ls[i][j]` when `a = b` and zero otherwise |
| Composite.KroneckerSum | Hilbert-Polya/python/equation_test2.py:143 | `np.kron(Lτ, I) + ε·np.kron(I, Lσ)` is `(Mτ·Mσ)`-square |
| Composite.KroneckerSumEntries | Hilbert-Polya/python/equation_test2.py:143 | entry `(iτ·Mσ+iσ, jτ·Mσ+jσ)` is `Lτ[iτ][jτ]·[iσ=jσ] + ε·[iτ=jτ]·Lσ[iσ][jσ]` |
| Composite.KroneckerSumAt | Hilbert-Polya/python/equation_test2.py:143 | every entry of the Kronecker sum is the sum of the two Kronecker terms there |
| Composite.KroneckerSumHermitian | Hilbert-Polya/python/equation_test2.py:143 | the torus Kronecker sum of two Hermitian legs is Hermitian for every real `ε` |
| Composite.TorusLegTau | Hilbert-Polya/python/equation_test2.py:141 | the τ leg of `torus_fit` (`c1 = c2 = c3 = 0`) is Hermitian and equals the uniform operator `build_operator_sigma(Mτ, θτ)` |
| Composite.TorusOperator | Hilbert-Polya/python/equation_test2.py:139-145 | the torus operator of `torus_fit` is `(Mτ·Mσ)`-square and Hermitian |
| Composite.TorusUncoupled | Hilbert-Polya/python/equation_test2.py:139-145 | with `ε = 0` the torus operator is exactly `Lτ ⊗ I`: it does not couple σ-sites |
| Composite.OverlayTorus | Hilbert-Polya/python/overlay_map_Reimann.py:76-79 | the overlay rebuild with hard-coded `Mτ = 128`, `Mσ = 8` and a τ leg that ignores the stored `c3` is a 1024×1024 Hermitian matrix |
| Spectrum.Insert | Hilbert-Polya/python/equation_test2.py:55 | inserting into an ascending sequence keeps it ascending and adds exactly that value to the multiset |
| Spectrum.Sort | Hilbert-Polya/python/equation_test2.py:55 | `np.sort` returns an ascending permutation of its input |
| Spectrum.SortedUnique | Hilbert-Polya/python/equation_test2.py:55 | two ascending arrangements of the same multiset are equal, so the sort is determined by its input |
| Spectrum.SortOfSorted | Hilbert-Polya/python/equation_test2.py:55 | sorting an ascending sequence changes nothing |
| Spectrum.FilterAbove | Hilbert-Polya/python/equation_test2.py:56 | `lam[lam > thr]` keeps exactly the values above `thr`, each with its multiplicity |
| Spectrum.FilterAboveSorted | Hilbert-Polya/python/equation_test2.py:56 | filtering an ascending sequence leaves it ascending |
| Spectrum.FilterSortCommute | Hilbert-Polya/python/chi_vortex_static2.py:48-49 | filtering then sorting and sorting then filtering give the same sequence |
| Spectrum.Lowest | Hilbert-Polya/python/equation_test2.py:53-57 | the reference meaning of `spectrum`: ascending values above the cutoff, `min(k, #above)` of them, drawn from the input, and every value above the cutoff that is left out is at least every value kept |
| Spectrum.SpectrumIsLowest | Hilbert-Polya/python/equation_test2.py:53-57 | `spectrum(L, k)` (sort, then filter `> 1e-12`, then `[:k]`) is exactly the `k` lowest eigenvalues above `1e-12` |
| Spectrum.SpectrumBounds | Hilbert-Polya/python/equation_test2.py:53-57 | `spectrum` returns at most `k` values, ascending, each above `1e-12` |
| Spectrum.EigvalsHermitian | Hilbert-Polya/python/hp_twist_grok.py:64-68 | `eigvals_hermitian` keeps only strictly positive values, ascending, `min(keep, #positive)` of them, each taken from the solver's output |
| Spectrum.SortInPlace | Hilbert-Polya/python/chi_vortex_static2.py:49 | `lam.sort()` leaves the array ascending and a permutation of its old contents |
| Spectrum.SpectrumSorted | Hilbert-Polya/python/chi_vortex_static2.py:45-50 | the potential scans' `spectrum` (filter `> 1e-10`, sort in place, `[:k]`) returns the `k` lowest eigenvalues above `1e-10` |
| Spectrum.Dedup | Hilbert-Polya/python/equation_test2.py:59-64 | the list `unique_eigs` builds is no longer than its input and non-empty for non-empty input |
| Spectrum.DedupFromInput | Hilbert-Polya/python/equation_test2.py:59-64 | every value `unique_eigs` keeps is one of its input values |
| Spectrum.UniqueEigs | Hilbert-Polya/python/equation_test2.py:59-64 | the appending loop over `np.sort(vals)` produces exactly `Dedup(Sort(vals), tol)` |
| Spectrum.DedupKeepsFirst | Hilbert-Polya/python/equation_test2.py:61-62 | the smallest input value is always kept |
| Spectrum.DedupLastBelow | Hilbert-Polya/python/equation_test2.py:61-63 | on ascending input no kept value exceeds the largest input |
| Spectrum.DedupGaps | Hilbert-Polya/python/equation_test2.py:61-63 | on ascending input consecutive kept values are more than `tol` apart and ascending |
| Spectrum.StrictFromGaps | Hilbert-Polya/python/equation_test2.py:61-63 | gaps above a non-negative `tol` make the kept list strictly ascending |
| Spectrum.DedupCovers | Hilbert-Polya/python/equation_test2.py:61-63 | every input value lies within `tol` above some kept value: a value is dropped only when a kept value represents it |
| Spectrum.DedupOfSpread | Hilbert-Polya/python/equation_test2.py:59-64 | for `tol ≥ 0`, an input whose consecutive gaps all exceed `tol` (so already strictly ascending) is kept whole |
| Spectrum.UniqueEigsIdempotent | Hilbert-Polya/python/equation_test2.py:59-64 | `unique_eigs(unique_eigs(v)) == unique_eigs(v)` for `tol ≥ 0` |
| Spectrum.UniqueEigsShape | Hilbert-Polya/python/equation_test2.py:59-64 | for `tol ≥ 0` the result is strictly ascending, its gaps exceed `tol`, every value comes from the input and the smallest input is kept |
| Spectrum.UniquePositiveEigs | Hilbert-Polya/python/chi_vortex_static2.py:63-69 | the variant that first drops values `≤ 1e-12` is `Dedup(Sort(filtered), tol)` and every value it returns is above `1e-12` |
| Spectrum.MergeShape | Hilbert-Polya/python/equation_test2.py:282-284 | the merged spectrum is strictly ascending, positive, spaced more than `1e-8`, and every value comes from one of the two spectra |
| Spectrum.MergeSpectra | Hilbert-Polya/python/equation_test2.py:282-284 | concatenate, filter `> 1e-12`, sort and deduplicate at `1e-8` through the `unique_eigs` loop: the result is `MergeOf(lam1, lam2)` |
| Spectrum.Window | Hilbert-Polya/python/hp_two_point_balance_vector_riemann.py:226 | `ys[skip:][:n]` has length `min(n, max(0, |ys| − skip))` and entry `i` is `ys[skip + i]` |
| Spectrum.WindowFull | Hilbert-Polya/python/hp_two_point_balance_vector_riemann.py:226-228 | the window holds all `n` rows the design needs iff at least `skip + n` values exist |
| Spectrum.MapSqrt | Hilbert-Polya/python/hp_two_point_balance_vector_riemann.py:226 | `np.sqrt` elementwise keeps the length and applies `sqrt` to each entry |
| Spectrum.ModelWindow | Hilbert-Polya/python/hp_two_point_balance_vector_riemann.py:226 | `np.sqrt(unique_eigs(lam))[skip:][:n]` has length `min(n, max(0, |dedup| − skip))` and entry `i` is the square root of deduplicated eigenvalue `skip + i` |
| Fit.SumSq | Hilbert-Polya/python/hp_two_point_balance_vector_riemann.py:109 | a sum of squares is never negative |
| Fit.Predict | Hilbert-Polya/python/equation_test2.py:151 | `yhat = a + b*t` has one value per abscissa |
| Fit.SSResZero | Hilbert-Polya/python/hp_two_point_balance_vector_riemann.py:109 | `ss_res` is zero iff the prediction equals the data |
| Fit.SSTotExpand | Hilbert-Polya/python/hp_two_point_balance_vector_riemann.py:110 | `n·ss_tot = n·Σy² − (Σy)²` |
| Fit.SSTotZero | Hilbert-Polya/python/hp_two_point_balance_vector_riemann.py:110 | `ss_tot` is zero iff the data are constant |
| Fit.R2Score | Hilbert-Polya/python/hp_two_point_balance_vector_riemann.py:108-111 | `r2_score` is NaN (`None`) iff `ss_tot = 0`, i.e. `y` is constant; otherwise it is at most 1, and equals 1 iff `yhat == y` |
| Fit.MSE | Hilbert-Polya/python/equation_test2.py:153 | `np.mean((y − yhat)²)` is non-negative and zero iff `yhat == y` (`rmse` is its square root) |
| Fit.Residual | Hilbert-Polya/python/equation_test2.py:151-153 | the residual `y − (a + b·t)` has one value per row |
| Fit.ResidualSum | Hilbert-Polya/python/equation_test2.py:150 | the sum of the residuals `y − (a + b·t)` is `Σy − (a·n + b·Σt)` |
| Fit.ResidualInner | Hilbert-Polya/python/equation_test2.py:150 | the inner product of `t` with the residuals is `Σty − (a·Σt + b·Σt²)` |
| Fit.NormalFromSums | Hilbert-Polya/python/equation_test2.py:150 | the normal equations of the design `[1, t]`, stated on the data sums, imply the residual is orthogonal to both columns |
| Fit.RegularLine | Hilbert-Polya/python/equation_test2.py:150 | `lstsq` on a full-rank design (`n·Σt² ≠ (Σt)²`): the closed form satisfies the normal equations |
| Fit.ConstantSums | Hilbert-Polya/python/equation_test2.py:150 | the data sums of a constant abscissa column `t ≡ c` |
| Fit.RankOneLine | Hilbert-Polya/python/equation_test2.py:150 | `lstsq` on a rank-one design: the minimum-norm solution `mean(y)/(1+c²)·(1, c)` satisfies the normal equations |
| Fit.RankOneConstant | Hilbert-Polya/python/equation_test2.py:150 | a rank-one design has a constant abscissa column |
| Fit.LeastSquares | Hilbert-Polya/python/equation_test2.py:149-150 | `np.linalg.lstsq([1, t], y)[0]`: no line iff the design is empty; otherwise a line satisfying the normal equations |
| Fit.NormalMinimal | Hilbert-Polya/python/equation_test2.py:150 | a line satisfying the normal equations has a residual sum of squares no larger than any other line's |
| Fit.LeastSquaresMinimal | Hilbert-Polya/python/equation_test2.py:150 | the least-squares line fits at least as well as every other line |
| Fit.LeastSquaresExact | Hilbert-Polya/python/equation_test2.py:149-151 | on exactly affine data the least-squares prediction reproduces the data |
| Fit.SameLine | Hilbert-Polya/python/equation_test2.py:183-187 | two points with distinct abscissae fix a line |
| Fit.PredictionsFixLine | Hilbert-Polya/python/equation_test2.py:150 | on non-constant abscissae a line is fixed by its predictions |
| Fit.LeastSquaresRecovers | Hilbert-Polya/python/equation_test2.py:149-151 | on affine data `a0 + b0·t` with non-constant `t` the fit returns exactly `(a0, b0)` |
| Fit.NormalEquationsExact | Hilbert-Polya/python/equation_test2.py:149-151 | on affine data `a0 + b0·t` with non-constant `t`, the only line solving the normal equations is `(a0, b0)` |
| Fit.R2NonNegWhenBetter | Hilbert-Polya/python/hp_two_point_balance_vector_riemann.py:108-111 | a prediction no worse than the mean has `R² ≥ 0` |
| Fit.LeastSquaresR2NonNeg | Hilbert-Polya/python/hp_two_point_balance_vector_riemann.py:108-111 | with an intercept column in the design, the least-squares `R²`, when defined, is never negative |
| Fit.TwoPointAB | Hilbert-Polya/python/equation_test2.py:183-187 | `two_point_ab` is undefined iff `t[i] = t[j]`; otherwise its line passes through both anchors, `a + b·t[i] = y[i]` and `a + b·t[j] = y[j]` |
| Fit.TwoPointABUnique | Hilbert-Polya/python/equation_test2.py:183-187 | any line through both anchors (distinct abscissae) is the one `two_point_ab` returns |
| Fit.TwoPointDeltaGamma | Hilbert-Polya/python/hp_two_point_balance_vector_riemann.py:200-205 | undefined iff the fitted values `f_p = f_q`; otherwise `δ + γ·f_p = mp` and `δ + γ·f_q = mq` |
| Fit.DressedMap | Hilbert-Polya/python/chi_vortex_static2.py:87-92 | `dressed_map` ignores `y_core` and is `δ + γ·(a + b·t)` entry by entry |
| Fit.DressedMapIdentity | Hilbert-Polya/python/chi_vortex_static2.py:87-92 | with `δ = 0, γ = 1` the dressed map is exactly the fitted line |
| Fit.DressedAnchors | Hilbert-Polya/python/hp_two_point_balance_vector_riemann.py:200-205 | dressing with the two-point `(δ, γ)` maps the fitted values at the anchors `p`, `q` exactly onto `mp`, `mq` |
| Fit.AffineFit | Hilbert-Polya/python/chi_vortex_static2.py:52-61 | `affine_fit` cuts both vectors to `N = min(|y|, |t|)`; no fit iff `N = 0`; otherwise the line solves the normal equations on the block, `yhat` is its prediction, `R²` is NaN iff the block is constant and lies in `[0, 1]` otherwise |
| Fit.AffineFitBlock | Hilbert-Polya/python/chi_vortex_static2.py:71-85 | `affine_fit_block`: the block is the first `N` values after `skip` of the deduplicated positive eigenvalues, square-rooted when `transform == 'sqrt'`. `N` is `BlockLength`, `min(len(y), len(t))` or `min(N, len(t), len(y))`. The fit is `None` iff `N = 0`; otherwise the line solves the normal equations, `yhat = a + b·t[:N]`, and `R²` is NaN iff the block is constant and lies in `[0, 1]` otherwise |
| Fit.BlockLength | Hilbert-Polya/python/chi_vortex_static2.py:76 | the block length is within `len(y)`, `len(t)` and `N` when given, and equals one of them: their minimum |
| Fit.AbsSumTo | Hilbert-Polya/python/hp_twist_grok.py:77 | a sum of absolute values is non-negative and zero iff every term is zero |
| Fit.MAE | Hilbert-Polya/python/hp_twist_grok.py:77 | the mean absolute error is non-negative and zero iff the prediction equals the data |
| Fit.SubZero | Hilbert-Polya/python/hp_twist_grok.py:75 | the difference vector is zero iff the two vectors agree |
| Fit.FitAffine | Hilbert-Polya/python/hp_twist_grok.py:71-78 | `fit_affine` uses the slope-first design: `pred = a·x + b`, the line solves the normal equations, `mse` and `mae` are non-negative and each is zero iff `pred == y`; no fit for an empty design |
| Fit.FitAffineExact | Hilbert-Polya/python/hp_twist_grok.py:71-78 | on exactly affine data `fit_affine` has zero `rms` and zero `mae` |
| Fit.OverlayLine | Hilbert-Polya/python/overlay_map_Reimann2.py:94-98 | the stored `a`, `b` are used unchanged when the summary has both; only otherwise is the least-squares line of the window computed |
| Ranking.BetterStrictOrder | Hilbert-Polya/python/hp_two_point_balance_vector_riemann.py:233-235 | `score > best` on `(R², −rmse)` is irreflexive, asymmetric and transitive |
| Ranking.BetterTotalOnFinite | Hilbert-Polya/python/hp_two_point_balance_vector_riemann.py:233-235 | on numeric `R²` any two different scores are ordered one way or the other |
| Ranking.NaNIncomparable | Hilbert-Polya/python/hp_two_point_balance_vector_riemann.py:233-235 | a NaN `R²` and a numeric one are never `>` in either direction |
| Ranking.FirstBestTo | Hilbert-Polya/python/hp_two_point_balance_vector_riemann.py:222-236 | the best-so-far index after `n` points is absent iff `n = 0` and otherwise one of the visited points |
| Ranking.FirstBest | Hilbert-Polya/python/hp_two_point_balance_vector_riemann.py:222-236 | the loop `if best is None or score > best` ends holding `FirstBestTo(s, |s|)` |
| Ranking.NoLaterBetter | Hilbert-Polya/python/hp_two_point_balance_vector_riemann.py:233-235 | no point visited after the winner has a strictly better score |
| Ranking.FirstBestIsFirstMax | Hilbert-Polya/python/hp_two_point_balance_vector_riemann.py:222-236 | with every `R²` numeric the winner is the first maximum: nothing beats it and it beats every earlier point, so ties go to the earliest point |
| Ranking.NaNFirstSticks | Hilbert-Polya/python/hp_two_point_balance_vector_riemann.py:233-235 | when the first point's `R²` is NaN the winner's `R²` stays NaN: no later numeric score is ever `>` it |
| Ranking.LexLessStrictTotal | Hilbert-Polya/python/hp_geo_phase.py:210-211 | Python's tuple `<` on equal-length numeric keys is irreflexive, transitive and total on different keys |
| Ranking.FirstMinTo | Hilbert-Polya/python/hp_geo_phase.py:205-212 | the best-so-far index of the key loop after `n` keys is absent iff `n = 0` and otherwise one of the visited keys |
| Ranking.FirstMinLex | Hilbert-Polya/python/hp_geo_phase.py:205-212 | the loop `if best is None or key < best_key` ends holding `FirstMinTo(keys, width, |keys|)` |
| Ranking.FirstMinIsFirstMin | Hilbert-Polya/python/hp_geo_phase.py:205-212 | the winner is the first lexicographic minimum: no key is smaller and every earlier key is larger |
| Ranking.MaxR2To | Hilbert-Polya/python/chi_vortex_static2.py:128-147 | the index `parameter_sweep` holds after `n` points is always a point whose evaluation succeeded with a numeric `R²` |
| Ranking.MaxR2 | Hilbert-Polya/python/chi_vortex_static2.py:128-147 | the strict `R² > best_R2` loop from `−inf` ends holding `MaxR2To(r, |r|)` |
| Ranking.MaxR2IsFirstMax | Hilbert-Polya/python/chi_vortex_static2.py:128-147 | nothing is picked iff no evaluation succeeded with a numeric `R²`; otherwise the pick has the largest `R²` and every earlier numeric `R²` is smaller |
| Sweeps.Linspace | Hilbert-Polya/python/hp_two_point_balance_vector_riemann.py:222 | `np.linspace(lo, hi, n)` has `n` values, starting at `lo` and ending at `hi` |
| Sweeps.RowMajor | Hilbert-Polya/python/hp_two_point_balance_vector_riemann.py:131-132 | the nested loop `for x in xs: for y in ys` visits `|xs|·|ys|` pairs |
| Sweeps.RowMajorAt | Hilbert-Polya/python/hp_two_point_balance_vector_riemann.py:131-132 | iteration `(i, j)` of the nested loop comes at position `i·|ys| + j` |
| Sweeps.RowMajorMembers | Hilbert-Polya/python/hp_two_point_balance_vector_riemann.py:131-132 | the nested loop visits exactly the pairs of its two ranges |
| Sweeps.LineFit | Hilbert-Polya/python/hp_two_point_balance_vector_riemann.py:227-232 | the `N`-row fit exists iff the window holds exactly `N > 0` values and `t` at least `N`; its line solves the normal equations, `R²` is NaN iff the window is constant and in `[0, 1]` otherwise, and `rmse = sqrt(mean((y − yhat)²))` |
| Sweeps.LineFitExact | Hilbert-Polya/python/hp_two_point_balance_vector_riemann.py:227-232 | on a window lying exactly on `a0 + b0·t` (non-constant `t`) the fit returns `(a0, b0)`, `R² = 1` unless the window is constant, and `rmse = sqrt(0)` |
| Sweeps.ScalarFit | Hilbert-Polya/python/hp_two_point_balance_vector_riemann.py:224-232 | one `sweep_theta`/`sweep_c3` point (`spectrum(L, max(N+20, 200))`, `unique_eigs`, window, fit) has a fit iff `0 < N ≤ |t|` and at least `skip + N` deduplicated eigenvalues survive |
| Sweeps.PositiveFit | Hilbert-Polya/python/hp_two_point_balance_vector_riemann.py:113-126 | a `spinor_fit`/`torus_fit` point (all eigenvalues `> 1e-12`, `unique_eigs` at `1e-8`, window, fit) has a fit iff `0 < N ≤ |t|` and at least `skip + N` values survive |
| Sweeps.MergedWindow | Hilbert-Polya/python/hp_two_point_balance_vector_riemann.py:269-276 | the merged window has length `min(N, max(0, |merged| − skip))` and entry `i` is the square root of merged value `skip + i` |
| Sweeps.MergedFit | Hilbert-Polya/python/hp_two_point_balance_vector_riemann.py:268-283 | `merged_theta_fit` has a fit iff `0 < N ≤ |t|` and the merge leaves at least `skip + N` values |
| Sweeps.SelectBest | Hilbert-Polya/python/hp_two_point_balance_vector_riemann.py:233-235 | the best-so-far loop over outcomes returns nothing iff there are none; otherwise the index the loop holds at the end (`Ranking.FirstBestTo` on the `(R², −rmse)` tuples, NaN included): no later point is strictly better, and with numeric `R²` it is the first maximum |
| Sweeps.NaNTieKeepsFirst | Hilbert-Polya/python/hp_two_point_balance_vector_riemann.py:233-235 | two NaN-`R²` points compare on `−rmse`, so the first one wins and the later one with the worse rmse does not |
| Sweeps.ScalarOutcomes | Hilbert-Polya/python/hp_two_point_balance_vector_riemann.py:223-232 | the outcome of every grid point, in visiting order, is that point's `ScalarFit` |
| Sweeps.SweepScalar | Hilbert-Polya/python/hp_two_point_balance_vector_riemann.py:220-256 | `sweep_theta`/`sweep_c3` return nothing iff the grid is empty, otherwise a grid point, its own fit, and the index the `(R², −rmse)` best-so-far loop ends on, NaN `R²` included |
| Sweeps.ThetaGrid | Hilbert-Polya/python/hp_two_point_balance_vector_riemann.py:222 | the default θ grid has 41 points from `π − 0.05` to `π + 0.05` |
| Sweeps.C3Grid | Hilbert-Polya/python/hp_two_point_balance_vector_riemann.py:241 | the default `c3` grid has 31 points from `−0.03` to `0.03` |
| Sweeps.WithC3 | Hilbert-Polya/python/hp_two_point_balance_vector_riemann.py:260 | the `sweep_theta` grid pairs every θ with the fixed `c3` |
| Sweeps.WithTheta | Hilbert-Polya/python/hp_two_point_balance_vector_riemann.py:263 | the `sweep_c3` grid pairs every `c3` with the fixed θ |
| Sweeps.SweepAllParams | Hilbert-Polya/python/hp_two_point_balance_vector_riemann.py:258-265 | coordinate-wise, not joint: the reported θ is the best-so-far pick of the θ sweep with `c3 = 0`, and the reported `c3` and fit are the best-so-far pick of the `c3` sweep with that θ held fixed, NaN `R²` included |
| Sweeps.PositiveOutcomes | Hilbert-Polya/python/hp_two_point_balance_vector_riemann.py:131-134 | the outcome of every coupling pair, in visiting order, is that pair's `PositiveFit` |
| Sweeps.SweepPositive | Hilbert-Polya/python/hp_two_point_balance_vector_riemann.py:128-142 | `sweep_spinor_params`/`sweep_torus_params` return nothing iff the grid is empty, otherwise a grid pair, its own fit, and the index the `(R², −rmse)` best-so-far loop ends on, NaN `R²` included |
| Sweeps.SpinorGrid | Hilbert-Polya/python/hp_two_point_balance_vector_riemann.py:129-132 | the spinor grid `[0, 0.01, 0.02, −0.01]²` has 16 pairs, from `(0, 0)` to `(−0.01, −0.01)` |
| Sweeps.TorusGrid | Hilbert-Polya/python/hp_two_point_balance_vector_riemann.py:175-176 | the torus grid is `ε ∈ {0, 0.01, 0.02, 0.03}` with `θσ = 0` only |
| Sweeps.SecondThetas | Hilbert-Polya/python/hp_two_point_balance_vector_riemann.py:290 | the second angles are `θ_base + δ` |
| Sweeps.MergedOutcomes | Hilbert-Polya/python/hp_two_point_balance_vector_riemann.py:289-291 | the outcome of every δ, in visiting order, is the merged fit of `θ_base` with `θ_base + δ` |
| Sweeps.SweepTwoTheta | Hilbert-Polya/python/hp_two_point_balance_vector_riemann.py:285-299 | `sweep_two_theta` returns nothing iff there is no δ; otherwise `θ1 = θ_base`, `θ2 = θ_base + δ` for a grid δ, the merged window and fit of that pair, and the index the `(R², −rmse)` best-so-far loop ends on, NaN `R²` included |
| Sweeps.DeltaGrid | Hilbert-Polya/python/hp_two_point_balance_vector_riemann.py:287 | the default offsets have 11 values from `0.01` to `0.06` |
| Sweeps.AnchorRow | Hilbert-Polya/python/hp_two_point_balance_vector_riemann.py:210 | the inner loop at row `i` visits `j = lo, …, hi` in order, and nothing when `lo > hi` |
| Sweeps.AnchorPairs | Hilbert-Polya/python/hp_two_point_balance_vector_riemann.py:209-210 | every visited pair has `i ∈ [i_min, i_max]` and `j ∈ [max(i+3, j_min), j_max]` |
| Sweeps.AnchorPairsComplete | Hilbert-Polya/python/hp_two_point_balance_vector_riemann.py:209-210 | every pair in those ranges is visited |
| Sweeps.AnchorPairsOrdered | Hilbert-Polya/python/hp_two_point_balance_vector_riemann.py:209-210 | pairs are visited in strictly increasing `(i, j)` order |
| Sweeps.AnchorFit | Hilbert-Polya/python/hp_two_point_balance_vector_riemann.py:211-215 | the evaluation at `(i, j)` exists iff both anchors are in the window with `t[i] ≠ t[j]`; its line passes through both anchors and its `R²` and rmse are those of that line over the whole window |
| Sweeps.AnchorOutcomes | Hilbert-Polya/python/hp_two_point_balance_vector_riemann.py:209-215 | the outcome of every visited pair, in visiting order, is its `AnchorFit` |
| Sweeps.SweepAnchors | Hilbert-Polya/python/hp_two_point_balance_vector_riemann.py:207-218 | `sweep_anchors` returns `None` iff every row's `j` range is empty; otherwise the winner lies in the ranges with `j ≥ i+3`, its line passes through both anchors, and it is the index the `(R², −rmse)` best-so-far loop ends on, NaN `R²` included |
| Sweeps.DefaultAnchorCount | Hilbert-Polya/python/hp_two_point_balance_vector_riemann.py:207-210 | the default ranges `i ∈ [4, 14]`, `j ∈ [max(i+3, 22), 36]` visit 165 pairs |
| Sweeps.PotentialR2s | Hilbert-Polya/python/chi_vortex_static2.py:134-141 | the value compared at each potential-scan point is that point's `R²` (absent when the fit fails) |
| Sweeps.PotentialGrid | Hilbert-Polya/python/chi_vortex_static2.py:134-136 | the grid `u0, u1, u2 ∈ linspace(−0.1, 0.1, 11)` has 1331 points |
| Sweeps.ParameterSweep | Hilbert-Polya/python/chi_vortex_static2.py:124-149 | `parameter_sweep` returns no parameters iff no point has a fit with a numeric `R²`; otherwise the pick's fit is its own, its `R²` is the largest, and every earlier numeric `R²` is smaller (a NaN is never selected) |
| Stages.PyMax | Hilbert-Polya/python/hp_two_point_balance_vector_riemann.py:366 | Python's `max(a, b)` returns one of its arguments, is at least both on numbers, keeps a NaN first argument and ignores a NaN second one |
| Stages.StrictStages | Hilbert-Polya/python/equation_test2.py:416-531 | `equation_test2`'s staging ends with the spectrum of `StrictFinal`; Stage 1 is adopted iff not symmetric and merged `R²` > Stage 0's; the torus flag is set iff the torus is final; the Stage 1 and Stage 2 flags always end False (reset at lines 453 and 531) |
| Stages.StrictFinalFirstMax | Hilbert-Polya/python/equation_test2.py:454-531 | with numeric `R²`, the strict gates pick the first maximum over Stages 0, 2 and 3 (a tie keeps the earlier stage); the merge is never the final stage |
| Stages.StrictNaNBaseline | Hilbert-Polya/python/equation_test2.py:454-480 | a NaN Stage-0 `R²` shuts every later `>` gate, so the single-θ spectrum is kept |
| Stages.StrictDropsMerge | Hilbert-Polya/python/equation_test2.py:416-453 | as written: with `R² = (0.5, 0.9, 0.1, 0.1)` the merge passes its gate and has the largest `R²`, yet the script ends with the single-θ spectrum |
| Stages.StrictSpinorBelowMerge | Hilbert-Polya/python/equation_test2.py:446-457 | as written: with `R² = (0.5, 0.9, 0.7, 0.1)` the merge is adopted, but the spinor, worse than the merge, wins because Stage 2 is compared with Stage 0 alone |
| Stages.StrictSpinorUnreported | Hilbert-Polya/python/equation_test2.py:511-531 | as written: with `R² = (0.5, 0.5, 0.7, 0.1)` the script ends with the spinor spectrum while `use_spinor` (its reported "improved" flag) is False |
| Stages.IntendedStrictFirstMax | Hilbert-Polya/python/equation_test2.py:416-531 | corrected staging: with numeric `R²` it ends with the first maximum over the stages it considers, the merge included unless symmetric |
| Stages.IntendedStrictAgrees | Hilbert-Polya/python/equation_test2.py:416-531 | when the merge does not pass its gate, the corrected staging and the code as written end with the same stage |
| Stages.IntendedStrictStages | Hilbert-Polya/python/equation_test2.py:416-531 | the corrected staging loop ends with `IntendedStrictFinal`'s spectrum, and each "improved" flag is set iff that stage is final |
| Stages.Stage01 | Hilbert-Polya/python/hp_two_point_balance_vector_riemann.py:366-368 | the baseline `R²` is `max(R²₀, R²₁)`; its tag and RMSE are Stage 1's iff `R²₁ > R²₀`, so a tie labels it Stage 0 with Stage 0's RMSE |
| Stages.SelectTorus | Hilbert-Polya/python/hp_two_point_balance_vector_riemann.py:391-399 | a selected torus has `ε ≥ 5e-3`, numeric `R²` no more than `1e-3` below the previous best, and, when not more than `1e-3` above it, an RMSE more than `1e-3` below the baseline's; `ε ≥ 5e-3` with a clear gain always selects; NaN never does |
| Stages.MarginRule | Hilbert-Polya/python/hp_two_point_balance_vector_riemann.py:392-399 | "better" and "tied" exclude each other; a gain of exactly `1e-3` is a tie; `ε = 0` is never selected |
| Stages.BalancedGate | Hilbert-Polya/python/hp_two_point_balance_vector_riemann.py:366-399 | the Stage-3 comparison uses the Stage-0/1 baseline, `use_spinor_temp = R²₂ > baseline`, `stage_prev_R2 = max(baseline, R²₂)`, the spinor's RMSE for ties iff the spinor beat the baseline, and the margin rule |
| Stages.BalancedPrevIsMax | Hilbert-Polya/python/hp_two_point_balance_vector_riemann.py:366-375 | with numeric `R²`, `stage_prev_R2` is the maximum of Stages 0, 1 and 2 and equals one of them |
| Stages.BalancedStages | Hilbert-Polya/python/hp_two_point_balance_vector_riemann.py:342-545 | `hp_two_point`'s staging ends with `BalancedFinal`'s spectrum; Stage 1 counts as adopted and improved iff `R²₁ > R²₀`; the torus flag is set iff the torus is final; the spinor flag iff the spinor beat the Stage-0/1 baseline, whatever the torus decision |
| Stages.BalancedSpinorAndTorus | Hilbert-Polya/python/hp_two_point_balance_vector_riemann.py:374-414 | with `R² = (0.5, 0.5, 0.7, 0.8)` and `ε = 0.01` the spinor beats the baseline and the torus is then selected, so both the Stage-2 and Stage-3 flags are reported True |
| Stages.BalancedDropsMerge | Hilbert-Polya/python/hp_two_point_balance_vector_riemann.py:456-475 | as written: with `R² = (0.5, 0.9, 0.1, 0.1)` and `ε = 0` the baseline is Stage 1, yet the script rebuilds and ends with the single-θ spectrum |
| Stages.IntendedBalancedSound | Hilbert-Polya/python/hp_two_point_balance_vector_riemann.py:366-475 | corrected ending: unless the torus passes the margin rule the first maximum of Stages 0–2 is kept; a torus ending has `ε ≥ 5e-3` and `R²` within `1e-3` of every other stage or above it; with a Stage-0 baseline it agrees with the code as written |
| Twist.H2 | Hilbert-Polya/python/hp_twist_grok.py:47-49 | `h² = (L/M)²` is positive whenever `L ≠ 0` |
| Twist.TwistedMatrix | Hilbert-Polya/python/hp_twist_grok.py:45-62 | `build_twisted_matrix` as a value is `M×M` |
| Twist.BuildTwistedMatrix | Hilbert-Polya/python/hp_twist_grok.py:45-62 | filling a zero array in the source's order (diagonal, sub- and super-diagonal, the two corners, then the optional potential) leaves exactly the entries of `TwistedMatrix` |
| Twist.CornerConj | Hilbert-Polya/python/hp_twist_grok.py:56-57 | the two corner values `−conj(e^{iθ})/h²` and `−e^{iθ}/h²` are each other's conjugates |
| Twist.TwistedHermitian | Hilbert-Polya/python/hp_twist_grok.py:45-62 | for `M ≥ 2` the twisted ring is Hermitian for every phase and every potential |
| Twist.TwistedBand | Hilbert-Polya/python/hp_twist_grok.py:45-62 | for `M ≥ 3`: diagonal `2/h²` (plus `V0 + k2·(τ − L/2)²` only when `V0` or `k2 ≠ 0`), first off-diagonals `−1/h²`, `A[0][M−1] = −conj(e^{iθ})/h²`, `A[M−1][0] = −e^{iθ}/h²`, zero elsewhere |
| Twist.UntwistedIsPeriodic | Hilbert-Polya/python/hp_twist_grok.py:55-57 | with `θ = 0` the corners are ordinary `−1/h²` hops: the periodic ring |
| Twist.OnePointRing | Hilbert-Polya/python/hp_twist_grok.py:52-57 | for `M = 1` the corner writes overwrite the diagonal with `−e^{iθ}/h²`, and for `e^{iθ} = i` the 1×1 matrix is not Hermitian |
| Twist.Count | Hilbert-Polya/python/hp_twist_grok.py:40 | the count of points in `[a, b)` is at most the number of points |
| Twist.CountSplit | Hilbert-Polya/python/hp_twist_grok.py:39-40 | adjacent half-open windows `[a, m)` and `[m, b)` together count exactly `[a, b)`: no point counted twice or missed |
| Twist.CountEmpty | Hilbert-Polya/python/hp_twist_grok.py:39-40 | a window past every point is empty |
| Twist.Deviation | Hilbert-Polya/python/hp_twist_grok.py:39-41 | `(cnt − L)²` is never negative |
| Twist.Deviations | Hilbert-Polya/python/hp_twist_grok.py:37-41 | the list the loop builds has one `(cnt − L)²` per window start |
| Twist.DeviationsSnoc | Hilbert-Polya/python/hp_twist_grok.py:41 | each loop step appends the next start's deviation |
| Twist.SumNonNeg | Hilbert-Polya/python/hp_twist_grok.py:42 | a sum of non-negative terms is non-negative |
| Twist.NumberVariance | Hilbert-Polya/python/hp_twist_grok.py:32-42 | `number_variance` is NaN iff `u[−1] − u[0] ≤ L`, fewer than 6 points, or no window start; otherwise the non-negative mean of `(count in [a, a+L) − L)²` over `linspace(u[0], u[−1] − L, steps)` |
| Twist.Ecdf | Hilbert-Polya/python/hp_twist_grok.py:28 | the empirical CDF `i/n`, `i = 1..n`, lies in `(0, 1]`, is strictly increasing and ends at 1 |
| Twist.EcdfAscending | Hilbert-Polya/python/hp_twist_grok.py:28 | `1/n < 2/n < … < n/n = 1`: every empirical CDF value lies in `(0, 1]` |
| Twist.MaxAbsDiff | Hilbert-Polya/python/hp_twist_grok.py:30 | `np.max(np.abs(e − c))` bounds every difference and is reached at some index |
| Twist.KsDistance | Hilbert-Polya/python/hp_twist_grok.py:28-30 | `max(abs(ecdf - cdf))` over a non-empty list is non-negative, bounds the distance at every point and is reached at some point |
| Twist.KsStat | Hilbert-Polya/python/hp_twist_grok.py:26-30 | the KS statistic is non-negative, bounds the distance between the empirical CDF of the sorted spacings and the reference CDF at every point, and is reached at some point |
| Twist.TrainSize | Hilbert-Polya/python/hp_twist_grok.py:156 | `min(train, K − 10)` is at most both and equals one of them |
| Twist.SliceEnd | Hilbert-Polya/python/hp_twist_grok.py:157 | where `idx[:t]` ends: within the list, and at `t` when `0 ≤ t ≤ n` |
| Twist.SplitIndices | Hilbert-Polya/python/hp_twist_grok.py:157 | `idx[:t]` followed by `idx[t:]` is `idx` |
| Twist.SplitPartition | Hilbert-Polya/python/hp_twist_grok.py:153-157 | for `K ≥ 10` zeros and a non-negative request, training has `min(train, K − 10)` indices, testing at least 10, and the two parts are disjoint and cover `0..K−1` |
| Twist.ShuffleCovers | Hilbert-Polya/python/hp_twist_grok.py:153-154 | a shuffle of `0..K−1` holds every index below `K` |
| Twist.CardOfImage | Hilbert-Polya/python/hp_twist_grok.py:153-154 | distinct entries form a set of the list's size |
| Twist.Pick | Hilbert-Polya/python/hp_twist_grok.py:88 | `v[idx]` has one value per index, `v[idx[k]]` |
| Twist.TwistGrid | Hilbert-Polya/python/hp_twist_grok.py:82-85 | the L-major, θ-minor grid has `L_steps·θ_steps` points |
| Twist.Evaluate | Hilbert-Polya/python/hp_twist_grok.py:86-88 | one grid point keeps its `L` and `θ`, the first `K` positive eigenvalues, and the slope-first fit of the training zeros on the training eigenvalues (`rms = sqrt(mse)`) |
| Twist.Evaluations | Hilbert-Polya/python/hp_twist_grok.py:84-88 | one evaluation per grid point, in visiting order |
| Twist.LexSingle | Hilbert-Polya/python/hp_twist_grok.py:89 | on one-element keys, tuple `<` is `<` on `rms` |
| Twist.RmsKeys | Hilbert-Polya/python/hp_twist_grok.py:89 | the compared key of each point is `(rms,)` |
| Twist.SingleKeyFirstMin | Hilbert-Polya/python/hp_twist_grok.py:89-90 | the first lexicographic minimum of the `(rms,)` keys is the first point of smallest `rms` |
| Twist.GridThetaLTrainOnly | Hilbert-Polya/python/hp_twist_grok.py:80-91 | `grid_theta_L_train_only` returns `None` iff the grid is empty; otherwise the first grid point (L-major, θ-minor) with the strictly smallest training `rms` |
| Twist.Shift | Hilbert-Polya/python/hp_twist_grok.py:115-116 | `p_try[i] += d` moves coordinate `i` by `d` and leaves the others alone |
| Twist.Preds | Hilbert-Polya/python/hp_twist_grok.py:94-96 | one `a·((2πn + θ)/L)² + b` per `n` in `n_list` |
| Twist.Loss | Hilbert-Polya/python/hp_twist_grok.py:106-111 | the loss is never negative, is `1e9` for `L ≤ 0`, and for `L > 0` is zero iff the model hits every zero |
| Twist.StepAfter | Hilbert-Polya/python/hp_twist_grok.py:124 | the step after `h` halvings of `1e-2` stays positive |
| Twist.StepShrinks | Hilbert-Polya/python/hp_twist_grok.py:124 | steps are only ever halved, never grow |
| Twist.StepFloor | Hilbert-Polya/python/hp_twist_grok.py:124-126 | the step falls below `1e-6` exactly at the fourteenth halving |
| Twist.Halve | Hilbert-Polya/python/hp_twist_grok.py:124 | `steps *= 0.5` halves every step |
| Twist.MaxOf | Hilbert-Polya/python/hp_twist_grok.py:125 | `np.max(steps)` bounds every step and is one of them |
| Twist.DescentRound | Hilbert-Polya/python/hp_twist_grok.py:113-122 | one round keeps `best = loss(p)` and never raises it; a round without improvement leaves `p` alone and no `±step` move on any coordinate lowers the loss |
| Twist.DescentStep | Hilbert-Polya/python/hp_twist_grok.py:113-126 | one pass of the loop never raises the loss; the steps stay uniform at the current step size; it stops exactly when the fourteenth halving has happened, at a point no move of the step size before it improves |
| Twist.CoordinateDescent | Hilbert-Polya/python/hp_twist_grok.py:112-127 | the returned value is the loss of the returned point and never above the start's; at most 2000 rounds; stopping early happens exactly at the fourteenth halving, at a point no move of the last step size improves |
| Twist.FitClosedForm | Hilbert-Polya/python/hp_twist_grok.py:98-130 | `fit_closed_form_abthL` returns `best = loss(p)` with `0 ≤ best ≤ loss(0.5, 10, π/2, 22)`, and `L` stays positive when the start is not penalised |
| Geo.MulMono | Hilbert-Polya/python/hp_geo_phase.py:26 | the multiples `p·e` grow with `e`, so the crossed-out indices `p·p, p·p + p, …` ascend |
| Geo.IntSqrt | Hilbert-Polya/python/hp_geo_phase.py:24 | `int(n**0.5)` is the integer square root: `r² ≤ n < (r+1)²` |
| Geo.IntSqrtFrom | Hilbert-Polya/python/hp_geo_phase.py:24 | counting up from any `r` with `r² ≤ n` reaches the integer square root |
| Geo.CrossStep | Hilbert-Polya/python/hp_geo_phase.py:24-26 | after crossing out the multiples of `p` from `p·p` on, the crossed-out numbers are exactly those with a factor pair whose smaller factor is at most `p` |
| Geo.CompositeStep | Hilbert-Polya/python/hp_geo_phase.py:25 | skipping an unmarked (composite) `p` loses nothing: its multiples were already crossed out by its own factor |
| Geo.CrossedIsComposite | Hilbert-Polya/python/hp_geo_phase.py:24 | below `(r+1)²`, having a factor pair with the smaller factor at most `r` is the same as being composite, so stopping at `int(n**0.5)` suffices |
| Geo.CrossMultiples | Hilbert-Polya/python/hp_geo_phase.py:26 | `sieve[p*p::p] = False` clears exactly the multiples `p·e`, `e ≥ p`, inside the array and leaves every other entry as it was |
| Geo.MarkedIndices | Hilbert-Polya/python/hp_geo_phase.py:27 | `np.nonzero(sieve)[0]` lists exactly the marked indices, strictly ascending |
| Geo.PrimesUpTo | Hilbert-Polya/python/hp_geo_phase.py:22-27 | `primes_up_to(n)` returns exactly the primes in `[2, n]`, strictly ascending |
| Geo.Binomial | Hilbert-Polya/python/hp_geo_phase.py:33 | `comb(n, k)` is at least 1 for `k ≤ n` and 0 for `k > n` |
| Geo.Pow2 | Hilbert-Polya/python/hp_geo_phase.py:33 | `2.0**d` is at least 1, so dividing by it is safe |
| Geo.CentralAmp | Hilbert-Polya/python/test_chiral_phases.py:31-32 | `sqrt(comb(d, d//2)) / 2**d` is positive whenever `sqrt` is positive on positive numbers |
| Geo.PascalAmpGeo | Hilbert-Polya/python/hp_geo_phase.py:32-33 | the geo `pascal_amp` is positive for every hop length |
| Geo.PascalAmpBanded | Hilbert-Polya/python/test_chiral_phases.py:29-32 | the banded `pascal_amp` is 0 for `d < 0` and `d > 2·d_max` |
| Geo.PascalAmpBandedSupport | Hilbert-Polya/python/test_chiral_phases.py:29-32 | the banded amplitude is nonzero exactly on `0 ≤ d ≤ 2·d_max` |
| Geo.UnitHopAmplitudes | Hilbert-Polya/python/hp_geo_phase.py:33 | the two `pascal_amp` definitions disagree on a unit hop: 1.0 in `hp_geo_*`, 0.5 in the banded scripts |
| Geo.EdgeTaper | Hilbert-Polya/python/hp_geo_phase.py:36-38 | `edge_taper_vec` has `N` entries, is mirror-symmetric (`t[i] = t[N−1−i]`), and is all ones for `eps = 0` |
| Geo.TaperMirror | Hilbert-Polya/python/hp_geo_phase.py:38 | the two Gaussian edge terms swap under `i ↦ N−1−i` |
| Geo.AmplitudeModulation | Hilbert-Polya/python/hp_geo_phase.py:85-91 | `amplitude_modulation` is 1 for `alpha = 0` and otherwise the reciprocal of `1 + alpha·avg/N` |
| Geo.ModulationNonNegative | Hilbert-Polya/python/hp_geo_phase.py:89-91 | with `alpha ≥ 0` every denominator on the `N×N` lattice is at least 1: the modulation never divides by zero |
| Geo.KernelsSymmetric | Hilbert-Polya/python/hp_geo_phase.py:45-82 | `phase_prime_sum`, the log, reciprocal and hybrid kernels give a hop and its reverse the same phase |
| Geo.PrimeSingleAsymmetric | Hilbert-Polya/python/hp_geo_phase.py:50-53 | `phase_prime_single` is not symmetric: hops `(0, 1)` and `(1, 0)` get different phases |
| Geo.Banded | Hilbert-Polya/python/hp_geo_phase.py:96-115 | the open banded hopping matrix is `N×N` |
| Geo.BuildBanded | Hilbert-Polya/python/hp_geo_phase.py:96-115 | the shared loop over `j in [max(0, i−dMax), min(N, i+dMax+1))` writes `hop(i, j)` exactly where `1 ≤ |i−j| ≤ dMax` and leaves the diagonal and everything farther zero: no wrap-around |
| Geo.BandedHermitian | Hilbert-Polya/python/hp_geo_phase.py:99-114 | when every reverse hop is the conjugate hop, the banded matrix is Hermitian |
| Geo.ConjScale | Hilbert-Polya/python/hp_geo_phase.py:112-113 | a real factor commutes with conjugation |
| Geo.DirectedHopReverse | Hilbert-Polya/python/hp_geo_phase.py:112 | `−amp·e^{−iφ}` for `j < i` is the conjugate of `−amp·e^{iφ}` for `j > i` |
| Geo.HopAmpSymmetric | Hilbert-Polya/python/hp_geo_phase.py:105-109 | the modulated Pascal amplitude is the same for a hop and its reverse |
| Geo.GeoHops | Hilbert-Polya/python/hp_geo_phase.py:105-114 | the hop function is defined on every lattice pair and gives amplitude, directed phase and taper factor of `build_operator` |
| Geo.GeoHopConjugate | Hilbert-Polya/python/hp_geo_phase.py:105-114 | with a symmetric phase kernel, `H[j, i]` is the conjugate of `H[i, j]` |
| Geo.BuildGeoOperator | Hilbert-Polya/python/hp_geo_phase.py:94-115 | `build_operator` fills a fresh `N×N` array with exactly the banded geo hops |
| Geo.GeoOperatorHermitian | Hilbert-Polya/python/hp_geo_phase.py:94-115 | `build_operator` is Hermitian for every symmetric phase kernel, any taper and any modulation |
| Geo.CircleKernel | Hilbert-Polya/python/hp_geo_phase.py:41-43 | the circle kernel gives every hop of length `d` the phase `(2π/n)·d` |
| Geo.PrimeSumKernel | Hilbert-Polya/python/hp_geo_phase.py:45-48 | the prime-sum kernel gives hop `(i, j, d)` the phase `π·d·(i mod P + j mod P)/(2P)` |
| Geo.RunAllKernelsSymmetric | Hilbert-Polya/python/hp_geo_phase.py:186-201 | both kernels `run_all` uses are symmetric, so every operator it diagonalises is Hermitian |
| GeoSelect.ZeroTables | Hilbert-Polya/python/hp_geo_amp_validate.py:5-22 | `RIEMANN` has 30 positive entries, `RZ` has 58 (not the 60 its comment announces) and begins with `RIEMANN` |
| GeoSelect.RatioTerm | Hilbert-Polya/python/hp_geo_amp_validate.py:67 | `|res|/z` against a positive target is non-negative and zero exactly on a zero residual |
| GeoSelect.RatioSumZero | Hilbert-Polya/python/hp_geo_amp_validate.py:67 | against positive targets `Σ |res|/zeros` is non-negative and zero exactly when every residual is |
| GeoSelect.Mape | Hilbert-Polya/python/hp_geo_amp_validate.py:67 | the MAPE is undefined (NaN/inf) exactly for no targets or a zero target; against positive targets it is non-negative and zero exactly on zero residuals |
| GeoSelect.ResidualsZero | Hilbert-Polya/python/hp_geo_amp_validate.py:65 | the residuals `aligned − zeros` all vanish iff the alignment equals the targets |
| GeoSelect.Align | Hilbert-Polya/python/hp_geo_amp_validate.py:57-69 | the alignment is the least-squares line (normal equations) with `aligned = a·ev + b`, `res = aligned − zeros`, `rmse = sqrt(mse)`, the quadratic lead of the residuals, and a MAPE that vanishes exactly on a perfect alignment |
| GeoSelect.Stats | Hilbert-Polya/python/hp_geo_phase.py:124-142 | `stats` is undefined exactly for no zeros, fewer eigenvalues than zeros, or a zero target; otherwise it describes the alignment of the `len(zeros)` lowest eigenvalues |
| GeoSelect.AffinePrefix | Hilbert-Polya/python/hp_geo_phase.py:125 | an exact affine relation survives cutting the eigenvalues to `len(zeros)` |
| GeoSelect.AlignExact | Hilbert-Polya/python/hp_geo_phase.py:118-131 | targets exactly affine in the eigenvalues are recovered with MAPE 0 and `rmse = sqrt(0)` |
| GeoSelect.StatsExact | Hilbert-Polya/python/hp_geo_phase.py:124-131 | when the zeros are an affine image of the lowest eigenvalues, `stats` reproduces them with zero residuals, MAPE 0 and `rmse = sqrt(0)` |
| GeoSelect.RunAllConfigsValid | Hilbert-Polya/python/hp_geo_phase.py:186-201 | `run_all` tries ten configurations, each with a non-negative `amp_alpha` and a nonzero `n_quant` |
| GeoSelect.ConfigOperator | Hilbert-Polya/python/hp_geo_phase.py:205 | each configuration's operator is `160×160` |
| GeoSelect.ConfigOperatorHermitian | Hilbert-Polya/python/hp_geo_phase.py:205-206 | every operator `run_all` passes to `eigvalsh` is Hermitian |
| GeoSelect.RunAllKeys | Hilbert-Polya/python/hp_geo_phase.py:204-211 | one key `(mape, |quad[0]|, rmse)` per configuration, in visiting order |
| GeoSelect.RunAll | Hilbert-Polya/python/hp_geo_phase.py:179-213 | `run_all` keeps the configuration whose key no other key beats lexicographically and that is strictly better than every earlier one: the first lexicographic minimum |
| GeoSelect.LawFactor | Hilbert-Polya/python/hp_geo_amp_validate.py:31-37 | `amp_power`/`amp_log` are reciprocals of their denominators; any other `amp_mode` leaves the amplitude unscaled |
| GeoSelect.LawNonNegative | Hilbert-Polya/python/hp_geo_amp_validate.py:31-37 | with `α ≥ 0`, a non-negative power and a log positive above 1, no denominator vanishes on a lattice of two or more sites |
| GeoSelect.LawAmpSymmetric | Hilbert-Polya/python/hp_geo_amp_validate.py:47-51 | the law-scaled Pascal amplitude is the same for a hop and its reverse |
| GeoSelect.AmpHops | Hilbert-Polya/python/hp_geo_amp_validate.py:47-54 | the hop of `build_H` is defined on every lattice pair and is `−a·e^{±iφ}` with the circle phase |
| GeoSelect.AmpHopConjugate | Hilbert-Polya/python/hp_geo_amp_validate.py:47-54 | the reverse hop of `build_H` is the conjugate hop |
| GeoSelect.BuildH | Hilbert-Polya/python/hp_geo_amp_validate.py:39-55 | `build_H` fills a fresh `N×N` array with exactly the banded amplitude-law hops |
| GeoSelect.AmpOperator | Hilbert-Polya/python/hp_geo_amp_validate.py:39-55 | the operator of `build_H` with `dmax = 5`, `n_quant = 25` is `N×N` |
| GeoSelect.AmpOperatorHermitian | Hilbert-Polya/python/hp_geo_amp_validate.py:39-55 | every amplitude law gives a Hermitian `build_H` |
| GeoSelect.Drop | Hilbert-Polya/python/hp_geo_amp_validate.py:90 | `ev[take:]` has the remaining entries in order, and is empty when `ev` is too short |
| GeoSelect.RunOnce | Hilbert-Polya/python/hp_geo_amp_validate.py:83-93 | `run_once` as written trains whenever there are enough eigenvalues and validates only when `len(RZ) ≥ 60` |
| GeoSelect.HoldOutNeverRuns | Hilbert-Polya/python/hp_geo_amp_validate.py:87-92 | with the 58 zeros of `RZ`, `run_once` never computes the hold-out, for any spectrum |
| GeoSelect.RunOnceIntended | Hilbert-Polya/python/hp_geo_amp_validate.py:86-92 | the corrected `run_once` validates on `RZ[30:60]` whenever there are zeros after the first 30 |
| GeoSelect.IntendedHoldOutRuns | Hilbert-Polya/python/hp_geo_amp_validate.py:86-92 | with `RZ` and at least 58 eigenvalues, the corrected `run_once` trains on 30 zeros and validates on 28 |
| GeoSelect.PowerGridOrder | Hilbert-Polya/python/hp_geo_amp_validate.py:100-101 | the power-law grid visits `α` outer and `p` inner: entry `4i + j` is `(α_i, p_j)` |
| GeoSelect.AmpLaws | Hilbert-Polya/python/hp_geo_amp_validate.py:98-112 | `main` scans sixteen laws: the twelve power laws in loop order, then the four log laws |
| GeoSelect.AmpLawsNonNegative | Hilbert-Polya/python/hp_geo_amp_validate.py:98-112 | every scanned law is a power or log law with `α ≥ 0` |
| GeoSelect.LawRunComplete | Hilbert-Polya/python/hp_geo_amp_validate.py:83-93 | on a lattice of at least 58 sites the corrected `run_once` both trains and validates |
| GeoSelect.AmpKeys | Hilbert-Polya/python/hp_geo_amp_validate.py:103-114 | one key `(mape, |quad_a|)` per scanned law, in loop order |
| GeoSelect.SelectAmpLaw | Hilbert-Polya/python/hp_geo_amp_validate.py:95-136 | `main` keeps the first law whose training key is the lexicographic minimum; its `N = 220` rerun with `run_once` as written trains, and its hold-out is never computed |
| GeoSelect.LawRunAsWritten | Hilbert-Polya/python/hp_geo_amp_validate.py:83-93 | `run_once` as written trains exactly as the corrected run does, but returns no hold-out with the 58 zeros of `RZ` |
| Bands.Chirality | Hilbert-Polya/python/test_chiral_phases.py:48-58 | `s_i` is 1 for `uniform` and unknown modes, `+1` exactly on even sites for `sublattice`, `+1` exactly up to the midpoint for `center`, and strictly inside `(−1, 1)` for `ramp`; every mode but `ramp` gives `±1` |
| Bands.DecayNonNegative | Hilbert-Polya/python/test_chiral_phases.py:70-71 | with `α ≥ 0` and a non-negative `u**p`, the decay `1/(1 + α·u^p)` never divides by zero |
| Bands.Raw | Hilbert-Polya/python/test_chiral_phases.py:43-76 | the matrix filled before symmetrisation is `N×N` |
| Bands.Hamiltonian | Hilbert-Polya/python/test_chiral_phases.py:78-80 | what `build_hamiltonian` returns is `N×N` and Hermitian, for every chirality mode |
| Bands.FillRow | Hilbert-Polya/python/test_chiral_phases.py:60-76 | the offsets `dj = −d_max … d_max` of row `i` write exactly that row's entries, with the last offset that lands on `j` winning, and leave the other rows alone |
| Bands.BuildHamiltonian | Hilbert-Polya/python/test_chiral_phases.py:35-80 | `build_hamiltonian` returns `(H + H†)/2` of the row-by-row fill, which is `N×N` and Hermitian |
| Bands.WrapOnce | Hilbert-Polya/python/test_chiral_phases.py:61 | `(i + dj) % N` for an offset that wraps at most once adds or subtracts `N` once |
| Bands.LongHopZero | Hilbert-Polya/python/test_chiral_phases.py:29-30 | a hop farther than `2·d_max` writes zero |
| Bands.RawAtBand | Hilbert-Polya/python/test_chiral_phases.py:60-76 | for `N > 3·d_max`, after `k` offsets `H[i, j]` holds the hop of `dj = j − i` if that offset was visited and zero otherwise: wrapped offsets land too far away to write anything |
| Bands.RawBanded | Hilbert-Polya/python/test_chiral_phases.py:60-76 | for `N > 3·d_max` the filled matrix holds the hop of `dj = j − i` inside the band `1 ≤ |i − j| ≤ d_max` and zero elsewhere |
| Bands.HamiltonianBanded | Hilbert-Polya/python/test_chiral_phases.py:35-80 | for `N > 3·d_max` the Hamiltonian has a zero diagonal and no entry beyond `d_max`: the `% N` wrap never produces a hop |
| Bands.RawZeroOutside | Hilbert-Polya/python/test_chiral_phases.py:60-76 | off the band both `H[i, j]` and `H[j, i]` stay zero before symmetrisation |
| BandAnalysis.BandSplit | Hilbert-Polya/python/test_chiral_phases.py:105-106 | `N // 3` and `2·N // 3` in terms of `N mod 3` |
| BandAnalysis.BandEnd | Hilbert-Polya/python/test_chiral_phases.py:105-107 | the band `[N//3, 2N//3)` starts no later than it ends and ends within the spectrum |
| BandAnalysis.KeptThreshold | Hilbert-Polya/python/test_multiple_N.py:72-78 | the band holds `N // 3` values, one more when `N ≡ 2 (mod 3)`, so the skip rule `n_evals < 73` keeps exactly the sizes `N ≥ 218` |
| BandAnalysis.BandAtLeastHundred | Hilbert-Polya/python/test_N_300_350.py:71-77 | from `N = 300` on the band holds at least 100 values and is never skipped |
| BandAnalysis.BandAt220 | Hilbert-Polya/python/extended_analysis.py:13-65 | at `N = 220` the band is `[73, 146)`: exactly the 73 values the analysis consumes |
| BandAnalysis.MiddleBand | Hilbert-Polya/python/test_multiple_N.py:80 | the band is sorted, has `n_evals` values and is a permutation of `evals[N//3 : 2N//3]` |
| BandAnalysis.MiddleBandOfSorted | Hilbert-Polya/python/test_multiple_N.py:69-80 | on the ascending output of `eigh` the sort changes nothing |
| BandAnalysis.Shift | Hilbert-Polya/python/test_multiple_N.py:97 | adding `c` to every residual adds it entrywise |
| BandAnalysis.MeanShift | Hilbert-Polya/python/test_multiple_N.py:98-100 | shifting every entry by `c` shifts the mean by `c` |
| BandAnalysis.DriftShiftInvariant | Hilbert-Polya/python/test_N_300_350.py:97-121 | the total drift `mean(res[−5:]) − mean(res[:5])` is unchanged when every residual moves by the same amount: it is blind to the intercept |
| BandAnalysis.DriftOfConstant | Hilbert-Polya/python/test_N_300_350.py:121 | a constant residual vector has zero drift |
| BandAnalysis.SumConcat | Hilbert-Polya/python/test_N_300_350.py:102-105 | the sum of a concatenation is the sum of the parts |
| BandAnalysis.SumPrefix | Hilbert-Polya/python/test_N_300_350.py:102-105 | the running sum to `k` is the sum of the prefix `s[:k]` |
| BandAnalysis.SumToPrefix | Hilbert-Polya/python/test_N_300_350.py:102-105 | running sums agree on a common prefix |
| BandAnalysis.Quartiles | Hilbert-Polya/python/test_N_300_350.py:102-105 | there are four quartile means |
| BandAnalysis.QuartilesPartition | Hilbert-Polya/python/test_N_300_350.py:102-105 | the slices `[:7]`, `[7:14]`, `[14:21]`, `[21:]` split the 28 validation residuals into four blocks of 7, and the mean of the quartile means is the overall mean |
| BandAnalysis.Classify | Hilbert-Polya/python/test_N_300_350.py:141-148 | `NORMALIZING` exactly for `|drift| < 1`, `Under-predict` exactly for `drift ≥ 1`, `Over-predict` exactly for `drift ≤ −1` |
| BandAnalysis.Diff | Hilbert-Polya/python/extended_analysis.py:86-87 | `np.diff` has one entry fewer (none for an empty input) |
| BandAnalysis.ScaleAll | Hilbert-Polya/python/extended_analysis.py:87 | scaling keeps the length |
| BandAnalysis.GapsAligned | Hilbert-Polya/python/extended_analysis.py:86-91 | `np.diff(zeros[:58])[30:]` are the 27 gaps of the validation zeros, as many as the gaps of the 28 validation predictions |
| BandAnalysis.ModelGapsScale | Hilbert-Polya/python/extended_analysis.py:87 | the gaps of `a·λ + b` are `a` times the gaps of `λ`: the intercept drops out |
| BandAnalysis.TrainLine | Hilbert-Polya/python/test_multiple_N.py:83-84 | the fitted map solves the least-squares normal equations on the first 30 band values and zeros |
| BandAnalysis.PredictionsOf | Hilbert-Polya/python/test_multiple_N.py:87-89 | 30, 28 and 15 predictions, each `a·λ + b` of the band value at the same position in `[0, 30)`, `[30, 58)`, `[58, 73)` |
| BandAnalysis.MapeOf | Hilbert-Polya/python/test_multiple_N.py:92-94 | against positive zeros the MAPE exists, is non-negative, and is zero exactly when the predictions hit the zeros |
| BandAnalysis.MapesOf | Hilbert-Polya/python/test_multiple_N.py:92-94 | against positive zeros all three MAPEs exist and each is zero exactly on a perfect slice |
| BandAnalysis.DriftOf | Hilbert-Polya/python/test_N_300_350.py:96-121 | `total_drift = drift_last5 − drift_first5`, and the quartile means average to the residual mean |
| BandAnalysis.FitBand | Hilbert-Polya/python/test_multiple_N.py:80-100 | one table row: the normal-equation line of the first 30 values, the three prediction slices and their MAPEs, the validation residuals `pred_valid − valid_zeros`, and their drift statistics |
| BandAnalysis.Analyse | Hilbert-Polya/python/test_multiple_N.py:66-100 | a size is skipped exactly when the skip rule says so; otherwise the row is the fit of the sorted middle band |
| BandAnalysis.FitBandExact | Hilbert-Polya/python/test_multiple_N.py:83-100 | on a band that maps exactly onto all 73 zeros, the fit recovers the map, every prediction hits its zero, every validation residual vanishes and the drift is zero |
| BandAnalysis.ExactPredictions | Hilbert-Polya/python/test_multiple_N.py:87-89 | the exact line predicts every zero of all three slices |
| BandAnalysis.FitBandExactMape | Hilbert-Polya/python/test_multiple_N.py:92-94 | an exact fit against positive zeros has all three MAPEs zero |
| BandAnalysis.ExtendedAnalysis | Hilbert-Polya/python/extended_analysis.py:56-101 | at `N = 220` the guarded extended prediction always exists (15 values), the validation residuals are `valid_zeros − pred_valid`, and the model gaps are the slope times the gaps of the validation band values, as many as the 27 compared Riemann gaps |
| BandAnalysis.Range | Hilbert-Polya/python/test_multiple_N.py:57 | `range(lo, hi, step)` stays within `[lo, hi)` |
| BandAnalysis.KeptSizes | Hilbert-Polya/python/test_multiple_N.py:76-78 | every size that survives the skip rule is kept |
| BandAnalysis.KeptSizesConcat | Hilbert-Polya/python/test_multiple_N.py:66-78 | the skip rule acts on each size independently |
| BandAnalysis.KeptAllLarge | Hilbert-Polya/python/test_multiple_N.py:76-78 | sizes from 218 on are all kept |
| BandAnalysis.FirstKept | Hilbert-Polya/python/test_multiple_N.py:57-76 | the first grid point at or above 218 |
| BandAnalysis.KeptRange | Hilbert-Polya/python/test_multiple_N.py:57-78 | a `range` grid loses exactly its points below 218 |
| BandAnalysis.MultipleNGrid | Hilbert-Polya/python/test_multiple_N.py:57-78 | of `range(160, 301, 10)`, 160 … 210 are skipped and the kept sizes are exactly `220, 230, …, 300` |
| BandAnalysis.HighNGrid | Hilbert-Polya/python/test_N_300_350.py:56-77 | none of the eleven sizes `range(300, 351, 5)` is skipped and every band holds at least 100 values |
| BandAnalysis.ChiralGridKept | Hilbert-Polya/python/test_chiral_phases.py:84-110 | no size of `N_test_values` is skipped |
| BandAnalysis.AnalyseAt | Hilbert-Polya/python/test_multiple_N.py:66-80 | one loop pass yields a row exactly for a kept size; the row carries that size and is the fit of the sorted middle band of that lattice's spectrum |
| BandAnalysis.SweepRowsAnalysed | Hilbert-Polya/python/test_multiple_N.py:66-80 | every row of a sweep is the fit of the sorted middle band of the lattice of its own size |
| BandAnalysis.SizesOf | Hilbert-Polya/python/test_multiple_N.py:102-103 | the `N` column has one entry per row |
| BandAnalysis.SweepReportsKept | Hilbert-Polya/python/test_multiple_N.py:66-103 | the results table lists exactly the sizes the skip rule keeps, in grid order |
| BandAnalysis.SweepSizes | Hilbert-Polya/python/test_multiple_N.py:66-103 | the size loop appends one fitted row per kept size, in order |
| BandAnalysis.MultipleN | Hilbert-Polya/python/test_multiple_N.py:56-103 | `test_multiple_N.py` reports nine rows, `N = 220, 230, …, 300`, each the fit of the sorted middle band of the uniform lattice of that size |
| BandAnalysis.HighN | Hilbert-Polya/python/test_N_300_350.py:65-148 | over sizes that are all kept, row `i` is the fit of the sorted middle band of the lattice of size `ns[i]`, and its status is the classification of its total drift |
| BandAnalysis.Statuses | Hilbert-Polya/python/test_N_300_350.py:141-148 | one status per row, each the classification of that row's drift |
| BandAnalysis.ChiralSpecShape | Hilbert-Polya/python/test_chiral_phases.py:92-145 | every mode contributes one row per size, mode-major: row `i` has mode `ms[i / 7]` and size `N_test_values[i % 7]` |
| BandAnalysis.SweepModes | Hilbert-Polya/python/test_chiral_phases.py:134-135 | every row of a sweep carries the sweep's mode |
| BandAnalysis.ChiralSweep | Hilbert-Polya/python/test_chiral_phases.py:92-145 | the mode-major double loop yields `7·|modes|` rows, row `i` with mode `ms[i / 7]` and size `N_test_values[i % 7]` |

## Left out

- Eigen-solvers (`np.linalg.eigh`/`eigvalsh`, `scipy.linalg.eigh`) are function parameters. Only the facts the proofs use are assumed: one eigenvalue per row, or the returned list itself.
- `np.linalg.lstsq` is modelled by its normal equations and closed form, not by its SVD algorithm or its `rcond` cut-off.
- Transcendental functions and `π` (`sqrt`, `cos`, `exp`, `log`, `u**p`, `e^{iφ}`, `comb` under `sqrt`, the Wigner CDF) are parameters. IEEE rounding, overflow and the NaN/inf values they can produce are not modelled. The exceptions are NaN R², a NaN `number_variance` and an undefined MAPE, which are `None`.
- `int(n**0.5)` in the sieve is modelled as the exact integer square root. Float rounding of `n**0.5` is not modelled.
- The 46-entry length of `PRIMES = primes_up_to(200)` is not proved. `Geo.PrimesUpTo` proves the list is exactly the primes up to `n`, but counting them for `n = 200` is left out.
- `np.polyfit` (the quadratic residual curvature `quad[0]`), `np.corrcoef`, `np.percentile`, the histogram KS distance of `stats`/`metrics`, and `N_smooth` unfolding are foreign statistics. `quad[0]` enters as a function parameter; the others are not modelled.
- The random shuffle of `hp_twist_grok.py` is the parameter `idx`. The model requires it to be a permutation of `0..K−1`.
- The Riemann zeros (mpmath `zetazero`, the JSON cache) are a parameter, except for the literal tables `RIEMANN` and `RZ`.
- Printing, plotting, CSV/JSON writes, summary reads, the pandas summary of `test_N_300_350.py`, the `sys.argv` override, and the extended-analysis prints of means, standard deviations and correlations are I/O.
- `parity_defect_*` diagnostics (Frobenius norms) only feed reports.
- The final-spectrum rebuild sizes (`k = max(4N, 200)`, `M_tau = 128`, `M_sigma = 8`) are parameters of the rebuilt spectra.
- Sweeps.SweepScalar, Sweeps.SweepAllParams, Sweeps.SweepPositive, Sweeps.SweepTwoTheta: require every grid point's fit to exist. The scripts would raise at a point with too short a spectrum, and the exception is not modelled.
- Sweeps.SweepAnchors: requires every visited anchor pair to have a fit: both anchors in range and `t[i] ≠ t[j]`. The script's only call site meets this. There `t` is `RIEMANN_T[:N]`, the ascending zeta zeros, with `N = 40` above `j_max = 36`. The model does not cover what the script does when this fails:
  - an out-of-range anchor raises IndexError;
  - `t[i] = t[j]` makes `two_point_ab` divide by zero in float64. That gives inf or NaN with a warning, not an exception, and a NaN `R²`. Such a pair never passes `score > best`, except as the very first pair, which is taken whatever its score.
- Sweeps.ParameterSweep: a point whose fit raises is skipped, as in the script. The exception itself is represented only by a missing fit.
- Twist.GridThetaLTrainOnly: requires a non-empty training set. With an empty one numpy returns NaN for the mean and the comparison is never true.
- Twist.Loss, Twist.FitClosedForm: require a non-empty `n_list`. An empty `n_list` gives the NaN mean of an empty array.
- Twist.NumberVariance, Twist.KsStat: require a non-empty input. The script indexes `u[0]` or takes `np.max` of an empty array, which raises.
- Twist.CoordinateDescent: the round count and the halving count are ghost outputs. The bounds on them (at most 2000 rounds, at most 14 halvings) are facts about the proof, not values the script returns.
- BandAnalysis.MapeOf: states its bounds only for positive zeros. The band scripts compute `|(z − p)/z|` and `stats` computes `|p − z|/z`, and these differ for negative targets.
- BandAnalysis.HighN, BandAnalysis.ChiralSweep: are stated over a parameter (the sizes, the modes) rather than only the script's literal list. `BandAnalysis.HighNGrid` and `BandAnalysis.ChiralGridKept` tie them to the literal lists.
- Bands.ChiralHop: the cutoff `d > 2·d_max` reads `prm.dMax`. The script's `pascal_amp` reads the module-global `d_max = 5` instead (`test_chiral_phases.py:14`), not `build_hamiltonian`'s parameter. Every caller passes `d_max = 5`, so the two agree on every run the scripts make.
- Twist.TwistedMatrix, Twist.BuildTwistedMatrix: require `M > 0` and `L ≠ 0`. Otherwise the script's `L / M` or `2.0/(h*h)` raises ZeroDivisionError.
- Operator.TwistedD1, Operator.BuildOperator, Operator.BuildOperatorSigma, Operator.UniformOperatorIsSigmaOperator, Composite.SpinorCore, Composite.BuildSpinorOperator, Composite.SpinorDecouples, Composite.TorusLegTau, Composite.TorusOperator, Composite.TorusUncoupled: require at least two grid points (`M ≥ 2`, `Ms ≥ 2`, `Mt ≥ 2`). With fewer, the scripts' `dt = tau[1] - tau[0]` raises IndexError, and that exception is not modelled.
- Fit.LeastSquares, Fit.AffineFit, Sweeps.LineFit: an empty design (no rows) is `None`. numpy does not raise there: `lstsq` returns the zero line and `r2_score` returns NaN. The zero line and the NaN `R²` are not modelled; every selection in the model treats `None` as a NaN `R²` is treated, as never better.
- The log-scaled phase kernels and the amplitude modulation of `hp_geo_*` require `log N ≠ 0` (and `n_quant ≠ 0`). At `N = 1` numpy divides by zero and yields inf or NaN entries, which the model does not represent.
- Geo.UnitHopAmplitudes: takes `sqrt(1) = 1` as a precondition on the `sqrt` parameter.
- Concurrency: the scripts are sequential, and nothing concurrent is modelled.

## Findings

| source | as written | input that shows it | evidently intended | confidence | as-written member | corrected member |
|---|---|---|---|---|---|---|
| Hilbert-Polya/python/equation_test2.py:416-421,508-531 | An adopted Stage-1 merged spectrum is thrown away. The final rebuild knows only the torus, the spinor and the single-θ operator, so the script ends with the single-θ spectrum. | R² of 0.5 / 0.9 / 0.1 / 0.1 for single / merged / spinor / torus: the merge passes its gate, yet the final spectrum is the single-θ one. | The spectrum of the last stage that passed its gate, here the merged one. | not executed; high | Stages.StrictDropsMerge | Stages.IntendedStrictFirstMax |
| Hilbert-Polya/python/equation_test2.py:446-461 | Stage 2 is compared with the Stage-0 R² only, even when Stage 1 was adopted. | R² of 0.5 / 0.9 / 0.7 / 0.1: a spinor worse than the adopted merge is kept. | Compare each stage with the running best R². | not executed; high | Stages.StrictSpinorBelowMerge | Stages.IntendedStrictFirstMax |
| Hilbert-Polya/python/equation_test2.py:452-453,530-531,603-611 | `use_merged` is reset before the report and `use_spinor` is reset after the spinor rebuild. Both "improved" flags are always False. | R² of 0.5 / 0.5 / 0.7 / 0.1: the script ends with the spinor spectrum and reports Stage 2 as not improved. | The flags report the stage whose spectrum is used. | not executed; high | Stages.StrictSpinorUnreported | Stages.IntendedStrictStages |
| Hilbert-Polya/python/hp_two_point_balance_vector_riemann.py:340-375,451-475 | The baseline takes the merged Stage-1 fit when it is better, but the final rebuild without torus or spinor uses the single-θ operator. | R² of 0.5 / 0.9 / 0.1 / 0.1 with ε = 0: the baseline is Stage 1, and the final spectrum is Stage 0's. | The baseline's own spectrum. | not executed; high | Stages.BalancedDropsMerge | Stages.IntendedBalancedSound |
| Hilbert-Polya/python/hp_geo_amp_validate.py:5-22,86-92 | The hold-out runs only when `len(RZ) >= 60`, but `RZ` holds 58 zeros, so no validation metrics are ever computed. | Any law, any spectrum: `valid` is always `None`. | Validate on the zeros after the first 30, up to 30 of them (28 here). | not executed; medium (the table may simply be incomplete) | GeoSelect.HoldOutNeverRuns | GeoSelect.RunOnceIntended |
