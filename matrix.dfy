/**
 * Dense square complex matrices as sequences of rows, with the few
 * numpy operations the operator builders use: `+`, unary `-`, `@`,
 * `np.diag`, `np.eye`, `np.kron` and the Hermitian symmetrisation
 * `0.5 * (L + L.conj().T)`.
 */
module Matrix {
  import opened Complex

  type Mat = seq<seq<C>>

  predicate IsSquare(A: Mat, n: nat)
  {
    |A| == n && forall i | 0 <= i < n :: |A[i]| == n
  }

  /** `A == A.conj().T`. */
  predicate Hermitian(A: Mat)
  {
    IsSquare(A, |A|) &&
    forall i, j | 0 <= i < |A| && 0 <= j < |A| :: A[i][j] == Conj(A[j][i])
  }

  /** The entry of `0.5 * (A + A.conj().T)` at `(i, j)`. */
  function HermitianPart(a: C, b: C): C
  {
    Scale(0.5, Add(a, Conj(b)))
  }

  /** An entry that is zero in both triangles stays zero. */
  lemma HermitiseZeroEntry(A: Mat, i: nat, j: nat)
    requires IsSquare(A, |A|) && i < |A| && j < |A|
    requires A[i][j] == Zero && A[j][i] == Zero
    ensures Hermitise(A)[i][j] == Zero
  {
    var h := Hermitise(A);
    assert h[i][j] == HermitianPart(A[i][j], A[j][i]);
    assert HermitianPart(Zero, Zero) == Zero;
  }

  /**
   * `0.5 * (A + A.conj().T)`: the result is Hermitian whatever `A` is,
   * and a matrix that is already Hermitian is returned unchanged.
   */
  function Hermitise(A: Mat): (r: Mat)
    requires IsSquare(A, |A|)
    ensures IsSquare(r, |A|)
    ensures forall i, j | 0 <= i < |A| && 0 <= j < |A| :: r[i][j] == HermitianPart(A[i][j], A[j][i])
    ensures Hermitian(r)
    ensures Hermitian(A) ==> r == A
  {
    var n := |A|;
    var r := seq(n, i requires 0 <= i < n =>
               seq(n, j requires 0 <= j < n => HermitianPart(A[i][j], A[j][i])));
    assert Hermitian(r) by {
      forall i, j | 0 <= i < n && 0 <= j < n
        ensures r[i][j] == Conj(r[j][i])
      {
        HermitianPartConj(A[i][j], A[j][i]);
      }
    }
    assert Hermitian(A) ==> r == A by {
      if Hermitian(A) {
        forall i | 0 <= i < n
          ensures r[i] == A[i]
        {
          forall j | 0 <= j < n
            ensures r[i][j] == A[i][j]
          {
            HermitianPartFixed(A[i][j], A[j][i]);
          }
        }
      }
    }
    r
  }

  /** The `(i, j)` and `(j, i)` parts are conjugate. */
  lemma HermitianPartConj(a: C, b: C)
    ensures HermitianPart(a, b) == Conj(HermitianPart(b, a))
  {
    ConjInvolutive(a);
  }

  /** An entry already equal to the conjugate of its mirror is kept. */
  lemma HermitianPartFixed(a: C, b: C)
    requires a == Conj(b)
    ensures HermitianPart(a, b) == a
  {
    ConjInvolutive(b);
  }

  function Identity(n: nat): (r: Mat)
    ensures IsSquare(r, n)
  {
    seq(n, i requires 0 <= i < n => seq(n, j requires 0 <= j < n => if i == j then One else Zero))
  }

  /** `np.diag(d)` for a vector of complex values. */
  function Diag(d: seq<C>): (r: Mat)
    ensures IsSquare(r, |d|)
  {
    seq(|d|, i requires 0 <= i < |d| =>
      seq(|d|, j requires 0 <= j < |d| => if i == j then d[i] else Zero))
  }

  /** `np.diag(d)` for a vector of reals. */
  function RealDiag(d: seq<real>): (r: Mat)
    ensures IsSquare(r, |d|)
  {
    Diag(seq(|d|, i requires 0 <= i < |d| => Real(d[i])))
  }

  function MAdd(A: Mat, B: Mat): (r: Mat)
    requires IsSquare(A, |A|) && IsSquare(B, |A|)
    ensures IsSquare(r, |A|)
  {
    seq(|A|, i requires 0 <= i < |A| =>
      seq(|A|, j requires 0 <= j < |A| => Add(A[i][j], B[i][j])))
  }

  lemma MAddAt(A: Mat, B: Mat, n: nat, x: nat, y: nat)
    requires IsSquare(A, n) && IsSquare(B, n) && x < n && y < n
    ensures MAdd(A, B)[x][y] == Add(A[x][y], B[x][y])
  {
  }

  function MNeg(A: Mat): (r: Mat)
    requires IsSquare(A, |A|)
    ensures IsSquare(r, |A|)
  {
    seq(|A|, i requires 0 <= i < |A| =>
      seq(|A|, j requires 0 <= j < |A| => Neg(A[i][j])))
  }

  /** Multiplication by a real scalar. */
  function MScale(s: real, A: Mat): (r: Mat)
    requires IsSquare(A, |A|)
    ensures IsSquare(r, |A|)
  {
    seq(|A|, i requires 0 <= i < |A| =>
      seq(|A|, j requires 0 <= j < |A| => Scale(s, A[i][j])))
  }

  /** `sum(A[i, l] * B[l, j] for l in range(k))`. */
  function Dot(A: Mat, B: Mat, i: nat, j: nat, k: nat): C
    requires IsSquare(A, |A|) && IsSquare(B, |A|)
    requires i < |A| && j < |A| && k <= |A|
  {
    if k == 0 then Zero else Add(Dot(A, B, i, j, k - 1), Mul(A[i][k - 1], B[k - 1][j]))
  }

  /** `A @ B`. */
  function MatMul(A: Mat, B: Mat): (r: Mat)
    requires IsSquare(A, |A|) && IsSquare(B, |A|)
    ensures IsSquare(r, |A|)
  {
    seq(|A|, i requires 0 <= i < |A| =>
      seq(|A|, j requires 0 <= j < |A| => Dot(A, B, i, j, |A|)))
  }

  /** `np.diag(d) @ A`, written as the row scaling it amounts to. */
  function DiagTimes(d: seq<real>, A: Mat): (r: Mat)
    requires IsSquare(A, |d|)
    ensures IsSquare(r, |d|)
  {
    seq(|d|, i requires 0 <= i < |d| =>
      seq(|d|, j requires 0 <= j < |d| => Scale(d[i], A[i][j])))
  }

  lemma DivModUnique(q: int, r: nat, m: nat)
    requires r < m
    ensures (q * m + r) / m == q && (q * m + r) % m == r
  {
    var x := q * m + r;
    var d := x / m;
    var e := x % m;
    assert m * d + e == m * q + r;
    assert m * (d - q) == r - e;
    MulSmall(m, d - q);
  }

  lemma MulSmall(m: int, k: int)
    requires 0 < m && -m < m * k < m
    ensures k == 0
  {
  }

  /** `x // m`, by repeated subtraction. */
  function Block(x: nat, m: nat): (r: nat)
    requires 0 < m
    ensures r * m <= x
    decreases x
  {
    if x < m then 0 else 1 + Block(x - m, m)
  }

  /** `x % m`, by repeated subtraction. */
  function Offset(x: nat, m: nat): (r: nat)
    requires 0 < m
    ensures r < m
    decreases x
  {
    if x < m then x else Offset(x - m, m)
  }

  lemma {:induction false} BlockOffset(x: nat, m: nat, n: nat)
    requires 0 < m && x < n * m
    ensures Block(x, m) < n && x == Block(x, m) * m + Offset(x, m)
    decreases x
  {
    if x >= m {
      BlockOffset(x - m, m, n - 1);
    }
  }

  lemma {:induction false} BlockSplit(x: nat, m: nat)
    requires 0 < m
    ensures x == Block(x, m) * m + Offset(x, m)
    decreases x
  {
    if x >= m {
      BlockSplit(x - m, m);
    }
  }

  /** `Block` and `Offset` are Python's `//` and `%` on natural numbers. */
  lemma BlockIsDiv(x: nat, m: nat)
    requires 0 < m
    ensures Block(x, m) == x / m && Offset(x, m) == x % m
  {
    BlockSplit(x, m);
    DivModUnique(Block(x, m), Offset(x, m), m);
  }

  lemma {:induction false} BlockOfSplit(p: nat, a: nat, m: nat)
    requires a < m
    ensures Block(p * m + a, m) == p && Offset(p * m + a, m) == a
  {
    if p > 0 {
      BlockOfSplit(p - 1, a, m);
      assert p * m + a - m == (p - 1) * m + a;
    }
  }

  /** The entry of `np.kron(A, B)` at flat position `(x, y)`, for an `m × m` matrix `B`. */
  function KronAt(A: Mat, B: Mat, m: nat, x: nat, y: nat): C
    requires IsSquare(A, |A|) && IsSquare(B, m) && 0 < m
    requires x < |A| * m && y < |A| * m
  {
    BlockOffset(x, m, |A|); BlockOffset(y, m, |A|);
    Mul(A[Block(x, m)][Block(y, m)], B[Offset(x, m)][Offset(y, m)])
  }

  /** `np.kron(A, B)` for an `n × n` matrix `A` and an `m × m` matrix `B`. */
  function Kron(A: Mat, B: Mat, m: nat): (r: Mat)
    requires IsSquare(A, |A|) && IsSquare(B, m) && 0 < m
    ensures IsSquare(r, |A| * m)
  {
    var N := |A| * m;
    seq(N, x requires 0 <= x < N => seq(N, y requires 0 <= y < N => KronAt(A, B, m, x, y)))
  }

  /** The entry of `np.kron(A, B)` in block `(p, q)` at offset `(a, b)`. */
  lemma KronEntry(A: Mat, B: Mat, m: nat, p: nat, q: nat, a: nat, b: nat)
    requires IsSquare(A, |A|) && IsSquare(B, m) && 0 < m
    requires p < |A| && q < |A| && a < m && b < m
    ensures p * m + a < |A| * m && q * m + b < |A| * m
    ensures Kron(A, B, m)[p * m + a][q * m + b] == Mul(A[p][q], B[a][b])
  {
    BlockOfSplit(p, a, m);
    BlockOfSplit(q, b, m);
    BlockBound(p, a, m, |A|);
    BlockBound(q, b, m, |A|);
    var x := p * m + a;
    var y := q * m + b;
    assert Kron(A, B, m)[x][y] == KronAt(A, B, m, x, y);
  }

  lemma BlockBound(p: nat, a: nat, m: nat, n: nat)
    requires p < n && a < m
    ensures p * m + a < n * m
  {
    assert p * m + a < p * m + m == (p + 1) * m;
    MulLe(p + 1, n, m);
  }

  lemma MulLe(x: nat, y: nat, m: nat)
    requires x <= y
    ensures x * m <= y * m
  {
  }

  /** Every index of a Kronecker product splits into a block and an offset. */
  lemma KronIndex(x: nat, m: nat, n: nat)
    requires 0 < m && x < n * m
    ensures Block(x, m) < n && Offset(x, m) < m && x == Block(x, m) * m + Offset(x, m)
  {
    BlockOffset(x, m, n);
  }

  /** The Kronecker product of two Hermitian matrices is Hermitian. */
  lemma KronHermitian(A: Mat, B: Mat)
    requires Hermitian(A) && Hermitian(B) && 0 < |B|
    ensures Hermitian(Kron(A, B, |B|))
  {
    var K := Kron(A, B, |B|);
    var m := |B|;
    forall x, y | 0 <= x < |K| && 0 <= y < |K|
      ensures K[x][y] == Conj(K[y][x])
    {
      KronIndex(x, m, |A|);
      KronIndex(y, m, |A|);
      ConjMul(A[Block(y, m)][Block(x, m)], B[Offset(y, m)][Offset(x, m)]);
    }
  }

  lemma MAddHermitian(A: Mat, B: Mat)
    requires Hermitian(A) && Hermitian(B) && |A| == |B|
    ensures Hermitian(MAdd(A, B))
  {
  }

  lemma MScaleHermitian(s: real, A: Mat)
    requires Hermitian(A)
    ensures Hermitian(MScale(s, A))
  {
  }

  lemma IdentityHermitian(n: nat)
    ensures Hermitian(Identity(n))
  {
  }
}
