/**
 * Complex numbers as pairs of exact reals: the entry type of every
 * operator matrix in the Hilbert–Pólya pipeline.
 */
module Complex {

  datatype C = C(re: real, im: real)

  const Zero: C := C(0.0, 0.0)
  const One: C := C(1.0, 0.0)
  /** The imaginary unit `1j`. */
  const I: C := C(0.0, 1.0)

  function Real(r: real): C { C(r, 0.0) }

  function Add(x: C, y: C): C { C(x.re + y.re, x.im + y.im) }

  function Neg(x: C): C { C(-x.re, -x.im) }

  function Mul(x: C, y: C): C
  {
    C(x.re * y.re - x.im * y.im, x.re * y.im + x.im * y.re)
  }

  /** Multiplication by a real scalar. */
  function Scale(r: real, x: C): C { C(r * x.re, r * x.im) }

  function Conj(x: C): C { C(x.re, -x.im) }

  /** A value is real when it equals its own conjugate. */
  predicate IsReal(x: C) { x.im == 0.0 }

  lemma ConjInvolutive(x: C)
    ensures Conj(Conj(x)) == x
  {
  }

  lemma MulOne(x: C)
    ensures Mul(One, x) == x && Mul(x, One) == x
  {
  }

  lemma MulZero(x: C)
    ensures Mul(Zero, x) == Zero && Mul(x, Zero) == Zero
  {
  }

  lemma AddZero(x: C)
    ensures Add(x, Zero) == x && Add(Zero, x) == x
  {
  }

  lemma ConjMul(x: C, y: C)
    ensures Conj(Mul(x, y)) == Mul(Conj(x), Conj(y))
  {
  }

  lemma ConjAdd(x: C, y: C)
    ensures Conj(Add(x, y)) == Add(Conj(x), Conj(y))
  {
  }
}
