/** Complex numbers over the mathematical reals: the model of the source's
    `cmplx` (std::complex<double>) without rounding, so that conjugation and
    the symmetry relations built on it are exact equalities. */
module Cmplx {

  datatype Complex = Complex(re: real, im: real)

  const Zero: Complex := Complex(0.0, 0.0)
  const One: Complex := Complex(1.0, 0.0)

  function Conj(z: Complex): Complex {
    Complex(z.re, -z.im)
  }

  function Add(a: Complex, b: Complex): Complex {
    Complex(a.re + b.re, a.im + b.im)
  }

  function Mul(a: Complex, b: Complex): Complex {
    Complex(a.re * b.re - a.im * b.im, a.re * b.im + a.im * b.re)
  }

  lemma ConjAdd(a: Complex, b: Complex)
    ensures Conj(Add(a, b)) == Add(Conj(a), Conj(b))
  {
  }

  /** The conjugate of a·conj(b) is b·conj(a): the step behind Hermitian symmetry. */
  lemma ConjMulConj(a: Complex, b: Complex)
    ensures Conj(Mul(a, Conj(b))) == Mul(b, Conj(a))
  {
  }

  lemma MulCommutes(a: Complex, b: Complex)
    ensures Mul(a, b) == Mul(b, a)
  {
  }

  /** z·conj(z) for the constants 0 and 1, stated separately so that callers
      do not have to redo the real products. */
  lemma NormSquaredOfZero(z: Complex)
    requires z == Zero
    ensures Mul(z, Conj(z)) == Zero
  {
  }

  lemma NormSquaredOfOne(z: Complex)
    requires z == One
    ensures Mul(z, Conj(z)) == One
  {
  }

  /** z·conj(z) is the real number |z|², never negative. */
  lemma NormSquared(z: Complex)
    ensures Mul(z, Conj(z)).im == 0.0
    ensures Mul(z, Conj(z)).re == z.re * z.re + z.im * z.im
    ensures Mul(z, Conj(z)).re >= 0.0
  {
    assert z.re * z.re >= 0.0;
    assert z.im * z.im >= 0.0;
  }
}
