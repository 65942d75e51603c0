/**
 * Complex samples with exact real components. The modelled code works on
 * single-precision complex floats; the model replaces them by pairs of reals so
 * that the algebra can be stated without rounding.
 */
module Complexes {

  datatype Complex = Complex(re: real, im: real)

  const Zero: Complex := Complex(0.0, 0.0)
  const One: Complex := Complex(1.0, 0.0)

  function Add(a: Complex, b: Complex): Complex { Complex(a.re + b.re, a.im + b.im) }

  function Neg(a: Complex): Complex { Complex(-a.re, -a.im) }

  function Mul(a: Complex, b: Complex): Complex {
    Complex(a.re * b.re - a.im * b.im, a.re * b.im + a.im * b.re)
  }

  function Conj(a: Complex): Complex { Complex(a.re, -a.im) }

  /** Squared magnitude |a|^2, the real part of conj(a)*a. */
  function AbsSq(a: Complex): real { a.re * a.re + a.im * a.im }

  /** conj(a)*a is the real number |a|^2. */
  lemma MulConjSelf(a: Complex)
    ensures Mul(Conj(a), a) == Complex(AbsSq(a), 0.0)
  {
  }

  /** conj(b)*a is the conjugate of conj(a)*b. */
  lemma MulConjSwap(a: Complex, b: Complex)
    ensures Mul(Conj(b), a) == Conj(Mul(Conj(a), b))
  {
    assert b.re * a.re == a.re * b.re;
    assert b.im * a.im == a.im * b.im;
    assert b.re * a.im == a.im * b.re;
    assert b.im * a.re == a.re * b.im;
  }
}
