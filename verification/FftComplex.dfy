/** Complex numbers over exact reals, and arrays that hold them as pairs of reals. */
module FftComplex {

  datatype Complex = Complex(re: real, im: real)

  const ONE := Complex(1.0, 0.0)
  const ZERO := Complex(0.0, 0.0)

  function Add(x: Complex, y: Complex): Complex {
    Complex(x.re + y.re, x.im + y.im)
  }

  function Sub(x: Complex, y: Complex): Complex {
    Complex(x.re - y.re, x.im - y.im)
  }

  function Mul(x: Complex, y: Complex): Complex {
    Complex(x.re * y.re - x.im * y.im, x.re * y.im + x.im * y.re)
  }

  /** The imaginary unit times x. */
  function Turned(x: Complex): Complex {
    Complex(-x.im, x.re)
  }

  function Conj(x: Complex): Complex {
    Complex(x.re, -x.im)
  }

  function Norm(x: Complex): real {
    x.re * x.re + x.im * x.im
  }

  /** The complex number at place i, zero behind the end. */
  function Pair(s: seq<real>, i: nat): Complex {
    if 2 * i + 1 < |s| then Complex(s[2 * i], s[2 * i + 1]) else ZERO
  }

  /** Two arrays of n complex numbers are equal when they agree in every place. */
  lemma SamePairs(s: seq<real>, s': seq<real>, n: nat)
    requires |s| == 2 * n && |s'| == 2 * n
    requires forall i :: 0 <= i < n ==> Pair(s, i) == Pair(s', i)
    ensures s == s'
  {
    forall k | 0 <= k < 2 * n ensures s[k] == s'[k] {
      assert Pair(s, k / 2) == Pair(s', k / 2);
    }
  }
}
