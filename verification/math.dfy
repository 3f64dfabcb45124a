/** Exact real and complex arithmetic used by the beam-transport kernel.

    The kernel's transcendental functions (real `sqrt`, `sin`, `cos`, the cube
    root `pow(v, 1/3)`, and the complex `sqrt`, `log` and division) are not
    computable over exact reals, so they are fields of a `MathLib` record that
    every operation takes as a parameter.  Their laws are stated separately as
    ghost predicates; only the lemmas that need a law require it.
 */
module RealMath {

  /** A complex number as a pair of reals (the source's `GpuComplex`). */
  datatype Complex = Complex(re: real, im: real)

  const Zero: Complex := Complex(0.0, 0.0)
  const One: Complex := Complex(1.0, 0.0)
  const I: Complex := Complex(0.0, 1.0)

  function Add(a: Complex, b: Complex): Complex {
    Complex(a.re + b.re, a.im + b.im)
  }

  function Sub(a: Complex, b: Complex): Complex {
    Complex(a.re - b.re, a.im - b.im)
  }

  function Neg(a: Complex): Complex {
    Complex(-a.re, -a.im)
  }

  function Mul(a: Complex, b: Complex): Complex {
    Complex(a.re * b.re - a.im * b.im, a.re * b.im + a.im * b.re)
  }

  function Conj(a: Complex): Complex {
    Complex(a.re, -a.im)
  }

  /** Integer powers `pow(z, 2)` and `pow(z, 3)`, by repeated multiplication. */
  function Pow2(z: Complex): Complex {
    Mul(z, z)
  }

  function Pow3(z: Complex): Complex {
    Mul(Mul(z, z), z)
  }

  /** The transcendental functions the kernel calls, left uninterpreted. */
  datatype MathLib = MathLib(
    sqrt: real -> real,
    sin: real -> real,
    cos: real -> real,
    cbrt: real -> real,
    csqrt: Complex -> Complex,
    clog: Complex -> Complex,
    cdiv: (Complex, Complex) -> Complex)

  /** The real square root of a non-negative number. */
  ghost predicate SqrtLaw(m: MathLib) {
    forall a :: 0.0 <= a ==> 0.0 <= m.sqrt(a) && m.sqrt(a) * m.sqrt(a) == a
  }

  /** sin² + cos² = 1 at every angle. */
  ghost predicate TrigLaw(m: MathLib) {
    forall a :: m.sin(a) * m.sin(a) + m.cos(a) * m.cos(a) == 1.0
  }

  /** The real cube root of a non-negative number. */
  ghost predicate CbrtLaw(m: MathLib) {
    forall a :: 0.0 <= a ==> 0.0 <= m.cbrt(a) && m.cbrt(a) * m.cbrt(a) * m.cbrt(a) == a
  }

  /** The only complex facts used: sqrt(1) = 1, log(1) = 0, z / 1 = z. */
  ghost predicate ComplexLaw(m: MathLib) {
    && m.csqrt(One) == One
    && m.clog(One) == Zero
    && forall z :: m.cdiv(z, One) == z
  }

  ghost predicate Lawful(m: MathLib) {
    SqrtLaw(m) && TrigLaw(m) && CbrtLaw(m) && ComplexLaw(m)
  }

  /** A product vanishes only when a factor does. */
  lemma ZeroProduct(a: real, b: real)
    requires a * b == 0.0
    ensures a == 0.0 || b == 0.0
  {
  }

  /** Division undoes multiplication by a non-zero factor. */
  lemma DivOf(a: real, e: real, k: real)
    requires e != 0.0 && a == e * k
    ensures a / e == k
  {
  }

  /** A product that is not positive, with a positive factor, has a non-positive other factor. */
  lemma SignOfProduct(a: real, b: real)
    requires a * b <= 0.0 && 0.0 < b
    ensures a <= 0.0
  {
  }

  /** A product of positive numbers is positive. */
  lemma MulPos(a: real, b: real)
    requires 0.0 < a && 0.0 < b
    ensures 0.0 < a * b
  {
  }

  /** A number in [0, 1] squares to at most one. */
  lemma SquareAtMostOne(a: real)
    requires 0.0 <= a <= 1.0
    ensures a * a <= 1.0
  {
    var b := 1.0 - a;
    assert a * a == a - a * b;
    if a == 0.0 {
      assert a * b == 0.0;
    } else if b == 0.0 {
      assert a * b == 0.0;
    } else {
      MulPos(a, b);
    }
  }

  /** The square of a non-zero number is positive. */
  lemma PositiveSquare(t: real, a: real)
    requires a != 0.0 && t == a * a
    ensures 0.0 < t
  {
    assert t >= 0.0;
    if t == 0.0 {
      ZeroProduct(a, a);
    }
  }

  /** A non-negative number whose square is `a` is the square root of `a`. */
  lemma SqrtUnique(m: MathLib, a: real, s: real)
    requires SqrtLaw(m)
    requires 0.0 <= s && s * s == a
    ensures m.sqrt(a) == s
  {
    var q := m.sqrt(a);
    assert 0.0 <= q && q * q == s * s;
    assert (q - s) * (q + s) == 0.0;
    ZeroProduct(q - s, q + s);
  }

  /** The square root of a square is the absolute value. */
  lemma SqrtOfSquare(m: MathLib, s: real)
    requires SqrtLaw(m)
    ensures s >= 0.0 ==> m.sqrt(s * s) == s
    ensures s < 0.0 ==> m.sqrt(s * s) == -s
  {
    if s >= 0.0 {
      SqrtUnique(m, s * s, s);
    } else {
      SqrtUnique(m, s * s, -s);
    }
  }

  lemma SqrtOne(m: MathLib)
    requires SqrtLaw(m)
    ensures m.sqrt(1.0) == 1.0
  {
    SqrtUnique(m, 1.0, 1.0);
  }

  /** A positive radicand has a positive root. */
  lemma SqrtPositive(m: MathLib, a: real)
    requires SqrtLaw(m) && 0.0 < a
    ensures 0.0 < m.sqrt(a)
  {
    assert m.sqrt(a) * m.sqrt(a) == a;
  }

  /** Roots of radicands in [0,1] stay in [0,1]. */
  lemma SqrtAtMostOne(m: MathLib, a: real)
    requires SqrtLaw(m) && 0.0 <= a <= 1.0
    ensures 0.0 <= m.sqrt(a) <= 1.0
  {
    var q := m.sqrt(a);
    assert (q - 1.0) * (q + 1.0) == a - 1.0;
    SignOfProduct(q - 1.0, q + 1.0);
  }

  /** Roots of radicands of at least one are at least one. */
  lemma SqrtAtLeastOne(m: MathLib, a: real)
    requires SqrtLaw(m) && 1.0 <= a
    ensures 1.0 <= m.sqrt(a)
  {
    var q := m.sqrt(a);
    assert (1.0 - q) * (q + 1.0) == 1.0 - a;
    SignOfProduct(1.0 - q, q + 1.0);
  }

  /** The cube root of a value in [0,1] lies in [0,1]. */
  lemma CbrtAtMostOne(m: MathLib, v: real)
    requires CbrtLaw(m) && 0.0 <= v <= 1.0
    ensures 0.0 <= m.cbrt(v) <= 1.0
  {
    var r := m.cbrt(v);
    assert (r - 1.0) * (r * r + r + 1.0) == v - 1.0;
    SignOfProduct(r - 1.0, r * r + r + 1.0);
  }

  /** The cube root of a positive value is positive. */
  lemma CbrtPositive(m: MathLib, v: real)
    requires CbrtLaw(m) && 0.0 < v
    ensures 0.0 < m.cbrt(v)
  {
    assert m.cbrt(v) * m.cbrt(v) * m.cbrt(v) == v;
  }
}
