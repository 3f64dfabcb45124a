/** The two phase-space functions in involution, H and I, that the
    Danilov–Nagaitsev nonlinear insert conserves, evaluated per particle from
    normalised transverse coordinates. */
module LensInvariants {
  import opened RealMath
  import opened LensPotential

  /** Twiss alpha and beta (m) of the bare lattice, the dimensionless insert
      strength `tn` and its scale parameter `cn` (m^1/2). */
  datatype Invariants = Invariants(alpha: real, beta: real, tn: real, cn: real)

  /** The two invariants of one particle. */
  datatype Data = Data(h: real, i: real)

  /** Transverse coordinates in normalised units. */
  datatype Normalized = Normalized(xn: real, yn: real, pxn: real, pyn: real)

  /** The normalisation divides by cn and by cn·sqrt(beta). */
  predicate Defined(m: MathLib, inv: Invariants) {
    inv.cn != 0.0 && inv.cn * m.sqrt(inv.beta) != 0.0
  }

  /** The normalisation as the diagnostic computes it: the alpha term adds
      the raw position, in metres. */
  function NormalizeAsWritten(m: MathLib, inv: Invariants, x: real, y: real, px: real, py: real): Normalized
    requires Defined(m, inv)
  {
    var sb := m.sqrt(inv.beta);
    Normalized(x / (inv.cn * sb), y / (inv.cn * sb),
               px * sb / inv.cn + inv.alpha * x,
               py * sb / inv.cn + inv.alpha * y)
  }

  /** Normalised (Floquet) coordinates: the alpha term adds the normalised
      position, so every component is dimensionless. */
  function Normalize(m: MathLib, inv: Invariants, x: real, y: real, px: real, py: real): Normalized
    requires Defined(m, inv)
  {
    var sb := m.sqrt(inv.beta);
    var (xn, pxn) := NormalizePlane(inv.alpha, inv.cn, sb, x, px);
    var (yn, pyn) := NormalizePlane(inv.alpha, inv.cn, sb, y, py);
    Normalized(xn, yn, pxn, pyn)
  }

  /** One plane of `Normalize`, with sb = sqrt(beta). */
  function NormalizePlane(alpha: real, cn: real, sb: real, x: real, px: real): (real, real)
    requires cn != 0.0 && cn * sb != 0.0
  {
    var xn := x / (cn * sb);
    (xn, px * sb / cn + alpha * xn)
  }

  /** Back from normalised to physical coordinates. */
  function Denormalize(m: MathLib, inv: Invariants, n: Normalized): (real, real, real, real)
    requires Defined(m, inv)
  {
    var sb := m.sqrt(inv.beta);
    var d := inv.cn * sb;
    (n.xn * d, n.yn * d,
     (n.pxn - inv.alpha * n.xn) * inv.cn / sb,
     (n.pyn - inv.alpha * n.yn) * inv.cn / sb)
  }

  /** The complex potential of H, Re(ζ/croot · carcsin). */
  function HPotential(m: MathLib, zeta: Complex): Complex {
    Mul(m.cdiv(zeta, CRoot(m, zeta)), CArcsin(m, zeta))
  }

  /** The complex potential of I, Re((ζ + conj ζ)/croot · carcsin). */
  function IPotential(m: MathLib, zeta: Complex): Complex {
    Mul(m.cdiv(Add(zeta, Conj(zeta)), CRoot(m, zeta)), CArcsin(m, zeta))
  }

  /** The longitudinal angular momentum in normalised units. */
  function Jz(n: Normalized): real {
    n.xn * n.pyn - n.yn * n.pxn
  }

  /** The quadratic part of H, twice over: the squared length of the point. */
  function HQuadratic(n: Normalized): real {
    n.xn * n.xn + n.yn * n.yn + n.pxn * n.pxn + n.pyn * n.pyn
  }

  /** The quadratic part of I. */
  function IQuadratic(n: Normalized): real {
    Jz(n) * Jz(n) + n.pxn * n.pxn + n.xn * n.xn
  }

  /** H and I from normalised coordinates and the insert strength. */
  function InvariantsOf(m: MathLib, tn: real, n: Normalized): Data {
    var zeta := Complex(n.xn, n.yn);
    Combine(HQuadratic(n), IQuadratic(n), tn, HPotential(m, zeta).re, IPotential(m, zeta).re)
  }

  /** Each invariant is its quadratic part plus tn times its potential. */
  function Combine(hq: real, iq: real, tn: real, hre: real, ire: real): Data {
    Data(hq / 2.0 + tn * hre, iq + tn * ire)
  }

  /** The diagnostic as the source computes it. */
  function EvaluateAsWritten(m: MathLib, inv: Invariants, x: real, y: real, px: real, py: real): Data
    requires Defined(m, inv)
  {
    InvariantsOf(m, inv.tn, NormalizeAsWritten(m, inv, x, y, px, py))
  }

  /** The diagnostic with dimensionless normalised momenta. */
  function Evaluate(m: MathLib, inv: Invariants, x: real, y: real, px: real, py: real): Data
    requires Defined(m, inv)
  {
    InvariantsOf(m, inv.tn, Normalize(m, inv, x, y, px, py))
  }

  /** The Courant–Snyder invariant gamma·x² + 2·alpha·x·px + beta·px², with
      gamma = (1 + alpha²)/beta. */
  function CourantSnyder(alpha: real, beta: real, x: real, px: real): real
    requires beta != 0.0
  {
    (1.0 + alpha * alpha) / beta * x * x + 2.0 * alpha * x * px + beta * px * px
  }

  // ----- Properties -----

  /** The I potential's numerator ζ + conj ζ is the real number 2·xn. */
  lemma ZetaPlusConjugate(xn: real, yn: real)
    ensures Add(Complex(xn, yn), Conj(Complex(xn, yn))) == Complex(2.0 * xn, 0.0)
  {
  }

  /** A sum of squares is non-negative and vanishes only when every term does. */
  lemma SumOfSquares(a: real, b: real, c: real, d: real)
    ensures 0.0 <= a * a + b * b + c * c + d * d
    ensures a * a + b * b + c * c + d * d == 0.0 <==> a == 0.0 && b == 0.0 && c == 0.0 && d == 0.0
  {
    if a * a + b * b + c * c + d * d == 0.0 {
      Square(a);
      Square(b);
      Square(c);
      Square(d);
    }
  }

  /** A square is non-negative and zero only at zero. */
  lemma Square(a: real)
    ensures 0.0 <= a * a
    ensures a * a == 0.0 ==> a == 0.0
  {
    if a * a == 0.0 {
      ZeroProduct(a, a);
    }
  }

  /** Without the insert (tn = 0) H is half the squared length of the
      normalised point and I = Jz² + pxn² + xn²; both are non-negative, and
      each vanishes exactly where its quadratic form does. */
  lemma BareInvariants(m: MathLib, n: Normalized)
    ensures var d := InvariantsOf(m, 0.0, n);
      && d.h == (n.xn * n.xn + n.yn * n.yn + n.pxn * n.pxn + n.pyn * n.pyn) / 2.0
      && d.i == Jz(n) * Jz(n) + n.pxn * n.pxn + n.xn * n.xn
      && 0.0 <= d.h && 0.0 <= d.i
      && (d.h == 0.0 <==> n == Normalized(0.0, 0.0, 0.0, 0.0))
      && (d.i == 0.0 <==> n.xn == 0.0 && n.pxn == 0.0)
  {
    BareH(m, n);
    BareI(m, n);
  }

  lemma BareH(m: MathLib, n: Normalized)
    ensures var d := InvariantsOf(m, 0.0, n);
      && d.h == (n.xn * n.xn + n.yn * n.yn + n.pxn * n.pxn + n.pyn * n.pyn) / 2.0
      && 0.0 <= d.h
      && (d.h == 0.0 <==> n == Normalized(0.0, 0.0, 0.0, 0.0))
  {
    InvariantsOfBare(m, n);
    SumOfSquares(n.xn, n.yn, n.pxn, n.pyn);
  }

  lemma BareI(m: MathLib, n: Normalized)
    ensures var d := InvariantsOf(m, 0.0, n);
      && d.i == Jz(n) * Jz(n) + n.pxn * n.pxn + n.xn * n.xn
      && 0.0 <= d.i
      && (d.i == 0.0 <==> n.xn == 0.0 && n.pxn == 0.0)
  {
    InvariantsOfBare(m, n);
    var j := Jz(n);
    SumOfSquares(j, n.pxn, n.xn, 0.0);
    if n.xn == 0.0 && n.pxn == 0.0 {
      assert j == 0.0;
    }
  }

  /** With tn = 0 the potentials drop out. */
  lemma InvariantsOfBare(m: MathLib, n: Normalized)
    ensures InvariantsOf(m, 0.0, n) == Data(HQuadratic(n) / 2.0, IQuadratic(n))
  {
    var z := Complex(n.xn, n.yn);
    CombineBare(HQuadratic(n), IQuadratic(n), HPotential(m, z).re, IPotential(m, z).re);
  }

  lemma CombineBare(hq: real, iq: real, hre: real, ire: real)
    ensures Combine(hq, iq, 0.0, hre, ire) == Data(hq / 2.0, iq)
  {
  }

  /** Both potentials vanish on axis. */
  lemma PotentialsAtOrigin(m: MathLib, zeta: Complex)
    requires ComplexLaw(m) && zeta == Zero
    ensures HPotential(m, zeta).re == 0.0 && IPotential(m, zeta).re == 0.0
  {
    CArcsinAtOrigin(m);
  }

  /** Zero normalised coordinates give H = I = 0 for any insert strength. */
  lemma InvariantsOfOrigin(m: MathLib, tn: real, n: Normalized)
    requires ComplexLaw(m) && n == Normalized(0.0, 0.0, 0.0, 0.0)
    ensures InvariantsOf(m, tn, n).h == 0.0 && InvariantsOf(m, tn, n).i == 0.0
  {
    var z := Complex(n.xn, n.yn);
    PotentialsAtOrigin(m, z);
    QuadraticsAtOrigin(n);
    CombineZero(HQuadratic(n), IQuadratic(n), tn, HPotential(m, z).re, IPotential(m, z).re);
  }

  lemma QuadraticsAtOrigin(n: Normalized)
    requires n.xn == 0.0 && n.yn == 0.0 && n.pxn == 0.0 && n.pyn == 0.0
    ensures HQuadratic(n) == 0.0 && IQuadratic(n) == 0.0
  {
    HQuadraticAtOrigin(n);
    IQuadraticAtOrigin(n);
  }

  lemma HQuadraticAtOrigin(n: Normalized)
    requires n.xn == 0.0 && n.yn == 0.0 && n.pxn == 0.0 && n.pyn == 0.0
    ensures HQuadratic(n) == 0.0
  {
    ProductOfZero(n.xn, n.xn);
    ProductOfZero(n.yn, n.yn);
    ProductOfZero(n.pxn, n.pxn);
    ProductOfZero(n.pyn, n.pyn);
  }

  lemma IQuadraticAtOrigin(n: Normalized)
    requires n.xn == 0.0 && n.yn == 0.0 && n.pxn == 0.0
    ensures IQuadratic(n) == 0.0
  {
    JzZero(n);
    ProductOfZero(Jz(n), Jz(n));
    ProductOfZero(n.pxn, n.pxn);
    ProductOfZero(n.xn, n.xn);
  }

  lemma JzZero(n: Normalized)
    requires n.xn == 0.0 && n.yn == 0.0
    ensures Jz(n) == 0.0
  {
    ProductOfZero(n.xn, n.pyn);
    ProductOfZero(n.yn, n.pxn);
  }

  lemma ProductOfZero(a: real, b: real)
    requires a == 0.0
    ensures a * b == 0.0
  {
  }

  lemma CombineZero(hq: real, iq: real, tn: real, hre: real, ire: real)
    requires hq == 0.0 && iq == 0.0 && hre == 0.0 && ire == 0.0
    ensures Combine(hq, iq, tn, hre, ire) == Data(0.0, 0.0)
  {
  }

  /** The transverse origin normalises to zero, with either normalisation. */
  lemma NormalizeOrigin(m: MathLib, inv: Invariants)
    requires Defined(m, inv)
    ensures Normalize(m, inv, 0.0, 0.0, 0.0, 0.0) == Normalized(0.0, 0.0, 0.0, 0.0)
    ensures NormalizeAsWritten(m, inv, 0.0, 0.0, 0.0, 0.0) == Normalized(0.0, 0.0, 0.0, 0.0)
  {
    var sb := m.sqrt(inv.beta);
    assert NormalizePlane(inv.alpha, inv.cn, sb, 0.0, 0.0) == (0.0, 0.0);
  }

  /** A particle at the origin of the transverse phase space has H = I = 0,
      whatever the insert strength and with either normalisation. */
  lemma InvariantsAtOrigin(m: MathLib, inv: Invariants)
    requires ComplexLaw(m) && Defined(m, inv)
    ensures Evaluate(m, inv, 0.0, 0.0, 0.0, 0.0).h == 0.0
    ensures Evaluate(m, inv, 0.0, 0.0, 0.0, 0.0).i == 0.0
    ensures EvaluateAsWritten(m, inv, 0.0, 0.0, 0.0, 0.0).h == 0.0
    ensures EvaluateAsWritten(m, inv, 0.0, 0.0, 0.0, 0.0).i == 0.0
  {
    NormalizeOrigin(m, inv);
    InvariantsOfOrigin(m, inv.tn, Normalized(0.0, 0.0, 0.0, 0.0));
  }

  /** `Denormalize` recovers the physical coordinates. */
  lemma DenormalizeNormalize(m: MathLib, inv: Invariants, x: real, y: real, px: real, py: real)
    requires SqrtLaw(m) && 0.0 < inv.beta && Defined(m, inv)
    ensures var r := Denormalize(m, inv, Normalize(m, inv, x, y, px, py));
      r.0 == x && r.1 == y && r.2 == px && r.3 == py
  {
    var sb := m.sqrt(inv.beta);
    var n := Normalize(m, inv, x, y, px, py);
    assert sb != 0.0;
    PlaneRecovered(sb, inv.cn, inv.alpha, x, px, n.xn, n.pxn);
    PlaneRecovered(sb, inv.cn, inv.alpha, y, py, n.yn, n.pyn);
  }

  /** One plane of `DenormalizeNormalize`. */
  lemma PlaneRecovered(sb: real, cn: real, alpha: real, x: real, px: real, xn: real, pxn: real)
    requires sb != 0.0 && cn != 0.0
    requires xn == NormalizePlane(alpha, cn, sb, x, px).0
    requires pxn == NormalizePlane(alpha, cn, sb, x, px).1
    ensures xn * (cn * sb) == x
    ensures (pxn - alpha * xn) * cn / sb == px
  {
    var d := cn * sb;
    DivOf(x, d, xn) by { assert x == d * (x / d); }
    var a := px * sb / cn;
    assert pxn - alpha * xn == a;
    DivOf(px * sb, cn, a) by { assert px * sb == cn * (px * sb / cn); }
    assert a * cn == px * sb;
    DivOf(px * sb, sb, px);
  }

  /** With the dimensionless normalisation, xn² + pxn² is the Courant–Snyder
      invariant divided by cn², so on the bare lattice (tn = 0) 2·H·cn² is
      the sum of the horizontal and vertical Courant–Snyder invariants. */
  lemma NormalizeCourantSnyder(m: MathLib, inv: Invariants, x: real, y: real, px: real, py: real)
    requires SqrtLaw(m) && 0.0 < inv.beta && Defined(m, inv)
    ensures var n := Normalize(m, inv, x, y, px, py);
      && (n.xn * n.xn + n.pxn * n.pxn) * (inv.cn * inv.cn) == CourantSnyder(inv.alpha, inv.beta, x, px)
      && (n.yn * n.yn + n.pyn * n.pyn) * (inv.cn * inv.cn) == CourantSnyder(inv.alpha, inv.beta, y, py)
  {
    NormalizeCourantSnyderX(m, inv, x, y, px, py);
    NormalizeCourantSnyderY(m, inv, x, y, px, py);
  }

  lemma NormalizeCourantSnyderX(m: MathLib, inv: Invariants, x: real, y: real, px: real, py: real)
    requires SqrtLaw(m) && 0.0 < inv.beta && Defined(m, inv)
    ensures var n := Normalize(m, inv, x, y, px, py);
      (n.xn * n.xn + n.pxn * n.pxn) * (inv.cn * inv.cn) == CourantSnyder(inv.alpha, inv.beta, x, px)
  {
    var sb := m.sqrt(inv.beta);
    assert sb * sb == inv.beta;
    var n := Normalize(m, inv, x, y, px, py);
    NormalizeByPlane(m, inv, x, y, px, py);
    PlaneInvariant(inv.alpha, inv.beta, inv.cn, sb, x, px, n.xn, n.pxn);
  }

  lemma NormalizeCourantSnyderY(m: MathLib, inv: Invariants, x: real, y: real, px: real, py: real)
    requires SqrtLaw(m) && 0.0 < inv.beta && Defined(m, inv)
    ensures var n := Normalize(m, inv, x, y, px, py);
      (n.yn * n.yn + n.pyn * n.pyn) * (inv.cn * inv.cn) == CourantSnyder(inv.alpha, inv.beta, y, py)
  {
    var sb := m.sqrt(inv.beta);
    assert sb * sb == inv.beta;
    var n := Normalize(m, inv, x, y, px, py);
    NormalizeByPlane(m, inv, x, y, px, py);
    PlaneInvariant(inv.alpha, inv.beta, inv.cn, sb, y, py, n.yn, n.pyn);
  }

  /** `PlaneCourantSnyder` for a named normalised pair (a, b). */
  lemma PlaneInvariant(alpha: real, beta: real, cn: real, sb: real, x: real, px: real, a: real, b: real)
    requires 0.0 < beta && sb * sb == beta && cn != 0.0 && cn * sb != 0.0
    requires (a, b) == NormalizePlane(alpha, cn, sb, x, px)
    ensures (a * a + b * b) * (cn * cn) == CourantSnyder(alpha, beta, x, px)
  {
    PlaneCourantSnyder(alpha, beta, cn, sb, x, px);
  }

  /** `Normalize` is `NormalizePlane` in each plane. */
  lemma NormalizeByPlane(m: MathLib, inv: Invariants, x: real, y: real, px: real, py: real)
    requires Defined(m, inv)
    ensures var sb := m.sqrt(inv.beta);
      var nx := NormalizePlane(inv.alpha, inv.cn, sb, x, px);
      var ny := NormalizePlane(inv.alpha, inv.cn, sb, y, py);
      Normalize(m, inv, x, y, px, py) == Normalized(nx.0, ny.0, nx.1, ny.1)
  {
  }

  /** One plane of `NormalizeCourantSnyder`, over plain reals. */
  lemma PlaneCourantSnyder(alpha: real, beta: real, cn: real, sb: real, x: real, px: real)
    requires 0.0 < beta && sb * sb == beta && cn != 0.0 && cn * sb != 0.0
    ensures var n := NormalizePlane(alpha, cn, sb, x, px);
      (n.0 * n.0 + n.1 * n.1) * (cn * cn) == CourantSnyder(alpha, beta, x, px)
  {
    var n := NormalizePlane(alpha, cn, sb, x, px);
    var d := cn * sb;
    var q := px * beta + alpha * x;
    PlaneScaled(alpha, cn, sb, x, px);
    ScaledSquares(n.0, n.1, d, x, q);
    CourantSnyderTimesBeta(alpha, beta, x, px);
    var sq := n.0 * n.0 + n.1 * n.1;
    var c2 := cn * cn;
    var u := sq * c2;
    var v := CourantSnyder(alpha, beta, x, px);
    assert d * d == c2 * beta;
    assert sq * (d * d) == u * beta;
    assert u * beta == v * beta;
    assert (u - v) * beta == 0.0;
    ZeroProduct(u - v, beta);
  }

  /** Multiplied back by cn·sb, the normalised pair is (x, px·sb² + alpha·x). */
  lemma PlaneScaled(alpha: real, cn: real, sb: real, x: real, px: real)
    requires cn != 0.0 && cn * sb != 0.0
    ensures var n := NormalizePlane(alpha, cn, sb, x, px);
      n.0 * (cn * sb) == x && n.1 * (cn * sb) == px * (sb * sb) + alpha * x
  {
    var d := cn * sb;
    var xn := x / d;
    DivOf(x, d, xn) by { assert x == d * (x / d); }
    var a := px * sb / cn;
    DivOf(px * sb, cn, a) by { assert px * sb == cn * (px * sb / cn); }
    assert (a + alpha * xn) * d == (a * cn) * sb + alpha * (xn * d);
  }

  /** Scaling two numbers by d scales the sum of their squares by d². */
  lemma ScaledSquares(u: real, w: real, d: real, x: real, q: real)
    requires u * d == x && w * d == q
    ensures (u * u + w * w) * (d * d) == x * x + q * q
  {
    assert (u * u) * (d * d) == (u * d) * (u * d);
    assert (w * w) * (d * d) == (w * d) * (w * d);
  }

  /** beta times the Courant–Snyder invariant, without the division. */
  lemma CourantSnyderTimesBeta(alpha: real, beta: real, x: real, px: real)
    requires beta != 0.0
    ensures CourantSnyder(alpha, beta, x, px) * beta
      == x * x + (px * beta + alpha * x) * (px * beta + alpha * x)
  {
    var g := (1.0 + alpha * alpha) / beta;
    DivOf(1.0 + alpha * alpha, beta, g) by { assert 1.0 + alpha * alpha == beta * g; }
    assert g * x * x * beta == (g * beta) * (x * x);
  }

  /** The normalisation as written breaks that identity: with alpha = 1,
      beta = 1, cn = 2 and the particle at x = 2, px = 0, the Courant–Snyder
      invariant is 8 but (xn² + pxn²)·cn² is 20. */
  lemma AsWrittenBreaksCourantSnyder(m: MathLib)
    requires SqrtLaw(m)
    ensures var inv := Invariants(1.0, 1.0, 0.0, 2.0);
      && Defined(m, inv)
      && var n := NormalizeAsWritten(m, inv, 2.0, 0.0, 0.0, 0.0);
      && CourantSnyder(1.0, 1.0, 2.0, 0.0) == 8.0
      && (n.xn * n.xn + n.pxn * n.pxn) * (2.0 * 2.0) == 20.0
  {
    SqrtOne(m);
    var inv := Invariants(1.0, 1.0, 0.0, 2.0);
    var n := NormalizeAsWritten(m, inv, 2.0, 0.0, 0.0, 0.0);
    assert n.xn == 1.0;
    assert n.pxn == 2.0;
  }
}
