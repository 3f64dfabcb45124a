/** The complex arcsine construction shared by the nonlinear lens kick and
    its invariants: croot = sqrt(1 - ζ²) and carcsin = -i·log(i·ζ + croot). */
module LensPotential {
  import opened RealMath

  function CRoot(m: MathLib, zeta: Complex): Complex {
    m.csqrt(Sub(One, Pow2(zeta)))
  }

  function CArcsin(m: MathLib, zeta: Complex): Complex {
    Mul(Neg(I), m.clog(Add(Mul(I, zeta), CRoot(m, zeta))))
  }

  lemma Pow2Zero()
    ensures Pow2(Zero) == Zero
  {
  }

  lemma Pow2One()
    ensures Pow2(One) == One
  {
  }

  lemma Pow3One()
    ensures Pow3(One) == One
  {
    Pow2One();
  }

  /** At ζ = 0 the root is one. */
  lemma CRootAtOrigin(m: MathLib)
    requires ComplexLaw(m)
    ensures CRoot(m, Zero) == One
  {
    Pow2Zero();
    assert Sub(One, Zero) == One;
  }

  /** At ζ = 0 the arcsine is zero. */
  lemma CArcsinAtOrigin(m: MathLib)
    requires ComplexLaw(m)
    ensures CArcsin(m, Zero) == Zero
  {
    CRootAtOrigin(m);
    MulZero(I);
    AddZero(CRoot(m, Zero));
    MinusILogOne(m, One);
  }

  lemma MulZero(a: Complex)
    ensures Mul(a, Zero) == Zero
  {
  }

  lemma AddZero(w: Complex)
    ensures Add(Zero, w) == w
  {
  }

  lemma MinusILogOne(m: MathLib, w: Complex)
    requires ComplexLaw(m) && w == One
    ensures Mul(Neg(I), m.clog(w)) == Zero
  {
    var l := m.clog(w);
    assert l == Zero;
  }
}

/** A thin slice of the Danilov–Nagaitsev nonlinear magnetic insert: a
    transverse momentum kick from an analytic complex potential. */
module NonlinearLensElement {
  import opened RealMath
  import opened PhaseSpace
  import opened ReferenceParticle
  import opened LensPotential

  /** Integrated strength `knll` (m) and singularity distance `cnll` (m). */
  datatype NonlinearLens = NonlinearLens(knll: real, cnll: real)

  /** The complex field F'(ζ) = ζ/croot² + carcsin/croot³. */
  function DF(m: MathLib, zeta: Complex): Complex {
    var croot := CRoot(m, zeta);
    Add(m.cdiv(zeta, Pow2(croot)), m.cdiv(CArcsin(m, zeta), Pow3(croot)))
  }

  /** The field vanishes on axis. */
  lemma DFAtOrigin(m: MathLib)
    requires ComplexLaw(m)
    ensures DF(m, Zero) == Zero
  {
    CRootAtOrigin(m);
    CArcsinAtOrigin(m);
    Pow2One();
    Pow3One();
    assert m.cdiv(Zero, One) == Zero;
    assert Add(Zero, Zero) == Zero;
  }

  /** The kick of the lens on one particle, given the field value `f` at its
      transverse position: px gains kick·Re f and py loses kick·Im f, with
      kick = -knll/cnll. */
  function Kick(e: NonlinearLens, c: Coords, f: Complex): (r: Coords)
    requires e.cnll != 0.0
    ensures r.x == c.x && r.y == c.y && r.t == c.t && r.pt == c.pt
  {
    var kick := -e.knll / e.cnll;
    c.(px := c.px + kick * f.re, py := c.py - kick * f.im)
  }

  /** The push of one particle.  ζ is built from the raw x and y, and the
      reference particle is not read. */
  function Push(m: MathLib, e: NonlinearLens, c: Coords, ref: RefPart): (r: Coords)
    requires e.cnll != 0.0
    ensures r.x == c.x && r.y == c.y && r.t == c.t && r.pt == c.pt
  {
    Kick(e, c, DF(m, Complex(c.x, c.y)))
  }

  /** A kick of zero strength does nothing, whatever the field. */
  lemma ZeroKick(e: NonlinearLens, c: Coords, f: Complex)
    requires e.cnll != 0.0 && e.knll == 0.0
    ensures Kick(e, c, f) == c
  {
    var kick := -e.knll / e.cnll;
    assert kick == 0.0;
    var r := Kick(e, c, f);
    assert r.px == c.px + kick * f.re && r.py == c.py - kick * f.im;
  }

  /** A lens of zero strength is the identity. */
  lemma ZeroStrength(m: MathLib, e: NonlinearLens, c: Coords, ref: RefPart)
    requires e.cnll != 0.0 && e.knll == 0.0
    ensures Push(m, e, c, ref) == c
  {
    ZeroKick(e, c, DF(m, Complex(c.x, c.y)));
  }

  /** The kick: px gains -knll/cnll·Re F'(x + iy) and py loses -knll/cnll·Im F'(x + iy),
      whatever the reference particle.  This unfolds `Push` into `Kick` for
      `PushCompose`; it states nothing beyond the definition. */
  lemma PushKick(m: MathLib, e: NonlinearLens, c: Coords, ref: RefPart, ref2: RefPart)
    requires e.cnll != 0.0
    ensures var r := Push(m, e, c, ref);
      var f := DF(m, Complex(c.x, c.y));
      && r == Kick(e, c, f)
      && r.px - c.px == (-e.knll / e.cnll) * f.re
      && c.py - r.py == (-e.knll / e.cnll) * f.im
      && Push(m, e, c, ref2) == r
  {
    var f := DF(m, Complex(c.x, c.y));
    var r := Push(m, e, c, ref);
    assert r == Kick(e, c, f);
    KickComponents(e, c, f);
    assert r.px - c.px == Kick(e, c, f).px - c.px;
  }

  lemma KickComponents(e: NonlinearLens, c: Coords, f: Complex)
    requires e.cnll != 0.0
    ensures var r := Kick(e, c, f);
      && r.px - c.px == (-e.knll / e.cnll) * f.re
      && c.py - r.py == (-e.knll / e.cnll) * f.im
  {
  }

  /** Kicks in the same field add: strength k1 then k2 is strength k1 + k2. */
  lemma KickCompose(e1: NonlinearLens, e2: NonlinearLens, c: Coords, f: Complex)
    requires e1.cnll != 0.0 && e2.cnll == e1.cnll
    ensures Kick(e2, Kick(e1, c, f), f) == Kick(e1.(knll := e1.knll + e2.knll), c, f)
  {
    KicksAdd(e1.knll, e2.knll, e1.cnll, f.re);
    KicksAdd(e1.knll, e2.knll, e1.cnll, f.im);
  }

  lemma KicksAdd(k1: real, k2: real, cn: real, a: real)
    requires cn != 0.0
    ensures (-k1 / cn) * a + (-k2 / cn) * a == (-(k1 + k2) / cn) * a
  {
    assert -(k1 + k2) / cn == -k1 / cn + -k2 / cn;
  }

  /** Two kicks add: a lens of strength k1 followed by one of strength k2
      (same cnll) is the lens of strength k1 + k2, because the kick leaves
      x and y, and so the field, unchanged. */
  lemma PushCompose(m: MathLib, e1: NonlinearLens, e2: NonlinearLens, c: Coords, ref: RefPart)
    requires e1.cnll != 0.0 && e2.cnll == e1.cnll
    ensures Push(m, e2, Push(m, e1, c, ref), ref) == Push(m, e1.(knll := e1.knll + e2.knll), c, ref)
  {
    var f := DF(m, Complex(c.x, c.y));
    PushKick(m, e1, c, ref, ref);
    var r1 := Push(m, e1, c, ref);
    assert Complex(r1.x, r1.y) == Complex(c.x, c.y);
    PushKick(m, e2, r1, ref, ref);
    PushKick(m, e1.(knll := e1.knll + e2.knll), c, ref, ref);
    KickCompose(e1, e2, c, f);
  }

  /** The lens of opposite strength undoes the push, for every field. */
  lemma PushInverse(m: MathLib, e: NonlinearLens, c: Coords, ref: RefPart)
    requires e.cnll != 0.0
    ensures Push(m, e.(knll := -e.knll), Push(m, e, c, ref), ref) == c
  {
    PushCompose(m, e, e.(knll := -e.knll), c, ref);
    assert e.(knll := e.knll + -e.knll) == e.(knll := 0.0);
    ZeroStrength(m, e.(knll := 0.0), c, ref);
  }

  /** A particle on axis (x = y = 0) passes unchanged. */
  lemma PushOnAxis(m: MathLib, e: NonlinearLens, c: Coords, ref: RefPart)
    requires ComplexLaw(m)
    requires e.cnll != 0.0 && c.x == 0.0 && c.y == 0.0
    ensures Push(m, e, c, ref) == c
  {
    assert Complex(c.x, c.y) == Zero;
    DFAtOrigin(m);
  }

  /** A zero-length element: the reference particle does not move. */
  function PushRef(e: NonlinearLens, r: RefPart): RefPart {
    r
  }
}
