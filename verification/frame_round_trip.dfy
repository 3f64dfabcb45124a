/** Properties of the frame transformations: the radicands they take roots
    of, the mass-shell relation their outputs satisfy, and that ToFixedT and
    ToFixedS undo each other for physical particles. */
module FrameRoundTrip {
  import opened RealMath
  import opened PhaseSpace
  import opened Results
  import opened Transformation
  import ReferenceParticle

  /** A drift correction x - p·t/a is undone by adding back p·u/b, where u is
      the longitudinal coordinate b·t/a. */
  lemma UndoShift(x: real, p: real, t: real, a: real, b: real, xs: real, u: real)
    requires a != 0.0 && b != 0.0
    requires xs == x - p * t / a
    requires u * a == b * t
    ensures xs + p * u / b == x
  {
    var w := t / a;
    assert w * a == t;
    assert u * a == (b * w) * a;
    assert (u - b * w) * a == 0.0;
    ZeroProduct(u - b * w, a);
    assert u == b * w;
    DivOf(p * u, b, p * w);
    assert p * t / a == p * w by {
      DivOf(p * t, a, p * w);
    }
  }

  /** The mirror image of `UndoShift`, for the correction x + p·t/a. */
  lemma UndoShiftBack(x: real, p: real, t: real, a: real, b: real, xs: real, u: real)
    requires a != 0.0 && b != 0.0
    requires xs == x + p * t / a
    requires u * a == b * t
    ensures xs - p * u / b == x
  {
    NegDiv(p * t, a);
    assert -p * t == -(p * t);
    assert xs == x - -p * t / a;
    UndoShift(x, -p, t, a, b, xs, u);
    NegDiv(p * u, b);
    assert -p * u == -(p * u);
  }

  lemma NegDiv(y: real, a: real)
    requires a != 0.0
    ensures -y / a == -(y / a)
  {
    assert y / a * a == y;
    DivOf(-y, a, -(y / a));
  }

  /** The longitudinal coordinate c·t/a, scaled back by a/c, is t again. */
  lemma UndoScale(t: real, a: real, c: real, u: real)
    requires a != 0.0 && c != 0.0
    requires u == c * t / a
    ensures u * a == c * t
    ensures a * u / c == t
  {
    DivOf(c * t, a, u);
    DivOf(a * u, c, t);
  }

  /** The unique-root facts for the two particle radicands. */
  lemma ParticleGammaIs(m: MathLib, px: real, py: real, pz: real, g: real)
    requires SqrtLaw(m)
    requires 0.0 <= g && g * g == 1.0 + pz * pz + px * px + py * py
    ensures ParticleGamma(m, px, py, pz) == g
  {
    SqrtUnique(m, 1.0 + pz * pz + px * px + py * py, g);
  }

  /** A particle's gamma is at least one, and squares to its radicand. */
  lemma ParticleGammaLaw(m: MathLib, px: real, py: real, pz: real)
    requires SqrtLaw(m)
    ensures var g := ParticleGamma(m, px, py, pz);
      1.0 <= g && g * g == 1.0 + pz * pz + px * px + py * py
  {
    SqrtAtLeastOne(m, 1.0 + pz * pz + px * px + py * py);
  }

  /** A positive pz radicand has a positive root that squares to it. */
  lemma ParticlePzLaw(m: MathLib, px: real, py: real, pt: real)
    requires SqrtLaw(m)
    requires -1.0 + pt * pt - px * px - py * py > 0.0
    ensures var p := ParticlePz(m, px, py, pt);
      0.0 < p && p * p == -1.0 + pt * pt - px * px - py * py
  {
    SqrtPositive(m, -1.0 + pt * pt - px * px - py * py);
  }

  lemma ParticlePzIs(m: MathLib, px: real, py: real, pt: real, p: real)
    requires SqrtLaw(m)
    requires 0.0 <= p && p * p == -1.0 + pt * pt - px * px - py * py
    ensures ParticlePz(m, px, py, pt) == p
  {
    SqrtUnique(m, -1.0 + pt * pt - px * px - py * py, p);
  }

  lemma GammaOfIs(m: MathLib, pz: real, g: real)
    requires SqrtLaw(m)
    requires 0.0 <= g && g * g == 1.0 + pz * pz
    ensures ReferenceParticle.GammaOf(m, pz) == g
  {
    SqrtUnique(m, 1.0 + pz * pz, g);
  }

  /** Scaling momenta to dynamic units and back is the identity, both ways. */
  lemma StaticDynamic(c: Coords, k: real)
    requires k != 0.0
    ensures ToDynamic(ToStatic(c, k), k) == c
    ensures ToStatic(ToDynamic(c, k), k) == c
  {
    DynamicOfStatic(c, k);
    StaticOfDynamic(c, k);
  }

  lemma DynamicOfStatic(c: Coords, k: real)
    requires k != 0.0
    ensures ToDynamic(ToStatic(c, k), k) == c
  {
    var s := ToStatic(c, k);
    DivTimes(c.px, k);
    DivTimes(c.py, k);
    DivTimes(c.pt, k);
    assert s.px * k == c.px && s.py * k == c.py && s.pt * k == c.pt;
  }

  lemma StaticOfDynamic(c: Coords, k: real)
    requires k != 0.0
    ensures ToStatic(ToDynamic(c, k), k) == c
  {
    var d := ToDynamic(c, k);
    DivOf(c.px * k, k, c.px);
    DivOf(c.py * k, k, c.py);
    DivOf(c.pt * k, k, c.pt);
    assert d.px / k == c.px && d.py / k == c.py && d.pt / k == c.pt;
  }

  lemma DivTimes(a: real, k: real)
    requires k != 0.0
    ensures a / k * k == a
  {
  }

  /** ToFixedS's particle radicand is at least one, so its fallback branch
      is never taken. */
  lemma SArgAtLeastOne(pzd: real, d: Coords)
    ensures SArg(pzd, d) >= 1.0
  {
    var a := pzd + d.pt;
    assert a * a >= 0.0 && d.px * d.px >= 0.0 && d.py * d.py >= 0.0;
  }

  /** The fixed-s update keeps px and py, shifts x and y by the drift over
      t, and sets the new t from the particle's -gamma, ptdf + e.pt. */
  lemma DriftToSShape(m: MathLib, pzd: real, ptdf: real, d: Coords, c: real)
    requires pzd + d.pt != 0.0
    requires c == ptdf + DriftToS(m, pzd, ptdf, d).pt
    ensures var e := DriftToS(m, pzd, ptdf, d);
      var a := pzd + d.pt;
      && e.x == d.x - d.px * d.t / a && e.y == d.y - d.py * d.t / a
      && e.t == c * d.t / a
      && e.px == d.px && e.py == d.py
  {
  }

  /** The particle's -gamma after the fixed-s update is the root of its radicand. */
  lemma DriftToSGamma(m: MathLib, pzd: real, ptdf: real, d: Coords)
    requires SqrtLaw(m)
    requires pzd + d.pt != 0.0
    ensures var e := DriftToS(m, pzd, ptdf, d);
      var a := pzd + d.pt;
      var g := ParticleGamma(m, d.px, d.py, a);
      && 1.0 <= g && g * g == 1.0 + a * a + d.px * d.px + d.py * d.py
      && ptdf + e.pt == -g
  {
    SArgAtLeastOne(pzd, d);
    ParticleGammaLaw(m, d.px, d.py, pzd + d.pt);
  }

  /** The fixed-t update keeps px and py, shifts x and y by the drift over
      z, and sets the new z from the particle's pz, pzd + e.pt. */
  lemma DriftToTShape(m: MathLib, ptd: real, pzd: real, d: Coords, c: real)
    requires ptd + d.pt != 0.0
    requires c == pzd + DriftToT(m, ptd, pzd, d).pt
    ensures var e := DriftToT(m, ptd, pzd, d);
      var a := ptd + d.pt;
      && e.x == d.x + d.px * d.t / a && e.y == d.y + d.py * d.t / a
      && e.t == c * d.t / a
      && e.px == d.px && e.py == d.py
  {
  }

  /** The particle's pz after the fixed-t update is the root of its radicand,
      when that is positive. */
  lemma DriftToTPz(m: MathLib, ptd: real, pzd: real, d: Coords)
    requires SqrtLaw(m)
    requires ptd + d.pt != 0.0
    requires TArg(ptd, d) > 0.0
    ensures var e := DriftToT(m, ptd, pzd, d);
      var a := ptd + d.pt;
      var p := ParticlePz(m, d.px, d.py, a);
      && 0.0 < p && p * p == -1.0 + a * a - d.px * d.px - d.py * d.py
      && pzd + e.pt == p
  {
    ParticlePzLaw(m, d.px, d.py, ptd + d.pt);
    DriftToTPt(m, ptd, pzd, d);
  }

  lemma DriftToTPt(m: MathLib, ptd: real, pzd: real, d: Coords)
    requires ptd + d.pt != 0.0
    requires TArg(ptd, d) > 0.0
    ensures pzd + DriftToT(m, ptd, pzd, d).pt == ParticlePz(m, d.px, d.py, ptd + d.pt)
  {
  }

  /** With -gamma = -g and g² = 1 + a² + px² + py², the fixed-t radicand is a². */
  lemma TArgAfterS(ptd: real, e: Coords, a: real, g: real)
    requires a != 0.0
    requires ptd + e.pt == -g
    requires g * g == 1.0 + a * a + e.px * e.px + e.py * e.py
    ensures TArg(ptd, e) == a * a
    ensures TArg(ptd, e) > 0.0
  {
    assert (ptd + e.pt) * (ptd + e.pt) == g * g;
    assert TArg(ptd, e) == a * a;
    PositiveSquare(TArg(ptd, e), a);
  }

  /** With pz = p and p² = a² - 1 - px² - py², the fixed-s radicand is a². */
  lemma SArgAfterT(pzd: real, e: Coords, a: real, p: real)
    requires pzd + e.pt == p
    requires p * p == -1.0 + a * a - e.px * e.px - e.py * e.py
    ensures SArg(pzd, e) == a * a
  {
    assert (pzd + e.pt) * (pzd + e.pt) == p * p;
  }

  /** The three drift corrections, undone: shifting x and y by -px·t/a and
      scaling t by c/a, then shifting by +px·u/c and scaling by a/c, restores
      (x, y, t). */
  lemma UndoDrift(d: Coords, e: Coords, f: Coords, a: real, c: real, k: real)
    requires a != 0.0 && c != 0.0 && k == a
    requires e.px == d.px && e.py == d.py
    requires e.x == d.x - d.px * d.t / a && e.y == d.y - d.py * d.t / a
    requires e.t == c * d.t / a
    requires f.x == e.x + e.px * e.t / c && f.y == e.y + e.py * e.t / c
    requires f.t == k * e.t / c
    ensures f.x == d.x && f.y == d.y && f.t == d.t
  {
    UndoScale(d.t, a, c, e.t);
    UndoShift(d.x, d.px, d.t, a, c, e.x, e.t);
    UndoShift(d.y, d.py, d.t, a, c, e.y, e.t);
  }

  /** The mirror image of `UndoDrift`, shifting by +px·t/a first. */
  lemma UndoDriftBack(d: Coords, e: Coords, f: Coords, a: real, c: real, k: real)
    requires a != 0.0 && c != 0.0 && k == a
    requires e.px == d.px && e.py == d.py
    requires e.x == d.x + d.px * d.t / a && e.y == d.y + d.py * d.t / a
    requires e.t == c * d.t / a
    requires f.x == e.x - e.px * e.t / c && f.y == e.y - e.py * e.t / c
    requires f.t == k * e.t / c
    ensures f.x == d.x && f.y == d.y && f.t == d.t
  {
    UndoScale(d.t, a, c, e.t);
    UndoShiftBack(d.x, d.px, d.t, a, c, e.x, e.t);
    UndoShiftBack(d.y, d.py, d.t, a, c, e.y, e.t);
  }

  /** In dynamic units, the fixed-t update undoes the fixed-s update of a
      particle moving forward (positive pz). */
  lemma DriftSThenT(m: MathLib, pzd: real, d: Coords)
    requires SqrtLaw(m)
    requires 0.0 < pzd + d.pt
    ensures var ptdf := -ReferenceParticle.GammaOf(m, pzd);
      var e := DriftToS(m, pzd, ptdf, d);
      ptdf + e.pt != 0.0 && DriftToT(m, ptdf, pzd, e) == d
  {
    var ptdf := -ReferenceParticle.GammaOf(m, pzd);
    var e := DriftToS(m, pzd, ptdf, d);
    var a := pzd + d.pt;
    var g := ParticleGamma(m, d.px, d.py, a);
    var c := ptdf + e.pt;
    DriftToSShape(m, pzd, ptdf, d, c);
    DriftToSGamma(m, pzd, ptdf, d);
    assert c == -g && c <= -1.0;
    TArgAfterS(ptdf, e, a, g);
    var f := DriftToT(m, ptdf, pzd, e);
    var k := pzd + f.pt;
    DriftToTShape(m, ptdf, pzd, e, k);
    DriftToTPz(m, ptdf, pzd, e);
    ParticlePzIs(m, e.px, e.py, c, a);
    UndoDrift(d, e, f, a, c, k);
  }

  /** In dynamic units, the fixed-s update undoes the fixed-t update of a
      particle with a positive pz radicand and negative energy coordinate. */
  lemma DriftTThenS(m: MathLib, ptd: real, pzd: real, d: Coords)
    requires SqrtLaw(m)
    requires TArg(ptd, d) > 0.0
    requires ptd + d.pt < 0.0
    ensures var e := DriftToT(m, ptd, pzd, d);
      pzd + e.pt != 0.0 && DriftToS(m, pzd, ptd, e) == d
  {
    var e := DriftToT(m, ptd, pzd, d);
    var a := ptd + d.pt;
    var p := ParticlePz(m, d.px, d.py, a);
    var c := pzd + e.pt;
    DriftToTShape(m, ptd, pzd, d, c);
    DriftToTPz(m, ptd, pzd, d);
    assert c == p && 0.0 < c;
    SArgAfterT(pzd, e, a, p);
    ParticleGammaIs(m, e.px, e.py, c, -a);
    var f := DriftToS(m, pzd, ptd, e);
    var k := ptd + f.pt;
    DriftToSShape(m, pzd, ptd, e, k);
    DriftToSGamma(m, pzd, ptd, e);
    UndoDriftBack(d, e, f, a, c, k);
  }

  /** The design gamma sqrt(1 + pzd²) is at least one and squares to 1 + pzd². */
  lemma GammaOfLaw(m: MathLib, pzd: real)
    requires SqrtLaw(m)
    ensures var g := ReferenceParticle.GammaOf(m, pzd);
      1.0 <= g && g * g == 1.0 + pzd * pzd
  {
    SqrtAtLeastOne(m, 1.0 + pzd * pzd);
  }

  lemma NegSquare(x: real, y: real)
    requires x == -y
    ensures x * x == y * y
  {
  }

  /** ToFixedS as the fixed-s update of the particle in dynamic units e. */
  lemma ToFixedSUnfold(m: MathLib, pzd: real, c: Coords, e: Coords)
    requires pzd != 0.0 && ToDynamic(c, pzd) == e && pzd + e.pt != 0.0
    ensures ToFixedSDefined(pzd, c)
    ensures ToFixedS(m, pzd, c)
      == Ok(ToStatic(DriftToS(m, pzd, -ReferenceParticle.GammaOf(m, pzd), e), pzd))
  {
    PositiveSquare(pzd * pzd, pzd);
  }

  /** ToFixedT, past its guard, as the fixed-t update of the particle in
      dynamic units e. */
  lemma ToFixedTUnfold(m: MathLib, ptd: real, c: Coords, pzd: real, e: Coords)
    requires -1.0 + ptd * ptd > 0.0 && ReferenceParticle.BetaGammaOf(m, ptd) == pzd
    requires pzd != 0.0 && ToDynamic(c, pzd) == e && ptd + e.pt != 0.0
    ensures ToFixedTDefined(m, ptd, c)
    ensures ToFixedT(m, ptd, c) == Ok(ToStatic(DriftToT(m, ptd, pzd, e), pzd))
  {
  }

  /** The design energy -sqrt(1 + pzd²) of a positive design momentum passes
      ToFixedT's guard and gives that momentum back. */
  lemma DesignEnergyOf(m: MathLib, pzd: real, ptd: real)
    requires SqrtLaw(m)
    requires 0.0 < pzd && ptd == -ReferenceParticle.GammaOf(m, pzd)
    ensures -1.0 + ptd * ptd > 0.0 && ReferenceParticle.BetaGammaOf(m, ptd) == pzd
  {
    GammaOfLaw(m, pzd);
    NegSquare(ptd, ReferenceParticle.GammaOf(m, pzd));
    PositiveSquare(pzd * pzd, pzd);
    ReferenceParticle.BetaGammaOfUnique(m, ptd, pzd);
  }

  /** Going from fixed t to fixed s and back with the matching design energy
      -sqrt(1 + pzd²) returns the particle unchanged, for a positive design
      momentum and a particle moving forward. */
  lemma ToFixedSThenT(m: MathLib, pzd: real, c: Coords)
    requires SqrtLaw(m)
    requires 0.0 < pzd && 0.0 < pzd + c.pt * pzd
    ensures ToFixedSDefined(pzd, c)
    ensures var ptd := -ReferenceParticle.GammaOf(m, pzd);
      var s := ToFixedS(m, pzd, c).value;
      ToFixedTDefined(m, ptd, s) && ToFixedT(m, ptd, s) == Ok(c)
  {
    var ptd := -ReferenceParticle.GammaOf(m, pzd);
    var d := ToDynamic(c, pzd);
    assert d.pt == c.pt * pzd;
    var e := DriftToS(m, pzd, ptd, d);
    ToFixedSUnfold(m, pzd, c, d);
    var s := ToStatic(e, pzd);
    DriftSThenT(m, pzd, d);
    StaticDynamic(e, pzd);
    StaticDynamic(c, pzd);
    DesignEnergyOf(m, pzd, ptd);
    ToFixedTUnfold(m, ptd, s, pzd, e);
  }

  /** Going from fixed s to fixed t and back with the matching design momentum
      sqrt(ptd² - 1) returns the particle unchanged, for a design energy below
      -1 and a particle with a positive pz radicand and negative energy
      coordinate. */
  lemma ToFixedTThenS(m: MathLib, ptd: real, c: Coords)
    requires SqrtLaw(m)
    requires ptd < -1.0
    requires var d := ToDynamic(c, ReferenceParticle.BetaGammaOf(m, ptd));
      TArg(ptd, d) > 0.0 && ptd + d.pt < 0.0
    ensures ToFixedTDefined(m, ptd, c)
    ensures var pzd := ReferenceParticle.BetaGammaOf(m, ptd);
      var t := ToFixedT(m, ptd, c).value;
      ToFixedSDefined(pzd, t) && ToFixedS(m, pzd, t) == Ok(c)
  {
    var pzd := ReferenceParticle.BetaGammaOf(m, ptd);
    var d := ToDynamic(c, pzd);
    var e := DriftToT(m, ptd, pzd, d);
    assert 1.0 < ptd * ptd;
    SqrtPositive(m, ptd * ptd - 1.0);
    assert 0.0 < pzd && pzd * pzd == ptd * ptd - 1.0;
    ToFixedTUnfold(m, ptd, c, pzd, d);
    var t := ToStatic(e, pzd);
    DriftTThenS(m, ptd, pzd, d);
    StaticDynamic(e, pzd);
    StaticDynamic(c, pzd);
    GammaOfIs(m, pzd, -ptd);
    ToFixedSUnfold(m, pzd, t, e);
  }
}
