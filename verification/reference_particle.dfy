/** The reference particle: the ideal trajectory every other component is
    normalised against, with its relativistic factors and unit conversions.
    Energies follow the convention pt = -gamma. */
module ReferenceParticle {
  import opened RealMath

  /** Reference particle attributes; a default-constructed one is all zeros.
      `mass` is in kg and `charge` in C. */
  datatype RefPart = RefPart(
    s: real, x: real, y: real, z: real, t: real,
    px: real, py: real, pz: real, pt: real,
    mass: real, charge: real)

  const Default: RefPart := RefPart(0.0, 0.0, 0.0, 0.0, 0.0, 0.0, 0.0, 0.0, 0.0, 0.0, 0.0)

  /** Kilograms per MeV/c². */
  const MeVc2Kg: real := 1.78266192e-30

  /** The elementary charge in C. */
  const ElementaryCharge: real := 1.602176634e-19

  /** Relativistic gamma. */
  function Gamma(r: RefPart): real {
    -r.pt
  }

  /** Relativistic beta, sqrt(1 - 1/gamma²); gamma must be non-zero. */
  function Beta(m: MathLib, r: RefPart): real
    requires r.pt != 0.0
  {
    m.sqrt(1.0 - 1.0 / (Gamma(r) * Gamma(r)))
  }

  /** beta·gamma of a particle with energy coordinate pt, sqrt(pt² - 1). */
  function BetaGammaOf(m: MathLib, pt: real): real {
    m.sqrt(pt * pt - 1.0)
  }

  /** The one non-negative number whose square is pt² - 1 is beta·gamma. */
  lemma BetaGammaOfUnique(m: MathLib, pt: real, s: real)
    requires SqrtLaw(m)
    requires 0.0 <= s && s * s == pt * pt - 1.0
    ensures BetaGammaOf(m, pt) == s
  {
    SqrtUnique(m, pt * pt - 1.0, s);
  }

  /** gamma of a particle with longitudinal momentum pz, sqrt(1 + pz²). */
  function GammaOf(m: MathLib, pz: real): real {
    m.sqrt(1.0 + pz * pz)
  }

  /** beta·gamma, sqrt(gamma² - 1). */
  function BetaGamma(m: MathLib, r: RefPart): real {
    BetaGammaOf(m, r.pt)
  }

  /** (beta·gamma)² computed without a root, pt² - 1, as the element pushes
      compute it. */
  function BetaGammaSquared(r: RefPart): real {
    r.pt * r.pt - 1.0
  }

  /** Rest mass in MeV/c². */
  function MassMeV(r: RefPart): real {
    r.mass / MeVc2Kg
  }

  /** Kinetic energy in MeV. */
  function EnergyMeV(r: RefPart): real {
    MassMeV(r) * (Gamma(r) - 1.0)
  }

  /** Charge in multiples of the elementary charge. */
  function ChargeQe(r: RefPart): real {
    r.charge / ElementaryCharge
  }

  /** Sets the rest mass.  The mass is stored first and the kinetic energy is
      then read back with the NEW mass, so in exact arithmetic pt is recomputed
      to its old value; pz is refreshed from it.  A zero mass is a caller error. */
  function SetMassMeV(m: MathLib, r: RefPart, massE: real): (r': RefPart)
    requires massE != 0.0
    ensures MassMeV(r') == massE
    ensures r'.pt == r.pt
    ensures r.pt != 0.0 ==> r'.pz == BetaGamma(m, r)
    ensures r.pt == 0.0 ==> r'.pz == r.pz
    ensures r' == r.(mass := r'.mass, pz := r'.pz)
  {
    var withMass := r.(mass := massE * MeVc2Kg);
    if withMass.pt != 0.0 then
      assert MassMeV(withMass) == massE;
      DivOf(-EnergyMeV(withMass), massE, r.pt + 1.0);
      var pt := -EnergyMeV(withMass) / massE - 1.0;
      assert pt == r.pt;
      withMass.(pt := pt, pz := BetaGammaOf(m, pt))
    else
      withMass
  }

  /** Sets the kinetic energy of a particle whose mass is already set: the
      particle is put on axis (px = py = 0) with pt and pz derived from the energy. */
  function SetEnergyMeV(m: MathLib, r: RefPart, energy: real): (r': RefPart)
    requires r.mass != 0.0
    ensures EnergyMeV(r') == energy
    ensures Gamma(r') == 1.0 + energy / MassMeV(r)
    ensures r'.px == 0.0 && r'.py == 0.0
    ensures r'.pz == BetaGamma(m, r')
    ensures r' == r.(px := 0.0, py := 0.0, pz := r'.pz, pt := r'.pt)
  {
    var pt := -energy / MassMeV(r) - 1.0;
    DivOf(-energy, MassMeV(r), -(energy / MassMeV(r)));
    r.(px := 0.0, py := 0.0, pt := pt, pz := BetaGammaOf(m, pt))
  }

  /** Sets the charge, given in multiples of the elementary charge. */
  function SetChargeQe(r: RefPart, q: real): (r': RefPart)
    ensures ChargeQe(r') == q
    ensures r' == r.(charge := r'.charge)
  {
    r.(charge := q * ElementaryCharge)
  }

  /** The charge-to-mass ratio.  The value is charge over mass in SI units
      (C/kg), whatever its name suggests; a zero mass is a caller error. */
  function QmQeeV(r: RefPart): (q: real)
    requires r.mass != 0.0
    ensures q == ChargeQe(r) * ElementaryCharge / (MassMeV(r) * MeVc2Kg)
    ensures q * r.mass == r.charge
  {
    r.charge / r.mass
  }

  /** For a physical reference particle (gamma >= 1) the three relativistic
      factors are consistent: (beta·gamma)² = gamma² - 1, beta·gamma is the
      product of beta and gamma, and 0 <= beta < 1. */
  lemma KinematicsConsistent(m: MathLib, r: RefPart)
    requires SqrtLaw(m)
    requires Gamma(r) >= 1.0
    ensures BetaGamma(m, r) * BetaGamma(m, r) == Gamma(r) * Gamma(r) - 1.0
    ensures BetaGamma(m, r) >= 0.0
    ensures Beta(m, r) * Gamma(r) == BetaGamma(m, r)
    ensures 0.0 <= Beta(m, r) < 1.0
  {
    var g := Gamma(r);
    var b := Beta(m, r);
    var g2 := g * g;
    assert g2 >= 1.0;
    var a := 1.0 - 1.0 / g2;
    assert 0.0 <= a < 1.0;
    assert b * b == a;
    assert (b * g) * (b * g) == (b * b) * g2;
    assert a * g2 == g2 - 1.0;
    assert (b * g) * (b * g) == r.pt * r.pt - 1.0;
    BetaGammaOfUnique(m, r.pt, b * g);
    assert (1.0 - b) * (1.0 + b) == 1.0 - a;
    SignOfProduct(-(1.0 - b), 1.0 + b);
  }

  /** For a physical reference particle the root-free (beta·gamma)² is the
      square of beta·gamma. */
  /** A particle with gamma > 1 has a positive beta·gamma whose square is pt² - 1. */
  lemma PhysicalBetaGamma(m: MathLib, r: RefPart)
    requires SqrtLaw(m) && Gamma(r) > 1.0
    ensures 0.0 < BetaGamma(m, r) && BetaGamma(m, r) * BetaGamma(m, r) == r.pt * r.pt - 1.0
  {
    var g := Gamma(r);
    MulPos(g - 1.0, g + 1.0);
    assert r.pt * r.pt - 1.0 == (g - 1.0) * (g + 1.0);
    SqrtPositive(m, r.pt * r.pt - 1.0);
  }

  lemma BetaGammaSquaredIs(m: MathLib, r: RefPart)
    requires SqrtLaw(m)
    requires Gamma(r) >= 1.0
    ensures BetaGammaSquared(r) == BetaGamma(m, r) * BetaGamma(m, r)
  {
    KinematicsConsistent(m, r);
  }

  /** Setting the mass twice keeps the last value and never changes pt. */
  lemma SetMassTwice(m: MathLib, r: RefPart, m1: real, m2: real)
    requires m1 != 0.0 && m2 != 0.0
    ensures SetMassMeV(m, SetMassMeV(m, r, m1), m2) == SetMassMeV(m, r, m2)
  {
    var r1 := SetMassMeV(m, r, m1);
    assert r1.pt == r.pt;
  }

  /** After setting the energy, a later mass change keeps that energy's pt:
      pt is a property of gamma, not of the mass unit. */
  lemma SetEnergyThenMass(m: MathLib, r: RefPart, energy: real, massE: real)
    requires r.mass != 0.0 && massE != 0.0
    ensures var r' := SetMassMeV(m, SetEnergyMeV(m, r, energy), massE);
      Gamma(r') == 1.0 + energy / MassMeV(r) && MassMeV(r') == massE
  {
  }
}
