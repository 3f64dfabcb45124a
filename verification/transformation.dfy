/** The two exact frame transformations of a particle: from fixed time t to
    fixed arc length s (`ToFixedS`) and back (`ToFixedT`).

    Both follow the same three steps: momenta are scaled from static units
    (normalised by the design momentum) to dynamic units (normalised by mc),
    the position and momentum update is applied, and momenta are scaled back.
    At fixed s the coordinates are (x, y, t, px, py, pt); at fixed t the third
    pair of `Coords` holds (z, pz). */
module Transformation {
  import opened RealMath
  import opened PhaseSpace
  import opened Results
  import ReferenceParticle

  /** The design-value guards, which abort the run when they fail. */
  datatype DomainError =
    | InvalidPtdArg   // ToFixedS: 1 + pzd² <= 0
    | InvalidPzdArg   // ToFixedT: ptd² - 1 <= 0

  /** Momenta from static to dynamic units. */
  function ToDynamic(c: Coords, pzd: real): Coords {
    c.(px := c.px * pzd, py := c.py * pzd, pt := c.pt * pzd)
  }

  /** Momenta from dynamic back to static units. */
  function ToStatic(c: Coords, pzd: real): Coords
    requires pzd != 0.0
  {
    c.(px := c.px / pzd, py := c.py / pzd, pt := c.pt / pzd)
  }

  /** -pt (that is, gamma) of a particle with momenta (px, py, pz) in units of mc. */
  function ParticleGamma(m: MathLib, px: real, py: real, pz: real): real {
    m.sqrt(1.0 + pz * pz + px * px + py * py)
  }

  /** pz of a particle with energy coordinate pt and transverse momenta (px, py). */
  function ParticlePz(m: MathLib, px: real, py: real, pt: real): real {
    m.sqrt(-1.0 + pt * pt - px * px - py * py)
  }

  /** ToFixedS's particle radicand, 1 + pz² + px² + py² in dynamic units. */
  function SArg(pzd: real, d: Coords): real {
    1.0 + (pzd + d.pt) * (pzd + d.pt) + d.px * d.px + d.py * d.py
  }

  /** ToFixedT's particle radicand, pt² - px² - py² - 1 in dynamic units. */
  function TArg(ptd: real, d: Coords): real {
    -1.0 + (ptd + d.pt) * (ptd + d.pt) - d.px * d.px - d.py * d.py
  }

  /** The fixed-t to fixed-s update on momenta in dynamic units.  `ptdf` is the
      design -gamma; the particle's -gamma falls back to -1 when its radicand
      is not positive (a debug-only assertion in the source). */
  function DriftToS(m: MathLib, pzd: real, ptdf: real, d: Coords): Coords
    requires pzd + d.pt != 0.0
  {
    var arg := SArg(pzd, d);
    var ptf := if arg > 0.0 then -ParticleGamma(m, d.px, d.py, pzd + d.pt) else -1.0;
    Coords(
      d.x - d.px * d.t / (pzd + d.pt),
      d.y - d.py * d.t / (pzd + d.pt),
      ptf * d.t / (pzd + d.pt),
      d.px,
      d.py,
      ptf - ptdf)
  }

  /** The fixed-s to fixed-t update on momenta in dynamic units.  `pzd` is the
      design pz; the particle's pz falls back to 0 when its radicand is not
      positive (a debug-only assertion in the source). */
  function DriftToT(m: MathLib, ptd: real, pzd: real, d: Coords): (r: Coords)
    requires ptd + d.pt != 0.0
    ensures TArg(ptd, d) <= 0.0 ==> r.t == 0.0 && r.pt == -pzd
  {
    var arg := TArg(ptd, d);
    var pz := if arg > 0.0 then ParticlePz(m, d.px, d.py, ptd + d.pt) else 0.0;
    Coords(
      d.x + d.px * d.t / (ptd + d.pt),
      d.y + d.py * d.t / (ptd + d.pt),
      pz * d.t / (ptd + d.pt),
      d.px,
      d.py,
      pz - pzd)
  }

  /** Whether ToFixedS's divisions are defined: a non-zero design momentum and
      a non-zero particle pz in dynamic units. */
  predicate ToFixedSDefined(pzd: real, c: Coords) {
    pzd != 0.0 && pzd + c.pt * pzd != 0.0
  }

  /** Fixed t to fixed s, for design momentum pzd = beta·gamma. */
  function ToFixedS(m: MathLib, pzd: real, c: Coords): (r: Result<Coords, DomainError>)
    requires ToFixedSDefined(pzd, c)
    ensures r.Ok?
    ensures r.value.px == c.px && r.value.py == c.py
    ensures c.t == 0.0 ==> r.value.x == c.x && r.value.y == c.y && r.value.t == 0.0
  {
    PositiveSquare(pzd * pzd, pzd);
    var argd := 1.0 + pzd * pzd;
    if argd > 0.0 then
      // after this guard the source's `-1` fallback for ptdf is unreachable
      var ptdf := -ReferenceParticle.GammaOf(m, pzd);
      var d := ToDynamic(c, pzd);
      DivOf(d.px, pzd, c.px);
      DivOf(d.py, pzd, c.py);
      Ok(ToStatic(DriftToS(m, pzd, ptdf, d), pzd))
    else
      Err(InvalidPtdArg)
  }

  /** Whether ToFixedT's divisions are defined, once its design guard passed:
      a non-zero design pz and a non-zero particle energy in dynamic units. */
  predicate ToFixedTDefined(m: MathLib, ptd: real, c: Coords) {
    var pzd := ReferenceParticle.BetaGammaOf(m, ptd);
    -1.0 + ptd * ptd > 0.0 ==> pzd != 0.0 && ptd + c.pt * pzd != 0.0
  }

  /** Fixed s to fixed t, for design energy ptd = -gamma.  A design energy with
      ptd² <= 1 has no real design momentum and aborts. */
  function ToFixedT(m: MathLib, ptd: real, c: Coords): (r: Result<Coords, DomainError>)
    requires ToFixedTDefined(m, ptd, c)
    ensures r.Err? <==> ptd * ptd <= 1.0
    ensures r.Err? ==> r.error == InvalidPzdArg
    ensures r.Ok? ==> r.value.px == c.px && r.value.py == c.py
    ensures r.Ok? && c.t == 0.0 ==> r.value.x == c.x && r.value.y == c.y && r.value.t == 0.0
    ensures r.Ok? && TArg(ptd, ToDynamic(c, ReferenceParticle.BetaGammaOf(m, ptd))) <= 0.0 ==> r.value.t == 0.0 && r.value.pt == -1.0
  {
    var argd := -1.0 + ptd * ptd;
    if argd > 0.0 then
      var pzd := ReferenceParticle.BetaGammaOf(m, ptd);
      ToTKeepsMomenta(m, ptd, pzd, c);
      ToTAtZeroTime(m, ptd, pzd, c);
      ToTFallback(m, ptd, pzd, c);
      Ok(ToStatic(DriftToT(m, ptd, pzd, ToDynamic(c, pzd)), pzd))
    else
      Err(InvalidPzdArg)
  }

  /** ToFixedT's update gives the transverse momenta back unchanged. */
  lemma ToTKeepsMomenta(m: MathLib, ptd: real, pzd: real, c: Coords)
    requires pzd != 0.0 && ptd + c.pt * pzd != 0.0
    ensures var r := ToStatic(DriftToT(m, ptd, pzd, ToDynamic(c, pzd)), pzd);
      r.px == c.px && r.py == c.py
  {
    var d := ToDynamic(c, pzd);
    var e := DriftToT(m, ptd, pzd, d);
    assert e.px == c.px * pzd && e.py == c.py * pzd;
    DivOf(c.px * pzd, pzd, c.px);
    DivOf(c.py * pzd, pzd, c.py);
  }

  /** At t = 0 ToFixedT's update leaves x and y in place and t at zero. */
  lemma ToTAtZeroTime(m: MathLib, ptd: real, pzd: real, c: Coords)
    requires pzd != 0.0 && ptd + c.pt * pzd != 0.0
    ensures var r := ToStatic(DriftToT(m, ptd, pzd, ToDynamic(c, pzd)), pzd);
      c.t == 0.0 ==> r.x == c.x && r.y == c.y && r.t == 0.0
  {
  }

  /** Where the particle radicand is not positive, ToFixedT's update gives
      t = 0 and pz = -1 in static units. */
  lemma ToTFallback(m: MathLib, ptd: real, pzd: real, c: Coords)
    requires pzd != 0.0 && ptd + c.pt * pzd != 0.0
    ensures var r := ToStatic(DriftToT(m, ptd, pzd, ToDynamic(c, pzd)), pzd);
      TArg(ptd, ToDynamic(c, pzd)) <= 0.0 ==> r.t == 0.0 && r.pt == -1.0
  {
    DivOf(-pzd, pzd, -1.0);
  }
}
