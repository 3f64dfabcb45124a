/** The short RF cavity: a zero-length bunching kick at zero crossing. */
module ShortRFElement {
  import opened PhaseSpace
  import opened ReferenceParticle

  /** Normalised voltage drop `v` and RF wavenumber `k` (1/m). */
  datatype ShortRF = ShortRF(v: real, k: real)

  /** The particle push divides by 2·(beta·gamma)² of the reference particle. */
  predicate PushDefined(ref: RefPart) {
    BetaGammaSquared(ref) != 0.0
  }

  /** The transverse kick per unit offset, k·V / (2·(beta·gamma)²). */
  function TransverseKick(e: ShortRF, ref: RefPart): real
    requires PushDefined(ref)
  {
    e.k * e.v / (2.0 * BetaGammaSquared(ref))
  }

  /** The push of one particle: positions stay, momenta are kicked in
      proportion to their own plane's position. */
  function Push(e: ShortRF, c: Coords, ref: RefPart): (r: Coords)
    requires PushDefined(ref)
    ensures r.x == c.x && r.y == c.y && r.t == c.t
  {
    var kick := TransverseKick(e, ref);
    Coords(c.x, c.y, c.t,
           c.px + kick * c.x,
           c.py + kick * c.y,
           c.pt - e.k * e.v * c.t)
  }

  /** The kick strength of plane `pl`: the momentum changes by this times
      the position. */
  function PlaneKick(e: ShortRF, ref: RefPart, pl: Plane): real
    requires PushDefined(ref)
  {
    match pl
    case X => TransverseKick(e, ref)
    case Y => TransverseKick(e, ref)
    case T => -(e.k * e.v)
  }

  /** Each plane is a unit-triangular map of its own (q, p): q stays, p gains
      the plane's kick times q. */
  lemma PushPlane(e: ShortRF, c: Coords, ref: RefPart, pl: Plane)
    requires PushDefined(ref)
    ensures var r := Push(e, c, ref);
      Q(r, pl) == Q(c, pl) && P(r, pl) == P(c, pl) + PlaneKick(e, ref, pl) * Q(c, pl)
  {
  }

  /** The Jacobian of each plane, read off the images of its unit vectors,
      is unit-triangular and so has determinant one. */
  lemma PushDeterminant(e: ShortRF, ref: RefPart, pl: Plane)
    requires PushDefined(ref)
    ensures var u := Push(e, UnitQ(pl), ref);
      var v := Push(e, UnitP(pl), ref);
      && Q(u, pl) == 1.0 && Q(v, pl) == 0.0 && P(v, pl) == 1.0
      && Q(u, pl) * P(v, pl) - Q(v, pl) * P(u, pl) == 1.0
  {
    PushPlane(e, UnitQ(pl), ref, pl);
    PushPlane(e, UnitP(pl), ref, pl);
  }

  /** With no voltage, or for a particle at x = y = t = 0, the push is the
      identity. */
  lemma PushIdentity(e: ShortRF, c: Coords, ref: RefPart)
    requires PushDefined(ref)
    requires e.v == 0.0 || (c.x == 0.0 && c.y == 0.0 && c.t == 0.0)
    ensures Push(e, c, ref) == c
  {
    var kick := TransverseKick(e, ref);
    if e.v == 0.0 {
      assert kick == 0.0;
    }
  }

  /** A zero-length element: the reference particle does not move. */
  function PushRef(e: ShortRF, r: RefPart): RefPart {
    r
  }
}
