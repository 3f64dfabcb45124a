/** Per-particle phase-space coordinates and the particle record of the ensemble. */
module PhaseSpace {

  /** The six phase-space reals a push reads and writes: the three position-like
      attributes (x, y and, depending on the frame, z or c·t) and the three
      momentum-like attributes (px, py and pz or pt). */
  datatype Coords = Coords(x: real, y: real, t: real, px: real, py: real, pt: real)

  const Origin: Coords := Coords(0.0, 0.0, 0.0, 0.0, 0.0, 0.0)

  /** One ensemble member: its coordinates, charge-to-mass ratio and weight. */
  datatype Particle = Particle(c: Coords, qm: real, w: real)

  /** The three conjugate planes (x,px), (y,py) and (t,pt). */
  datatype Plane = X | Y | T

  /** The position of a plane. */
  function Q(c: Coords, pl: Plane): real {
    match pl
    case X => c.x
    case Y => c.y
    case T => c.t
  }

  /** The momentum of a plane. */
  function P(c: Coords, pl: Plane): real {
    match pl
    case X => c.px
    case Y => c.py
    case T => c.pt
  }

  /** The point at unit position of a plane, zero elsewhere. */
  function UnitQ(pl: Plane): (c: Coords)
    ensures Q(c, pl) == 1.0 && P(c, pl) == 0.0
  {
    match pl
    case X => Origin.(x := 1.0)
    case Y => Origin.(y := 1.0)
    case T => Origin.(t := 1.0)
  }

  /** The point at unit momentum of a plane, zero elsewhere. */
  function UnitP(pl: Plane): (c: Coords)
    ensures Q(c, pl) == 0.0 && P(c, pl) == 1.0
  {
    match pl
    case X => Origin.(px := 1.0)
    case Y => Origin.(py := 1.0)
    case T => Origin.(pt := 1.0)
  }
}

/** Failure-carrying results, for the source's aborting guards. */
module Results {

  datatype Option<+T> = None | Some(value: T)

  datatype Result<+T, +E> = Ok(value: T) | Err(error: E)
}
