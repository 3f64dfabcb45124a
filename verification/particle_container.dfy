/** The particle container's own state and reductions: the reference
    particle slot, the set-once particle-shape slot, and the per-axis
    extrema, means and standard deviations of the particle positions. */
module ParticleContainer {
  import opened RealMath
  import opened PhaseSpace
  import opened Results
  import opened ReferenceParticle
  import opened Moments

  /** The reference particle, the particle-shape order (empty until set) and
      the ensemble. */
  datatype Container = Container(refpart: RefPart, shape: Option<int>, particles: seq<Particle>)

  /** A freshly constructed container: default reference particle, no shape,
      no particles. */
  const Fresh: Container := Container(ReferenceParticle.Default, None, [])

  /** The logic errors of the shape slot: setting it twice, or reading it
      before it was set. */
  datatype ContainerError = ShapeAlreadySet | ShapeNotSet

  /** Stores the reference particle. */
  function SetRefParticle(pc: Container, r: RefPart): (pc': Container)
    ensures GetRefParticle(pc') == r
    ensures pc'.shape == pc.shape && pc'.particles == pc.particles
  {
    pc.(refpart := r)
  }

  /** Reads the reference particle. */
  function GetRefParticle(pc: Container): RefPart {
    pc.refpart
  }

  /** Sets the particle-shape order; only the first call succeeds. */
  function SetParticleShape(pc: Container, order: int): (r: Result<Container, ContainerError>)
    ensures r.Ok? <==> pc.shape.None?
    ensures r.Err? ==> r.error == ShapeAlreadySet
    ensures r.Ok? ==> r.value.refpart == pc.refpart && r.value.particles == pc.particles
  {
    if pc.shape.Some? then Err(ShapeAlreadySet)
    else Ok(pc.(shape := Some(order)))
  }

  /** Reads the particle-shape order, which fails while the slot is empty. */
  function GetParticleShape(pc: Container): (r: Result<int, ContainerError>)
    ensures r.Ok? <==> pc.shape.Some?
    ensures r.Err? ==> r.error == ShapeNotSet
  {
    match pc.shape
    case None => Err(ShapeNotSet)
    case Some(order) => Ok(order)
  }

  /** A fresh container has no shape; once set, the shape reads back as set
      and a second setting fails, leaving it as it was. */
  lemma ShapeSetOnce(order: int, again: int)
    ensures GetParticleShape(Fresh).Err?
    ensures var r := SetParticleShape(Fresh, order);
      && r.Ok?
      && GetParticleShape(r.value).Ok? && GetParticleShape(r.value).value == order
      && SetParticleShape(r.value, again).Err?
      && SetParticleShape(r.value, again).error == ShapeAlreadySet
  {
  }

  /** Any container whose shape is set keeps its shape under further sets:
      every later call fails. */
  lemma ShapeNeverChanges(pc: Container, order: int)
    requires pc.shape.Some?
    ensures SetParticleShape(pc, order).Err?
    ensures GetParticleShape(pc).Ok? && GetParticleShape(pc).value == pc.shape.value
  {
  }

  /** The reference slot is a plain cell: a read after a write returns the
      written particle, the last write wins, and writing back what was read
      changes nothing. */
  lemma RefParticleCell(pc: Container, a: RefPart, b: RefPart)
    ensures GetRefParticle(SetRefParticle(pc, a)) == a
    ensures SetRefParticle(SetRefParticle(pc, a), b) == SetRefParticle(pc, b)
    ensures SetRefParticle(pc, GetRefParticle(pc)) == pc
  {
  }

  /** The positions of the ensemble along one axis (x, y, or t at fixed s). */
  function Positions(ps: seq<Particle>, pl: Plane): (r: seq<real>)
    ensures |r| == |ps|
    ensures forall i :: 0 <= i < |ps| ==> r[i] == Q(ps[i].c, pl)
  {
    seq(|ps|, i requires 0 <= i < |ps| => Q(ps[i].c, pl))
  }

  /** Per-axis extrema of the particle positions. */
  method MinAndMaxPositions(pc: Container)
    returns (xmin: real, ymin: real, tmin: real, xmax: real, ymax: real, tmax: real)
    requires |pc.particles| > 0
    ensures forall i :: 0 <= i < |pc.particles| ==>
      && xmin <= pc.particles[i].c.x <= xmax
      && ymin <= pc.particles[i].c.y <= ymax
      && tmin <= pc.particles[i].c.t <= tmax
    ensures xmin in Positions(pc.particles, X) && xmax in Positions(pc.particles, X)
    ensures ymin in Positions(pc.particles, Y) && ymax in Positions(pc.particles, Y)
    ensures tmin in Positions(pc.particles, T) && tmax in Positions(pc.particles, T)
  {
    var ps := pc.particles;
    xmin, xmax := MinMax(Positions(ps, X));
    ymin, ymax := MinMax(Positions(ps, Y));
    tmin, tmax := MinMax(Positions(ps, T));
  }

  /** The mean of an axis lies within the axis's extrema, and its standard
      deviation is non-negative when `sqrt` is a square root. */
  lemma {:induction false} AxisStatistics(m: MathLib, xs: seq<real>)
    requires |xs| > 0
    ensures Min(xs) <= Mean(xs) <= Max(xs)
    ensures SqrtLaw(m) ==> 0.0 <= Std(m, xs)
  {
    MeanBetween(xs);
    if SqrtLaw(m) {
      StdNonNegative(m, xs);
    }
  }

  /** Per-axis mean and standard deviation of the particle positions. */
  method MeanAndStdPositions(m: MathLib, pc: Container)
    returns (xmean: real, xstd: real, ymean: real, ystd: real, tmean: real, tstd: real)
    requires |pc.particles| > 0
    ensures xmean == Mean(Positions(pc.particles, X)) && xstd == Std(m, Positions(pc.particles, X))
    ensures ymean == Mean(Positions(pc.particles, Y)) && ystd == Std(m, Positions(pc.particles, Y))
    ensures tmean == Mean(Positions(pc.particles, T)) && tstd == Std(m, Positions(pc.particles, T))
    ensures Min(Positions(pc.particles, X)) <= xmean <= Max(Positions(pc.particles, X))
    ensures Min(Positions(pc.particles, Y)) <= ymean <= Max(Positions(pc.particles, Y))
    ensures Min(Positions(pc.particles, T)) <= tmean <= Max(Positions(pc.particles, T))
    ensures SqrtLaw(m) ==> 0.0 <= xstd && 0.0 <= ystd && 0.0 <= tstd
  {
    var ps := pc.particles;
    xmean, xstd := MeanStd(m, Positions(ps, X));
    ymean, ystd := MeanStd(m, Positions(ps, Y));
    tmean, tstd := MeanStd(m, Positions(ps, T));
    AxisStatistics(m, Positions(ps, X));
    AxisStatistics(m, Positions(ps, Y));
    AxisStatistics(m, Positions(ps, T));
  }
}
