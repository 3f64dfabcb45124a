/** The constant-focusing element: a linear thick element that rotates each
    of the three phase planes independently, sliced for space charge. */
module ConstFElement {
  import opened RealMath
  import opened PhaseSpace
  import opened ReferenceParticle

  /** Segment length `ds` (m), focusing strengths `kx`, `ky`, `kt` (1/m) and
      the number of space-charge slices. */
  datatype ConstF = ConstF(ds: real, kx: real, ky: real, kt: real, nslice: int)

  /** The length of one slice, shared by the particle and the reference push. */
  function SliceDs(e: ConstF): real
    requires e.nslice != 0
  {
    e.ds / e.nslice as real
  }

  /** A 2×2 transfer matrix of one phase plane, acting on (q, p). */
  datatype Matrix = Matrix(a: real, b: real, c: real, d: real)

  /** The image of (q, p) under a transfer matrix. */
  function Apply(t: Matrix, q: real, p: real): (real, real) {
    (t.a * q + t.b * p, t.c * q + t.d * p)
  }

  function Det(t: Matrix): real {
    t.a * t.d - t.b * t.c
  }

  /** One plane of the map: a rotation by the phase k·ds in the plane (q, p),
      with the momentum scaled by k·b.  The x and y planes have b = 1; the t
      plane has b = (beta·gamma)². */
  function Focus(m: MathLib, k: real, b: real, sds: real): Matrix
    requires k != 0.0 && b != 0.0
  {
    var s := m.sin(k * sds);
    var co := m.cos(k * sds);
    Matrix(co, s / (b * k), -(k * b) * s, co)
  }

  /** The particle push is defined for non-zero strengths, a non-zero slice
      count and a reference particle with gamma != 1. */
  predicate PushDefined(e: ConstF, ref: RefPart) {
    e.nslice != 0 && e.kx != 0.0 && e.ky != 0.0 && e.kt != 0.0
    && BetaGammaSquared(ref) != 0.0
  }

  /** The push of one particle through one slice.  The reference particle is
      an input only. */
  function Push(m: MathLib, e: ConstF, c: Coords, ref: RefPart): (r: Coords)
    requires PushDefined(e, ref)
    ensures c == Origin ==> r == Origin
  {
    var sds := SliceDs(e);
    var (x, px) := Apply(Focus(m, e.kx, 1.0, sds), c.x, c.px);
    var (y, py) := Apply(Focus(m, e.ky, 1.0, sds), c.y, c.py);
    var (t, pt) := Apply(Focus(m, e.kt, BetaGammaSquared(ref), sds), c.t, c.pt);
    Coords(x, y, t, px, py, pt)
  }

  /** The transfer matrix of plane `pl`. */
  function PlaneMatrix(m: MathLib, e: ConstF, ref: RefPart, pl: Plane): Matrix
    requires PushDefined(e, ref)
  {
    match pl
    case X => Focus(m, e.kx, 1.0, SliceDs(e))
    case Y => Focus(m, e.ky, 1.0, SliceDs(e))
    case T => Focus(m, e.kt, BetaGammaSquared(ref), SliceDs(e))
  }

  /** Each plane of the push is its own matrix applied to that plane's
      (q, p). */
  lemma PushPlane(m: MathLib, e: ConstF, c: Coords, ref: RefPart, pl: Plane)
    requires PushDefined(e, ref)
    ensures var r := Push(m, e, c, ref);
      var f := Apply(PlaneMatrix(m, e, ref, pl), Q(c, pl), P(c, pl));
      Q(r, pl) == f.0 && P(r, pl) == f.1
  {
  }

  /** Each plane's matrix has determinant one: cos² + sin² = 1, the factors
      k·b cancelling. */
  lemma FocusDeterminant(m: MathLib, k: real, b: real, sds: real)
    requires TrigLaw(m)
    requires k != 0.0 && b != 0.0
    ensures Det(Focus(m, k, b, sds)) == 1.0
  {
    var s := m.sin(k * sds);
    var g := s / (b * k);
    var h := -(k * b) * s;
    DivOf(s, b * k, g) by {
      assert s == (b * k) * (s / (b * k));
    }
    assert g * h == -(s * s);
  }

  /** The push is linear, decoupled and area-preserving: each plane's new
      (q, p) is a matrix, fixed by the element and the reference particle,
      applied to that plane's own (q, p), and the matrix has determinant
      one. */
  lemma PushDeterminant(m: MathLib, e: ConstF, c: Coords, ref: RefPart, pl: Plane)
    requires TrigLaw(m)
    requires PushDefined(e, ref)
    ensures var t := PlaneMatrix(m, e, ref, pl);
      var r := Push(m, e, c, ref);
      && Q(r, pl) == t.a * Q(c, pl) + t.b * P(c, pl)
      && P(r, pl) == t.c * Q(c, pl) + t.d * P(c, pl)
    ensures Det(PlaneMatrix(m, e, ref, pl)) == 1.0
  {
    PushPlane(m, e, c, ref, pl);
    PlaneDeterminant(m, e, ref, pl);
  }

  /** Every plane's matrix, the t plane's with its (beta·gamma)² included,
      has determinant one. */
  lemma PlaneDeterminant(m: MathLib, e: ConstF, ref: RefPart, pl: Plane)
    requires TrigLaw(m)
    requires PushDefined(e, ref)
    ensures Det(PlaneMatrix(m, e, ref, pl)) == 1.0
  {
    match pl
    case X => FocusDeterminant(m, e.kx, 1.0, SliceDs(e));
    case Y => FocusDeterminant(m, e.ky, 1.0, SliceDs(e));
    case T => FocusDeterminant(m, e.kt, BetaGammaSquared(ref), SliceDs(e));
  }

  /** A particle at the origin of a plane stays there, whatever the others do. */
  lemma PushPlaneOrigin(m: MathLib, e: ConstF, c: Coords, ref: RefPart, pl: Plane)
    requires PushDefined(e, ref)
    requires Q(c, pl) == 0.0 && P(c, pl) == 0.0
    ensures Q(Push(m, e, c, ref), pl) == 0.0 && P(Push(m, e, c, ref), pl) == 0.0
  {
    PushPlane(m, e, c, ref, pl);
  }

  /** The reference push is defined for a non-zero slice count and a
      reference particle with non-zero beta·gamma. */
  predicate PushRefDefined(m: MathLib, e: ConstF, r: RefPart) {
    e.nslice != 0 && BetaGammaOf(m, r.pt) != 0.0
  }

  /** The push of the reference particle through one slice: a straight line
      with step slice_ds / (beta·gamma), and s advanced by the slice length. */
  function PushRef(m: MathLib, e: ConstF, r: RefPart): (r': RefPart)
    requires PushRefDefined(m, e, r)
    ensures r'.s == r.s + SliceDs(e)
    ensures r' == r.(x := r'.x, y := r'.y, z := r'.z, t := r'.t, s := r'.s)
    ensures PushRefDefined(m, e, r')
  {
    var sds := SliceDs(e);
    var step := sds / BetaGammaOf(m, r.pt);
    r.(x := r.x + step * r.px,
       y := r.y + step * r.py,
       z := r.z + step * r.pz,
       t := r.t - step * r.pt,
       s := r.s + sds)
  }

  /** An on-axis physical reference particle (px = py = 0, pz = beta·gamma,
      gamma > 1) moves by the slice length along z and by slice_ds / beta
      in c·t. */
  lemma PushRefOnAxis(m: MathLib, e: ConstF, r: RefPart)
    requires SqrtLaw(m)
    requires e.nslice != 0
    requires Gamma(r) > 1.0 && r.px == 0.0 && r.py == 0.0 && r.pz == BetaGamma(m, r)
    ensures PushRefDefined(m, e, r)
    ensures var r' := PushRef(m, e, r);
      && r'.x == r.x && r'.y == r.y
      && r'.z == r.z + SliceDs(e)
      && r'.t == r.t + SliceDs(e) / Beta(m, r)
  {
    KinematicsConsistent(m, r);
    var bg := BetaGamma(m, r);
    var b := Beta(m, r);
    var g := Gamma(r);
    assert bg * bg == (g - 1.0) * (g + 1.0);
    MulPos(g - 1.0, g + 1.0);
    assert bg != 0.0;
    var sds := SliceDs(e);
    var step := sds / bg;
    DivOf(sds, bg, step) by {
      assert sds == bg * (sds / bg);
    }
    assert step * bg == sds;
    assert b != 0.0;
    assert step * g == sds / b by {
      assert b * g == bg;
      DivOf(sds, b, step * g);
    }
  }

  /** A physical reference particle (gamma > 1, |p|² = pt² - 1) moves, in any
      direction, a distance of exactly the slice length in (x, y, z). */
  lemma PushRefPathLength(m: MathLib, e: ConstF, r: RefPart)
    requires SqrtLaw(m)
    requires e.nslice != 0
    requires Gamma(r) > 1.0 && r.px * r.px + r.py * r.py + r.pz * r.pz == r.pt * r.pt - 1.0
    ensures PushRefDefined(m, e, r)
    ensures var r' := PushRef(m, e, r);
      (r'.x - r.x) * (r'.x - r.x) + (r'.y - r.y) * (r'.y - r.y) + (r'.z - r.z) * (r'.z - r.z)
        == SliceDs(e) * SliceDs(e)
  {
    PhysicalBetaGamma(m, r);
    var bg := BetaGamma(m, r);
    var sds := SliceDs(e);
    var step := sds / bg;
    var r' := PushRef(m, e, r);
    StepLength(sds, bg, step, r.px, r.py, r.pz, r'.x - r.x, r'.y - r.y, r'.z - r.z);
  }

  /** A step sds/bg along a vector of length bg covers a distance sds. */
  lemma StepLength(sds: real, bg: real, step: real, px: real, py: real, pz: real, dx: real, dy: real, dz: real)
    requires bg != 0.0 && step == sds / bg
    requires px * px + py * py + pz * pz == bg * bg
    requires dx == step * px && dy == step * py && dz == step * pz
    ensures dx * dx + dy * dy + dz * dz == sds * sds
  {
    assert step * bg == sds;
    calc {
      dx * dx + dy * dy + dz * dz;
      (step * step) * (px * px + py * py + pz * pz);
      (step * step) * (bg * bg);
      (step * bg) * (step * bg);
    }
  }

  /** `n` consecutive reference pushes. */
  function PushRefTimes(m: MathLib, e: ConstF, r: RefPart, n: nat): (r': RefPart)
    requires PushRefDefined(m, e, r)
    ensures PushRefDefined(m, e, r')
    ensures r'.s == r.s + n as real * SliceDs(e)
    ensures r'.px == r.px && r'.py == r.py && r'.pz == r.pz && r'.pt == r.pt
    ensures r'.mass == r.mass && r'.charge == r.charge
    decreases n
  {
    if n == 0 then r else PushRefTimes(m, e, PushRef(m, e, r), n - 1)
  }

  /** Pushing the reference particle once per slice, `nslice` times, advances
      s by exactly the segment length. */
  lemma PushRefAllSlices(m: MathLib, e: ConstF, r: RefPart)
    requires e.nslice > 0 && PushRefDefined(m, e, r)
    ensures PushRefTimes(m, e, r, e.nslice).s == r.s + e.ds
  {
    DivOf(e.ds, e.nslice as real, SliceDs(e)) by {
      assert e.ds == (e.nslice as real) * (e.ds / e.nslice as real);
    }
  }
}
