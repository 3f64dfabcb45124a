/** The six-dimensional Kurth distribution: six uniform draws are mapped to a
    point of a stationary beam in a uniform focusing channel, scaled to unit
    covariance and then given the requested RMS sizes and correlations. */
module Kurth6DDistribution {
  import opened RealMath
  import opened PhaseSpace
  import opened Results

  /** RMS sizes (m), RMS momenta, and the three length-momentum
      correlations, which default to zero. */
  datatype Kurth6D = Kurth6D(
    sigmaX: real, sigmaY: real, sigmaT: real,
    sigmaPx: real, sigmaPy: real, sigmaPt: real,
    muxpx: real := 0.0, muypy: real := 0.0, mutpt: real := 0.0)

  /** The value of pi the sampler uses. */
  const Pi: real := 3.14159265358979

  /** The six uniform draws of one sample, in the order they are taken from
      the random engine. */
  datatype Draws = Draws(v: real, costheta: real, phi: real, l: real, alpha: real, beta: real)

  /** Every draw lies in [0, 1]. */
  predicate Uniform(d: Draws) {
    && 0.0 <= d.v <= 1.0 && 0.0 <= d.costheta <= 1.0 && 0.0 <= d.phi <= 1.0
    && 0.0 <= d.l <= 1.0 && 0.0 <= d.alpha <= 1.0 && 0.0 <= d.beta <= 1.0
  }

  /** cos(theta), spread from the second draw over [-1, 1]. */
  function CosTheta(d: Draws): real {
    2.0 * (d.costheta - 0.5)
  }

  function SinTheta(m: MathLib, d: Draws): real {
    m.sqrt(1.0 - CosTheta(d) * CosTheta(d))
  }

  function Phi(d: Draws): real {
    2.0 * Pi * d.phi
  }

  /** The radius, the cube root of the first draw. */
  function Radius(m: MathLib, d: Draws): real {
    m.cbrt(d.v)
  }

  /** The magnitude of the angular momentum, `L`. */
  function AngularMomentum(m: MathLib, d: Draws): real {
    Radius(m, d) * m.sqrt(d.l)
  }

  /** The radicand of the largest radial momentum at this radius and
      angular momentum. */
  function PmaxArg(m: MathLib, d: Draws): real
    requires Radius(m, d) != 0.0
  {
    var r := Radius(m, d);
    var lr := AngularMomentum(m, d) / r;
    1.0 - lr * lr - r * r + AngularMomentum(m, d) * AngularMomentum(m, d)
  }

  /** The radial momentum `pr`. */
  function RadialMomentum(m: MathLib, d: Draws): real
    requires Radius(m, d) != 0.0
  {
    m.sqrt(PmaxArg(m, d)) * m.cos(Pi * d.alpha)
  }

  /** The tangential momentum components along phi (`p1`) and theta (`p2`). */
  function P1(m: MathLib, d: Draws): real
    requires Radius(m, d) != 0.0
  {
    AngularMomentum(m, d) / Radius(m, d) * m.cos(2.0 * Pi * d.beta)
  }

  function P2(m: MathLib, d: Draws): real
    requires Radius(m, d) != 0.0
  {
    AngularMomentum(m, d) / Radius(m, d) * m.sin(2.0 * Pi * d.beta)
  }

  /** The sample before scaling: spherical coordinates turned Cartesian.
      The angular-momentum ratio L/r divides by the radius, which is zero
      only for a zero first draw. */
  function Unscaled(m: MathLib, d: Draws): Coords
    requires Radius(m, d) != 0.0
  {
    SphericalToCartesian(
      Radius(m, d), SinTheta(m, d), CosTheta(d), m.sin(Phi(d)), m.cos(Phi(d)),
      RadialMomentum(m, d), P1(m, d), P2(m, d))
  }

  /** A point at radius `r` in the direction with polar angle (sin, cos) =
      (st, ct) and azimuth (sin, cos) = (sp, cp), with momentum components
      `pr` (radial), `p1` (along phi) and `p2` (along theta). */
  function SphericalToCartesian(r: real, st: real, ct: real, sp: real, cp: real,
                                pr: real, p1: real, p2: real): Coords
  {
    Coords(
      r * st * cp,
      r * st * sp,
      r * ct,
      pr * st * cp + p2 * ct * cp - p1 * sp,
      pr * st * sp + p2 * ct * sp + p1 * cp,
      pr * ct - p2 * st)
  }

  /** Multiplies all six components by `k`. */
  function Scale(c: Coords, k: real): (r: Coords)
    ensures forall pl :: Q(r, pl) == k * Q(c, pl) && P(r, pl) == k * P(c, pl)
  {
    Coords(k * c.x, k * c.y, k * c.t, k * c.px, k * c.py, k * c.pt)
  }

  /** Scaling by `k` and then by `1 / k` gives back the coordinates. */
  lemma ScaleInverse(c: Coords, k: real)
    requires k != 0.0
    ensures Scale(Scale(c, k), 1.0 / k) == c
  {
    ScaleBack(c.x, k); ScaleBack(c.y, k); ScaleBack(c.t, k);
    ScaleBack(c.px, k); ScaleBack(c.py, k); ScaleBack(c.pt, k);
  }

  lemma ScaleBack(a: real, k: real)
    requires k != 0.0
    ensures 1.0 / k * (k * a) == a
  {
    assert 1.0 / k * (k * a) == (k * a) / k;
    DivOf(k * a, k, a);
  }

  /** Multiplies each component by its own RMS size. */
  function Stretch(k: Kurth6D, c: Coords): Coords {
    Coords(k.sigmaX * c.x, k.sigmaY * c.y, k.sigmaT * c.t,
           k.sigmaPx * c.px, k.sigmaPy * c.py, k.sigmaPt * c.pt)
  }

  /** sqrt(1 - mu²), the divisor of a correlated pair. */
  function CorrelationRoot(m: MathLib, mu: real): real {
    m.sqrt(1.0 - mu * mu)
  }

  /** One conjugate pair given RMS sizes `sq`, `sp` and correlation `mu`. */
  function Correlate(m: MathLib, sq: real, sp: real, mu: real, q: real, p: real): (real, real)
    requires CorrelationRoot(m, mu) != 0.0
  {
    var root := CorrelationRoot(m, mu);
    (sq * q / root, sp * (-mu * q / root + p))
  }

  /** The inverse of `Correlate` for non-zero RMS sizes. */
  function Decorrelate(m: MathLib, sq: real, sp: real, mu: real, q': real, p': real): (real, real)
    requires sq != 0.0 && sp != 0.0
  {
    var root := CorrelationRoot(m, mu);
    var q := q' * root / sq;
    (q, p' / sp + mu * q' / sq)
  }

  /** Every correlation lies strictly inside (-1, 1), so that each root is the
      square root of a positive number, and each root is non-zero. */
  predicate CorrelationDefined(m: MathLib, k: Kurth6D) {
    && k.muxpx * k.muxpx < 1.0
    && k.muypy * k.muypy < 1.0
    && k.mutpt * k.mutpt < 1.0
    && CorrelationRoot(m, k.muxpx) != 0.0
    && CorrelationRoot(m, k.muypy) != 0.0
    && CorrelationRoot(m, k.mutpt) != 0.0
  }

  /** The moment and correlation transform, plane by plane. */
  function Transform(m: MathLib, k: Kurth6D, c: Coords): Coords
    requires CorrelationDefined(m, k)
  {
    var (x, px) := Correlate(m, k.sigmaX, k.sigmaPx, k.muxpx, c.x, c.px);
    var (y, py) := Correlate(m, k.sigmaY, k.sigmaPy, k.muypy, c.y, c.py);
    var (t, pt) := Correlate(m, k.sigmaT, k.sigmaPt, k.mutpt, c.t, c.pt);
    Coords(x, y, t, px, py, pt)
  }

  /** One sample.  `None` for a zero radius, a correlation outside (-1, 1) or
      a zero correlation root.  For draws in [0, 1], the only ones the random
      engine gives (`Uniform`), these are exactly the cases where the source
      divides by zero or takes the square root of a negative number; draws
      outside [0, 1] can make the sampling radicands negative, and there the
      sample is built from whatever the roots are. */
  function Sample(m: MathLib, k: Kurth6D, d: Draws): (r: Option<Coords>)
    ensures r.Some? <==> Radius(m, d) != 0.0 && CorrelationDefined(m, k)
  {
    if Radius(m, d) == 0.0 || !CorrelationDefined(m, k) then None
    else Some(Transform(m, k, Scale(Unscaled(m, d), m.sqrt(5.0))))
  }

  /** The draws taken from position `i` of a stream of uniforms. */
  function DrawsAt(stream: seq<real>, i: nat): Draws
    requires i + 6 <= |stream|
  {
    Draws(stream[i], stream[i + 1], stream[i + 2], stream[i + 3], stream[i + 4], stream[i + 5])
  }

  /** Draws `n` samples from a stream of uniforms: each takes exactly the next
      six values, and the unused tail is returned. */
  method SampleMany(m: MathLib, k: Kurth6D, stream: seq<real>, n: nat)
    returns (samples: seq<Option<Coords>>, rest: seq<real>)
    requires 6 * n <= |stream|
    ensures |samples| == n
    ensures forall i :: 0 <= i < n ==> samples[i] == Sample(m, k, DrawsAt(stream, 6 * i))
    ensures rest == stream[6 * n..]
  {
    samples := [];
    rest := stream;
    var i := 0;
    while i < n
      invariant 0 <= i <= n
      invariant |samples| == i
      invariant rest == stream[6 * i..]
      invariant forall j :: 0 <= j < i ==> samples[j] == Sample(m, k, DrawsAt(stream, 6 * j))
    {
      assert DrawsAt(rest, 0) == DrawsAt(stream, 6 * i);
      samples := samples + [Sample(m, k, DrawsAt(rest, 0))];
      rest := rest[6..];
      i := i + 1;
    }
  }

  // ----- Properties -----

  /** A rotation by an angle with c² + s² = 1 keeps the length of a vector. */
  lemma Rotation(a: real, b: real, c: real, s: real)
    requires c * c + s * s == 1.0
    ensures (a * c - b * s) * (a * c - b * s) + (a * s + b * c) * (a * s + b * c) == a * a + b * b
  {
    assert (a * c - b * s) * (a * c - b * s) + (a * s + b * c) * (a * s + b * c)
      == a * a * (c * c + s * s) + b * b * (c * c + s * s);
  }

  /** A uniform second draw gives cos(theta) in [-1, 1], so the radicand of
      sin(theta) lies in [0, 1] and sin²(theta) + cos²(theta) = 1. */
  lemma CosThetaInRange(m: MathLib, d: Draws)
    requires SqrtLaw(m)
    requires 0.0 <= d.costheta <= 1.0
    ensures -1.0 <= CosTheta(d) <= 1.0
    ensures 0.0 <= 1.0 - CosTheta(d) * CosTheta(d) <= 1.0
    ensures 0.0 <= SinTheta(m, d)
    ensures SinTheta(m, d) * SinTheta(m, d) + CosTheta(d) * CosTheta(d) == 1.0
  {
    var ct := CosTheta(d);
    assert -1.0 <= ct <= 1.0;
    UnitRadicand(ct);
  }

  /** For -1 <= c <= 1, the radicand 1 - c² lies in [0, 1]. */
  lemma UnitRadicand(c: real)
    requires -1.0 <= c <= 1.0
    ensures 0.0 <= 1.0 - c * c
    ensures 1.0 - c * c <= 1.0
  {
    if c == 0.0 {
      assert c * c == 0.0;
    } else {
      PositiveSquare(c * c, c);
    }
    assert 0.0 <= c * c;
    if c == 1.0 || c == -1.0 {
      assert c * c == 1.0;
    } else {
      var a, b := 1.0 - c, 1.0 + c;
      MulPos(a, b);
      assert 0.0 < a * b;
      assert a * b == 1.0 - c * c;
    }
  }

  /** The angular momentum is at most the radius. */
  lemma AngularMomentumBound(m: MathLib, d: Draws)
    requires SqrtLaw(m) && CbrtLaw(m)
    requires Uniform(d)
    ensures 0.0 <= AngularMomentum(m, d) <= Radius(m, d)
  {
    CbrtAtMostOne(m, d.v);
    SqrtAtMostOne(m, d.l);
    var r := Radius(m, d);
    var q := m.sqrt(d.l);
    assert 0.0 <= r <= 1.0 && 0.0 <= q <= 1.0;
    assert 0.0 <= r * q by {
      if r > 0.0 && q > 0.0 { MulPos(r, q); }
    }
    assert r * q <= r * 1.0 by {
      if r > 0.0 && q < 1.0 { MulPos(r, 1.0 - q); }
    }
    assert AngularMomentum(m, d) == r * q;
  }

  /** L / r is the square root of the fourth draw. */
  lemma AngularRatio(m: MathLib, d: Draws)
    requires SqrtLaw(m)
    requires Radius(m, d) != 0.0 && 0.0 <= d.l
    ensures var lr := AngularMomentum(m, d) / Radius(m, d);
      lr == m.sqrt(d.l) && lr * lr == d.l
  {
    DivOf(AngularMomentum(m, d), Radius(m, d), m.sqrt(d.l));
  }

  /** The pmax radicand factors as (1 - r²)(1 - (L/r)²) and, for uniform
      draws, is never negative. */
  lemma PmaxArgFactors(m: MathLib, d: Draws)
    requires SqrtLaw(m) && CbrtLaw(m)
    requires Uniform(d) && Radius(m, d) != 0.0
    ensures var r := Radius(m, d);
      var lr := AngularMomentum(m, d) / r;
      PmaxArg(m, d) == (1.0 - r * r) * (1.0 - lr * lr)
    ensures PmaxArg(m, d) == (1.0 - Radius(m, d) * Radius(m, d)) * (1.0 - d.l)
    ensures 0.0 <= PmaxArg(m, d)
  {
    var r := Radius(m, d);
    var q := m.sqrt(d.l);
    AngularRatio(m, d);
    assert AngularMomentum(m, d) * AngularMomentum(m, d) == r * r * (q * q);
    CbrtAtMostOne(m, d.v);
    SquareAtMostOne(r);
    assert 0.0 <= (1.0 - r * r) * (1.0 - d.l) by {
      if r * r < 1.0 && d.l < 1.0 {
        MulPos(1.0 - r * r, 1.0 - d.l);
      }
    }
  }

  /** The radial momentum never exceeds pmax in size. */
  lemma RadialMomentumBound(m: MathLib, d: Draws)
    requires SqrtLaw(m) && TrigLaw(m) && CbrtLaw(m)
    requires Uniform(d) && Radius(m, d) != 0.0
    ensures RadialMomentum(m, d) * RadialMomentum(m, d) <= PmaxArg(m, d)
  {
    PmaxArgFactors(m, d);
    var pm := m.sqrt(PmaxArg(m, d));
    var ca := m.cos(Pi * d.alpha);
    var sa := m.sin(Pi * d.alpha);
    assert ca * ca <= 1.0 by {
      assert sa * sa >= 0.0;
    }
    assert (pm * ca) * (pm * ca) == (pm * pm) * (ca * ca);
    assert (pm * pm) * (ca * ca) <= (pm * pm) * 1.0 by {
      assert (pm * pm) * (1.0 - ca * ca) >= 0.0 by {
        assert pm * pm >= 0.0;
      }
    }
  }

  /** A vector of length |a| along the direction (c, s) has squared length a². */
  lemma RotationLength(a: real, c: real, s: real, u: real, v: real)
    requires c * c + s * s == 1.0
    requires u == a * c && v == a * s
    ensures u * u + v * v == a * a
  {
    assert u * u + v * v == a * a * (c * c + s * s);
  }

  /** The spherical-to-Cartesian change of a momentum keeps its length. */
  lemma SphericalNorm(pr: real, p1: real, p2: real, st: real, ct: real, cp: real, sp: real,
                      px: real, py: real, pt: real)
    requires st * st + ct * ct == 1.0 && cp * cp + sp * sp == 1.0
    requires px == pr * st * cp + p2 * ct * cp - p1 * sp
    requires py == pr * st * sp + p2 * ct * sp + p1 * cp
    requires pt == pr * ct - p2 * st
    ensures px * px + py * py + pt * pt == pr * pr + p1 * p1 + p2 * p2
  {
    var a := pr * st + p2 * ct;
    assert px == a * cp - p1 * sp;
    assert py == a * sp + p1 * cp;
    Rotation(a, p1, cp, sp);
    assert a == pr * st - (-p2) * ct;
    assert pt == pr * ct + (-p2) * st;
    Rotation(pr, -p2, st, ct);
  }

  /** The component of the Cartesian momentum along the radial direction
      (st·cp, st·sp, ct) is the radial momentum. */
  lemma SphericalDot(pr: real, p1: real, p2: real, st: real, ct: real, cp: real, sp: real,
                     px: real, py: real, pt: real)
    requires st * st + ct * ct == 1.0 && cp * cp + sp * sp == 1.0
    requires px == pr * st * cp + p2 * ct * cp - p1 * sp
    requires py == pr * st * sp + p2 * ct * sp + p1 * cp
    requires pt == pr * ct - p2 * st
    ensures st * cp * px + st * sp * py + ct * pt == pr
  {
    var a := pr * st + p2 * ct;
    assert px == a * cp - p1 * sp;
    assert py == a * sp + p1 * cp;
    assert cp * px + sp * py == a * (cp * cp + sp * sp);
    assert st * cp * px + st * sp * py == st * (cp * px + sp * py);
    assert st * a + ct * pt == pr * (st * st + ct * ct);
  }

  /** A common factor of the first vector comes out of a dot product. */
  lemma ScaledDot(r: real, a1: real, a2: real, a3: real, q1: real, q2: real, q3: real,
                  b1: real, b2: real, b3: real, dot: real)
    requires q1 == r * a1 && q2 == r * a2 && q3 == r * a3
    requires dot == a1 * b1 + a2 * b2 + a3 * b3
    ensures q1 * b1 + q2 * b2 + q3 * b3 == r * dot
  {
  }

  /** The spherical-to-Cartesian change is orthonormal: the position has
      length |r|, the momentum keeps its length, and the momentum's component
      along the position is r·pr. */
  lemma SphericalGeometry(r: real, st: real, ct: real, sp: real, cp: real,
                          pr: real, p1: real, p2: real)
    requires st * st + ct * ct == 1.0 && cp * cp + sp * sp == 1.0
    ensures var c := SphericalToCartesian(r, st, ct, sp, cp, pr, p1, p2);
      && c.x * c.x + c.y * c.y + c.t * c.t == r * r
      && c.px * c.px + c.py * c.py + c.pt * c.pt == pr * pr + p1 * p1 + p2 * p2
      && c.x * c.px + c.y * c.py + c.t * c.pt == r * pr
  {
    var c := SphericalToCartesian(r, st, ct, sp, cp, pr, p1, p2);
    var rs := r * st;
    RotationLength(rs, cp, sp, c.x, c.y);
    RotationLength(r, st, ct, rs, c.t);
    SphericalNorm(pr, p1, p2, st, ct, cp, sp, c.px, c.py, c.pt);
    SphericalDot(pr, p1, p2, st, ct, cp, sp, c.px, c.py, c.pt);
    ScaledDot(r, st * cp, st * sp, ct, c.x, c.y, c.t, c.px, c.py, c.pt, pr);
  }

  /** The unscaled position lies on the sphere of the sampled radius, which
      lies in the unit ball. */
  lemma InUnitBall(m: MathLib, d: Draws)
    requires SqrtLaw(m) && TrigLaw(m) && CbrtLaw(m)
    requires Uniform(d) && Radius(m, d) != 0.0
    ensures var c := Unscaled(m, d);
      c.x * c.x + c.y * c.y + c.t * c.t == Radius(m, d) * Radius(m, d)
    ensures 0.0 < Radius(m, d) <= 1.0
  {
    CosThetaInRange(m, d);
    CbrtAtMostOne(m, d.v);
    SphericalGeometry(
      Radius(m, d), SinTheta(m, d), CosTheta(d), m.sin(Phi(d)), m.cos(Phi(d)),
      RadialMomentum(m, d), P1(m, d), P2(m, d));
  }

  /** The unscaled momentum: its squared length is pr² + (L/r)², and its
      component along the position is r·pr, so the position-momentum pair
      has angular momentum L (|q|²|p|² - (q·p)² = L²). */
  lemma MomentumDecomposition(m: MathLib, d: Draws)
    requires SqrtLaw(m) && TrigLaw(m)
    requires 0.0 <= d.costheta <= 1.0 && Radius(m, d) != 0.0
    ensures var c := Unscaled(m, d);
      var r := Radius(m, d);
      var pr := RadialMomentum(m, d);
      var lr := AngularMomentum(m, d) / r;
      && c.px * c.px + c.py * c.py + c.pt * c.pt == pr * pr + lr * lr
      && c.x * c.px + c.y * c.py + c.t * c.pt == r * pr
  {
    CosThetaInRange(m, d);
    var cb, sb := m.cos(2.0 * Pi * d.beta), m.sin(2.0 * Pi * d.beta);
    assert sb * sb + cb * cb == 1.0;
    SplitMomentum(Radius(m, d), SinTheta(m, d), CosTheta(d), m.sin(Phi(d)), m.cos(Phi(d)),
                  RadialMomentum(m, d), AngularMomentum(m, d) / Radius(m, d), cb, sb);
  }

  /** The momentum split into a radial part `pr` and a tangential part of
      size `lr` at angle (cb, sb): its squared length is pr² + lr², and its
      projection on the position is r·pr. */
  lemma SplitMomentum(r: real, st: real, ct: real, sp: real, cp: real,
                      pr: real, lr: real, cb: real, sb: real)
    requires st * st + ct * ct == 1.0 && cp * cp + sp * sp == 1.0
    requires cb * cb + sb * sb == 1.0
    ensures var c := SphericalToCartesian(r, st, ct, sp, cp, pr, lr * cb, lr * sb);
      && c.px * c.px + c.py * c.py + c.pt * c.pt == pr * pr + lr * lr
      && c.x * c.px + c.y * c.py + c.t * c.pt == r * pr
  {
    SphericalGeometry(r, st, ct, sp, cp, pr, lr * cb, lr * sb);
    RotationLength(lr, cb, sb, lr * cb, lr * sb);
  }

  /** With no correlations, a pair is just scaled by its RMS sizes. */
  lemma CorrelateUncorrelated(m: MathLib, sq: real, sp: real, q: real, p: real)
    requires SqrtLaw(m)
    ensures CorrelationRoot(m, 0.0) == 1.0
    ensures Correlate(m, sq, sp, 0.0, q, p).0 == sq * q
    ensures Correlate(m, sq, sp, 0.0, q, p).1 == sp * p
  {
    SqrtOne(m);
  }

  /** `Decorrelate` undoes `Correlate`. */
  lemma DecorrelateCorrelate(m: MathLib, sq: real, sp: real, mu: real, q: real, p: real)
    requires sq != 0.0 && sp != 0.0 && CorrelationRoot(m, mu) != 0.0
    ensures var c := Correlate(m, sq, sp, mu, q, p);
      var u := Decorrelate(m, sq, sp, mu, c.0, c.1);
      u.0 == q && u.1 == p
  {
    CorrelateThenDecorrelate(sq, sp, mu, CorrelationRoot(m, mu), q, p);
  }

  /** The algebra of `DecorrelateCorrelate`, for any non-zero root. */
  lemma CorrelateThenDecorrelate(sq: real, sp: real, mu: real, root: real, q: real, p: real)
    requires sq != 0.0 && sp != 0.0 && root != 0.0
    ensures var q' := sq * q / root;
      var p' := sp * (-mu * q / root + p);
      q' * root / sq == q && p' / sp + mu * q' / sq == p
  {
    var w := q / root;
    assert w * root == q;
    var q' := sq * q / root;
    DivOf(sq * q, root, sq * w);
    DivOf(q' * root, sq, q);
    DivOf(-mu * q, root, -mu * w);
    var p' := sp * (-mu * q / root + p);
    DivOf(p', sp, -mu * w + p);
    DivOf(mu * q', sq, mu * w);
  }

  /** `Correlate` undoes `Decorrelate`. */
  lemma CorrelateDecorrelate(m: MathLib, sq: real, sp: real, mu: real, q': real, p': real)
    requires sq != 0.0 && sp != 0.0 && CorrelationRoot(m, mu) != 0.0
    ensures var u := Decorrelate(m, sq, sp, mu, q', p');
      var c := Correlate(m, sq, sp, mu, u.0, u.1);
      c.0 == q' && c.1 == p'
  {
    DecorrelateThenCorrelate(sq, sp, mu, CorrelationRoot(m, mu), q', p');
  }

  /** The algebra of `CorrelateDecorrelate`, for any non-zero root. */
  lemma DecorrelateThenCorrelate(sq: real, sp: real, mu: real, root: real, q': real, p': real)
    requires sq != 0.0 && sp != 0.0 && root != 0.0
    ensures var q := q' * root / sq;
      var p := p' / sp + mu * q' / sq;
      sq * q / root == q' && sp * (-mu * q / root + p) == p'
  {
    var z := q' / sq;
    assert z * sq == q';
    var q := q' * root / sq;
    DivOf(q' * root, sq, root * z);
    DivOf(sq * q, root, sq * z);
    DivOf(-mu * q, root, -mu * z);
    DivOf(mu * q', sq, mu * z);
    var a := p' / sp;
    assert a * sp == p';
  }

  /** Without correlations the transform only scales each component by its
      RMS size. */
  lemma TransformUncorrelated(m: MathLib, k: Kurth6D, c: Coords)
    requires SqrtLaw(m)
    requires k.muxpx == 0.0 && k.muypy == 0.0 && k.mutpt == 0.0
    ensures CorrelationDefined(m, k)
    ensures Transform(m, k, c) == Stretch(k, c)
  {
    CorrelateUncorrelated(m, k.sigmaX, k.sigmaPx, c.x, c.px);
    CorrelateUncorrelated(m, k.sigmaY, k.sigmaPy, c.y, c.py);
    CorrelateUncorrelated(m, k.sigmaT, k.sigmaPt, c.t, c.pt);
  }

  /** Without correlations a sample is the unscaled point times sqrt(5),
      stretched component by component by its RMS size. */
  lemma SampleUncorrelated(m: MathLib, k: Kurth6D, d: Draws)
    requires SqrtLaw(m)
    requires k.muxpx == 0.0 && k.muypy == 0.0 && k.mutpt == 0.0
    requires Radius(m, d) != 0.0
    ensures Sample(m, k, d) == Some(Stretch(k, Scale(Unscaled(m, d), m.sqrt(5.0))))
  {
    TransformUncorrelated(m, k, Scale(Unscaled(m, d), m.sqrt(5.0)));
    SampleIs(m, k, d);
  }

  /** A defined sample is the transform of sqrt(5) times the unscaled point. */
  lemma SampleIs(m: MathLib, k: Kurth6D, d: Draws)
    requires Radius(m, d) != 0.0 && CorrelationDefined(m, k)
    ensures Sample(m, k, d) == Some(Transform(m, k, Scale(Unscaled(m, d), m.sqrt(5.0))))
  {
  }

  /** Every sample is the correlated image of sqrt(5) times the unscaled
      point: with non-zero RMS sizes, decorrelating each plane of a sample
      recovers that scaled point exactly. */
  lemma SampleDecorrelates(m: MathLib, k: Kurth6D, d: Draws)
    requires Radius(m, d) != 0.0 && CorrelationDefined(m, k)
    requires k.sigmaX != 0.0 && k.sigmaY != 0.0 && k.sigmaT != 0.0
    requires k.sigmaPx != 0.0 && k.sigmaPy != 0.0 && k.sigmaPt != 0.0
    ensures Sample(m, k, d).Some?
    ensures var s := Sample(m, k, d).value;
      var u := Scale(Unscaled(m, d), m.sqrt(5.0));
      var ux := Decorrelate(m, k.sigmaX, k.sigmaPx, k.muxpx, s.x, s.px);
      var uy := Decorrelate(m, k.sigmaY, k.sigmaPy, k.muypy, s.y, s.py);
      var ut := Decorrelate(m, k.sigmaT, k.sigmaPt, k.mutpt, s.t, s.pt);
      && ux.0 == u.x && ux.1 == u.px
      && uy.0 == u.y && uy.1 == u.py
      && ut.0 == u.t && ut.1 == u.pt
  {
    var u := Scale(Unscaled(m, d), m.sqrt(5.0));
    DecorrelateCorrelate(m, k.sigmaX, k.sigmaPx, k.muxpx, u.x, u.px);
    DecorrelateCorrelate(m, k.sigmaY, k.sigmaPy, k.muypy, u.y, u.py);
    DecorrelateCorrelate(m, k.sigmaT, k.sigmaPt, k.mutpt, u.t, u.pt);
  }
}
