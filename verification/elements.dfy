/** The closed set of beamline elements and the operations every element
    offers: a particle push, a reference push, its slice count and length. */
module Elements {
  import opened RealMath
  import opened PhaseSpace
  import opened ReferenceParticle
  import NoneElement
  import ConstFElement
  import ShortRFElement
  import NonlinearLensElement

  /** The element variant, alternatives in declaration order.  The bodies of
      DipEdge, Drift, Multipole, Quad and Sbend are not part of this model,
      so those alternatives carry no parameters and no operation is defined
      for them. */
  datatype KnownElements =
    | None
    | ConstF(constf: ConstFElement.ConstF)
    | DipEdge
    | Drift
    | Multipole
    | NonlinearLens(lens: NonlinearLensElement.NonlinearLens)
    | Quad
    | Sbend
    | ShortRF(rf: ShortRFElement.ShortRF)

  /** A default-constructed element is the first alternative. */
  const Default: KnownElements := None

  /** The alternatives whose behaviour is modelled. */
  predicate Shown(e: KnownElements) {
    e.None? || e.ConstF? || e.NonlinearLens? || e.ShortRF?
  }

  /** Where the particle push is defined: a modelled element whose divisions
      are by non-zero values. */
  predicate PushDefined(e: KnownElements, ref: RefPart) {
    match e
    case None => true
    case ConstF(f) => ConstFElement.PushDefined(f, ref)
    case NonlinearLens(l) => l.cnll != 0.0
    case ShortRF(_) => ShortRFElement.PushDefined(ref)
    case _ => false
  }

  /** Where the reference push is defined. */
  predicate PushRefDefined(m: MathLib, e: KnownElements, r: RefPart) {
    match e
    case ConstF(f) => ConstFElement.PushRefDefined(m, f, r)
    case _ => Shown(e)
  }

  function Push(m: MathLib, e: KnownElements, c: Coords, ref: RefPart): Coords
    requires PushDefined(e, ref)
  {
    match e
    case None => NoneElement.Push(c, ref)
    case ConstF(f) => ConstFElement.Push(m, f, c, ref)
    case NonlinearLens(l) => NonlinearLensElement.Push(m, l, c, ref)
    case ShortRF(rf) => ShortRFElement.Push(rf, c, ref)
  }

  function PushRef(m: MathLib, e: KnownElements, r: RefPart): RefPart
    requires PushRefDefined(m, e, r)
  {
    match e
    case None => NoneElement.PushRef(r)
    case ConstF(f) => ConstFElement.PushRef(m, f, r)
    case NonlinearLens(l) => NonlinearLensElement.PushRef(l, r)
    case ShortRF(rf) => ShortRFElement.PushRef(rf, r)
  }

  /** The number of space-charge slices. */
  function NSlice(e: KnownElements): int
    requires Shown(e)
  {
    match e
    case ConstF(f) => f.nslice
    case _ => 1
  }

  /** The segment length in m. */
  function Ds(e: KnownElements): real
    requires Shown(e)
  {
    match e
    case ConstF(f) => f.ds
    case _ => 0.0
  }

  /** The three zero-length elements: one slice of length zero, a reference
      push that changes nothing, and a particle push that keeps positions. */
  lemma ThinElements(m: MathLib, e: KnownElements, c: Coords, ref: RefPart)
    requires e.None? || e.NonlinearLens? || e.ShortRF?
    ensures NSlice(e) == 1 && Ds(e) == 0.0
    ensures PushRefDefined(m, e, ref) && PushRef(m, e, ref) == ref
    ensures PushDefined(e, ref) ==>
      var r := Push(m, e, c, ref);
      r.x == c.x && r.y == c.y && r.t == c.t
  {
  }

  /** A particle push changes the coordinates only: charge-to-mass ratio and
      weight are kept. */
  function PushParticle(m: MathLib, e: KnownElements, p: Particle, ref: RefPart): (r: Particle)
    requires PushDefined(e, ref)
    ensures r.qm == p.qm && r.w == p.w
  {
    p.(c := Push(m, e, p.c, ref))
  }

  /** Applies one element to every particle of the ensemble, each
      independently and with the same reference particle. */
  method PushAll(m: MathLib, e: KnownElements, ps: seq<Particle>, ref: RefPart)
    returns (qs: seq<Particle>)
    requires PushDefined(e, ref)
    ensures |qs| == |ps|
    ensures forall i :: 0 <= i < |ps| ==> qs[i] == PushParticle(m, e, ps[i], ref)
  {
    qs := [];
    var i := 0;
    while i < |ps|
      invariant 0 <= i <= |ps|
      invariant |qs| == i
      invariant forall j :: 0 <= j < i ==> qs[j] == PushParticle(m, e, ps[j], ref)
    {
      qs := qs + [PushParticle(m, e, ps[i], ref)];
      i := i + 1;
    }
  }

  /** `n` consecutive reference pushes through the same element. */
  function PushRefTimes(m: MathLib, e: KnownElements, r: RefPart, n: nat): RefPart
    requires e.ConstF? ==> PushRefDefined(m, e, r)
    requires Shown(e)
    decreases n
  {
    if n == 0 then r
    else
      var r1 := PushRef(m, e, r);
      assert e.ConstF? ==> PushRefDefined(m, e, r1);
      PushRefTimes(m, e, r1, n - 1)
  }

  /** Through a constant-focusing element, repeated reference pushes are the
      element's own. */
  lemma {:induction false} PushRefTimesConstF(m: MathLib, f: ConstFElement.ConstF, r: RefPart, n: nat)
    requires ConstFElement.PushRefDefined(m, f, r)
    ensures PushRefTimes(m, ConstF(f), r, n) == ConstFElement.PushRefTimes(m, f, r, n)
    decreases n
  {
    if n > 0 {
      PushRefTimesConstF(m, f, ConstFElement.PushRef(m, f, r), n - 1);
    }
  }

  /** Through a zero-length element, repeated reference pushes change nothing. */
  lemma {:induction false} PushRefTimesThin(m: MathLib, e: KnownElements, r: RefPart, n: nat)
    requires e.None? || e.NonlinearLens? || e.ShortRF?
    ensures PushRefTimes(m, e, r, n) == r
    decreases n
  {
    if n > 0 {
      ThinElements(m, e, Origin, r);
      PushRefTimesThin(m, e, r, n - 1);
    }
  }

  /** One reference push per slice, `nslice` of them, advances the path
      length by exactly the element's length. */
  lemma SlicesAdvanceDs(m: MathLib, e: KnownElements, r: RefPart)
    requires Shown(e) && NSlice(e) > 0 && PushRefDefined(m, e, r)
    ensures PushRefTimes(m, e, r, NSlice(e)).s == r.s + Ds(e)
  {
    match e
    case ConstF(f) =>
      PushRefTimesConstF(m, f, r, f.nslice);
      ConstFElement.PushRefAllSlices(m, f, r);
    case None =>
      PushRefTimesThin(m, e, r, 1);
    case NonlinearLens(_) =>
      PushRefTimesThin(m, e, r, 1);
    case ShortRF(_) =>
      PushRefTimesThin(m, e, r, 1);
  }
}
