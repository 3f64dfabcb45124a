/** The empty element: it leaves particles and the reference particle alone. */
module NoneElement {
  import opened PhaseSpace
  import opened ReferenceParticle

  /** The push of one particle: nothing to do. */
  function Push(c: Coords, ref: RefPart): Coords {
    c
  }

  /** The push of the reference particle: nothing to do. */
  function PushRef(r: RefPart): RefPart {
    r
  }

  /** Every coordinate is left as it was, and pushing twice is pushing once. */
  lemma PushIdentity(c: Coords, ref: RefPart)
    ensures var r := Push(c, ref);
      && r.x == c.x && r.y == c.y && r.t == c.t
      && r.px == c.px && r.py == c.py && r.pt == c.pt
      && Push(r, ref) == r
  {
  }
}
