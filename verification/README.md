# ImpactX beam-transport kernel in Dafny

This project models the per-particle kernel of ImpactX, a particle-tracking
code for beam dynamics, over exact reals. It also proves the algebraic
identities that the kernel relies on. The model covers:

- **the reference particle** (`RefPart`): its relativistic factors gamma,
  beta and beta·gamma, all derived from `pt = -gamma`, and its MeV/kg and
  e/C unit conversions;
- **the two frame transformations**: `ToFixedS` (fixed time to fixed arc
  length) and `ToFixedT` (its inverse). Each includes its always-on design
  guard as an error result and its debug-only particle fallback as an
  explicit branch;
- **the element maps**: `None`, `ConstF` (linear focusing, sliced),
  `ShortRF` (thin bunching kick) and `NonlinearLens` (the IOTA complex
  potential kick). Each has a particle push, a reference push, a slice
  count and a length. They are gathered in the `KnownElements` variant,
  and a push is lifted over a sequence of particles;
- **the 6D Kurth sampler**: a pure function of six uniform draws, followed
  by the sqrt(5) covariance scaling and the per-plane correlation
  transform;
- **the nonlinear-lens invariants diagnostic** `(x, y, px, py) -> (H, I)`;
- **the particle container's own state**: the reference-particle slot,
  the set-once particle-shape slot, and the per-axis extrema and
  mean/standard-deviation reductions over the ensemble.

Transcendental functions are not defined. These are `sqrt`, `sin`, `cos`,
the cube root, and complex `sqrt`, `log` and division. They are fields of
a `RealMath.MathLib` record that every operation takes as a parameter.
The laws that a proof needs are ghost predicates on that record, and only
the lemmas that use a law require it:

- `SqrtLaw`: `sqrt(a) >= 0` and `sqrt(a)² = a` for `a >= 0`;
- `TrigLaw`: `sin² + cos² = 1`;
- `CbrtLaw`: `cbrt(a) >= 0` and `cbrt(a)³ = a` for `a >= 0`;
- `ComplexLaw`: complex `sqrt(1) = 1`, `log(1) = 0`, and division by one.

Every division in the source needs its divisor to be non-zero, and the
operations state this as a precondition. The source itself would produce
an infinity or a NaN instead.

Modules follow the source layout:

| module | file | source |
|---|---|---|
| `RealMath` | `math.dfy` | the complex type and the transcendental functions |
| `PhaseSpace`, `Results` | `phase_space.dfy` | particle coordinates; `Option` and `Result` |
| `ReferenceParticle` | `reference_particle.dfy` | `src/particles/ReferenceParticle.H` |
| `Transformation` | `transformation.dfy` | `src/particles/transformation/ToFixedS.H`, `ToFixedT.H` |
| `FrameRoundTrip` | `frame_round_trip.dfy` | properties of the two transformations |
| `NoneElement`, `ConstFElement`, `ShortRFElement` | `none_element.dfy`, `constf.dfy`, `shortrf.dfy` | `src/particles/elements/*.H` |
| `LensPotential`, `NonlinearLensElement` | `nonlinear_lens.dfy` | `src/particles/elements/NonlinearLens.H` |
| `Elements` | `elements.dfy` | `src/particles/elements/All.H` |
| `Kurth6DDistribution` | `kurth6d.dfy` | `src/particles/distribution/Kurth6D.H` |
| `LensInvariants` | `nonlinear_lens_invariants.dfy` | `src/particles/diagnostics/NonlinearLensInvariants.H` |
| `Moments`, `ParticleContainer` | `moments.dfy`, `particle_container.dfy` | `src/particles/ImpactXParticleContainer.H` |

## Model

| member | source | states |
|---|---|---|
| ReferenceParticle.BetaGammaOfUnique | src/particles/ReferenceParticle.H:73-80 | beta·gamma is the one non-negative number whose square is pt² - 1 |
| ReferenceParticle.KinematicsConsistent | src/particles/ReferenceParticle.H:46-80 | for gamma >= 1: (beta·gamma)² = gamma² - 1, beta·gamma >= 0, beta times gamma is beta·gamma, and 0 <= beta < 1 |
| ReferenceParticle.BetaGammaSquaredIs | src/particles/elements/ConstF.H:68-69 | for gamma >= 1, the root-free pt² - 1 that the elements use is the square of beta·gamma |
| ReferenceParticle.SetMassMeV | src/particles/ReferenceParticle.H:102-120 | with a non-zero mass: afterwards mass_MeV() returns the new mass; pt is unchanged, because the energy is read back with the new mass; pz becomes beta·gamma when pt != 0 and is otherwise kept; no other field changes |
| ReferenceParticle.SetMassTwice | src/particles/ReferenceParticle.H:102-120 | setting the mass twice is the same as setting the last value once |
| ReferenceParticle.SetEnergyMeV | src/particles/ReferenceParticle.H:143-156 | with the mass set: energy_MeV() returns the new energy and gamma = 1 + E/mass; px = py = 0 and pz = beta·gamma; no other field changes |
| ReferenceParticle.SetEnergyThenMass | src/particles/ReferenceParticle.H:102-156 | changing the mass after setting the energy keeps that energy's gamma and stores the new mass |
| ReferenceParticle.SetChargeQe | src/particles/ReferenceParticle.H:178-186 | charge_qe() returns the charge that was set; only the charge changes |
| ReferenceParticle.QmQeeV | src/particles/ReferenceParticle.H:194-197 | for a non-zero mass, the ratio times the mass is the charge in C; in the source's units it is the charge in e, times e, over the mass in MeV, times kg per MeV |
| Transformation.ToFixedS | src/particles/transformation/ToFixedS.H:53-97 | the design guard never fires, so the result is always Ok; px and py come back unchanged; when t = 0, x and y are unchanged and the new t is 0 |
| Transformation.DriftToT | src/particles/transformation/ToFixedT.H:76-87 | when the particle radicand is not positive, the fallback pz = 0 gives a new t of 0 and a new pt of -pzd |
| Transformation.ToFixedT | src/particles/transformation/ToFixedT.H:53-97 | fails, with the design-argument error, exactly when ptd² <= 1; otherwise px and py come back unchanged; t = 0 keeps x and y and gives t = 0; a non-positive particle radicand gives t = 0 and pt = -1 |
| FrameRoundTrip.SArgAtLeastOne | src/particles/transformation/ToFixedS.H:76-78 | the particle radicand 1 + pz² + px² + py² is at least 1 for every input, so the fallback ptf = -1 is unreachable |
| FrameRoundTrip.StaticDynamic | src/particles/transformation/ToFixedS.H:71-93 | for a non-zero design momentum, scaling momenta to dynamic units and back, in either order, is the identity |
| FrameRoundTrip.DriftToSGamma | src/particles/transformation/ToFixedS.H:76-87 | after the fixed-s update, the design -gamma plus the new pt is minus the particle gamma, with gamma >= 1 and gamma² = 1 + pz² + px² + py² |
| FrameRoundTrip.DriftToTPz | src/particles/transformation/ToFixedT.H:76-87 | for a positive radicand, the design pz plus the new pt is the particle pz, and its square is pt² - px² - py² - 1 |
| FrameRoundTrip.TArgAfterS | src/particles/transformation/ToFixedT.H:76-78 | after a fixed-s update, ToFixedT's particle radicand equals pz² > 0, so a round trip never takes the pz = 0 fallback |
| FrameRoundTrip.DriftSThenT | src/particles/transformation/ToFixedS.H:76-87 | in dynamic units, the fixed-t update undoes the fixed-s update for any particle with pz > 0 |
| FrameRoundTrip.DriftTThenS | src/particles/transformation/ToFixedT.H:76-87 | in dynamic units, the fixed-s update undoes the fixed-t update for any particle with a positive radicand and negative pt |
| FrameRoundTrip.DesignEnergyOf | src/particles/transformation/ToFixedT.H:65-71 | the design energy -sqrt(1 + pzd²) passes ToFixedT's design guard and gives back the same pzd |
| FrameRoundTrip.ToFixedSThenT | src/particles/transformation/ToFixedS.H:53-97 | for pzd > 0 and pzd·(1 + pt) > 0, ToFixedT at the design energy -sqrt(1 + pzd²) after ToFixedS(pzd) returns the original six coordinates |
| FrameRoundTrip.ToFixedTThenS | src/particles/transformation/ToFixedT.H:53-97 | for ptd < -1, a positive particle radicand and a negative dynamic energy, ToFixedS at sqrt(ptd² - 1) after ToFixedT(ptd) returns the original six coordinates |
| NoneElement.PushIdentity | src/particles/elements/None.H:41-49 | the push leaves all six coordinates unchanged, so pushing twice equals pushing once |
| ConstFElement.Push | src/particles/elements/ConstF.H:53-94 | a particle at the phase-space origin stays there |
| ConstFElement.FocusDeterminant | src/particles/elements/ConstF.H:80-87 | each plane's 2×2 matrix has determinant one, with the factor k·b cancelling |
| ConstFElement.PushDeterminant | src/particles/elements/ConstF.H:68-87 | the push is linear and decoupled: in each plane, the new (q, p) is a matrix fixed by the element and the reference particle, applied to that plane's own (q, p); the matrix has determinant one, including in the t plane with its (beta·gamma)² factors, so phase-space area is preserved |
| ConstFElement.PushPlaneOrigin | src/particles/elements/ConstF.H:80-87 | a particle at the origin of one plane stays at that plane's origin |
| ConstFElement.PushRef | src/particles/elements/ConstF.H:101-132 | one reference push adds the slice length ds/nslice to s and changes only x, y, z, t and s |
| ConstFElement.PushRefOnAxis | src/particles/elements/ConstF.H:118-127 | an on-axis physical reference particle moves by the slice length in z and by slice_ds/beta in t, and not in x or y |
| ConstFElement.PushRefPathLength | src/particles/elements/ConstF.H:118-127 | a physical reference particle off axis (any px, py, pz with px² + py² + pz² = pt² - 1 and gamma > 1) moves a Euclidean distance of exactly the slice length in (x, y, z) |
| ConstFElement.PushRefTimes | src/particles/elements/ConstF.H:118-130 | n reference pushes add n slice lengths to s and keep the momenta, mass and charge |
| ConstFElement.PushRefAllSlices | src/particles/elements/ConstF.H:139-152 | nslice reference pushes advance s by exactly ds |
| ShortRFElement.Push | src/particles/elements/ShortRF.H:72-79 | x, y and t are unchanged |
| ShortRFElement.PushPlane | src/particles/elements/ShortRF.H:63-79 | in each plane, q stays and p gains kick·q, where the kick is k·V/(2(beta·gamma)²) for x and y and -k·V for t |
| ShortRFElement.PushDeterminant | src/particles/elements/ShortRF.H:72-79 | each plane's map is unit-triangular, with determinant one |
| ShortRFElement.PushIdentity | src/particles/elements/ShortRF.H:73-79 | with V = 0, or for a particle at x = y = t = 0, the push is the identity |
| LensPotential.CRootAtOrigin | src/particles/elements/NonlinearLens.H:86-88 | croot = sqrt(1 - ζ²) is 1 at ζ = 0 |
| LensPotential.CArcsinAtOrigin | src/particles/elements/NonlinearLens.H:91-92 | carcsin = -i·log(iζ + croot) is 0 at ζ = 0 |
| NonlinearLensElement.DFAtOrigin | src/particles/elements/NonlinearLens.H:95-96 | the field F'(ζ) = ζ/croot² + carcsin/croot³ vanishes at ζ = 0 |
| NonlinearLensElement.Push | src/particles/elements/NonlinearLens.H:54-118 | x, y, t and pt are unchanged: the lens kicks only the transverse momenta |
| NonlinearLensElement.ZeroStrength | src/particles/elements/NonlinearLens.H:99-108 | a lens of zero strength knll = 0 is the identity, whatever the field |
| NonlinearLensElement.PushCompose | src/particles/elements/NonlinearLens.H:81-108 | the kick is additive in the strength: a push with strength k1 followed by one with k2 (same cnll) equals one push with k1 + k2, since the push keeps x and y and so the field F'(x + iy) |
| NonlinearLensElement.PushInverse | src/particles/elements/NonlinearLens.H:81-108 | the lens of opposite strength -knll undoes the push of every particle, whatever the field |
| NonlinearLensElement.PushOnAxis | src/particles/elements/NonlinearLens.H:81-108 | a particle at x = y = 0 passes unchanged |
| Elements.ThinElements | src/particles/elements/ShortRF.H:93-119 | None, ShortRF and NonlinearLens have one slice of length 0 and leave the reference particle alone, and their pushes keep x, y and t |
| Elements.PushParticle | src/particles/elements/ConstF.H:53-59 | a push changes only the coordinates: the charge-to-mass ratio and the weight are kept |
| Elements.PushAll | src/particles/elements/All.H:28-31 | applying any element of the variant to an ensemble pushes each particle with the same reference particle, in order (the loop itself is not part of this model; see Left out) |
| Elements.PushRefTimesConstF | src/particles/elements/ConstF.H:101-132 | through the variant, the repeated reference push of ConstF is ConstF's own |
| Elements.PushRefTimesThin | src/particles/elements/None.H:56-61 | any number of reference pushes through a thin element leaves the reference particle unchanged |
| Elements.SlicesAdvanceDs | src/particles/elements/ConstF.H:139-152 | for every modelled element, nslice() reference pushes advance s by ds() |
| Kurth6DDistribution.ScaleInverse | src/particles/distribution/Kurth6D.H:113-119 | the common scaling of all six components by a non-zero factor is undone by scaling with its reciprocal |
| Kurth6DDistribution.Sample | src/particles/distribution/Kurth6D.H:59-137 | a sample exists exactly when the radius is non-zero and, in each plane, the correlation lies strictly between -1 and 1 and its root sqrt(1 - mu²) is non-zero |
| Kurth6DDistribution.SampleMany | src/particles/distribution/Kurth6D.H:77-102 | sample i uses exactly the uniforms 6i to 6i+5, in the order the sampler draws them, and the rest of the stream is returned unread |
| Kurth6DDistribution.CosThetaInRange | src/particles/distribution/Kurth6D.H:78-80 | a draw in [0, 1] gives cos(theta) in [-1, 1], so the radicand of sin(theta) lies in [0, 1] and sin² + cos² = 1 |
| Kurth6DDistribution.AngularMomentumBound | src/particles/distribution/Kurth6D.H:91-92 | 0 <= L <= r |
| Kurth6DDistribution.AngularRatio | src/particles/distribution/Kurth6D.H:91-105 | L/r is the square root of the fourth draw |
| Kurth6DDistribution.PmaxArgFactors | src/particles/distribution/Kurth6D.H:97-98 | the pmax radicand factors as (1 - r²)(1 - (L/r)²) = (1 - r²)(1 - u), and so is non-negative |
| Kurth6DDistribution.RadialMomentumBound | src/particles/distribution/Kurth6D.H:95-99 | pr² is at most the pmax radicand |
| Kurth6DDistribution.SphericalGeometry | src/particles/distribution/Kurth6D.H:85-110 | the spherical-to-Cartesian formulas keep lengths: \|q\|² = r², \|p\|² = pr² + p1² + p2², and q·p = r·pr |
| Kurth6DDistribution.InUnitBall | src/particles/distribution/Kurth6D.H:85-88 | before scaling, x² + y² + t² = r², with 0 < r <= 1 |
| Kurth6DDistribution.MomentumDecomposition | src/particles/distribution/Kurth6D.H:99-110 | before scaling, \|p\|² = pr² + (L/r)² and q·p = r·pr |
| Kurth6DDistribution.CorrelateUncorrelated | src/particles/distribution/Kurth6D.H:122-126 | with mu = 0 the root is 1, so q' = sigma_q·q and p' = sigma_p·p |
| Kurth6DDistribution.DecorrelateCorrelate | src/particles/distribution/Kurth6D.H:122-126 | with non-zero RMS sizes, the per-plane correlation map can be inverted: its inverse recovers (q, p) |
| Kurth6DDistribution.CorrelateDecorrelate | src/particles/distribution/Kurth6D.H:122-126 | the correlation map applied after its inverse returns (q', p') |
| Kurth6DDistribution.TransformUncorrelated | src/particles/distribution/Kurth6D.H:121-136 | without correlations, the transform multiplies each component by its RMS size |
| Kurth6DDistribution.SampleUncorrelated | src/particles/distribution/Kurth6D.H:113-136 | without correlations, a sample exists and is the unscaled point times sqrt(5), multiplied component by component by its RMS size |
| Kurth6DDistribution.SampleDecorrelates | src/particles/distribution/Kurth6D.H:113-136 | with non-zero RMS sizes, decorrelating each plane of a sample recovers sqrt(5) times the unscaled point |
| LensInvariants.ZetaPlusConjugate | src/particles/diagnostics/NonlinearLensInvariants.H:89-90 | ζ + conj(ζ) is the real number 2·xn |
| LensInvariants.BareInvariants | src/particles/diagnostics/NonlinearLensInvariants.H:116-119 | with tn = 0: H = (xn² + yn² + pxn² + pyn²)/2 and I = Jz² + pxn² + xn²; both are >= 0; H = 0 exactly at the normalised origin; I = 0 exactly when xn = pxn = 0 |
| LensInvariants.PotentialsAtOrigin | src/particles/diagnostics/NonlinearLensInvariants.H:95-109 | both complex potentials have real part 0 at ζ = 0 |
| LensInvariants.InvariantsOfOrigin | src/particles/diagnostics/NonlinearLensInvariants.H:104-121 | at the normalised origin, H = I = 0 for any tn |
| LensInvariants.NormalizeOrigin | src/particles/diagnostics/NonlinearLensInvariants.H:83-86 | both normalisations map the origin to the origin |
| LensInvariants.InvariantsAtOrigin | src/particles/diagnostics/NonlinearLensInvariants.H:83-121 | at x = y = px = py = 0, H and I are both 0, for the code as written and for the corrected normalisation |
| LensInvariants.DenormalizeNormalize | src/particles/diagnostics/NonlinearLensInvariants.H:83-86 | for beta > 0, the corrected normalisation can be inverted and recovers (x, y, px, py) |
| LensInvariants.NormalizeCourantSnyder | src/particles/diagnostics/NonlinearLensInvariants.H:83-86 | under the corrected normalisation, (xn² + pxn²)·cn² is the Courant-Snyder invariant ((1+α²)/β)x² + 2αx·px + β·px² of the bare lattice, and likewise in y |
| LensInvariants.AsWrittenBreaksCourantSnyder | src/particles/diagnostics/NonlinearLensInvariants.H:85-86 | as written, the normalisation does not give the Courant-Snyder invariant: at α = β = 1, cn = 2, x = 2, px = 0 it gives 20 where the invariant is 8 |
| Moments.Min | src/particles/ImpactXParticleContainer.H:167-175 | the minimum is an element of the sequence and at most every element |
| Moments.Max | src/particles/ImpactXParticleContainer.H:167-175 | the maximum is an element of the sequence and at least every element |
| Moments.MinMax | src/particles/ImpactXParticleContainer.H:167-175 | a single scan returns the minimum and maximum, which bound every element and occur in the sequence |
| Moments.MeanStd | src/particles/ImpactXParticleContainer.H:177-185 | a single scan returns the mean and the one-pass standard deviation, and the mean times the count is the sum |
| Moments.VarianceAgrees | src/particles/ImpactXParticleContainer.H:177-185 | the one-pass radicand, mean square minus squared mean, equals the two-pass variance Σ(x - mean)²/n, and so is never negative |
| Moments.StdNonNegative | src/particles/ImpactXParticleContainer.H:177-185 | the standard deviation is >= 0, and its square is the two-pass variance |
| Moments.MeanBetween | src/particles/ImpactXParticleContainer.H:177-185 | the mean lies between the minimum and the maximum |
| ParticleContainer.SetRefParticle | src/particles/ImpactXParticleContainer.H:123-128 | after setting, the reference particle reads back as the value set; the shape and the particles are untouched |
| ParticleContainer.RefParticleCell | src/particles/ImpactXParticleContainer.H:123-142 | get after set returns what was set, the last set wins, and setting what was read changes nothing |
| ParticleContainer.SetParticleShape | src/particles/ImpactXParticleContainer.H:149-165 | succeeds exactly when no shape is set yet; otherwise it fails with the already-set error; nothing else changes |
| ParticleContainer.GetParticleShape | src/particles/ImpactXParticleContainer.H:146-147 | succeeds exactly when a shape is set; otherwise it fails with the not-set error |
| ParticleContainer.ShapeSetOnce | src/particles/ImpactXParticleContainer.H:146-165 | a fresh container has no shape; after the first set the order reads back, and a second set fails |
| ParticleContainer.ShapeNeverChanges | src/particles/ImpactXParticleContainer.H:149-165 | once a shape is set, every later set fails and the stored order stays readable |
| ParticleContainer.MinAndMaxPositions | src/particles/ImpactXParticleContainer.H:167-175 | on a non-empty ensemble, for every particle and each axis x, y and t: min <= position <= max, and both extrema are attained |
| ParticleContainer.AxisStatistics | src/particles/ImpactXParticleContainer.H:177-185 | the mean of an axis lies within its extrema, and the standard deviation is non-negative |
| ParticleContainer.MeanAndStdPositions | src/particles/ImpactXParticleContainer.H:177-185 | per axis, returns the mean and the standard deviation of the positions; each mean lies within that axis's extrema, and each standard deviation is >= 0 |

## Left out

- Floating-point rounding is not modelled: everything is over exact reals, and so are the round trips, which in floating point hold only up to rounding. A division by zero, which C++ turns into infinity or NaN, is a precondition here. The one exception is Kurth6D, where a zero divisor, or a correlation outside (-1, 1) whose root would be NaN, makes the sample `None`; for draws in [0, 1], the only ones the random engine gives, no other step of a sample divides by zero or takes the root of a negative number.
- The random engine is not modelled. A sample takes its six uniforms as input (`Draws`), and `SampleMany` takes them from a stream. The statistical moments of the sampled beam are not modelled either.
- Complex `sqrt`, `log` and division, and real `sqrt`, `sin`, `cos` and the cube root, are uninterpreted. Only the laws listed above are assumed, by the lemmas that need them.
- The square root of a negative number, NaN in the source, is an arbitrary real in the model, and it is not an error case except for the Kurth6D correlation root. This touches `ReferenceParticle.BetaGammaOf` and `ReferenceParticle.Beta` for \|pt\| < 1 (so the pz that `SetMassMeV` and `SetEnergyMeV` recompute, and the ConstF reference step), and sqrt(β) in the nonlinear-lens invariants for β < 0. `SqrtLaw` says nothing about such a value, so the lemmas that describe these quantities require gamma >= 1 or beta > 0.
- Kurth6DDistribution.Sample: is `None` only for a zero radius or a bad correlation, and does not also fail for draws outside [0, 1], because the random engine only gives draws in [0, 1]. For other draws (say v < 0, L < 0, or a cos(theta) outside [-1, 1]) the sampling radicands can be negative, which is NaN in the source, and the model builds the sample from the arbitrary roots instead. The lemmas about a sample's geometry require `Uniform(d)`.
- `ParticleContainer.GetRefParticle`: the source hands out a mutable reference that callers update in place. The model returns a copy, and an in-place update is expressed as `SetRefParticle` applied to a modified copy.
- The DipEdge, Drift, Multipole, Quad and Sbend elements are not part of this model. They are constructors of `KnownElements` without parameters, and no operation is defined for them.
- `Elements.PushAll`: the loop that applies an element to every particle of the container is not part of this model, since its definition is not in the headers. The method states what such a loop computes: the per-particle push over the element variant of `All.H`, applied to each particle in order.
- The particle pushes take the reference particle by value, and every push in this model is a pure function of its arguments. So "a push cannot change the reference particle" holds by construction, and so does "the invariants depend only on their inputs". Neither has a lemma of its own.
- `ConstFElement.Push`, `ShortRFElement.Push` and `NonlinearLensElement.Push` model the per-slice map only. Pushing a particle nslice times belongs to the tracking loop, which is not part of this model.
- The reference pushes of ShortRF and NonlinearLens are identities without a contract of their own. Their behaviour is stated through `Elements.ThinElements` and `Elements.PushRefTimesThin`.
- `MinAndMaxPositions` and `MeanAndStdPositions` are specified from their documentation, since their definitions are not part of this model:
  - they are unweighted;
  - the standard deviation is the one-pass population form, sqrt(mean square minus squared mean);
  - the third axis is t, the longitudinal position at fixed s;
  - an empty ensemble, where the reductions would return infinities or NaN, is excluded by a precondition.
- The parallel (MPI) reduction behind these statistics is not modelled.
- `AddNParticles`, `DepositCharge`, the ParmParse overload of `SetParticleShape` and `evolve` are not part of this model: their definitions are not in the headers. The mesh, AMReX and MPI plumbing and the Python bindings are left out for the same reason.
- `ParticleContainer.SetParticleShape` accepts any order. The range of orders that the particle-shape order supports is checked in code that is not part of this model.
- `ReferenceParticle.QmQeeV`: the value is charge over mass in C/kg, as the code computes it, whatever the name suggests.
- `ReferenceParticle.SetMassMeV` is modelled as written. The mass is stored before the energy is read back, so in exact arithmetic pt is recomputed to its old value.
- `Transformation.ToFixedS` and `Transformation.ToFixedT` do not model debug-build aborts. The particle-level guards are debug-only assertions; the model takes the release-build fallback (ptf = -1 or pz = 0) instead.

## Findings

| source | as written | input that shows it | evidently intended | confidence | as-written member | corrected member |
|---|---|---|---|---|---|---|
| src/particles/diagnostics/NonlinearLensInvariants.H:85-86 | `pxn = px·sqrt(β)/cn + α·x` and `pyn = py·sqrt(β)/cn + α·y` add α times the raw position, in metres, to a dimensionless normalised momentum | α = 1, β = 1, tn = 0, cn = 2, x = 2, y = px = py = 0: as written (xn² + pxn²)·cn² = 20, but the Courant-Snyder invariant of the bare lattice is 8 | `pxn = px·sqrt(β)/cn + α·xn` (and likewise in y), which makes (xn² + pxn²)·cn² the Courant-Snyder invariant | medium, not executed | LensInvariants.AsWrittenBreaksCourantSnyder | LensInvariants.NormalizeCourantSnyder |
