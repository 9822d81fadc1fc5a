# g4goupil example: source sampling of the detector scene

This project models the Geant4 side of the g4goupil example: the
`DetectorConstruction` of `src/G4Geometry.cpp`, and the two samplers that
fill in a Goupil particle state.

The scene is made of four axis-aligned boxes. A 2 km x 2 km x 1 km air box
sits on a 1 m thick ground layer, and the world box holds both. A
20 m x 20 m x 10 m detector box stands in the air, its bottom 5 cm above the
ground. The constructor also turns the (energy, intensity) source spectrum
into a cumulative table, in place.

- **Forward sampling** (`RandomiseState`) draws an isotropic direction. It
  then draws points uniformly in the air box until one falls outside the
  detector. Finally it takes an energy from the spectrum by inverse-CDF
  lookup.
- **Backward sampling** (`RandomiseBackward`) picks one of the detector's six
  faces in proportion to its area. It places a point 1 um outside that face
  and draws an inward, cosine-weighted direction. It draws a source energy
  from the spectrum. An alpha mixture then either keeps the source energy or
  draws a log-uniform auxiliary energy, and divides the weight by the density
  of the branch taken.
- **Source volume** (`g4randomize_source_volume`) is the air volume minus the
  detector volume, in cm^3.

Modules:

- `Units`, `Maths`, `Search` (units.dfy) hold:
  - the CLHEP units, with the millimetre equal to 1;
  - a positive stand-in for M_PI (the source's fallback literal), and the
    range [0, 1) of a uniform draw;
  - the C maths functions, as a `Libm` record of uninterpreted functions;
  - a generic "first element that satisfies p" search. It specifies the
    source's three scan-and-break loops.
- `Geometry` (geometry.dfy) holds the boxes, the reference constants, the
  layout invariant `WellFormed`, and the source volume.
- `Spectrum` (spectrum.dfy) holds the in-place normalisation and the
  inverse-CDF lookup.
- `Forward` (forward.dfy) holds the rejection loop and the isotropic
  direction.
- `Backward` (backward.dfy) holds the face choice, the face placement, the
  inward direction, the base weight, and the energy mixture.
- `Detector` (detector.dfy) holds the class `DetectorConstruction`, with its
  constructor and both samplers, and the class `GoupilState`, the state the
  samplers write.

Each `G4UniformRand()` call is an explicit argument, required to lie in
[0, 1). The draws are grouped in records (`ForwardDraws`, `BackwardDraws`)
in the order the source consumes them. The samplers' contracts say where
each draw goes: which face, which point, which energy and which weight.

## Model

| member | source | states |
|---|---|---|
| Search.FirstIndex | src/G4Geometry.cpp:157-161 | the index of a scan that stops at the first match: no earlier element matches, and the element at the index matches unless the scan ran off the end |
| Geometry.Arrange | src/G4Geometry.cpp:205-207 | the vector carries the normal value on `axis` and the two in-plane values on `(axis+1)%3` and `(axis+2)%3`, as the indexed writes place them |
| Geometry.DetectorOffset | src/G4Geometry.cpp:34-35 | the detector's bottom face lies 5 cm above the ground's top face, for any box sizes |
| Geometry.ReferenceLayout | src/G4Geometry.cpp:23-35 | the constructor's constants, which `Reference` holds, make a well-formed scene: positive boxes, ground and air share their footprint, world = ground stacked under air, detector strictly inside the air box, its bottom 5 cm above the ground |
| Geometry.CentimetresRoundTrip | src/G4Geometry.cpp:150-152 | dividing every coordinate by cm and multiplying it back are inverse conversions |
| Geometry.Centred | src/G4Geometry.cpp:139-141 | `size * (0.5 - u)` with `u` in [0, 1) lies in (-size/2, size/2] |
| Geometry.SourceVolumePositive | src/G4Geometry.cpp:303-309 | for every well-formed scene, `SourceVolume`, the model of `g4randomize_source_volume` ((air volume - detector volume) / cm3), is positive |
| Geometry.ReferenceSourceVolume | src/G4Geometry.cpp:303-309 | for the reference scene the source volume is 3999996000000000 cm^3 |
| Spectrum.Normalise | src/G4Geometry.cpp:37-47 | after the two loops, each line keeps its energy and its weight is the share of the total intensity carried by this line and all lines before it |
| Spectrum.Accumulate | src/G4Geometry.cpp:43-47 | the second loop, in place: line j's weight becomes the running sum of the scaled intensities of lines 0 to j, and every energy is kept |
| Spectrum.RunningIsCdf | src/G4Geometry.cpp:42-46 | the running sum of intensities times `1/total` equals the prefix sum divided by the total |
| Spectrum.CdfIsTable | src/G4Geometry.cpp:37-47 | normalising non-negative intensities with a positive sum gives a table of the same length and energies, with weights in [0, 1], non-decreasing, and ending at exactly 1 |
| Spectrum.Lookup | src/G4Geometry.cpp:155-162 | the sampled energy is always one of the table's energies |
| Spectrum.SampleEnergy | src/G4Geometry.cpp:155-162 | the scan returns the energy of the first line whose cumulative weight reaches `u`, or the last line's energy when none does |
| Spectrum.LookupPicksBucket | src/G4Geometry.cpp:157-161 | on a non-decreasing table, line `i` is picked if and only if `u` lies in (weight of line i-1, weight of line i] |
| Spectrum.LookupFallback | src/G4Geometry.cpp:155 | when no line covers `u`, the last energy is returned |
| Spectrum.LookupNeverFallsBack | src/G4Geometry.cpp:155-162 | on a cumulative table, every `u <= 1` is covered by some line |
| Spectrum.LookupZero | src/G4Geometry.cpp:156-161 | a draw of 0 selects the first line of a non-negative table |
| Spectrum.ThreeLineExample | src/G4Geometry.cpp:37-47 | intensities (1, 1, 2) normalise to (0.25, 0.5, 1), and a draw of 0.3 then selects the second line |
| Forward.CandidateInAirBox | src/G4Geometry.cpp:137-141 | every point the rejection loop proposes (`Candidate`, the loop body) lies in the air box |
| Forward.SamplePosition | src/G4Geometry.cpp:136-149 | the draws run out if and only if every proposed point is inside the detector; otherwise the accepted draw is the first one that passes the exit test `Escapes`, and its point is in the air box and outside the detector |
| Forward.IsotropicDirection | src/G4Geometry.cpp:124-133 | the direction's z component, cos(theta) = 2u - 1, lies in [-1, 1) |
| Backward.FillPrefixes | src/G4Geometry.cpp:168-175 | c[k] is the sum of the face areas (`FaceArea`, the product of the two other sides) of axes 0 to k |
| Backward.BucketIsFaceArea | src/G4Geometry.cpp:172-174 | the width of the bucket of `axis` in [0, c[2]] is the area of the face perpendicular to `axis` |
| Backward.FaceAxis | src/G4Geometry.cpp:177-180 | the clamped scan yields an axis in {0, 1, 2} |
| Backward.FaceSide | src/G4Geometry.cpp:181-182 | the side is -1 or +1 |
| Backward.ChooseFace | src/G4Geometry.cpp:176-182 | any draw selects a valid face: an axis below 3 and a side of -1 or +1 |
| Backward.SelectFace | src/G4Geometry.cpp:168-182 | the loops return c[2], the total of the face areas, and the face `ChooseFace` selects for the draw |
| Backward.SideTest | src/G4Geometry.cpp:181-182 | the test `c[axis] - r > delta/2` is the test "r lies in the lower half of the bucket" |
| Backward.PrefixesIncreasing | src/G4Geometry.cpp:171-175 | for a box with positive sides, 0 < c[0] < c[1] < c[2] |
| Backward.FaceAxisInBucket | src/G4Geometry.cpp:177-180 | for r in [0, c[2]] the scan always finds a bucket, so the clamp to axis 2 never fires, and r lies within that bucket |
| Backward.ScaledDraw | src/G4Geometry.cpp:176 | `r = s * u` lies in [0, s) |
| Backward.FaceChoiceIsInterval | src/G4Geometry.cpp:176-182 | the scan and side test select (axis, dir) if and only if r lies in that face's interval; the six intervals partition [0, c[2]] |
| Backward.ChooseFaceInterval | src/G4Geometry.cpp:168-182 | for a real box and a uniform draw, face (axis, dir) is chosen if and only if the scaled draw is in its interval; that interval is half of a bucket as wide as the face's area, so faces are chosen in proportion to their area |
| Backward.PlaceOnFace | src/G4Geometry.cpp:185-196 | the three placement loops yield the face point `FaceLocation`, converted to cm |
| Backward.ToCentimetres | src/G4Geometry.cpp:194-196 | every coordinate of the position array is divided by cm, in place |
| Backward.FaceLocationNormal | src/G4Geometry.cpp:187-188 | along the chosen axis, the point lies half the extent plus 1 um from the detector's centre, on side `dir`, so strictly beyond the face |
| Backward.FaceLocationInPlane | src/G4Geometry.cpp:189-193 | on the two other axes, the point lies within the face: within half the extent of the centre |
| Backward.FaceLocationOutside | src/G4Geometry.cpp:184-193 | the placed point is never inside the detector |
| Backward.InwardDirection | src/G4Geometry.cpp:199-207 | the direction's component on the face's axis is `-dir * sqrt(u)`; whenever sqrt is non-negative, it points into the detector, or along the face, never away from it |
| Backward.BaseWeightPositive | src/G4Geometry.cpp:197-208 | for a detector box with positive sides, the geometric weight `BaseWeight`, `2 * c[2] / cm2 * pi`, is positive and equals pi times the box's whole surface area, in cm^2 |
| Backward.Mix | src/G4Geometry.cpp:222-232 | below alpha the source energy is kept; otherwise the energy is `Emin * exp(ln(source/Emin) * u)` |
| Backward.SampleMixture | src/G4Geometry.cpp:222-232 | the branch computes the energy and weight of `Mix` from the incoming weight |
| Backward.MixWeight | src/G4Geometry.cpp:223-231 | the weight undoes the branch probability: weight * alpha = base when the source energy is kept, and weight * (1 - alpha) = base * E * ln(source/Emin) otherwise |
| Backward.MixExtremes | src/G4Geometry.cpp:223-231 | alpha >= 1 always keeps the source energy; alpha = 1 also keeps the base weight; alpha <= 0 always draws the auxiliary energy |
| Backward.MixPositive | src/G4Geometry.cpp:223-231 | a positive base weight stays positive when the source energy is kept, and in the auxiliary branch when the logarithm and the drawn energy are positive |
| Detector.DetectorConstruction.constructor | src/G4Geometry.cpp:23-47 | sets the reference dimensions, normalises the spectrum in place into its cumulative table, and establishes the invariant that the scene is well formed and the table is cumulative |
| Detector.DetectorConstruction.RandomiseState | src/G4Geometry.cpp:123-163 | the direction is the isotropic one; the position, in cm, is the first escaping draw's point, which lies in the air box and outside the detector; the energy is the spectrum lookup; the weight is unchanged |
| Detector.DetectorConstruction.RandomiseBackward | src/G4Geometry.cpp:165-245 | the state is placed on the chosen face; its direction is inward; the point is outside the detector; the returned source energy is the spectrum lookup; energy and weight are the mixture applied to the base weight |

## Left out

- `Construct`, `PlaceInVolume`, `G4Goupil::NewGeometry` and `G4Goupil::DropGeometry` are not modelled. They build and free the Geant4 volume hierarchy, which holds no logic beyond the box sizes already modelled.
- `Singleton` is not modelled. It is object lifetime only.
- `InitialisePrng` and `initialize` are not modelled. They seed the Mersenne Twister from `/dev/urandom`, which is I/O.
- `g4randomize_states` and `g4randomize_backward` are not modelled. They are plain loops that call the two samplers once per output slot.
- No guard against a zero-size detector or an alpha outside [0, 1] is modelled, because the source has none. The model follows the code.
- The random engine is not modelled. Each `G4UniformRand()` value is a parameter in [0, 1). No statistical claim (uniformity, isotropy, unbiasedness) is proved beyond the interval partition of the face choice and the weight identities of the mixture.
- sqrt, sin, cos, log and exp are uninterpreted. Hence the direction is not proved to have unit length, and only the sign of its normal component is proved, and only when sqrt is non-negative.
- Arithmetic is on exact reals. IEEE double rounding is not modelled. Neither is `norm = 1/0` becoming infinity for a zero-sum spectrum, which the constructor's precondition excludes.
- The spectrum's contents are set in the header `G4Geometry.hh`, which is not part of this model. The constructor takes any intensities that are non-negative with a positive sum.
- Detector.DetectorConstruction.RandomiseState: the source's rejection loop is unbounded. Here it runs over a finite sequence of draws, and the method requires that one of them escapes the detector.
- Detector.DetectorConstruction.RandomiseState: never writes `state->weight` (src/G4Geometry.cpp:123-163), so the caller's value is kept.
- Forward.SamplePosition: when the draws run out it returns `Exhausted`. The source would keep drawing.
- Backward.InwardDirection: the direction is built as a value with `Arrange`, not by three writes into a local array. The resulting components are the same.
- Backward.Mix: alpha is not validated by the source and is not constrained here. Neither division is by zero for any alpha, since the branch taken guarantees a non-zero divisor.
