/** DetectorConstruction: the scene's dimensions, the normalised source
    spectrum, and the two samplers that fill in a particle state. */
module Detector {
  import opened Units
  import opened Maths
  import opened Search
  import opened Geometry
  import opened Spectrum
  import opened Forward
  import opened Backward

  /** The goupil_state record the samplers write through their pointer
      argument: position in cm, direction, energy and statistical weight. */
  class GoupilState {
    var position: Vec3
    var direction: Vec3
    var energy: real
    var weight: real

    /** A state at the origin, with no direction, energy or weight yet. */
    constructor ()
      ensures position == Vec3(0.0, 0.0, 0.0) && direction == Vec3(0.0, 0.0, 0.0)
      ensures energy == 0.0 && weight == 0.0
    {
      position := Vec3(0.0, 0.0, 0.0);
      direction := Vec3(0.0, 0.0, 0.0);
      energy := 0.0;
      weight := 0.0;
    }
  }

  /** The G4UniformRand() values one forward sample consumes, in call order:
      the polar cosine, the azimuth, the rejection loop's triples, and the
      spectrum draw. */
  datatype ForwardDraws = ForwardDraws(cosine: real, azimuth: real, points: seq<Draw>, spectrum: real)

  predicate UniformForward(d: ForwardDraws) {
    && Uniform(d.cosine) && Uniform(d.azimuth) && Uniform(d.spectrum)
    && forall k :: 0 <= k < |d.points| ==> UniformDraw(d.points[k])
  }

  /** The G4UniformRand() values one backward sample consumes, in call order. */
  datatype BackwardDraws = BackwardDraws(
    face: real,
    plane0: real,
    plane1: real,
    cosine: real,
    azimuth: real,
    spectrum: real,
    mixture: real,
    logEnergy: real)

  predicate UniformBackward(d: BackwardDraws) {
    && Uniform(d.face) && Uniform(d.plane0) && Uniform(d.plane1)
    && Uniform(d.cosine) && Uniform(d.azimuth) && Uniform(d.spectrum)
    && Uniform(d.mixture) && Uniform(d.logEnergy)
  }

  class DetectorConstruction {
    const geometry: Dimensions
    /** (energy, cumulative probability) pairs once constructed. */
    const spectrum: array<Entry>

    ghost predicate Valid()
      reads spectrum
    {
      WellFormed(geometry) && IsCdfTable(spectrum[..])
    }

    /** Sets the reference dimensions and normalises the (energy, intensity)
        list into a cumulative table, in place. The intensities must be
        non-negative with a positive sum: the total is divided by unchecked. */
    constructor (raw: seq<Entry>)
      requires Intensities(raw)
      ensures geometry == Reference()
      ensures fresh(spectrum) && spectrum[..] == Cdf(raw)
      ensures Valid()
    {
      geometry := Reference();
      var table := new Entry[|raw|](i requires 0 <= i < |raw| => raw[i]);
      assert table[..] == raw;
      Normalise(table);
      spectrum := table;
      ReferenceLayout();
      CdfIsTable(raw);
    }

    /** Forward sampling: an isotropic direction, a point uniform in the air box
        outside the detector (the first escaping draw of the rejection loop),
        and an energy from the spectrum. The weight is not written. The source
        loops until a draw escapes; here one of the given draws must. */
    method RandomiseState(state: GoupilState, draws: ForwardDraws, libm: Libm)
      requires Valid()
      requires UniformForward(draws)
      requires exists k :: 0 <= k < |draws.points| && Escapes(geometry)(draws.points[k])
      modifies state
      ensures state.direction == IsotropicDirection(libm, draws.cosine, draws.azimuth)
      ensures state.position
           == InCentimetres(Candidate(geometry, draws.points[FirstIndex(draws.points, Escapes(geometry))]))
      ensures InAirBox(geometry, FromCentimetres(state.position))
      ensures !InsideDetector(geometry, FromCentimetres(state.position))
      ensures state.energy == Lookup(spectrum[..], draws.spectrum)
      ensures state.weight == old(state.weight)
    {
      state.direction := IsotropicDirection(libm, draws.cosine, draws.azimuth);
      var placement := SamplePosition(geometry, draws.points);
      state.position := InCentimetres(placement.position);
      CentimetresRoundTrip(placement.position);
      state.energy := SampleEnergy(spectrum, draws.spectrum);
    }

    /** Backward sampling: a face chosen in proportion to its area, a point
        1 um outside it, an inward cosine-weighted direction, a source energy
        from the spectrum, and the particle energy and weight of the alpha
        mixture. Returns the source energy. */
    method RandomiseBackward(alpha: real, state: GoupilState, draws: BackwardDraws, libm: Libm)
      returns (sourceEnergy: real)
      requires Valid()
      requires UniformBackward(draws)
      modifies state
      ensures var f := ChooseFace(geometry.detectorSize, draws.face);
        && state.position == InCentimetres(FaceLocation(geometry, f.axis, f.dir, draws.plane0, draws.plane1))
        && state.direction == InwardDirection(libm, f.axis, f.dir, draws.cosine, draws.azimuth)
      ensures !InsideDetector(geometry, FromCentimetres(state.position))
      ensures sourceEnergy == Lookup(spectrum[..], draws.spectrum)
      ensures Weighted(state.energy, state.weight)
           == Mix(libm, alpha, BaseWeight(geometry.detectorSize), sourceEnergy, draws.mixture, draws.logEnergy)
    {
      var axis, dir, total := SelectFace(geometry.detectorSize, draws.face);
      var position := PlaceOnFace(geometry, axis, dir, draws.plane0, draws.plane1);
      var w := 2.0 * total / cm2;

      var direction := InwardDirection(libm, axis, dir, draws.cosine, draws.azimuth);
      w := w * Pi;
      assert w == BaseWeight(geometry.detectorSize);

      sourceEnergy := SampleEnergy(spectrum, draws.spectrum);
      var energy;
      energy, w := SampleMixture(libm, alpha, w, sourceEnergy, draws.mixture, draws.logEnergy);

      state.energy := energy;
      state.position := position;
      state.direction := direction;
      state.weight := w;
      FaceLocationOutside(geometry, axis, dir, draws.plane0, draws.plane1);
      CentimetresRoundTrip(FaceLocation(geometry, axis, dir, draws.plane0, draws.plane1));
    }
  }
}
