/** Forward sampling: an isotropic direction and a point drawn uniformly in the
    air box, redrawn until it lies outside the detector. */
module Forward {
  import opened Units
  import opened Maths
  import opened Search
  import opened Geometry

  /** The three uniform draws of one pass of the rejection loop, one per axis. */
  datatype Draw = Draw(ux: real, uy: real, uz: real)

  predicate UniformDraw(d: Draw) {
    Uniform(d.ux) && Uniform(d.uy) && Uniform(d.uz)
  }

  /** The point one pass of the loop proposes, in the air box's extent around
      its centre, which is lifted by half the ground thickness. */
  function Candidate(g: Dimensions, d: Draw): Vec3 {
    Vec3(g.airSize.x * (0.5 - d.ux),
         g.airSize.y * (0.5 - d.uy),
         g.airSize.z * (0.5 - d.uz) + AirCentreZ(g))
  }

  /** The loop's exit test: the proposed point is outside the detector on at
      least one axis. */
  function Escapes(g: Dimensions): Draw -> bool {
    (d: Draw) => !InsideDetector(g, Candidate(g, d))
  }

  /** Every uniform draw lands in the air box. */
  lemma CandidateInAirBox(g: Dimensions, d: Draw)
    requires WellFormed(g) && UniformDraw(d)
    ensures InAirBox(g, Candidate(g, d))
  {
    var p := Candidate(g, d);
    Centred(g.airSize.x, d.ux);
    Centred(g.airSize.y, d.uy);
    Centred(g.airSize.z, d.uz);
    assert p.z - AirCentreZ(g) == g.airSize.z * (0.5 - d.uz);
  }

  /** How the rejection loop ends on a finite sequence of draws. */
  datatype Placement = Accepted(index: nat, position: Vec3) | Exhausted

  /** The rejection loop of RandomiseState over the draws it is given: the first
      draw whose point escapes the detector is taken; every draw before it was
      rejected. The source draws without end; here the draws can run out. */
  method SamplePosition(g: Dimensions, draws: seq<Draw>) returns (result: Placement)
    requires WellFormed(g)
    requires forall k :: 0 <= k < |draws| ==> UniformDraw(draws[k])
    ensures result.Exhausted? <==> forall k :: 0 <= k < |draws| ==> InsideDetector(g, Candidate(g, draws[k]))
    ensures result.Accepted? ==>
      && result.index == FirstIndex(draws, Escapes(g)) < |draws|
      && result.position == Candidate(g, draws[result.index])
    ensures result.Accepted? ==> InAirBox(g, result.position) && !InsideDetector(g, result.position)
  {
    var i := 0;
    while i < |draws|
      invariant 0 <= i <= |draws|
      invariant forall k :: 0 <= k < i ==> InsideDetector(g, Candidate(g, draws[k]))
    {
      var x := g.airSize.x * (0.5 - draws[i].ux);
      var y := g.airSize.y * (0.5 - draws[i].uy);
      var z := g.airSize.z * (0.5 - draws[i].uz) + 0.5 * g.groundSize.z;
      assert Vec3(x, y, z) == Candidate(g, draws[i]);
      if Abs(x) > 0.5 * g.detectorSize.x
        || Abs(y) > 0.5 * g.detectorSize.y
        || Abs(z - g.detectorOffset) > 0.5 * g.detectorSize.z
      {
        CandidateInAirBox(g, draws[i]);
        FirstIndexUnique(draws, Escapes(g), i);
        return Accepted(i, Vec3(x, y, z));
      }
      i := i + 1;
    }
    return Exhausted;
  }

  /** The forward direction: cos(theta) = 2u - 1 uniform in [-1, 1), the azimuth
      2 pi u', and sin(theta) = sqrt(1 - cos^2(theta)). */
  function IsotropicDirection(libm: Libm, uCos: real, uPhi: real): (d: Vec3)
    requires Uniform(uCos)
    ensures -1.0 <= d.z < 1.0
  {
    var cosTheta := 2.0 * uCos - 1.0;
    var sinTheta := libm.sqrt(1.0 - cosTheta * cosTheta);
    var phi := 2.0 * Pi * uPhi;
    Vec3(sinTheta * libm.cos(phi), sinTheta * libm.sin(phi), cosTheta)
  }
}
