/** Backward sampling: a detector face chosen in proportion to its area, a
    point 1 um outside it, a cosine-weighted inward direction, and the weight
    that makes the biased draw an unbiased estimate. */
module Backward {
  import opened Units
  import opened Maths
  import opened Search
  import opened Geometry

  /** The area of one face perpendicular to `axis`. */
  function FaceArea(size: Vec3, axis: nat): real
    requires axis < 3
  {
    size.At((axis + 1) % 3) * size.At((axis + 2) % 3)
  }

  /** c[k] of the source: the face areas of axes 0 to k, summed. */
  function FacePrefix(size: Vec3, k: nat): real
    requires k < 3
  {
    if k == 0 then FaceArea(size, 0) else FacePrefix(size, k - 1) + FaceArea(size, k)
  }

  /** The array c[] as a sequence. */
  function Prefixes(size: Vec3): (c: seq<real>)
    ensures |c| == 3
  {
    [FacePrefix(size, 0), FacePrefix(size, 1), FacePrefix(size, 2)]
  }

  /** The lower edge of the bucket of `axis` in [0, c[2]]. */
  function BucketLow(c: seq<real>, axis: nat): real
    requires |c| == 3 && axis < 3
  {
    if axis == 0 then 0.0 else c[axis - 1]
  }

  /** The width of each bucket is the area of the face it stands for. */
  lemma BucketIsFaceArea(size: Vec3, axis: nat)
    requires axis < 3
    ensures Prefixes(size)[axis] - BucketLow(Prefixes(size), axis) == FaceArea(size, axis)
  {
  }

  function Reaches(r: real): real -> bool {
    (x: real) => r <= x
  }

  /** The axis the scan picks for `r`: the first bucket whose upper edge reaches
      `r`, or axis 2 when none does. */
  function FaceAxis(c: seq<real>, r: real): (axis: nat)
    requires |c| == 3
    ensures axis < 3
  {
    var k := FirstIndex(c, Reaches(r));
    if k == 3 then 2 else k
  }

  /** The side: -1 when `r` lies in the lower half of the bucket of `axis`, +1
      in the upper half. */
  function FaceSide(c: seq<real>, axis: nat, r: real): (dir: int)
    requires |c| == 3 && axis < 3
    ensures dir == -1 || dir == 1
  {
    var low := BucketLow(c, axis);
    if r < low + 0.5 * (c[axis] - low) then -1 else 1
  }

  /** The first loop of RandomiseBackward: c[k] is the running sum of the face
      areas of axes 0 to k. */
  method FillPrefixes(size: Vec3) returns (c: array<real>)
    ensures fresh(c)
    ensures c[..] == Prefixes(size)
  {
    c := new real[3];
    var s := 0.0;
    for k := 0 to 3
      invariant s == (if k == 0 then 0.0 else FacePrefix(size, k - 1))
      invariant forall j :: 0 <= j < k ==> c[j] == FacePrefix(size, j)
    {
      s := s + size.At((k + 1) % 3) * size.At((k + 2) % 3);
      c[k] := s;
    }
  }

  /** A face of the detector box: the axis it is perpendicular to and the
      side, -1 or +1, of the centre it lies on. */
  datatype Face = Face(axis: nat, dir: int)

  /** The draw `u` stretched over [0, total). */
  function Spread(total: real, u: real): real {
    total * u
  }

  /** The face a uniform draw `u` selects: r = c[2] * u, the first bucket
      reaching r (clamped to axis 2), and the half of that bucket r lies in. */
  function ChooseFace(size: Vec3, u: real): (f: Face)
    ensures f.axis < 3 && (f.dir == -1 || f.dir == 1)
  {
    var c := Prefixes(size);
    var r := Spread(c[2], u);
    var axis := FaceAxis(c, r);
    Face(axis, FaceSide(c, axis, r))
  }

  /** Face selection in RandomiseBackward: scale a uniform draw to r in
      [0, c[2]), find the first bucket reaching r (clamped to axis 2), and take
      the side from how far r lies below the bucket's upper edge. */
  method SelectFace(size: Vec3, u: real) returns (axis: nat, dir: int, total: real)
    ensures total == FacePrefix(size, 2)
    ensures Face(axis, dir) == ChooseFace(size, u)
  {
    var c := FillPrefixes(size);
    total := c[2];
    var r := total * u;
    assert r == Spread(Prefixes(size)[2], u);
    axis := 0;
    while axis < 3
      invariant axis <= 3
      invariant forall j :: 0 <= j < axis ==> c[j] < r
    {
      if r <= c[axis] {
        break;
      }
      axis := axis + 1;
    }
    FirstIndexUnique(c[..], Reaches(r), axis);
    if axis == 3 {
      axis := 2;
    }
    var delta := if axis > 0 then c[axis] - c[axis - 1] else c[0];
    dir := if c[axis] - r > 0.5 * delta then -1 else 1;
    SideTest(BucketLow(c[..], axis), c[axis], r);
  }

  /** The source's side test, measured from the bucket's upper edge, is the
      lower-half test measured from its lower edge. */
  lemma SideTest(low: real, high: real, r: real)
    ensures high - r > 0.5 * (high - low) <==> r < low + 0.5 * (high - low)
  {
  }

  /** Prefix sums of three positive areas. */
  predicate Increasing(c: seq<real>) {
    |c| == 3 && 0.0 < c[0] < c[1] < c[2]
  }

  lemma PrefixesIncreasing(size: Vec3)
    requires Positive(size)
    ensures Increasing(Prefixes(size))
  {
    assert FaceArea(size, 0) == size.y * size.z;
    assert FaceArea(size, 1) == size.z * size.x;
    assert FaceArea(size, 2) == size.x * size.y;
  }

  /** For r in [0, c[2]] on increasing prefix sums, the scan always finds a
      bucket (the clamp to axis 2 never fires) and r lies in that bucket. */
  lemma FaceAxisInBucket(c: seq<real>, r: real)
    requires Increasing(c) && 0.0 <= r <= c[2]
    ensures var axis := FaceAxis(c, r);
      && FirstIndex(c, Reaches(r)) == axis
      && BucketLow(c, axis) <= r <= c[axis]
      && (axis == 0 || BucketLow(c, axis) < r)
  {
    ReachesLast(c, r);
    var k := FirstIndex(c, Reaches(r));
    assert Reaches(r)(c[k]);
    if k > 0 {
      assert !Reaches(r)(c[k - 1]);
    }
  }

  /** A uniform draw scaled by a positive total falls in [0, total). */
  lemma ScaledDraw(total: real, u: real)
    requires total > 0.0 && Uniform(u)
    ensures 0.0 <= Spread(total, u) < total
  {
  }

  lemma ReachesLast(c: seq<real>, r: real)
    requires |c| == 3 && r <= c[2]
    ensures FirstIndex(c, Reaches(r)) < 3
  {
    assert Reaches(r)(c[2]);
  }

  /** The six faces split [0, c[2]] into intervals: each axis's bucket is cut
      into two halves, the lower one for side -1 and the upper one for side +1. */
  predicate InFaceInterval(c: seq<real>, axis: nat, dir: int, r: real)
    requires |c| == 3 && axis < 3
  {
    var low := BucketLow(c, axis);
    var mid := low + 0.5 * (c[axis] - low);
    if dir == -1 then (axis == 0 || low < r) && r < mid
    else mid <= r <= c[axis]
  }

  /** Face selection is exactly this partition: for r in [0, c[2]] the scan
      picks (axis, dir) if and only if r lies in that face's interval. Each
      interval is half as long as the face's area, so every one of the six
      faces is chosen in proportion to its area. */
  lemma FaceChoiceIsInterval(c: seq<real>, r: real, axis: nat, dir: int)
    requires Increasing(c)
    requires 0.0 <= r <= c[2]
    requires axis < 3 && (dir == -1 || dir == 1)
    ensures (FaceAxis(c, r) == axis && FaceSide(c, axis, r) == dir) <==> InFaceInterval(c, axis, dir, r)
  {
    ReachesLast(c, r);
  }

  /** For a real detector box and a uniform draw, face (axis, dir) is chosen
      exactly when the stretched draw falls in that face's interval, and the
      interval is half of the bucket whose width is the face's area. */
  lemma ChooseFaceInterval(size: Vec3, u: real, axis: nat, dir: int)
    requires Positive(size) && Uniform(u)
    requires axis < 3 && (dir == -1 || dir == 1)
    ensures ChooseFace(size, u) == Face(axis, dir)
        <==> InFaceInterval(Prefixes(size), axis, dir, Spread(Prefixes(size)[2], u))
    ensures Prefixes(size)[axis] - BucketLow(Prefixes(size), axis) == FaceArea(size, axis)
  {
    var c := Prefixes(size);
    PrefixesIncreasing(size);
    ScaledDraw(c[2], u);
    FaceChoiceIsInterval(c, Spread(c[2], u), axis, dir);
    BucketIsFaceArea(size, axis);
  }

  /** The point placed on face (axis, dir), relative to the detector's centre:
      1 um beyond the face along the axis, and spread across the face by the
      two draws on the other axes. */
  function FaceOffset(size: Vec3, axis: nat, dir: int, u1: real, u2: real): Vec3
    requires axis < 3
  {
    Arrange(axis,
      dir as real * (0.5 * size.At(axis) + 1.0 * um),
      size.At((axis + 1) % 3) * (0.5 - u1),
      size.At((axis + 2) % 3) * (0.5 - u2))
  }

  /** The point the source places on face (axis, dir), before it is converted
      to centimetres: each coordinate is its offset plus the detector centre's
      coordinate. */
  function FaceLocation(g: Dimensions, axis: nat, dir: int, u1: real, u2: real): Vec3
    requires axis < 3
  {
    Translate(FaceOffset(g.detectorSize, axis, dir, u1, u2), DetectorCentre(g))
  }

  /** The placement loops of RandomiseBackward: the normal coordinate, then the
      two in-plane coordinates, then every coordinate divided by cm. */
  method PlaceOnFace(g: Dimensions, axis: nat, dir: int, u1: real, u2: real) returns (p: Vec3)
    requires axis < 3
    ensures p == InCentimetres(FaceLocation(g, axis, dir, u1, u2))
  {
    var size := g.detectorSize;
    var centre := DetectorCentre(g);
    ghost var q := FaceLocation(g, axis, dir, u1, u2);
    var draws := [u1, u2];
    var position := new real[3];
    position[axis] := dir as real * (0.5 * size.At(axis) + 1.0 * um) + centre.At(axis);
    for i := 0 to 2
      invariant position[axis] == q.At(axis)
      invariant 1 <= i ==> position[(axis + 1) % 3] == q.At((axis + 1) % 3)
      invariant 2 <= i ==> position[(axis + 2) % 3] == q.At((axis + 2) % 3)
    {
      var ii := (axis + i + 1) % 3;
      position[ii] := size.At(ii) * (0.5 - draws[i]) + centre.At(ii);
    }
    assert position[..] == [q.x, q.y, q.z];
    ToCentimetres(position);
    p := Vec3(position[0], position[1], position[2]);
  }

  /** The last placement loop: every coordinate divided by cm, in place. */
  method ToCentimetres(position: array<real>)
    modifies position
    ensures forall j :: 0 <= j < position.Length ==> position[j] == old(position[j]) / cm
  {
    for i := 0 to position.Length
      invariant forall j :: 0 <= j < i ==> position[j] == old(position[j]) / cm
      invariant forall j :: i <= j < position.Length ==> position[j] == old(position[j])
    {
      position[i] := position[i] / cm;
    }
  }

  /** Along the chosen axis the placed point lies 1 um beyond the face on the
      chosen side of the detector's centre. */
  lemma FaceLocationNormal(g: Dimensions, axis: nat, dir: int, u1: real, u2: real)
    requires WellFormed(g) && axis < 3 && (dir == -1 || dir == 1)
    ensures FromCentre(g, FaceLocation(g, axis, dir, u1, u2)).At(axis)
         == dir as real * (0.5 * g.detectorSize.At(axis) + 1.0 * um)
    ensures Abs(FromCentre(g, FaceLocation(g, axis, dir, u1, u2)).At(axis)) > 0.5 * g.detectorSize.At(axis)
  {
    FaceLocationFromCentre(g, axis, dir, u1, u2);
    Offset(0.5 * g.detectorSize.At(axis) + 1.0 * um, dir);
  }

  /** On each of the two other axes (k = 1, 2 steps on from the chosen one)
      the placed point lies within the face: in (centre - half extent,
      centre + half extent]. */
  lemma FaceLocationInPlane(g: Dimensions, axis: nat, dir: int, u1: real, u2: real, k: nat)
    requires WellFormed(g) && axis < 3 && (k == 1 || k == 2)
    requires Uniform(u1) && Uniform(u2)
    ensures WithinHalf(FromCentre(g, FaceLocation(g, axis, dir, u1, u2)).At((axis + k) % 3),
      g.detectorSize.At((axis + k) % 3))
  {
    FaceLocationFromCentre(g, axis, dir, u1, u2);
    OffsetInPlane(g.detectorSize, axis, dir, u1, u2, k);
  }

  lemma OffsetInPlane(size: Vec3, axis: nat, dir: int, u1: real, u2: real, k: nat)
    requires Positive(size) && axis < 3 && (k == 1 || k == 2)
    requires Uniform(u1) && Uniform(u2)
    ensures WithinHalf(FaceOffset(size, axis, dir, u1, u2).At((axis + k) % 3), size.At((axis + k) % 3))
  {
    var s := size.At((axis + k) % 3);
    var u := if k == 1 then u1 else u2;
    assert s > 0.0;
    Centred(s, u);
    assert FaceOffset(size, axis, dir, u1, u2).At((axis + k) % 3) == s * (0.5 - u);
  }

  /** The placed point is never inside the detector. */
  lemma FaceLocationOutside(g: Dimensions, axis: nat, dir: int, u1: real, u2: real)
    requires WellFormed(g) && axis < 3 && (dir == -1 || dir == 1)
    ensures !InsideDetector(g, FaceLocation(g, axis, dir, u1, u2))
  {
    FaceLocationNormal(g, axis, dir, u1, u2);
    InsideDetectorAt(g, FaceLocation(g, axis, dir, u1, u2), axis);
  }

  /** The point relative to the detector's centre. */
  function FromCentre(g: Dimensions, p: Vec3): Vec3 {
    Vec3(p.x, p.y, p.z - g.detectorOffset)
  }

  lemma FaceLocationFromCentre(g: Dimensions, axis: nat, dir: int, u1: real, u2: real)
    requires axis < 3
    ensures FromCentre(g, FaceLocation(g, axis, dir, u1, u2)) == FaceOffset(g.detectorSize, axis, dir, u1, u2)
  {
  }

  /** Inside the detector box, every coordinate is within half the box's extent
      of its centre. */
  lemma InsideDetectorAt(g: Dimensions, p: Vec3, i: nat)
    requires i < 3
    ensures InsideDetector(g, p) ==> Abs(FromCentre(g, p).At(i)) <= 0.5 * g.detectorSize.At(i)
  {
  }

  lemma Offset(n: real, dir: int)
    requires n > 0.0 && (dir == -1 || dir == 1)
    ensures dir as real * (dir as real * n) == n
    ensures Abs(dir as real * n) == n
  {
  }

  /** The cosine-weighted direction: cos(theta) = sqrt(u) along -dir on the
      axis, sin(theta) = sqrt(1 - u) spread over the face's plane by the azimuth
      2 pi u'. Since sqrt is non-negative, it never points out of the detector. */
  function InwardDirection(libm: Libm, axis: nat, dir: int, uCos: real, uPhi: real): (d: Vec3)
    requires axis < 3 && (dir == -1 || dir == 1)
    ensures d.At(axis) == -(dir as real) * libm.sqrt(uCos)
    ensures SqrtNonNegative(libm) ==> dir as real * d.At(axis) <= 0.0
  {
    var cosTheta := libm.sqrt(uCos);
    var sinTheta := libm.sqrt(1.0 - uCos);
    var phi := 2.0 * Pi * uPhi;
    Arrange(axis,
      -(dir as real) * cosTheta,
      -(dir as real) * sinTheta * libm.cos(phi),
      -(dir as real) * sinTheta * libm.sin(phi))
  }

  /** The weight of the geometric part of the draw: twice the summed face areas
      (both faces of each axis), in square centimetres, times pi. */
  function BaseWeight(size: Vec3): real {
    2.0 * FacePrefix(size, 2) / cm2 * Pi
  }

  /** For a real detector box the geometric weight is positive, and it is
      pi times the box's whole surface area in square centimetres. */
  lemma BaseWeightPositive(size: Vec3)
    requires Positive(size)
    ensures BaseWeight(size) > 0.0
    ensures BaseWeight(size)
         == Pi * (2.0 * (size.x * size.y + size.y * size.z + size.z * size.x)) / cm2
  {
    PrefixesIncreasing(size);
  }

  /** The lower end of the auxiliary, log-uniform energy distribution. */
  const Emin: real := 0.01

  /** A particle energy and its statistical weight. */
  datatype Weighted = Weighted(energy: real, weight: real)

  /** ln(source energy / Emin), the width of the auxiliary distribution on a
      logarithmic scale. */
  function LogRange(libm: Libm, sourceEnergy: real): real {
    libm.log(sourceEnergy / Emin)
  }

  /** The auxiliary energy Emin * exp(lnr * u): log-uniform between Emin and
      Emin * exp(lnr), the source energy when lnr = LogRange. */
  function LogUniform(libm: Libm, lnr: real, u: real): real {
    Emin * libm.exp(lnr * u)
  }

  /** Mixture sampling of the particle energy: with the mixing draw below alpha
      the source energy is kept, otherwise the energy is drawn log-uniformly
      between Emin and the source energy, and the weight is divided by the
      probability density of the branch taken. */
  function Mix(libm: Libm, alpha: real, base: real, sourceEnergy: real, uMix: real, uLog: real): (r: Weighted)
    requires Uniform(uMix)
    ensures uMix < alpha ==> r.energy == sourceEnergy
    ensures alpha <= uMix ==> r.energy == LogUniform(libm, LogRange(libm, sourceEnergy), uLog)
  {
    if uMix < alpha then
      Weighted(sourceEnergy, base / alpha)
    else
      Weighted(LogUniform(libm, LogRange(libm, sourceEnergy), uLog),
        base * (LogUniform(libm, LogRange(libm, sourceEnergy), uLog) * LogRange(libm, sourceEnergy) / (1.0 - alpha)))
  }

  /** The last branch of RandomiseBackward: keep the source energy and divide
      the weight by alpha, or draw the auxiliary energy and multiply the weight
      by energy * ln(source / Emin) / (1 - alpha). */
  method SampleMixture(libm: Libm, alpha: real, w: real, sourceEnergy: real, uMix: real, uLog: real)
    returns (energy: real, weight: real)
    requires Uniform(uMix)
    ensures Weighted(energy, weight) == Mix(libm, alpha, w, sourceEnergy, uMix, uLog)
  {
    weight := w;
    if uMix < alpha {
      energy := sourceEnergy;
      weight := weight / alpha;
    } else {
      var lnr := LogRange(libm, sourceEnergy);
      energy := LogUniform(libm, lnr, uLog);
      weight := weight * (energy * lnr / (1.0 - alpha));
      MixWeight(libm, alpha, w, sourceEnergy, uMix, uLog);
      Rescaled(w, energy * lnr, 1.0 - alpha);
      Cancel(weight, Mix(libm, alpha, w, sourceEnergy, uMix, uLog).weight, 1.0 - alpha);
    }
  }

  /** The weight undoes the mixture: times alpha (the probability of keeping
      the source energy) it is the base weight, and times 1 - alpha over the
      log-uniform density 1 / (E ln(source / Emin)) it is the base weight again.
      Neither division is by zero, whatever alpha is: the first branch has
      alpha > uMix >= 0 and the second 1 - alpha >= 1 - uMix > 0. */
  lemma MixWeight(libm: Libm, alpha: real, base: real, sourceEnergy: real, uMix: real, uLog: real)
    requires Uniform(uMix)
    ensures var r := Mix(libm, alpha, base, sourceEnergy, uMix, uLog);
      uMix < alpha ==> r.weight * alpha == base
    ensures var r := Mix(libm, alpha, base, sourceEnergy, uMix, uLog);
      alpha <= uMix ==> r.weight * (1.0 - alpha) == base * (r.energy * LogRange(libm, sourceEnergy))
  {
    var r := Mix(libm, alpha, base, sourceEnergy, uMix, uLog);
    if uMix < alpha {
      Rescaled(base, 1.0, alpha);
      assert r.weight == base * (1.0 / alpha);
    } else {
      Rescaled(base, r.energy * LogRange(libm, sourceEnergy), 1.0 - alpha);
    }
  }

  /** Whatever the draws, alpha >= 1 always keeps the source energy, and
      alpha = 1 keeps the base weight too; alpha <= 0 always takes the
      auxiliary energy. */
  lemma MixExtremes(libm: Libm, alpha: real, base: real, sourceEnergy: real, uMix: real, uLog: real)
    requires Uniform(uMix)
    ensures 1.0 <= alpha ==> Mix(libm, alpha, base, sourceEnergy, uMix, uLog).energy == sourceEnergy
    ensures alpha == 1.0 ==> Mix(libm, alpha, base, sourceEnergy, uMix, uLog) == Weighted(sourceEnergy, base)
    ensures alpha <= 0.0 ==>
      Mix(libm, alpha, base, sourceEnergy, uMix, uLog).energy == LogUniform(libm, LogRange(libm, sourceEnergy), uLog)
  {
  }

  /** A positive base weight stays positive when the source energy is kept, and
      in the auxiliary branch when the logarithm and the exponential are. */
  lemma MixPositive(libm: Libm, alpha: real, base: real, sourceEnergy: real, uMix: real, uLog: real)
    requires Uniform(uMix) && base > 0.0
    ensures (|| uMix < alpha
             || (LogRange(libm, sourceEnergy) > 0.0 && LogUniform(libm, LogRange(libm, sourceEnergy), uLog) > 0.0))
      ==> Mix(libm, alpha, base, sourceEnergy, uMix, uLog).weight > 0.0
  {
    var lnr, energy := LogRange(libm, sourceEnergy), LogUniform(libm, LogRange(libm, sourceEnergy), uLog);
    if uMix < alpha {
      Rescaled(base, 1.0, alpha);
    } else if lnr > 0.0 && energy > 0.0 {
      PositiveProduct(energy, lnr);
      Rescaled(base, energy * lnr, 1.0 - alpha);
    }
  }

  lemma Cancel(x: real, y: real, d: real)
    requires d != 0.0 && x * d == y * d
    ensures x == y
  {
  }

  lemma PositiveProduct(a: real, b: real)
    requires a > 0.0 && b > 0.0
    ensures a * b > 0.0
  {
  }

  lemma Rescaled(base: real, k: real, d: real)
    requires d > 0.0
    ensures base * (k / d) * d == base * k
    ensures base > 0.0 && k > 0.0 ==> base * (k / d) > 0.0
    ensures d == 1.0 ==> base * (k / d) == base * k
  {
  }
}
