/** The detector scene: four axis-aligned boxes (world, air, ground, detector)
    and the vertical offset that places the detector just above the ground. All
    coordinates are in the world frame, whose origin is the world box's centre. */
module Geometry {
  import opened Units
  import opened Maths

  datatype Vec3 = Vec3(x: real, y: real, z: real) {
    /** Component `i`, as the source indexes its three-element arrays. */
    function At(i: nat): real
      requires i < 3
    {
      if i == 0 then x else if i == 1 then y else z
    }
  }

  /** The vector with `normal` on `axis` and the two in-plane values on the next
      two axes in cyclic order, as the backward sampler lays out a point or a
      direction around a face. */
  function Arrange(axis: nat, normal: real, first: real, second: real): (v: Vec3)
    requires axis < 3
    ensures v.At(axis) == normal
    ensures v.At((axis + 1) % 3) == first
    ensures v.At((axis + 2) % 3) == second
  {
    if axis == 0 then Vec3(normal, first, second)
    else if axis == 1 then Vec3(second, normal, first)
    else Vec3(first, second, normal)
  }

  /** `v` moved by `shift`, coordinate by coordinate. */
  function Translate(v: Vec3, shift: Vec3): (w: Vec3)
    ensures forall i :: 0 <= i < 3 ==> w.At(i) == v.At(i) + shift.At(i)
  {
    Vec3(v.x + shift.x, v.y + shift.y, v.z + shift.z)
  }

  /** The same point in centimetres, for the caller of the samplers. */
  function InCentimetres(p: Vec3): Vec3 {
    Vec3(p.x / cm, p.y / cm, p.z / cm)
  }

  /** The inverse conversion, from centimetres back to the scene's unit. */
  function FromCentimetres(p: Vec3): Vec3 {
    Vec3(p.x * cm, p.y * cm, p.z * cm)
  }

  lemma CentimetresRoundTrip(p: Vec3)
    ensures FromCentimetres(InCentimetres(p)) == p
    ensures InCentimetres(FromCentimetres(p)) == p
  {
  }

  function Abs(a: real): (r: real)
    ensures r >= 0.0 && (r == a || r == -a)
  {
    if a < 0.0 then -a else a
  }

  predicate Positive(v: Vec3) {
    v.x > 0.0 && v.y > 0.0 && v.z > 0.0
  }

  /** `x` lies in (-size / 2, size / 2]. */
  predicate WithinHalf(x: real, size: real) {
    -0.5 * size < x <= 0.5 * size
  }

  /** A positive extent times (1/2 - u), for u in [0, 1), lies within half the
      extent of zero. */
  lemma Centred(size: real, u: real)
    requires size > 0.0 && Uniform(u)
    ensures WithinHalf(size * (0.5 - u), size)
    ensures Abs(size * (0.5 - u)) <= 0.5 * size
  {
    assert size * (0.5 - u) == 0.5 * size - size * u;
    assert 0.0 <= size * u < size;
  }

  /** The extents of the four boxes and the detector's vertical centre. */
  datatype Dimensions = Dimensions(
    detectorSize: Vec3,
    airSize: Vec3,
    groundSize: Vec3,
    worldSize: Vec3,
    detectorOffset: real)

  /** The air box sits on the ground, so its centre is lifted by half the
      ground thickness; the ground's top face is the air box's bottom face. */
  function AirCentreZ(d: Dimensions): real {
    0.5 * d.groundSize.z
  }

  function AirBottom(d: Dimensions): real {
    AirCentreZ(d) - 0.5 * d.airSize.z
  }

  function AirTop(d: Dimensions): real {
    AirCentreZ(d) + 0.5 * d.airSize.z
  }

  function DetectorCentre(d: Dimensions): Vec3 {
    Vec3(0.0, 0.0, d.detectorOffset)
  }

  /** The detector's vertical centre: its bottom face lies 5 cm above the top
      face of the ground, whatever the sizes. */
  function DetectorOffset(air: Vec3, detector: Vec3, ground: Vec3): (offset: real)
    ensures offset - 0.5 * detector.z == 0.5 * ground.z - 0.5 * air.z + 5.0 * cm
  {
    0.5 * (-air.z + detector.z + ground.z) + 5.0 * cm
  }

  /** The constants DetectorConstruction's constructor sets. */
  function Reference(): Dimensions {
    var detector := Vec3(20.0 * m, 20.0 * m, 10.0 * m);
    var air := Vec3(2.0 * km, 2.0 * km, 1.0 * km);
    var ground := Vec3(air.x, air.y, 1.0 * m);
    var world := Vec3(air.x, air.y, ground.z + air.z);
    Dimensions(detector, air, ground, world, DetectorOffset(air, detector, ground))
  }

  /** The layout every sampler relies on: positive boxes, a world that stacks
      the ground under the air, and a detector strictly inside the air box. */
  predicate WellFormed(d: Dimensions) {
    && Positive(d.detectorSize) && Positive(d.airSize) && Positive(d.groundSize)
    && d.groundSize.x == d.airSize.x && d.groundSize.y == d.airSize.y
    && d.worldSize == Vec3(d.airSize.x, d.airSize.y, d.groundSize.z + d.airSize.z)
    && d.detectorSize.x < d.airSize.x && d.detectorSize.y < d.airSize.y
    && AirBottom(d) < d.detectorOffset - 0.5 * d.detectorSize.z
    && d.detectorOffset + 0.5 * d.detectorSize.z < AirTop(d)
  }

  /** The closed detector box, centred on (0, 0, detectorOffset). */
  predicate InsideDetector(d: Dimensions, p: Vec3) {
    && Abs(p.x) <= 0.5 * d.detectorSize.x
    && Abs(p.y) <= 0.5 * d.detectorSize.y
    && Abs(p.z - d.detectorOffset) <= 0.5 * d.detectorSize.z
  }

  /** The closed air box. */
  predicate InAirBox(d: Dimensions, p: Vec3) {
    && Abs(p.x) <= 0.5 * d.airSize.x
    && Abs(p.y) <= 0.5 * d.airSize.y
    && Abs(p.z - AirCentreZ(d)) <= 0.5 * d.airSize.z
  }

  lemma ReferenceLayout()
    ensures WellFormed(Reference())
    ensures Reference().detectorOffset - 0.5 * Reference().detectorSize.z == AirBottom(Reference()) + 5.0 * cm
  {
  }

  /** The volume of the source region, air minus detector, in cubic centimetres. */
  function SourceVolume(d: Dimensions): real {
    var air := d.airSize;
    var det := d.detectorSize;
    (air.x * air.y * air.z - det.x * det.y * det.z) / cm3
  }

  lemma SourceVolumePositive(d: Dimensions)
    requires WellFormed(d)
    ensures SourceVolume(d) > 0.0
  {
    assert d.detectorSize.z < d.airSize.z;
    VolumeLess(d.detectorSize, d.airSize);
  }

  /** A box strictly smaller on every axis has a strictly smaller volume. */
  lemma VolumeLess(a: Vec3, b: Vec3)
    requires 0.0 < a.x < b.x && 0.0 < a.y < b.y && 0.0 < a.z < b.z
    ensures a.x * a.y * a.z < b.x * b.y * b.z
  {
    MulLess(a.x, b.x, a.y);
    MulLess(a.y, b.y, b.x);
    MulLess(a.x * a.y, b.x * b.y, a.z);
    MulLess(a.z, b.z, b.x * b.y);
  }

  lemma MulLess(a: real, b: real, c: real)
    requires 0.0 < a < b && 0.0 < c
    ensures a * c < b * c && c * a < c * b
  {
  }

  /** The reference source region: 2 km x 2 km x 1 km of air less the
      20 m x 20 m x 10 m detector, that is 4e18 - 4e12 cubic millimetres. */
  lemma ReferenceSourceVolume()
    ensures SourceVolume(Reference()) == 3999996000000000.0
  {
  }
}
