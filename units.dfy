/** CLHEP's system of units, in which the millimetre is 1. Only the units the
    geometry and the samplers use are declared. */
module Units {
  const mm: real := 1.0
  const um: real := 0.001 * mm
  const cm: real := 10.0 * mm
  const m: real := 1000.0 * mm
  const km: real := 1000.0 * m
  const cm2: real := cm * cm
  const cm3: real := cm * cm * cm
}

/** The numerical environment of the samplers: the value of pi, the range of
    a uniform draw, and the C maths library as uninterpreted functions. */
module Maths {
  /** A positive stand-in for M_PI: the literal the source falls back to when
      M_PI is not defined. */
  const Pi: real := 3.1415926535897

  /** G4UniformRand() yields a value in [0, 1). */
  predicate Uniform(u: real) {
    0.0 <= u < 1.0
  }

  /** sqrt, sin, cos, log and exp; nothing is known of them beyond what a
      member's requires states. */
  datatype Libm = Libm(
    sqrt: real -> real,
    sin: real -> real,
    cos: real -> real,
    log: real -> real,
    exp: real -> real)

  ghost predicate SqrtNonNegative(libm: Libm) {
    forall x :: libm.sqrt(x) >= 0.0
  }
}

/** Linear search for the first element that satisfies a predicate: the shape of
    the source's scan-with-break loops and of its rejection loop. */
module Search {
  function FirstIndex<T>(s: seq<T>, p: T -> bool): (k: nat)
    ensures k <= |s|
    ensures forall j :: 0 <= j < k ==> !p(s[j])
    ensures k < |s| ==> p(s[k])
  {
    if s == [] then 0
    else if p(s[0]) then 0
    else 1 + FirstIndex(s[1..], p)
  }

  /** The two postconditions of FirstIndex determine its result. */
  lemma FirstIndexUnique<T>(s: seq<T>, p: T -> bool, i: nat)
    requires i <= |s|
    requires forall j :: 0 <= j < i ==> !p(s[j])
    requires i < |s| ==> p(s[i])
    ensures FirstIndex(s, p) == i
  {
  }
}
