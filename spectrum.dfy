/** The source spectrum: (energy, intensity) pairs turned in place into
    (energy, cumulative probability) pairs, and the inverse-CDF lookup that
    draws an energy from them. */
module Spectrum {
  import opened Search

  /** One line of the spectrum. Before normalisation `weight` is the line's
      intensity; afterwards it is the cumulative probability up to this line. */
  datatype Entry = Entry(energy: real, weight: real)

  /** The sum of the first `n` weights. */
  function PrefixSum(s: seq<Entry>, n: nat): real
    requires n <= |s|
  {
    if n == 0 then 0.0 else PrefixSum(s, n - 1) + s[n - 1].weight
  }

  function Total(s: seq<Entry>): real {
    PrefixSum(s, |s|)
  }

  predicate NonNegative(s: seq<Entry>) {
    forall i :: 0 <= i < |s| ==> s[i].weight >= 0.0
  }

  /** What normalisation needs of the raw spectrum: it divides by the total
      without checking it. */
  predicate Intensities(s: seq<Entry>) {
    NonNegative(s) && Total(s) > 0.0
  }

  /** The normalised table: each line keeps its energy, and its weight becomes
      the share of the total intensity carried by this line and those before it. */
  function Cdf(raw: seq<Entry>): (t: seq<Entry>)
    requires Total(raw) != 0.0
  {
    seq(|raw|, i requires 0 <= i < |raw| => Entry(raw[i].energy, PrefixSum(raw, i + 1) / Total(raw)))
  }

  predicate NonDecreasing(t: seq<Entry>) {
    forall i, j :: 0 <= i <= j < |t| ==> t[i].weight <= t[j].weight
  }

  /** A usable cumulative table: non-empty, non-decreasing, starting at or above
      zero and ending at exactly one. */
  predicate IsCdfTable(t: seq<Entry>) {
    |t| > 0 && NonDecreasing(t) && 0.0 <= t[0].weight && t[|t| - 1].weight == 1.0
  }

  lemma {:induction false} PrefixSumMonotone(s: seq<Entry>, i: nat, j: nat)
    requires NonNegative(s)
    requires i <= j <= |s|
    ensures PrefixSum(s, i) <= PrefixSum(s, j)
  {
    if i < j {
      PrefixSumMonotone(s, i, j - 1);
    }
  }

  /** Normalising a valid spectrum gives a cumulative table over the same
      energies, in the same order, with every weight in [0, 1]. */
  lemma CdfIsTable(raw: seq<Entry>)
    requires Intensities(raw)
    ensures |Cdf(raw)| == |raw|
    ensures forall i :: 0 <= i < |raw| ==> Cdf(raw)[i].energy == raw[i].energy
    ensures forall i :: 0 <= i < |raw| ==> 0.0 <= Cdf(raw)[i].weight <= 1.0
    ensures IsCdfTable(Cdf(raw))
  {
    var t, total := Cdf(raw), Total(raw);
    assert |raw| > 0;
    forall i, j | 0 <= i <= j < |t|
      ensures t[i].weight <= t[j].weight
    {
      PrefixSumMonotone(raw, i + 1, j + 1);
      DivMonotone(PrefixSum(raw, i + 1), PrefixSum(raw, j + 1), total);
    }
    forall i | 0 <= i < |t|
      ensures 0.0 <= t[i].weight <= 1.0
    {
      PrefixSumMonotone(raw, 0, i + 1);
      PrefixSumMonotone(raw, i + 1, |raw|);
      Share(PrefixSum(raw, i + 1), total);
    }
    assert t[|t| - 1].weight == total / total;
    SelfRatio(total);
  }

  lemma SelfRatio(x: real)
    requires x != 0.0
    ensures x / x == 1.0
  {
  }

  lemma DivMonotone(a: real, b: real, d: real)
    requires a <= b && d > 0.0
    ensures a / d <= b / d
  {
  }

  lemma Share(part: real, total: real)
    requires 0.0 <= part <= total && total > 0.0
    ensures 0.0 <= part / total <= 1.0
  {
    DivMonotone(0.0, part, total);
    DivMonotone(part, total, total);
  }

  /** The constructor's two loops over the spectrum: sum the intensities, then
      overwrite each intensity with the running sum of normalised intensities. */
  method Normalise(a: array<Entry>)
    requires Intensities(a[..])
    modifies a
    ensures a[..] == Cdf(old(a[..]))
  {
    ghost var raw := a[..];
    var norm := 0.0;
    for i := 0 to a.Length
      invariant norm == PrefixSum(raw, i)
    {
      norm := norm + a[i].weight;
    }
    norm := 1.0 / norm;
    Accumulate(a, norm);
    RunningTable(raw, a[..]);
  }

  /** The second loop: each intensity becomes the running sum of the scaled
      intensities up to and including it. */
  method Accumulate(a: array<Entry>, norm: real)
    modifies a
    ensures forall j :: 0 <= j < a.Length ==> a[j] == Entry(old(a[j].energy), Running(old(a[..]), j + 1, norm))
  {
    ghost var raw := a[..];
    var cdf := 0.0;
    for i := 0 to a.Length
      invariant cdf == Running(raw, i, norm)
      invariant forall j :: 0 <= j < i ==> a[j] == Entry(raw[j].energy, Running(raw, j + 1, norm))
      invariant forall j :: i <= j < a.Length ==> a[j] == raw[j]
    {
      cdf := cdf + a[i].weight * norm;
      assert cdf == Running(raw, i, norm) + Scaled(raw[i], norm);
      a[i] := Entry(a[i].energy, cdf);
    }
  }

  /** A table whose line j holds the running sum after line j, scaled by
      1 / total, is the cumulative table. */
  lemma RunningTable(raw: seq<Entry>, t: seq<Entry>)
    requires Total(raw) != 0.0 && |t| == |raw|
    requires forall j :: 0 <= j < |t| ==> t[j] == Entry(raw[j].energy, Running(raw, j + 1, 1.0 / Total(raw)))
    ensures t == Cdf(raw)
  {
    forall j | 0 <= j < |t|
      ensures t[j] == Cdf(raw)[j]
    {
      RunningIsCdf(raw, j + 1);
    }
  }

  /** One line's intensity times the normalisation factor. */
  function Scaled(e: Entry, norm: real): real {
    e.weight * norm
  }

  /** The running sum the second loop keeps: each intensity is scaled by `norm`
      before it is added. */
  function Running(raw: seq<Entry>, n: nat, norm: real): real
    requires n <= |raw|
  {
    if n == 0 then 0.0 else Running(raw, n - 1, norm) + Scaled(raw[n - 1], norm)
  }

  /** Summing the scaled intensities is scaling their sum: with norm = 1 / total
      the running sum after line n-1 is the cumulative share of the first n lines. */
  lemma {:induction false} RunningIsCdf(raw: seq<Entry>, n: nat)
    requires Total(raw) != 0.0
    requires n <= |raw|
    ensures Running(raw, n, 1.0 / Total(raw)) == PrefixSum(raw, n) / Total(raw)
    ensures 0 < n ==> Running(raw, n, 1.0 / Total(raw)) == Cdf(raw)[n - 1].weight
  {
    if n > 0 {
      RunningIsCdf(raw, n - 1);
      var total := Total(raw);
      assert PrefixSum(raw, n - 1) / total + raw[n - 1].weight * (1.0 / total)
          == (PrefixSum(raw, n - 1) + raw[n - 1].weight) / total;
    }
  }

  /** The lookup's test: line `e` covers the draw `u`. */
  function Covers(u: real): Entry -> bool {
    (e: Entry) => u <= e.weight
  }

  /** The energy of the first line whose cumulative weight reaches `u`, or of the
      last line when none does. */
  function Lookup(t: seq<Entry>, u: real): (energy: real)
    requires |t| > 0
    ensures exists k :: 0 <= k < |t| && energy == t[k].energy
  {
    var k := FirstIndex(t, Covers(u));
    if k < |t| then t[k].energy else t[|t| - 1].energy
  }

  /** The scan of RandomiseState and RandomiseBackward: start from the last
      line's energy and stop at the first line that covers `u`. */
  method SampleEnergy(table: array<Entry>, u: real) returns (energy: real)
    requires table.Length > 0
    ensures energy == Lookup(table[..], u)
  {
    energy := table[table.Length - 1].energy;
    var i := 0;
    while i < table.Length
      invariant 0 <= i <= table.Length
      invariant forall j :: 0 <= j < i ==> table[j].weight < u
    {
      if u <= table[i].weight {
        energy := table[i].energy;
        break;
      }
      i := i + 1;
    }
    FirstIndexUnique(table[..], Covers(u), i);
  }

  /** Inverse-CDF sampling on a non-decreasing table: the lookup picks line `i`
      exactly when `u` falls in (weight of line i-1, weight of line i]. */
  lemma LookupPicksBucket(t: seq<Entry>, u: real, i: nat)
    requires NonDecreasing(t)
    requires i < |t|
    ensures FirstIndex(t, Covers(u)) == i <==> u <= t[i].weight && (i == 0 || t[i - 1].weight < u)
  {
    if u <= t[i].weight && (i == 0 || t[i - 1].weight < u) {
      forall j | 0 <= j < i
        ensures !Covers(u)(t[j])
      {
        assert t[j].weight <= t[i - 1].weight;
      }
      FirstIndexUnique(t, Covers(u), i);
    }
  }

  /** With no line covering `u`, the lookup falls back to the last energy. */
  lemma LookupFallback(t: seq<Entry>, u: real)
    requires |t| > 0
    requires forall k :: 0 <= k < |t| ==> t[k].weight < u
    ensures Lookup(t, u) == t[|t| - 1].energy
  {
    FirstIndexUnique(t, Covers(u), |t|);
  }

  /** On a cumulative table the fallback is never taken for u <= 1. */
  lemma LookupNeverFallsBack(t: seq<Entry>, u: real)
    requires IsCdfTable(t)
    requires u <= 1.0
    ensures FirstIndex(t, Covers(u)) < |t|
  {
    assert Covers(u)(t[|t| - 1]);
  }

  /** A draw of 0 selects the first line of a non-negative table. */
  lemma LookupZero(t: seq<Entry>)
    requires |t| > 0 && t[0].weight >= 0.0
    ensures Lookup(t, 0.0) == t[0].energy
  {
    FirstIndexUnique(t, Covers(0.0), 0);
  }

  /** Intensities (1, 1, 2) normalise to (0.25, 0.5, 1), and a draw of 0.3
      selects the second line. */
  lemma ThreeLineExample(e0: real, e1: real, e2: real)
    ensures Total([Entry(e0, 1.0), Entry(e1, 1.0), Entry(e2, 2.0)]) == 4.0
    ensures Cdf([Entry(e0, 1.0), Entry(e1, 1.0), Entry(e2, 2.0)])
         == [Entry(e0, 0.25), Entry(e1, 0.5), Entry(e2, 1.0)]
    ensures Lookup([Entry(e0, 0.25), Entry(e1, 0.5), Entry(e2, 1.0)], 0.3) == e1
  {
    var raw := [Entry(e0, 1.0), Entry(e1, 1.0), Entry(e2, 2.0)];
    assert PrefixSum(raw, 1) == 1.0;
    assert PrefixSum(raw, 2) == 2.0;
    assert Total(raw) == 4.0;
    var t := [Entry(e0, 0.25), Entry(e1, 0.5), Entry(e2, 1.0)];
    FirstIndexUnique(t, Covers(0.3), 1);
  }
}
