/**
 * The two comparators of the sources: POIComparator (strict dominance on both coordinates)
 * and PoiComparatorSouthEast. Neither is a total order, which the lemmas below make precise.
 */
module Comparators {
  import opened Reports
  import opened PoiTypes

  /** POIComparator.compare: 1 when `o1` lies beyond `o2` on both axes, 0 when they are equal, -1 otherwise. */
  function Dominance<K(==)>(o1: Report<K>, o2: Report<K>): (r: int)
    ensures r == -1 || r == 0 || r == 1
  {
    if o1.lat > o2.lat && o1.lon > o2.lon then 1
    else if o1 == o2 then 0
    else -1
  }

  /** PoiComparatorSouthEast.compare: 1 when `o1` is south-east of `o2`, 0 at the same place, -1 otherwise. */
  function SouthEast(o1: Poi, o2: Poi): (r: int)
    ensures r == -1 || r == 0 || r == 1
  {
    if o1.lat < o2.lat && o1.lon > o2.lon then 1
    else if o1.lat == o2.lat && o1.lon == o2.lon then 0
    else -1
  }

  /** Dominance answers 0 exactly for equal reports: it is consistent with equals. */
  lemma DominanceZeroIffEqual<K>(a: Report<K>, b: Report<K>)
    ensures Dominance(a, b) == 0 <==> a == b
  {
  }

  /** "Greater" under Dominance is a strict partial order: irreflexive, asymmetric and transitive. */
  lemma DominanceGreaterIsStrictOrder<K>(a: Report<K>, b: Report<K>, c: Report<K>)
    ensures Dominance(a, a) != 1
    ensures Dominance(a, b) == 1 ==> Dominance(b, a) == -1
    ensures Dominance(a, b) == 1 && Dominance(b, c) == 1 ==> Dominance(a, c) == 1
  {
  }

  /**
   * Two reports neither of which dominates the other are each "less" than the other, so
   * sgn(compare(a, b)) == -sgn(compare(b, a)) fails: the Comparator contract a TreeSet relies on is broken.
   */
  lemma DominanceNotAntisymmetric<K>(k: K)
    ensures Dominance(Report(0.0, 1.0, k, 0, 0, 0), Report(1.0, 0.0, k, 0, 0, 0)) == -1
    ensures Dominance(Report(1.0, 0.0, k, 0, 0, 0), Report(0.0, 1.0, k, 0, 0, 0)) == -1
  {
  }

  /** SouthEast answers 0 exactly for reports at the same place, whatever their type, date or counters. */
  lemma SouthEastZeroIffSamePlace(a: Poi, b: Poi)
    ensures SouthEast(a, b) == 0 <==> a.lat == b.lat && a.lon == b.lon
  {
  }

  /** So two different reports at one place compare as equal: SouthEast is not consistent with equals. */
  lemma SouthEastInconsistentWithEquals()
    ensures var a := ConstructPoi(Accident, 1.0, 2.0, 0);
            var b := ConstructPoi(Roadworks, 1.0, 2.0, 0);
            a != b && SouthEast(a, b) == 0
  {
  }

  /** "Greater" under SouthEast is a strict partial order. */
  lemma SouthEastGreaterIsStrictOrder(a: Poi, b: Poi, c: Poi)
    ensures SouthEast(a, a) == 0
    ensures SouthEast(a, b) == 1 ==> SouthEast(b, a) == -1
    ensures SouthEast(a, b) == 1 && SouthEast(b, c) == 1 ==> SouthEast(a, c) == 1
  {
  }

  /** And it is not antisymmetric either: a report north-east of another is "less" in both directions. */
  lemma SouthEastNotAntisymmetric()
    ensures var a := ConstructPoi(Accident, 0.0, 0.0, 0);
            var b := ConstructPoi(Accident, 1.0, 1.0, 0);
            SouthEast(a, b) == -1 && SouthEast(b, a) == -1
  {
  }
}
