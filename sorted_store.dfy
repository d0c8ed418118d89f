/**
 * The older server stores (server/PoiList over PoiType, server/POIList over EventType): the POIs
 * are kept in a TreeSet ordered by a comparator, and lookups are range views of that set
 * between two corner POIs.
 *
 * The set is read as a list in set order. An element is found by the first element the
 * comparator puts level with it, a new element goes before the first element ordered after
 * it, and a range holds the elements from its lower corner (inclusive) to its upper corner
 * (exclusive).
 */
module SortedStores {
  import opened Wrappers
  import opened Lists
  import opened Reports
  import opened Comparators
  import opened Listeners

  /** A set comparator: compare(a, b) is negative, zero or positive. */
  type Order<!K> = (Report<K>, Report<K>) -> int

  /** Half the side of the square getPOIAt searches (PRECISION in PoiList, precision in POIList). */
  const PRECISION: real := 0.5

  /** The position of the first element that `order` puts level with `p`: what contains, add and remove find. */
  function Find<K>(s: seq<Report<K>>, order: Order<K>, p: Report<K>): (r: Option<nat>)
    ensures r.Some? ==> r.value < |s| && order(p, s[r.value]) == 0
    ensures r.Some? ==> forall j :: 0 <= j < r.value ==> order(p, s[j]) != 0
    ensures r.None? <==> forall j :: 0 <= j < |s| ==> order(p, s[j]) != 0
  {
    if s == [] then None
    else if order(p, s[0]) == 0 then Some(0)
    else match Find(s[1..], order, p)
      case None => None
      case Some(i) => Some(i + 1)
  }

  /** Where add puts a new element: before the first element that `order` puts after `p`, else last. */
  function Slot<K>(s: seq<Report<K>>, order: Order<K>, p: Report<K>): (i: nat)
    ensures i <= |s|
    ensures forall j :: 0 <= j < i ==> order(p, s[j]) >= 0
    ensures i < |s| ==> order(p, s[i]) < 0
  {
    if s == [] || order(p, s[0]) < 0 then 0
    else Slot(s[1..], order, p) + 1
  }

  /** TreeSet.add: nothing changes when an element level with `p` is present; otherwise `p` is inserted at its slot. */
  function Insert<K>(s: seq<Report<K>>, order: Order<K>, p: Report<K>): seq<Report<K>> {
    if Find(s, order, p).Some? then s
    else
      var i := Slot(s, order, p);
      s[..i] + [p] + s[i..]
  }

  /** TreeSet.remove: the element level with `p`, if any, leaves the set. */
  function Delete<K>(s: seq<Report<K>>, order: Order<K>, p: Report<K>): seq<Report<K>> {
    match Find(s, order, p)
    case None => s
    case Some(i) => s[..i] + s[i + 1..]
  }

  /** Membership in subSet(lo, hi): not before the lower corner, strictly before the upper one. */
  predicate InRange<K>(e: Report<K>, order: Order<K>, lo: Report<K>, hi: Report<K>) {
    order(e, lo) >= 0 && order(e, hi) < 0
  }

  /** The elements of the range view subSet(lo, hi), in set order. */
  function Between<K>(s: seq<Report<K>>, order: Order<K>, lo: Report<K>, hi: Report<K>): (r: seq<Report<K>>)
    ensures |r| <= |s|
  {
    if s == [] then []
    else (if InRange(s[0], order, lo, hi) then [s[0]] else []) + Between(s[1..], order, lo, hi)
  }

  /** TreeSet.subSet: an IllegalArgumentException (None) when the lower corner is ordered after the upper one. */
  function SubSet<K>(s: seq<Report<K>>, order: Order<K>, lo: Report<K>, hi: Report<K>): Option<seq<Report<K>>> {
    if order(lo, hi) > 0 then None else Some(Between(s, order, lo, hi))
  }

  /** The POIs of `s` of the type `kind`, in order: getPOIAt's loop over the range. */
  function OfKind<K(==)>(s: seq<Report<K>>, kind: K): (r: seq<Report<K>>)
    ensures |r| <= |s|
  {
    if s == [] then []
    else (if s[0].kind == kind then [s[0]] else []) + OfKind(s[1..], kind)
  }

  /** One step of getPOIAt's loop keeps `acc + OfKind(rest)` fixed. */
  lemma OfKindStep<K>(acc: seq<Report<K>>, s: seq<Report<K>>, i: nat, kind: K)
    requires i < |s|
    ensures (if s[i].kind == kind then acc + [s[i]] else acc) + OfKind(s[i + 1..], kind) == acc + OfKind(s[i..], kind)
  {
    assert s[i..][0] == s[i] && s[i..][1..] == s[i + 1..];
  }

  /** A DummyPOI: a search corner of the given type, dated `now`, with no confirmation or refutation. */
  function Corner<K>(lat: real, lon: real, kind: K, now: int): Report<K> {
    Report(lat, lon, kind, now, 0, 0)
  }

  /** getPOIAt: the POIs of type `kind` in the range between the corners PRECISION below and above (x, y). */
  function Lookup<K(==)>(s: seq<Report<K>>, order: Order<K>, x: real, y: real, kind: K, now: int): Option<seq<Report<K>>> {
    match SubSet(s, order, Corner(x - PRECISION, y - PRECISION, kind, now), Corner(x + PRECISION, y + PRECISION, kind, now))
    case None => None
    case Some(range) => Some(OfKind(range, kind))
  }

  /** The range view keeps exactly the elements between its corners. */
  lemma {:induction false} BetweenMembers<K>(s: seq<Report<K>>, order: Order<K>, lo: Report<K>, hi: Report<K>, e: Report<K>)
    ensures e in Between(s, order, lo, hi) <==> e in s && InRange(e, order, lo, hi)
  {
    if s != [] {
      BetweenMembers(s[1..], order, lo, hi, e);
      assert s == [s[0]] + s[1..];
    }
  }

  /** getPOIAt's loop keeps exactly the POIs of the requested type. */
  lemma {:induction false} OfKindMembers<K>(s: seq<Report<K>>, kind: K, e: Report<K>)
    ensures e in OfKind(s, kind) <==> e in s && e.kind == kind
  {
    if s != [] {
      OfKindMembers(s[1..], kind, e);
      assert s == [s[0]] + s[1..];
    }
  }

  /**
   * add: if the set already holds an element level with `p` it is unchanged; otherwise it
   * holds one more element, `p`. Either way, for a comparator that puts `p` level with
   * itself, the set now holds an element level with `p`.
   */
  lemma InsertEffect<K>(s: seq<Report<K>>, order: Order<K>, p: Report<K>)
    ensures Find(s, order, p).None? ==> multiset(Insert(s, order, p)) == multiset(s) + multiset{p}
    ensures Find(s, order, p).Some? ==> Insert(s, order, p) == s
    ensures order(p, p) == 0 ==> Find(Insert(s, order, p), order, p).Some?
  {
    if Find(s, order, p).None? {
      var i := Slot(s, order, p);
      assert s == s[..i] + s[i..];
      var r := Insert(s, order, p);
      assert r[i] == p;
    }
  }

  /** remove: the element level with `p`, if there is one, is the only one to leave the set. */
  lemma DeleteEffect<K>(s: seq<Report<K>>, order: Order<K>, p: Report<K>)
    ensures Find(s, order, p).None? ==> Delete(s, order, p) == s
    ensures Find(s, order, p).Some? ==>
      && |Delete(s, order, p)| == |s| - 1
      && multiset(Delete(s, order, p)) == multiset(s) - multiset{s[Find(s, order, p).value]}
  {
    if Find(s, order, p).Some? {
      DropAt(s, Find(s, order, p).value);
    }
  }

  /** Under POIComparator an element is level with `p` only when it is `p`. */
  lemma DominanceFind<K>(s: seq<Report<K>>, p: Report<K>)
    ensures Find(s, Dominance, p).None? <==> p !in s
    ensures Find(s, Dominance, p).Some? ==> s[Find(s, Dominance, p).value] == p
  {
    if p in s {
      var j :| 0 <= j < |s| && s[j] == p;
      assert Dominance(p, s[j]) == 0;
    }
  }

  /** Under POIComparator, add keeps each POI at most once, as a set must. */
  lemma DominanceInsertDistinct<K>(s: seq<Report<K>>, p: Report<K>)
    requires NoDuplicates(s)
    ensures NoDuplicates(Insert(s, Dominance, p))
    ensures p in Insert(s, Dominance, p)
  {
    DominanceFind(s, p);
    InsertEffect(s, Dominance, p);
    if p !in s {
      var i := Slot(s, Dominance, p);
      assert Insert(s, Dominance, p) == s[..i] + [p] + s[i..];
      PlacedDistinct(s, p, i);
    }
  }

  /** A POI not yet in a list without duplicates, placed anywhere in it, leaves no duplicates. */
  lemma PlacedDistinct<K>(s: seq<Report<K>>, p: Report<K>, i: nat)
    requires NoDuplicates(s) && p !in s && i <= |s|
    ensures NoDuplicates(s[..i] + [p] + s[i..])
  {
    var r := s[..i] + [p] + s[i..];
    forall a, b | 0 <= a < b < |r|
      ensures r[a] != r[b]
    {
      if a < i && b > i {
        assert r[a] == s[a] && r[b] == s[b - 1];
      } else if a < i && b == i {
        assert r[a] == s[a];
      } else if a == i {
        assert r[b] == s[b - 1];
      } else if a < i {
        assert r[a] == s[a] && r[b] == s[b];
      } else {
        assert r[a] == s[a - 1] && r[b] == s[b - 1];
      }
    }
  }

  /** Under POIComparator, removing a POI that was just added gives the set back as it was. */
  lemma DominanceInsertDelete<K>(s: seq<Report<K>>, p: Report<K>)
    requires p !in s
    ensures Delete(Insert(s, Dominance, p), Dominance, p) == s
  {
    DominanceFind(s, p);
    var i := Slot(s, Dominance, p);
    var r := Insert(s, Dominance, p);
    assert r == s[..i] + [p] + s[i..];
    assert r[i] == p;
    assert forall j :: 0 <= j < i ==> r[j] == s[j] && Dominance(p, r[j]) != 0;
    assert Find(r, Dominance, p) == Some(i);
    assert r[..i] + r[i + 1..] == s;
  }

  /** The upper corner of a square is strictly north-east of its lower corner, so POIComparator never throws. */
  lemma DominanceSubSetDefined<K>(s: seq<Report<K>>, lo: Report<K>, hi: Report<K>)
    requires lo.lat < hi.lat && lo.lon < hi.lon
    ensures SubSet(s, Dominance, lo, hi) == Some(Between(s, Dominance, lo, hi))
  {
  }

  /**
   * What POIList.getPOIAt answers: the POIs of the requested type that are strictly
   * north-east of the lower corner (or equal to it) and neither strictly north-east of the
   * upper corner nor equal to it.
   */
  lemma DominanceLookup<K>(s: seq<Report<K>>, x: real, y: real, kind: K, now: int, e: Report<K>)
    ensures Lookup(s, Dominance, x, y, kind, now).Some?
    ensures var lo, hi := Corner(x - PRECISION, y - PRECISION, kind, now), Corner(x + PRECISION, y + PRECISION, kind, now);
      e in Lookup(s, Dominance, x, y, kind, now).value <==>
        && e in s && e.kind == kind
        && ((e.lat > lo.lat && e.lon > lo.lon) || e == lo)
        && !(e.lat > hi.lat && e.lon > hi.lon) && e != hi
  {
    var lo, hi := Corner(x - PRECISION, y - PRECISION, kind, now), Corner(x + PRECISION, y + PRECISION, kind, now);
    DominanceSubSetDefined(s, lo, hi);
    BetweenMembers(s, Dominance, lo, hi, e);
    OfKindMembers(Between(s, Dominance, lo, hi), kind, e);
  }

  /**
   * POIList.getPOIAt does not search a square: a POI of the requested type far to the north
   * of (x, y), at its longitude, is found all the same (x is the latitude, as JPOI's getLat is getX).
   */
  lemma DominanceLookupFarNorth<K>(s: seq<Report<K>>, x: real, y: real, kind: K, now: int, e: Report<K>)
    requires e in s && e.kind == kind && e.lat == x + 100.0 && e.lon == y
    ensures e in Lookup(s, Dominance, x, y, kind, now).value
  {
    DominanceLookup(s, x, y, kind, now, e);
  }

  /** The state of a sorted store: the set in order, and every firing so far. */
  datatype SetState<K> = SetState(points: seq<Report<K>>, notices: seq<Notice<PoiEvent<Report<K>>>>)

  /** A sorted store: server/PoiList (PoiType, its PoiComparator) or server/POIList (EventType, POIComparator). */
  class SortedPoiSet<K(==)> {
    /** The set, in the comparator's order. */
    var points: seq<Report<K>>
    /** Every firing so far, oldest first. */
    var notices: seq<Notice<PoiEvent<Report<K>>>>
    const listeners: Registry
    /** The set's comparator. */
    const order: Order<K>
    /** The type of getPointsBetween's corners (MISCELLANEOUS, or DIVERS for POIList). */
    const cornerKind: K

    function State(): SetState<K>
      reads this
    {
      SetState(points, notices)
    }

    constructor (order: Order<K>, cornerKind: K)
      ensures points == [] && notices == []
      ensures this.order == order && this.cornerKind == cornerKind
      ensures fresh(listeners) && listeners.members == []
    {
      points := [];
      notices := [];
      this.order := order;
      this.cornerKind := cornerKind;
      listeners := new Registry();
    }

    /** The fire* methods: the event goes to every listener registered now. */
    method Fire(event: PoiEvent<Report<K>>)
      modifies this`notices
      ensures notices == old(notices) + [Notice(event, listeners.members)]
    {
      notices := notices + [Notice(event, listeners.members)];
    }

    /** addPOI: the POI is added to the set (no change if it holds one level with it), then listeners hear it was added. */
    method AddPOI(p: Report<K>)
      modifies this`points, this`notices
      ensures points == Insert(old(points), order, p)
      ensures notices == old(notices) + [Notice(PoiAdded(p), listeners.members)]
    {
      points := Insert(points, order, p);
      Fire(PoiAdded(p));
    }

    /** removePOI: the POI is removed from the set (if it holds one level with it), then listeners hear it was removed. */
    method RemovePOI(p: Report<K>)
      modifies this`points, this`notices
      ensures points == Delete(old(points), order, p)
      ensures notices == old(notices) + [Notice(PoiRemoved(p), listeners.members)]
    {
      points := Delete(points, order, p);
      Fire(PoiRemoved(p));
    }

    /** A setter called on the set's element `p`: its value becomes `p'` where it stands. */
    method SetInPlace(p: Report<K>, p': Report<K>)
      modifies this`points
      ensures points == ReplaceFirst(old(points), p, p')
    {
      points := ReplaceFirst(points, p, p');
    }

    /** getPointsBetween: the range between two corners of type cornerKind dated `now`; None when subSet throws. */
    method GetPointsBetween(lat1: real, lon1: real, lat2: real, lon2: real, now: int) returns (r: Option<seq<Report<K>>>)
      ensures r == SubSet(points, order, Corner(lat1, lon1, cornerKind, now), Corner(lat2, lon2, cornerKind, now))
    {
      r := SubSet(points, order, Corner(lat1, lon1, cornerKind, now), Corner(lat2, lon2, cornerKind, now));
    }

    /** getPOIAt: the POIs of type `kind` in the ±PRECISION range around (x, y); None when subSet throws. */
    method GetPOIAt(x: real, y: real, kind: K, now: int) returns (r: Option<seq<Report<K>>>)
      ensures r == Lookup(points, order, x, y, kind, now)
    {
      var lo := Corner(x - PRECISION, y - PRECISION, kind, now);
      var hi := Corner(x + PRECISION, y + PRECISION, kind, now);
      var range := SubSet(points, order, lo, hi);
      if range.None? {
        return None;
      }
      var list := range.value;
      var result := [];
      var i := 0;
      while i < |list|
        invariant 0 <= i <= |list|
        invariant result + OfKind(list[i..], kind) == OfKind(list, kind)
      {
        OfKindStep(result, list, i, kind);
        if list[i].kind == kind {
          result := result + [list[i]];
        }
        i := i + 1;
      }
      assert list[i..] == [];
      assert result + [] == result;
      r := Some(result);
    }

    /** getSize: the number of POIs in the set. */
    method GetSize() returns (n: nat)
      ensures n == |points|
    {
      n := |points|;
    }

    /** updatePoi (PoiList only): `oldPoi` is removed, `newPoi` added, then listeners hear of a removal and an addition. */
    method UpdatePoi(oldPoi: Report<K>, newPoi: Report<K>)
      modifies this`points, this`notices
      ensures points == Insert(Delete(old(points), order, oldPoi), order, newPoi)
      ensures notices == old(notices) + [Notice(PoiRemoved(oldPoi), listeners.members), Notice(PoiAdded(newPoi), listeners.members)]
    {
      points := Delete(points, order, oldPoi);
      points := Insert(points, order, newPoi);
      Fire(PoiRemoved(oldPoi));
      Fire(PoiAdded(newPoi));
    }
  }

  /** Under POIComparator, updatePoi of a POI in the set by one that is not keeps the number of POIs. */
  lemma DominanceUpdateKeepsSize<K>(s: seq<Report<K>>, oldPoi: Report<K>, newPoi: Report<K>)
    requires oldPoi in s && newPoi !in s && newPoi != oldPoi
    ensures |Insert(Delete(s, Dominance, oldPoi), Dominance, newPoi)| == |s|
    ensures newPoi in Insert(Delete(s, Dominance, oldPoi), Dominance, newPoi)
  {
    DominanceFind(s, oldPoi);
    DeleteEffect(s, Dominance, oldPoi);
    var d := Delete(s, Dominance, oldPoi);
    assert newPoi !in multiset(d);
    DominanceFind(d, newPoi);
    InsertEffect(d, Dominance, newPoi);
    assert |Insert(d, Dominance, newPoi)| == |multiset(Insert(d, Dominance, newPoi))|;
  }
}
