/**
 * The older voting rules (server/ServerPoiList over server/PoiList, server/ServerPOIList over
 * server/POIList): a report confirms the first POI of its type in a square around it, and a
 * "not seen" report refutes the first POI of its type and date found at its place.
 */
module LegacyConsensus {
  import opened Wrappers
  import opened Lists
  import opened Numbers
  import opened Reports
  import opened Comparators
  import opened Listeners
  import opened SortedStores

  /** After this many refutations (refusals in ServerPOIList) a POI is removed. */
  const NB_REFUTATION_FOR_DELETE: int32 := 3

  /** Half the side of the square addPOI searches for a POI to confirm. */
  const ADD_PRECISION: real := 10.0

  /** The position of the first POI of `s` dated `date`: notSeen's search loop. */
  function FirstDated<K>(s: seq<Report<K>>, date: int): (r: Option<nat>)
    ensures r.Some? ==> r.value < |s| && s[r.value].date == date
    ensures r.Some? ==> forall j :: 0 <= j < r.value ==> s[j].date != date
    ensures r.None? <==> forall j :: 0 <= j < |s| ==> s[j].date != date
  {
    if s == [] then None
    else if s[0].date == date then Some(0)
    else match FirstDated(s[1..], date)
      case None => None
      case Some(i) => Some(i + 1)
  }

  /** The position of the first POI of `s` of the type `kind`: addPOI's search loop. */
  function FirstOfKind<K(==)>(s: seq<Report<K>>, kind: K): (r: Option<nat>)
    ensures r.Some? ==> r.value < |s| && s[r.value].kind == kind
    ensures r.Some? ==> forall j :: 0 <= j < r.value ==> s[j].kind != kind
    ensures r.None? <==> forall j :: 0 <= j < |s| ==> s[j].kind != kind
  {
    if s == [] then None
    else if s[0].kind == kind then Some(0)
    else match FirstOfKind(s[1..], kind)
      case None => None
      case Some(i) => Some(i + 1)
  }

  /**
   * notSeen on the POI `q` it found: removed once its refutations would reach the threshold,
   * otherwise given one more refutation in place and announced as updated.
   */
  function Refute<K(==)>(st: SetState<K>, order: Order<K>, q: Report<K>, to: seq<Listener>): SetState<K> {
    var n := Inc(q.refutations);
    if n >= NB_REFUTATION_FOR_DELETE then
      SetState(Delete(st.points, order, q), st.notices + [Notice(PoiRemoved(q), to)])
    else
      var q' := q.(refutations := n);
      SetState(ReplaceFirst(st.points, q, q'), st.notices + [Notice(PoiUpdated(q'), to)])
  }

  /**
   * notSeen: the first POI that getPOIAt finds with the report's date is refuted; with no such
   * POI nothing changes. None when getPOIAt's range throws.
   */
  function NotSeenSpec<K(==)>(st: SetState<K>, order: Order<K>, p: Report<K>, now: int, to: seq<Listener>): Option<SetState<K>> {
    match Lookup(st.points, order, p.lat, p.lon, p.kind, now)
    case None => None
    case Some(found) =>
      match FirstDated(found, p.date)
      case None => Some(st)
      case Some(i) => Some(Refute(st, order, found[i], to))
  }

  /** addPOI on the POI `q` it found: one more confirmation in place, announced as an update. */
  function Confirm<K(==)>(st: SetState<K>, q: Report<K>, to: seq<Listener>): SetState<K> {
    var q' := q.(confirmations := Inc(q.confirmations));
    SetState(ReplaceFirst(st.points, q, q'), st.notices + [Notice(PoiUpdated(q'), to)])
  }

  /** The square addPOI searches: getPointsBetween's range ADD_PRECISION around `p`. */
  function AddBox<K>(st: SetState<K>, order: Order<K>, cornerKind: K, p: Report<K>, now: int): Option<seq<Report<K>>> {
    SubSet(st.points, order, Corner(p.lat - ADD_PRECISION, p.lon - ADD_PRECISION, cornerKind, now),
           Corner(p.lat + ADD_PRECISION, p.lon + ADD_PRECISION, cornerKind, now))
  }

  /**
   * addPOI: the first POI of the report's type in the square gains a confirmation in place and
   * is announced as updated; with none, the report is added to the store. None when the square's
   * range throws.
   */
  function AddSpec<K(==)>(st: SetState<K>, order: Order<K>, cornerKind: K, p: Report<K>, now: int, to: seq<Listener>): Option<SetState<K>> {
    match AddBox(st, order, cornerKind, p, now)
    case None => None
    case Some(box) =>
      match FirstOfKind(box, p.kind)
      case None => Some(SetState(Insert(st.points, order, p), st.notices + [Notice(PoiAdded(p), to)]))
      case Some(i) => Some(Confirm(st, box[i], to))
  }

  /** The store of ServerPoiList (or ServerPOIList): a sorted store with the voting rules on top. */
  class ConsensusPoiSet<K(==)> {
    const store: SortedPoiSet<K>

    constructor (order: Order<K>, cornerKind: K)
      ensures fresh(store) && fresh(store.listeners)
      ensures store.points == [] && store.notices == [] && store.listeners.members == []
      ensures store.order == order && store.cornerKind == cornerKind
    {
      store := new SortedPoiSet(order, cornerKind);
    }

    /** notSeen; `ok` is false when getPOIAt throws, and the set is then untouched. */
    method NotSeen(p: Report<K>, now: int) returns (ok: bool)
      modifies store
      ensures NotSeenSpec(old(store.State()), store.order, p, now, store.listeners.members) == if ok then Some(store.State()) else None
      ensures !ok ==> store.State() == old(store.State())
    {
      var list := store.GetPOIAt(p.lat, p.lon, p.kind, now);
      if list.None? {
        return false;
      }
      var found := list.value;
      if found == [] {
        return true;
      }
      var i := 0;
      while i < |found| && found[i].date != p.date
        invariant 0 <= i <= |found|
        invariant forall j :: 0 <= j < i ==> found[j].date != p.date
      {
        i := i + 1;
      }
      if i == |found| {
        return true;
      }
      assert FirstDated(found, p.date) == Some(i);
      var q := found[i];
      var n := Inc(q.refutations);
      if n >= NB_REFUTATION_FOR_DELETE {
        store.RemovePOI(q);
      } else {
        store.SetInPlace(q, q.(refutations := n));
        store.Fire(PoiUpdated(q.(refutations := n)));
      }
      ok := true;
    }

    /** addPOI; `ok` is false when getPointsBetween throws, and the set is then untouched. */
    method AddPOI(p: Report<K>, now: int) returns (ok: bool)
      modifies store
      ensures AddSpec(old(store.State()), store.order, store.cornerKind, p, now, store.listeners.members) == if ok then Some(store.State()) else None
      ensures !ok ==> store.State() == old(store.State())
    {
      var box := store.GetPointsBetween(p.lat - ADD_PRECISION, p.lon - ADD_PRECISION, p.lat + ADD_PRECISION, p.lon + ADD_PRECISION, now);
      if box.None? {
        return false;
      }
      var between := box.value;
      if between == [] {
        store.AddPOI(p);
        return true;
      }
      for i := 0 to |between|
        invariant forall j :: 0 <= j < i ==> between[j].kind != p.kind
      {
        if between[i].kind == p.kind {
          assert FirstOfKind(between, p.kind) == Some(i);
          var q' := between[i].(confirmations := Inc(between[i].confirmations));
          store.SetInPlace(between[i], q');
          store.Fire(PoiUpdated(q'));
          return true;
        }
      }
      store.AddPOI(p);
      ok := true;
    }
  }

  /** A POI found by a range is a POI of the store. */
  lemma LookupInSet<K>(s: seq<Report<K>>, order: Order<K>, x: real, y: real, kind: K, now: int, q: Report<K>)
    requires Lookup(s, order, x, y, kind, now).Some? && q in Lookup(s, order, x, y, kind, now).value
    ensures q in s && q.kind == kind
  {
    var lo, hi := Corner(x - PRECISION, y - PRECISION, kind, now), Corner(x + PRECISION, y + PRECISION, kind, now);
    var range := Between(s, order, lo, hi);
    OfKindMembers(range, kind, q);
    BetweenMembers(s, order, lo, hi, q);
  }

  /**
   * notSeen when no POI of the set with the report's type and date lies in the range
   * PRECISION around it: nothing changes and nothing is fired.
   */
  lemma NotSeenNoMatch<K>(st: SetState<K>, order: Order<K>, p: Report<K>, now: int, to: seq<Listener>)
    requires var lo, hi := Corner(p.lat - PRECISION, p.lon - PRECISION, p.kind, now), Corner(p.lat + PRECISION, p.lon + PRECISION, p.kind, now);
      && order(lo, hi) <= 0
      && forall q :: q in st.points && q.kind == p.kind && InRange(q, order, lo, hi) ==> q.date != p.date
    ensures NotSeenSpec(st, order, p, now, to) == Some(st)
  {
    var found := Lookup(st.points, order, p.lat, p.lon, p.kind, now).value;
    if FirstDated(found, p.date).Some? {
      var q := found[FirstDated(found, p.date).value];
      LookupInSet(st.points, order, p.lat, p.lon, p.kind, now, q);
      var lo, hi := Corner(p.lat - PRECISION, p.lon - PRECISION, p.kind, now), Corner(p.lat + PRECISION, p.lon + PRECISION, p.kind, now);
      OfKindMembers(Between(st.points, order, lo, hi), p.kind, q);
      BetweenMembers(st.points, order, lo, hi, q);
      assert false;
    }
  }

  /**
   * notSeen below the threshold: only the first POI found with the report's date changes, its
   * refutations becoming one more, and one update event is fired.
   */
  lemma NotSeenRefutesFirst<K>(st: SetState<K>, order: Order<K>, p: Report<K>, now: int, to: seq<Listener>, i: nat)
    requires Lookup(st.points, order, p.lat, p.lon, p.kind, now).Some?
    requires FirstDated(Lookup(st.points, order, p.lat, p.lon, p.kind, now).value, p.date) == Some(i)
    requires var q := Lookup(st.points, order, p.lat, p.lon, p.kind, now).value[i]; Inc(q.refutations) < NB_REFUTATION_FOR_DELETE
    ensures var q := Lookup(st.points, order, p.lat, p.lon, p.kind, now).value[i];
      var q' := q.(refutations := Inc(q.refutations));
      var st' := NotSeenSpec(st, order, p, now, to).value;
      && NotSeenSpec(st, order, p, now, to).Some?
      && q.date == p.date && q.kind == p.kind
      && multiset(st'.points) == multiset(st.points) - multiset{q} + multiset{q'}
      && st'.notices == st.notices + [Notice(PoiUpdated(q'), to)]
  {
    var found := Lookup(st.points, order, p.lat, p.lon, p.kind, now).value;
    var q := found[i];
    LookupInSet(st.points, order, p.lat, p.lon, p.kind, now, q);
    ReplaceFirstMultiset(st.points, q, q.(refutations := Inc(q.refutations)));
  }

  /**
   * notSeen at the threshold, under POIComparator: the first POI found with the report's date
   * leaves the set, nothing else does, and one removal event is fired.
   */
  lemma DominanceNotSeenRemoves<K>(st: SetState<K>, p: Report<K>, now: int, to: seq<Listener>, i: nat)
    requires FirstDated(Lookup(st.points, Dominance, p.lat, p.lon, p.kind, now).value, p.date) == Some(i)
    requires Inc(Lookup(st.points, Dominance, p.lat, p.lon, p.kind, now).value[i].refutations) >= NB_REFUTATION_FOR_DELETE
    ensures var q := Lookup(st.points, Dominance, p.lat, p.lon, p.kind, now).value[i];
      var st' := NotSeenSpec(st, Dominance, p, now, to).value;
      && NotSeenSpec(st, Dominance, p, now, to).Some?
      && |st'.points| == |st.points| - 1
      && multiset(st'.points) == multiset(st.points) - multiset{q}
      && st'.notices == st.notices + [Notice(PoiRemoved(q), to)]
  {
    DominanceLookup(st.points, p.lat, p.lon, p.kind, now, p);
    var found := Lookup(st.points, Dominance, p.lat, p.lon, p.kind, now).value;
    var q := found[i];
    LookupInSet(st.points, Dominance, p.lat, p.lon, p.kind, now, q);
    DominanceFind(st.points, q);
    DeleteEffect(st.points, Dominance, q);
  }

  /** addPOI with no POI of the report's type in the square adds the report, as a plain addPOI does. */
  lemma AddWithoutMatch<K>(st: SetState<K>, order: Order<K>, cornerKind: K, p: Report<K>, now: int, to: seq<Listener>)
    requires var lo, hi := Corner(p.lat - ADD_PRECISION, p.lon - ADD_PRECISION, cornerKind, now), Corner(p.lat + ADD_PRECISION, p.lon + ADD_PRECISION, cornerKind, now);
      && order(lo, hi) <= 0
      && forall q :: q in st.points && InRange(q, order, lo, hi) ==> q.kind != p.kind
    ensures AddSpec(st, order, cornerKind, p, now, to) == Some(SetState(Insert(st.points, order, p), st.notices + [Notice(PoiAdded(p), to)]))
  {
    var lo, hi := Corner(p.lat - ADD_PRECISION, p.lon - ADD_PRECISION, cornerKind, now), Corner(p.lat + ADD_PRECISION, p.lon + ADD_PRECISION, cornerKind, now);
    var box := AddBox(st, order, cornerKind, p, now).value;
    if FirstOfKind(box, p.kind).Some? {
      BetweenMembers(st.points, order, lo, hi, box[FirstOfKind(box, p.kind).value]);
      assert false;
    }
  }

  /** A confirmation replaces the confirmed POI by its successor and keeps the number of POIs. */
  lemma ConfirmEffect<K>(st: SetState<K>, q: Report<K>, to: seq<Listener>)
    requires q in st.points
    ensures var q' := q.(confirmations := Inc(q.confirmations));
      && |Confirm(st, q, to).points| == |st.points|
      && multiset(Confirm(st, q, to).points) == multiset(st.points) - multiset{q} + multiset{q'}
      && Confirm(st, q, to).notices == st.notices + [Notice(PoiUpdated(q'), to)]
  {
    ReplaceFirstMultiset(st.points, q, q.(confirmations := Inc(q.confirmations)));
  }

  /**
   * addPOI with a POI of the report's type in the square: only the first such POI, a POI of
   * the set, is confirmed, and nothing is added.
   */
  lemma AddConfirmsFirst<K>(st: SetState<K>, order: Order<K>, cornerKind: K, p: Report<K>, now: int, to: seq<Listener>, i: nat)
    requires AddBox(st, order, cornerKind, p, now).Some?
    requires FirstOfKind(AddBox(st, order, cornerKind, p, now).value, p.kind) == Some(i)
    ensures var q := AddBox(st, order, cornerKind, p, now).value[i];
      && q in st.points && q.kind == p.kind
      && AddSpec(st, order, cornerKind, p, now, to) == Some(Confirm(st, q, to))
  {
    var lo := Corner(p.lat - ADD_PRECISION, p.lon - ADD_PRECISION, cornerKind, now);
    var hi := Corner(p.lat + ADD_PRECISION, p.lon + ADD_PRECISION, cornerKind, now);
    BetweenMembers(st.points, order, lo, hi, AddBox(st, order, cornerKind, p, now).value[i]);
  }

  /** Under POIComparator (ServerPOIList) neither rule can throw: both squares are well ordered. */
  lemma DominanceRulesDefined<K>(st: SetState<K>, cornerKind: K, p: Report<K>, now: int, to: seq<Listener>)
    ensures NotSeenSpec(st, Dominance, p, now, to).Some?
    ensures AddSpec(st, Dominance, cornerKind, p, now, to).Some?
  {
    DominanceLookup(st.points, p.lat, p.lon, p.kind, now, p);
  }

  /** Under POIComparator, a report whose type the set does not hold is added. */
  lemma DominanceAddFresh<K>(st: SetState<K>, cornerKind: K, p: Report<K>, now: int, to: seq<Listener>)
    requires forall q :: q in st.points ==> q.kind != p.kind
    ensures AddSpec(st, Dominance, cornerKind, p, now, to) == Some(SetState(Insert(st.points, Dominance, p), st.notices + [Notice(PoiAdded(p), to)]))
    ensures multiset(Insert(st.points, Dominance, p)) == multiset(st.points) + multiset{p}
  {
    AddWithoutMatch(st, Dominance, cornerKind, p, now, to);
    assert p !in st.points;
    DominanceFind(st.points, p);
    InsertEffect(st.points, Dominance, p);
  }

  /** Under POIComparator, a report that is the set's only POI of its type confirms itself. */
  lemma DominanceAddPresent<K>(st: SetState<K>, cornerKind: K, p: Report<K>, now: int, to: seq<Listener>)
    requires p in st.points
    requires forall q :: q in st.points && q.kind == p.kind ==> q == p
    ensures AddSpec(st, Dominance, cornerKind, p, now, to) == Some(Confirm(st, p, to))
  {
    var lo, hi := Corner(p.lat - ADD_PRECISION, p.lon - ADD_PRECISION, cornerKind, now), Corner(p.lat + ADD_PRECISION, p.lon + ADD_PRECISION, cornerKind, now);
    var box := Between(st.points, Dominance, lo, hi);
    BetweenMembers(st.points, Dominance, lo, hi, p);
    assert p in box;
    var j :| 0 <= j < |box| && box[j] == p;
    var i := FirstOfKind(box, p.kind).value;
    AddConfirmsFirst(st, Dominance, cornerKind, p, now, to, i);
  }

  /**
   * Under POIComparator, a report of a type the set does not hold, sent twice: the first is
   * added, the second confirms it.
   */
  lemma DominanceResubmitConfirms<K>(st: SetState<K>, cornerKind: K, p: Report<K>, now: int, now': int, to: seq<Listener>)
    requires forall q :: q in st.points ==> q.kind != p.kind
    ensures var st1 := AddSpec(st, Dominance, cornerKind, p, now, to).value;
      var st2 := AddSpec(st1, Dominance, cornerKind, p, now', to).value;
      && st1.points == Insert(st.points, Dominance, p)
      && multiset(st2.points) == multiset(st.points) + multiset{p.(confirmations := Inc(p.confirmations))}
  {
    DominanceAddFresh(st, cornerKind, p, now, to);
    var st1 := AddSpec(st, Dominance, cornerKind, p, now, to).value;
    assert multiset(st1.points) == multiset(st.points) + multiset{p};
    assert p in multiset(st1.points);
    forall q | q in st1.points && q.kind == p.kind
      ensures q == p
    {
      assert q in multiset(st1.points);
    }
    DominanceAddPresent(st1, cornerKind, p, now', to);
    ConfirmEffect(st1, p, to);
    AddThenTake(multiset(st.points), p);
  }
}
