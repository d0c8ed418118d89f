/**
 * The server's POI store (data/PoiList): the list of active POIs, the list of removed POIs
 * with the date of their removal, area queries and the history query "as of a date".
 */
module ServerStore {
  import opened Wrappers
  import opened Lists
  import opened Reports
  import opened PoiTypes
  import opened Listeners

  /** Radius, in metres, within which two reports designate the same POI. */
  const PRECISION: real := 500.0

  /** A removed POI and the date its removal was recorded (the POI's removedDate). */
  datatype Removal = Removal(poi: Poi, removedDate: int)

  type StoreNotice = Notice<PoiEvent<Poi>>

  /** The observable state of a store: its two lists and the firings made so far. */
  datatype StoreState = StoreState(active: seq<Poi>, removed: seq<Removal>, notices: seq<StoreNotice>)

  /**
   * getDistanceInMeter: the great-circle distance between two positions. Its trigonometry
   * is not modelled; a store is given the function it uses.
   */
  type Distance = (real, real, real, real) -> real

  /** The arguments of getPoisInArea: a centre, a radius, and optionally a type and a date (null in the source). */
  datatype Area = Area(lat: real, lon: real, radius: real, kind: Option<PoiType>, date: Option<int>)

  /** The filter of getPoisInArea: within the radius of the centre, of the type and date asked for when they are given. */
  predicate InArea(p: Poi, distance: Distance, a: Area) {
    distance(a.lat, a.lon, p.lat, p.lon) <= a.radius
    && (a.kind.None? || p.kind == a.kind.value)
    && (a.date.None? || p.date == a.date.value)
  }

  /** The POIs of `s` that getPoisInArea returns, in list order. */
  function PoisInArea(s: seq<Poi>, distance: Distance, a: Area): (r: seq<Poi>)
    ensures |r| <= |s|
  {
    if s == [] then []
    else
      (if InArea(s[0], distance, a) then [s[0]] else [])
      + PoisInArea(s[1..], distance, a)
  }

  /** getPoisInArea keeps exactly the active POIs that pass its filter. */
  lemma {:induction false} PoisInAreaMembers(s: seq<Poi>, distance: Distance, a: Area, p: Poi)
    ensures p in PoisInArea(s, distance, a) <==> p in s && InArea(p, distance, a)
  {
    if s != [] {
      PoisInAreaMembers(s[1..], distance, a, p);
      assert s == [s[0]] + s[1..];
    }
  }

  /** Widening the query (dropping the date, then the type) never loses a POI. */
  lemma WiderQueries(s: seq<Poi>, distance: Distance, a: Area, p: Poi)
    ensures p in PoisInArea(s, distance, a) ==> p in PoisInArea(s, distance, a.(date := None))
    ensures p in PoisInArea(s, distance, a.(date := None)) ==> p in PoisInArea(s, distance, a.(kind := None, date := None))
  {
    PoisInAreaMembers(s, distance, a, p);
    PoisInAreaMembers(s, distance, a.(date := None), p);
    PoisInAreaMembers(s, distance, a.(kind := None, date := None), p);
  }

  lemma PoisInAreaCons(x: Poi, t: seq<Poi>, distance: Distance, a: Area)
    ensures PoisInArea([x] + t, distance, a) == (if InArea(x, distance, a) then [x] else []) + PoisInArea(t, distance, a)
  {
    assert ([x] + t)[0] == x && ([x] + t)[1..] == t;
  }

  /** The query distributes over a list made of two parts. */
  lemma {:induction false} PoisInAreaAppend(s: seq<Poi>, t: seq<Poi>, distance: Distance, a: Area)
    ensures PoisInArea(s + t, distance, a) == PoisInArea(s, distance, a) + PoisInArea(t, distance, a)
  {
    if s != [] {
      PoisInAreaAppend(s[1..], t, distance, a);
      assert s + t == [s[0]] + (s[1..] + t);
      PoisInAreaCons(s[0], s[1..] + t, distance, a);
      assert s == [s[0]] + s[1..];
      PoisInAreaCons(s[0], s[1..], distance, a);
    } else {
      assert s + t == t;
    }
  }

  /** Replacing a POI by one that passes the same filter replaces it in the query's answer as well. */
  lemma {:induction false} PoisInAreaReplace(s: seq<Poi>, distance: Distance, a: Area, q: Poi, q': Poi)
    requires InArea(q, distance, a) == InArea(q', distance, a)
    ensures PoisInArea(ReplaceFirst(s, q, q'), distance, a)
         == if InArea(q, distance, a) then ReplaceFirst(PoisInArea(s, distance, a), q, q') else PoisInArea(s, distance, a)
    decreases |s|, 1
  {
    if s != [] {
      assert s == [s[0]] + s[1..];
      PoisInAreaReplaceCons(s[0], s[1..], distance, a, q, q');
    }
  }

  lemma {:induction false} PoisInAreaReplaceCons(x: Poi, t: seq<Poi>, distance: Distance, a: Area, q: Poi, q': Poi)
    requires InArea(q, distance, a) == InArea(q', distance, a)
    ensures PoisInArea(ReplaceFirst([x] + t, q, q'), distance, a)
         == if InArea(q, distance, a) then ReplaceFirst(PoisInArea([x] + t, distance, a), q, q') else PoisInArea([x] + t, distance, a)
    decreases |t| + 1, 0
  {
    ReplaceFirstCons(x, t, q, q');
    PoisInAreaCons(x, t, distance, a);
    var rest := PoisInArea(t, distance, a);
    if x == q {
      PoisInAreaCons(q', t, distance, a);
      if InArea(q, distance, a) {
        ReplaceFirstCons(q, rest, q, q');
      }
    } else {
      var t' := ReplaceFirst(t, q, q');
      PoisInAreaReplace(t, distance, a, q, q');
      PoisInAreaCons(x, t', distance, a);
      if InArea(x, distance, a) {
        ReplaceFirstCons(x, rest, q, q');
        assert PoisInArea([x] + t, distance, a) == [x] + rest;
        assert PoisInArea([x] + t', distance, a) == [x] + PoisInArea(t', distance, a);
      } else {
        assert PoisInArea([x] + t, distance, a) == rest;
        assert PoisInArea([x] + t', distance, a) == PoisInArea(t', distance, a);
      }
    }
  }

  /** Removing a POI removes it from the query's answer too. */
  lemma {:induction false} PoisInAreaRemove(s: seq<Poi>, distance: Distance, a: Area, q: Poi)
    ensures PoisInArea(RemoveFirst(s, q), distance, a) == RemoveFirst(PoisInArea(s, distance, a), q)
    decreases |s|, 1
  {
    if s != [] {
      assert s == [s[0]] + s[1..];
      PoisInAreaRemoveCons(s[0], s[1..], distance, a, q);
    }
  }

  lemma {:induction false} PoisInAreaRemoveCons(x: Poi, t: seq<Poi>, distance: Distance, a: Area, q: Poi)
    ensures PoisInArea(RemoveFirst([x] + t, q), distance, a) == RemoveFirst(PoisInArea([x] + t, distance, a), q)
    decreases |t| + 1, 0
  {
    RemoveFirstCons(x, t, q);
    PoisInAreaCons(x, t, distance, a);
    var rest := PoisInArea(t, distance, a);
    if x == q {
      assert RemoveFirst([x] + t, q) == t;
      if InArea(q, distance, a) {
        RemoveFirstCons(q, rest, q);
        assert PoisInArea([x] + t, distance, a) == [q] + rest;
      } else {
        assert PoisInArea([x] + t, distance, a) == rest;
        PoisInAreaMembers(t, distance, a, q);
        assert q !in rest;
      }
    } else {
      var t' := RemoveFirst(t, q);
      PoisInAreaRemove(t, distance, a, q);
      PoisInAreaCons(x, t', distance, a);
      if InArea(x, distance, a) {
        RemoveFirstCons(x, rest, q);
        assert PoisInArea([x] + t, distance, a) == [x] + rest;
        assert PoisInArea([x] + t', distance, a) == [x] + PoisInArea(t', distance, a);
      } else {
        assert PoisInArea([x] + t, distance, a) == rest;
        assert PoisInArea([x] + t', distance, a) == PoisInArea(t', distance, a);
      }
    }
  }

  /** The active POIs reported at or before `t`. */
  function ActiveAsOf(active: seq<Poi>, t: int): (r: seq<Poi>)
    ensures |r| <= |active|
  {
    if active == [] then []
    else (if active[0].date <= t then [active[0]] else []) + ActiveAsOf(active[1..], t)
  }

  /** The removed POIs that were reported at or before `t` and removed at or after `t`. */
  function RemovedAsOf(removed: seq<Removal>, t: int): (r: seq<Poi>)
    ensures |r| <= |removed|
  {
    if removed == [] then []
    else
      var x := removed[0];
      (if x.poi.date <= t && t <= x.removedDate then [x.poi] else []) + RemovedAsOf(removed[1..], t)
  }

  /** getAllPois: the POIs that existed at date `t`, active ones first. */
  function AsOf(active: seq<Poi>, removed: seq<Removal>, t: int): seq<Poi> {
    ActiveAsOf(active, t) + RemovedAsOf(removed, t)
  }

  lemma ActiveAsOfCons(x: Poi, s: seq<Poi>, t: int)
    ensures ActiveAsOf([x] + s, t) == (if x.date <= t then [x] else []) + ActiveAsOf(s, t)
  {
    assert ([x] + s)[0] == x && ([x] + s)[1..] == s;
  }

  lemma RemovedAsOfCons(x: Removal, s: seq<Removal>, t: int)
    ensures RemovedAsOf([x] + s, t) == (if x.poi.date <= t && t <= x.removedDate then [x.poi] else []) + RemovedAsOf(s, t)
  {
    assert ([x] + s)[0] == x && ([x] + s)[1..] == s;
  }

  /** One step of getPoisInArea's scan keeps `acc + PoisInArea(rest)` fixed. */
  lemma PoisInAreaStep(acc: seq<Poi>, s: seq<Poi>, i: nat, distance: Distance, a: Area)
    requires i < |s|
    ensures (if InArea(s[i], distance, a) then acc + [s[i]] else acc) + PoisInArea(s[i + 1..], distance, a)
            == acc + PoisInArea(s[i..], distance, a)
  {
    assert s[i..][0] == s[i] && s[i..][1..] == s[i + 1..];
  }

  lemma ActiveAsOfStep(acc: seq<Poi>, s: seq<Poi>, i: nat, t: int)
    requires i < |s|
    ensures (if s[i].date <= t then acc + [s[i]] else acc) + ActiveAsOf(s[i + 1..], t)
            == acc + ActiveAsOf(s[i..], t)
  {
    assert s[i..] == [s[i]] + s[i + 1..];
    ActiveAsOfCons(s[i], s[i + 1..], t);
  }

  /** One step of the scan over the removed list keeps `acc + RemovedAsOf(rest)` fixed. */
  lemma RemovedAsOfStep(acc: seq<Poi>, s: seq<Removal>, j: nat, t: int)
    requires j < |s|
    ensures (if s[j].poi.date <= t && t <= s[j].removedDate then acc + [s[j].poi] else acc)
              + RemovedAsOf(s[j + 1..], t)
            == acc + RemovedAsOf(s[j..], t)
  {
    assert s[j..] == [s[j]] + s[j + 1..];
    RemovedAsOfCons(s[j], s[j + 1..], t);
  }

  lemma {:induction false} ActiveAsOfMembers(active: seq<Poi>, t: int, p: Poi)
    ensures p in ActiveAsOf(active, t) <==> p in active && p.date <= t
  {
    if active != [] {
      ActiveAsOfMembers(active[1..], t, p);
      assert active == [active[0]] + active[1..];
    }
  }

  lemma {:induction false} RemovedAsOfMembers(removed: seq<Removal>, t: int, p: Poi)
    ensures p in RemovedAsOf(removed, t) <==> exists x :: x in removed && x.poi == p && p.date <= t <= x.removedDate
  {
    if removed != [] {
      RemovedAsOfMembers(removed[1..], t, p);
      assert removed == [removed[0]] + removed[1..];
    }
  }

  /** A POI is in the history as of `t` exactly when it is active and older than `t`, or was removed and alive at `t`. */
  lemma AsOfMembers(active: seq<Poi>, removed: seq<Removal>, t: int, p: Poi)
    ensures p in AsOf(active, removed, t) <==>
      (p in active && p.date <= t) || (exists x :: x in removed && x.poi == p && p.date <= t <= x.removedDate)
  {
    ActiveAsOfMembers(active, t, p);
    RemovedAsOfMembers(removed, t, p);
  }

  /** The least of `m` and the dates of `s`: the value getAllPois leaves in its outMinDate argument. */
  function MinDate(m: int, s: seq<Poi>): (r: int)
    ensures r <= m
  {
    if s == [] then m
    else
      var rest := MinDate(m, s[..|s| - 1]);
      if s[|s| - 1].date < rest then s[|s| - 1].date else rest
  }

  lemma MinDateSnoc(m: int, s: seq<Poi>, x: Poi)
    ensures MinDate(m, s + [x]) == if x.date < MinDate(m, s) then x.date else MinDate(m, s)
  {
    assert (s + [x])[..|s|] == s;
  }

  /** outMinDate ends at or below every date of the answer, and is one of them unless it kept its value. */
  lemma {:induction false} MinDateBounds(m: int, s: seq<Poi>)
    ensures forall i :: 0 <= i < |s| ==> MinDate(m, s) <= s[i].date
    ensures MinDate(m, s) == m || exists i :: 0 <= i < |s| && MinDate(m, s) == s[i].date
  {
    if s != [] {
      var init := s[..|s| - 1];
      MinDateBounds(m, init);
      assert forall i :: 0 <= i < |init| ==> init[i] == s[i];
    }
  }

  /** The server's store of POIs. */
  class PoiList {
    /** The active POIs, in insertion order. */
    var active: seq<Poi>
    /** The removed POIs, in removal order, each with its removal date. */
    var removed: seq<Removal>
    /** Every firing so far, oldest first. */
    var notices: seq<StoreNotice>
    const listeners: Registry
    const distance: Distance

    function State(): StoreState
      reads this
    {
      StoreState(active, removed, notices)
    }

    constructor (distance: Distance)
      ensures active == [] && removed == [] && notices == []
      ensures this.distance == distance && fresh(listeners) && listeners.members == []
    {
      active := [];
      removed := [];
      notices := [];
      this.distance := distance;
      listeners := new Registry();
    }

    /** The fire* methods: the event goes to every listener registered now. */
    method Fire(event: PoiEvent<Poi>)
      modifies this`notices
      ensures notices == old(notices) + [Notice(event, listeners.members)]
    {
      notices := notices + [Notice(event, listeners.members)];
    }

    /** addPoi: the POI is appended to the active list, then listeners hear it was added. */
    method AddPoi(p: Poi)
      modifies this`active, this`notices
      ensures active == old(active) + [p]
      ensures notices == old(notices) + [Notice(PoiAdded(p), listeners.members)]
    {
      active := active + [p];
      Fire(PoiAdded(p));
    }

    /**
     * removePoi: the first active POI equal to `p` is dropped, `p` is stamped with the
     * current date `now` and kept in the removed list, then listeners hear it was removed.
     */
    method RemovePoi(p: Poi, now: int)
      modifies this`active, this`removed, this`notices
      ensures active == RemoveFirst(old(active), p)
      ensures removed == old(removed) + [Removal(p, now)]
      ensures notices == old(notices) + [Notice(PoiRemoved(p), listeners.members)]
    {
      active := RemoveFirst(active, p);
      removed := removed + [Removal(p, now)];
      Fire(PoiRemoved(p));
    }

    /** A setter called on the active POI `p`: its value becomes `p'` where it stands in the list. */
    method SetInPlace(p: Poi, p': Poi)
      modifies this`active
      ensures active == ReplaceFirst(old(active), p, p')
    {
      active := ReplaceFirst(active, p, p');
    }

    /** getPoisInArea (all five arguments): the active POIs passing the filter, in list order. */
    method GetPoisInArea(lat: real, lon: real, radius: real, kind: Option<PoiType>, date: Option<int>) returns (result: seq<Poi>)
      ensures result == PoisInArea(active, distance, Area(lat, lon, radius, kind, date))
    {
      var a := Area(lat, lon, radius, kind, date);
      result := [];
      var i := 0;
      while i < |active|
        invariant 0 <= i <= |active|
        invariant result + PoisInArea(active[i..], distance, a) == PoisInArea(active, distance, a)
      {
        PoisInAreaStep(result, active, i, distance, a);
        if distance(a.lat, a.lon, active[i].lat, active[i].lon) <= a.radius
          && (a.kind.None? || active[i].kind == a.kind.value) && (a.date.None? || active[i].date == a.date.value)
        {
          result := result + [active[i]];
        }
        i := i + 1;
      }
    }

    /** getPoisInArea without a date: any date matches. */
    method GetPoisInAreaOfType(lat: real, lon: real, radius: real, kind: Option<PoiType>) returns (result: seq<Poi>)
      ensures result == PoisInArea(active, distance, Area(lat, lon, radius, kind, None))
    {
      result := GetPoisInArea(lat, lon, radius, kind, None);
    }

    /** getPoisInArea with a centre and a radius only: any type and any date match. */
    method GetPoisAround(lat: real, lon: real, radius: real) returns (result: seq<Poi>)
      ensures result == PoisInArea(active, distance, Area(lat, lon, radius, None, None))
    {
      result := GetPoisInAreaOfType(lat, lon, radius, None);
    }

    /**
     * getAllPois: the POIs that existed at date `t` (active ones reported by then, removed
     * ones alive then); `outMin` is `minDate` lowered to the oldest date among them.
     */
    method GetAllPois(t: int, minDate: int) returns (result: seq<Poi>, outMin: int)
      ensures result == AsOf(active, removed, t)
      ensures outMin == MinDate(minDate, result)
    {
      var act, rem := active, removed;
      result := [];
      outMin := minDate;
      var i := 0;
      while i < |act|
        invariant 0 <= i <= |act|
        invariant result + ActiveAsOf(act[i..], t) == ActiveAsOf(act, t)
        invariant outMin == MinDate(minDate, result)
      {
        var p := act[i];
        ActiveAsOfStep(result, act, i, t);
        if p.date <= t {
          MinDateSnoc(minDate, result, p);
          result := result + [p];
          if p.date < outMin {
            outMin := p.date;
          }
        }
        i := i + 1;
      }
      assert act[i..] == [] && result + [] == result;
      var fromActive := result;
      var j := 0;
      while j < |rem|
        invariant 0 <= j <= |rem|
        invariant result + RemovedAsOf(rem[j..], t) == fromActive + RemovedAsOf(rem, t)
        invariant outMin == MinDate(minDate, result)
      {
        var x := rem[j];
        RemovedAsOfStep(result, rem, j, t);
        if x.poi.date <= t && t <= x.removedDate {
          MinDateSnoc(minDate, result, x.poi);
          result := result + [x.poi];
          if x.poi.date < outMin {
            outMin := x.poi.date;
          }
        }
        j := j + 1;
      }
      assert rem[j..] == [] && result + [] == result;
    }

    /** getSize: the number of active POIs. */
    method GetSize() returns (n: nat)
      ensures n == |active|
    {
      n := |active|;
    }

    /**
     * updatePoi: `oldPoi` leaves the active list and `newPoi` is appended; listeners hear of
     * a removal then of an addition. The removed list is not touched.
     */
    method UpdatePoi(oldPoi: Poi, newPoi: Poi)
      modifies this`active, this`notices
      ensures active == RemoveFirst(old(active), oldPoi) + [newPoi]
      ensures notices == old(notices) + [Notice(PoiRemoved(oldPoi), listeners.members), Notice(PoiAdded(newPoi), listeners.members)]
    {
      active := RemoveFirst(active, oldPoi);
      active := active + [newPoi];
      Fire(PoiRemoved(oldPoi));
      Fire(PoiAdded(newPoi));
    }
  }

  /**
   * Removing an active POI at date `now` does not rewrite history: for every date up to `now`,
   * the POIs that existed then are the same before and after the removal.
   */
  lemma RemovalKeepsHistory(active: seq<Poi>, removed: seq<Removal>, p: Poi, now: int, t: int, x: Poi)
    requires p in active && t <= now
    ensures x in AsOf(active, removed, t) <==> x in AsOf(RemoveFirst(active, p), removed + [Removal(p, now)], t)
  {
    var active' := RemoveFirst(active, p);
    var removed' := removed + [Removal(p, now)];
    AsOfMembers(active, removed, t, x);
    AsOfMembers(active', removed', t, x);
    var wasRemoved := exists y :: y in removed && y.poi == x && x.date <= t <= y.removedDate;
    var isRemoved := exists y :: y in removed' && y.poi == x && x.date <= t <= y.removedDate;
    assert isRemoved <==> wasRemoved || (x == p && p.date <= t) by {
      if x == p && p.date <= t {
        assert Removal(p, now) in removed';
      }
      if isRemoved {
        var y :| y in removed' && y.poi == x && x.date <= t <= y.removedDate;
        assert y in removed || y == Removal(p, now);
      }
    }
    assert x in multiset(active) <==> x in active;
    assert x in multiset(active') <==> x in active';
    if x != p {
      assert multiset(active')[x] == multiset(active)[x];
    }
  }
}
