/**
 * The server's voting rules (data/ServerPoiList): a report of a POI that is already known
 * confirms it, and a POI reported as not seen NB_REFUTATION_FOR_DELETE times is removed.
 */
module ServerPoiLists {
  import opened Wrappers
  import opened Lists
  import opened Numbers
  import opened PoiTypes
  import opened Listeners
  import opened ServerStore
  import opened XmlDatabase
  import opened Text

  /** After this many refutations a POI is removed. */
  const NB_REFUTATION_FOR_DELETE: int32 := 3

  /** The query of notSeen: the same type and the same date, within PRECISION of the report. */
  function SameReportArea(p: Poi): Area {
    Area(p.lat, p.lon, PRECISION, Some(p.kind), Some(p.date))
  }

  /** The query of addPoi: the same type, any date, within PRECISION of the report. */
  function NearbyArea(p: Poi): Area {
    Area(p.lat, p.lon, PRECISION, Some(p.kind), None)
  }

  /**
   * One turn of notSeen's loop on the found POI `q`: removed (stamped `now`) once its refutations
   * reach the threshold, otherwise given one more refutation in place and announced as updated.
   */
  function Refute(st: StoreState, q: Poi, now: int, to: seq<Listener>): StoreState {
    var n := Inc(q.refutations);
    if n >= NB_REFUTATION_FOR_DELETE then
      StoreState(RemoveFirst(st.active, q), st.removed + [Removal(q, now)], st.notices + [Notice(PoiRemoved(q), to)])
    else
      var q' := q.(refutations := n);
      StoreState(ReplaceFirst(st.active, q, q'), st.removed, st.notices + [Notice(PoiUpdated(q'), to)])
  }

  /** notSeen's loop over the POIs found, in order. */
  function RefuteAll(st: StoreState, qs: seq<Poi>, now: int, to: seq<Listener>): StoreState {
    if qs == [] then st
    else Refute(RefuteAll(st, qs[..|qs| - 1], now, to), qs[|qs| - 1], now, to)
  }

  /** notSeen: every active POI matching the report's place, type and date is refuted once. */
  function NotSeenSpec(st: StoreState, distance: Distance, p: Poi, now: int, to: seq<Listener>): StoreState {
    RefuteAll(st, PoisInArea(st.active, distance, SameReportArea(p)), now, to)
  }

  /**
   * One turn of addPoi's loop on the nearby POI `q`: one more confirmation in place; the
   * listeners are told of an update carrying the submitted report.
   */
  function Confirm(st: StoreState, q: Poi, submitted: Poi, to: seq<Listener>): StoreState {
    StoreState(ReplaceFirst(st.active, q, q.(confirmations := Inc(q.confirmations))), st.removed,
               st.notices + [Notice(PoiUpdated(submitted), to)])
  }

  function ConfirmAll(st: StoreState, qs: seq<Poi>, submitted: Poi, to: seq<Listener>): StoreState {
    if qs == [] then st
    else Confirm(ConfirmAll(st, qs[..|qs| - 1], submitted, to), qs[|qs| - 1], submitted, to)
  }

  /** addPoi: a report with no POI of its type nearby is added; otherwise every such POI is confirmed. */
  function AddSpec(st: StoreState, distance: Distance, p: Poi, to: seq<Listener>): StoreState {
    var around := PoisInArea(st.active, distance, NearbyArea(p));
    if around == [] then StoreState(st.active + [p], st.removed, st.notices + [Notice(PoiAdded(p), to)])
    else ConfirmAll(st, around, p, to)
  }

  /** A report of a POI nobody knows changes nothing. */
  lemma NotSeenUnknown(st: StoreState, distance: Distance, p: Poi, now: int, to: seq<Listener>)
    requires forall q :: q in st.active ==> !InArea(q, distance, SameReportArea(p))
    ensures NotSeenSpec(st, distance, p, now, to) == st
  {
    var found := PoisInArea(st.active, distance, SameReportArea(p));
    if found != [] {
      PoisInAreaMembers(st.active, distance, SameReportArea(p), found[0]);
      assert false;
    }
  }

  lemma RefuteAllOne(st: StoreState, q: Poi, now: int, to: seq<Listener>)
    ensures RefuteAll(st, [q], now, to) == Refute(st, q, now, to)
  {
    assert [q][..0] == [];
  }

  lemma RefuteAllStep(st: StoreState, qs: seq<Poi>, i: nat, now: int, to: seq<Listener>)
    requires i < |qs|
    ensures RefuteAll(st, qs[..i + 1], now, to) == Refute(RefuteAll(st, qs[..i], now, to), qs[i], now, to)
  {
    assert qs[..i + 1][..i] == qs[..i];
  }

  lemma ConfirmAllOne(st: StoreState, q: Poi, submitted: Poi, to: seq<Listener>)
    ensures ConfirmAll(st, [q], submitted, to) == Confirm(st, q, submitted, to)
  {
    assert [q][..0] == [];
  }

  lemma ConfirmAllStep(st: StoreState, qs: seq<Poi>, i: nat, submitted: Poi, to: seq<Listener>)
    requires i < |qs|
    ensures ConfirmAll(st, qs[..i + 1], submitted, to) == Confirm(ConfirmAll(st, qs[..i], submitted, to), qs[i], submitted, to)
  {
    assert qs[..i + 1][..i] == qs[..i];
  }

  /**
   * notSeen on a POI that is the only match and has reached the threshold: it leaves the
   * active POIs for the removed ones, stamped `now`, and nothing matches any more.
   */
  lemma NotSeenSingleRemoves(st: StoreState, distance: Distance, p: Poi, now: int, to: seq<Listener>, q: Poi)
    requires PoisInArea(st.active, distance, SameReportArea(p)) == [q]
    requires Inc(q.refutations) >= NB_REFUTATION_FOR_DELETE
    ensures var st' := NotSeenSpec(st, distance, p, now, to);
      && multiset(st'.active) == multiset(st.active) - multiset{q}
      && st'.removed == st.removed + [Removal(q, now)]
      && PoisInArea(st'.active, distance, SameReportArea(p)) == []
  {
    RefuteAllOne(st, q, now, to);
    var active' := RemoveFirst(st.active, q);
    assert NotSeenSpec(st, distance, p, now, to) == StoreState(active', st.removed + [Removal(q, now)], st.notices + [Notice(PoiRemoved(q), to)]);
    PoisInAreaRemove(st.active, distance, SameReportArea(p), q);
    RemoveFirstCons(q, [], q);
  }

  /**
   * notSeen on a POI that is the only match and is below the threshold: it stays, still the
   * only match, with one more refutation.
   */
  lemma NotSeenSingleRefutes(st: StoreState, distance: Distance, p: Poi, now: int, to: seq<Listener>, q: Poi)
    requires PoisInArea(st.active, distance, SameReportArea(p)) == [q]
    requires Inc(q.refutations) < NB_REFUTATION_FOR_DELETE
    ensures var st' := NotSeenSpec(st, distance, p, now, to);
      var q' := q.(refutations := Inc(q.refutations));
      && multiset(st'.active) == multiset(st.active) - multiset{q} + multiset{q'}
      && st'.removed == st.removed
      && PoisInArea(st'.active, distance, SameReportArea(p)) == [q']
  {
    var a := SameReportArea(p);
    var q' := q.(refutations := Inc(q.refutations));
    RefuteAllOne(st, q, now, to);
    var active' := ReplaceFirst(st.active, q, q');
    assert NotSeenSpec(st, distance, p, now, to) == StoreState(active', st.removed, st.notices + [Notice(PoiUpdated(q'), to)]);
    PoisInAreaMembers(st.active, distance, a, q);
    ReplaceFirstMultiset(st.active, q, q');
    PoisInAreaReplace(st.active, distance, a, q, q');
    ReplaceFirstCons(q, [], q, q');
  }

  /**
   * NB_REFUTATION_FOR_DELETE: a fresh POI, the only one at its place with its type and date,
   * survives two "not seen" reports and is removed by the third, stamped with the third's date.
   */
  lemma ThirdRefutationRemoves(st: StoreState, distance: Distance, p: Poi, to: seq<Listener>, q: Poi, now1: int, now2: int, now3: int)
    requires PoisInArea(st.active, distance, SameReportArea(p)) == [q]
    requires q.refutations == 0
    ensures var st1 := NotSeenSpec(st, distance, p, now1, to);
      var st2 := NotSeenSpec(st1, distance, p, now2, to);
      var st3 := NotSeenSpec(st2, distance, p, now3, to);
      && PoisInArea(st1.active, distance, SameReportArea(p)) == [q.(refutations := 1)]
      && PoisInArea(st2.active, distance, SameReportArea(p)) == [q.(refutations := 2)]
      && PoisInArea(st3.active, distance, SameReportArea(p)) == []
      && multiset(st3.active) == multiset(st.active) - multiset{q}
      && st3.removed == st.removed + [Removal(q.(refutations := 2), now3)]
  {
    var st1 := NotSeenSpec(st, distance, p, now1, to);
    var st2 := NotSeenSpec(st1, distance, p, now2, to);
    var q1 := q.(refutations := 1);
    var q2 := q.(refutations := 2);
    assert Inc(0) == 1 && Inc(1) == 2 && Inc(2) == 3;
    NotSeenSingleRefutes(st, distance, p, now1, to, q);
    NotSeenSingleRefutes(st1, distance, p, now2, to, q1);
    assert q1.(refutations := 2) == q2;
    NotSeenSingleRemoves(st2, distance, p, now3, to, q2);
    var m := multiset(st.active) - multiset{q};
    AddThenTake(m, q1);
    AddThenTake(m, q2);
  }

  /**
   * notSeen touches only what matches the report: a POI outside the queried area keeps its
   * number of occurrences, the removed list only grows, and one firing is made per POI found.
   */
  lemma {:induction false} RefuteAllOutside(st: StoreState, qs: seq<Poi>, now: int, to: seq<Listener>, distance: Distance, a: Area, x: Poi)
    requires forall i :: 0 <= i < |qs| ==> InArea(qs[i], distance, a)
    requires !InArea(x, distance, a)
    ensures var st' := RefuteAll(st, qs, now, to);
      && multiset(st'.active)[x] == multiset(st.active)[x]
      && |st.removed| <= |st'.removed| && st'.removed[..|st.removed|] == st.removed
      && |st'.notices| == |st.notices| + |qs| && st'.notices[..|st.notices|] == st.notices
  {
    if qs != [] {
      assert InArea(qs[|qs| - 1], distance, a);
      RefuteAllOutside(st, qs[..|qs| - 1], now, to, distance, a, x);
      RefuteAllOutsideStep(st, RefuteAll(st, qs[..|qs| - 1], now, to), qs, now, to, distance, a, x);
    }
  }

  lemma RefuteAllOutsideStep(st: StoreState, mid: StoreState, qs: seq<Poi>, now: int, to: seq<Listener>, distance: Distance, a: Area, x: Poi)
    requires qs != [] && mid == RefuteAll(st, qs[..|qs| - 1], now, to)
    requires InArea(qs[|qs| - 1], distance, a) && !InArea(x, distance, a)
    requires multiset(mid.active)[x] == multiset(st.active)[x]
    requires |st.removed| <= |mid.removed| && mid.removed[..|st.removed|] == st.removed
    requires |mid.notices| == |st.notices| + |qs| - 1 && mid.notices[..|st.notices|] == st.notices
    ensures var st' := RefuteAll(st, qs, now, to);
      && multiset(st'.active)[x] == multiset(st.active)[x]
      && |st.removed| <= |st'.removed| && st'.removed[..|st.removed|] == st.removed
      && |st'.notices| == |st.notices| + |qs| && st'.notices[..|st.notices|] == st.notices
  {
    var q := qs[|qs| - 1];
    assert RefuteAll(st, qs, now, to) == Refute(mid, q, now, to);
    RefuteOutside(mid, q, now, to, distance, a, x);
    var st' := Refute(mid, q, now, to);
    PrefixOfPrefix(st.removed, mid.removed, st'.removed);
    PrefixOfPrefix(st.notices, mid.notices, st'.notices);
  }

  lemma RefuteOutside(st: StoreState, q: Poi, now: int, to: seq<Listener>, distance: Distance, a: Area, x: Poi)
    requires InArea(q, distance, a) && !InArea(x, distance, a)
    ensures var st' := Refute(st, q, now, to);
      && multiset(st'.active)[x] == multiset(st.active)[x]
      && |st.removed| <= |st'.removed| && st'.removed[..|st.removed|] == st.removed
      && |st'.notices| == |st.notices| + 1 && st'.notices[..|st.notices|] == st.notices
  {
    var n := Inc(q.refutations);
    if n >= NB_REFUTATION_FOR_DELETE {
      RemoveOutside(st, q, now, to, x);
    } else {
      UpdateOutside(st, q, q.(refutations := n), to, x);
    }
  }

  lemma RemoveOutside(st: StoreState, q: Poi, now: int, to: seq<Listener>, x: Poi)
    requires x != q
    ensures var st' := StoreState(RemoveFirst(st.active, q), st.removed + [Removal(q, now)], st.notices + [Notice(PoiRemoved(q), to)]);
      && multiset(st'.active)[x] == multiset(st.active)[x]
      && |st.removed| <= |st'.removed| && st'.removed[..|st.removed|] == st.removed
      && |st'.notices| == |st.notices| + 1 && st'.notices[..|st.notices|] == st.notices
  {
    assert (st.removed + [Removal(q, now)])[..|st.removed|] == st.removed;
    assert (st.notices + [Notice(PoiRemoved(q), to)])[..|st.notices|] == st.notices;
  }

  lemma UpdateOutside(st: StoreState, q: Poi, q': Poi, to: seq<Listener>, x: Poi)
    requires x != q && x != q'
    ensures var st' := StoreState(ReplaceFirst(st.active, q, q'), st.removed, st.notices + [Notice(PoiUpdated(q'), to)]);
      && multiset(st'.active)[x] == multiset(st.active)[x]
      && |st'.notices| == |st.notices| + 1 && st'.notices[..|st.notices|] == st.notices
  {
    ReplaceFirstMultiset(st.active, q, q');
    assert (st.notices + [Notice(PoiUpdated(q'), to)])[..|st.notices|] == st.notices;
  }




  /**
   * addPoi never removes anything and, when it confirms, keeps the number of active POIs and
   * the count of every POI outside the queried area; each confirmation makes one firing that
   * carries the submitted report.
   */
  lemma {:induction false} ConfirmAllFrame(st: StoreState, qs: seq<Poi>, submitted: Poi, to: seq<Listener>, distance: Distance, a: Area, x: Poi)
    requires forall i :: 0 <= i < |qs| ==> InArea(qs[i], distance, a)
    requires !InArea(x, distance, a)
    ensures var st' := ConfirmAll(st, qs, submitted, to);
      && |st'.active| == |st.active|
      && multiset(st'.active)[x] == multiset(st.active)[x]
      && st'.removed == st.removed
      && |st'.notices| == |st.notices| + |qs| && st'.notices[..|st.notices|] == st.notices
      && forall i :: |st.notices| <= i < |st'.notices| ==> st'.notices[i] == Notice(PoiUpdated(submitted), to)
  {
    if qs != [] {
      var init := qs[..|qs| - 1];
      var q := qs[|qs| - 1];
      ConfirmAllFrame(st, init, submitted, to, distance, a, x);
      var mid := ConfirmAll(st, init, submitted, to);
      assert InArea(q, distance, a);
      ReplaceFirstMultiset(mid.active, q, q.(confirmations := Inc(q.confirmations)));
      var notices' := mid.notices + [Notice(PoiUpdated(submitted), to)];
      assert notices'[..|st.notices|] == mid.notices[..|st.notices|];
      assert forall i :: |st.notices| <= i < |notices'| ==> notices'[i] == Notice(PoiUpdated(submitted), to) by {
        forall i | |st.notices| <= i < |notices'|
          ensures notices'[i] == Notice(PoiUpdated(submitted), to)
        {
          if i < |mid.notices| {
            assert notices'[i] == mid.notices[i];
          }
        }
      }
    }
  }

  /**
   * The same report made twice, with no POI of its type near it before: the first adds it,
   * the second confirms it rather than adding a duplicate.
   */
  lemma SecondReportConfirms(st: StoreState, distance: Distance, p: Poi, to: seq<Listener>)
    requires PoisInArea(st.active, distance, NearbyArea(p)) == []
    requires distance(p.lat, p.lon, p.lat, p.lon) <= PRECISION
    ensures var st1 := AddSpec(st, distance, p, to);
      var st2 := AddSpec(st1, distance, p, to);
      && st1.active == st.active + [p]
      && st2.active == st.active + [p.(confirmations := Inc(p.confirmations))]
      && st2.removed == st.removed
      && st2.notices == st.notices + [Notice(PoiAdded(p), to), Notice(PoiUpdated(p), to)]
  {
    var a := NearbyArea(p);
    var p' := p.(confirmations := Inc(p.confirmations));
    var st1 := StoreState(st.active + [p], st.removed, st.notices + [Notice(PoiAdded(p), to)]);
    assert AddSpec(st, distance, p, to) == st1;
    PoisInAreaAppend(st.active, [p], distance, a);
    PoisInAreaCons(p, [], distance, a);
    assert PoisInArea(st1.active, distance, a) == [p];
    ConfirmAllOne(st1, p, p, to);
    assert AddSpec(st1, distance, p, to) == Confirm(st1, p, p, to);
    PoisInAreaMembers(st.active, distance, a, p);
    ReplaceFirstLast(st.active, p, p');
    assert st1.notices + [Notice(PoiUpdated(p), to)] == st.notices + [Notice(PoiAdded(p), to), Notice(PoiUpdated(p), to)];
  }


  // ---------------------------------------------------------------- the XML database

  /** writePoi: one poi element per POI of the list, in list order. */
  method WritePoi(recs: seq<Record>, f: Formats) returns (out: seq<XmlEvent>)
    ensures out == Elements(recs, f)
  {
    out := [];
    var i := 0;
    while i < |recs|
      invariant 0 <= i <= |recs|
      invariant out == Elements(recs[..i], f)
    {
      assert recs[..i + 1][..i] == recs[..i];
      out := out + PoiElement(recs[i], f);
      i := i + 1;
    }
    assert recs[..i] == recs;
  }

  /** The version loop of readFromFile over the attributes of the points element. */
  method CheckFileVersion(attrs: seq<Attribute>) returns (err: Option<LoadError>)
    ensures err == CheckVersion(attrs)
  {
    var i := 0;
    while i < |attrs|
      invariant 0 <= i <= |attrs|
      invariant CheckVersion(attrs[..i]) == None
    {
      assert attrs[..i + 1][..i] == attrs[..i];
      if attrs[i].0 == "version" && attrs[i].1 != XML_VERSION {
        err := Some(InvalidVersion(attrs[i].1));
        CheckVersionSticky(attrs, i + 1);
        return;
      }
      i := i + 1;
    }
    assert attrs[..i] == attrs;
    err := None;
  }

  /** The attribute loop of readFromFile over a poi element; the first attribute that does not parse aborts the load. */
  method ReadPoiAttributes(attrs: seq<Attribute>, f: Formats) returns (r: Result<Fields, LoadError>)
    ensures r == ReadAttributes(attrs, f)
  {
    var fs := NO_FIELDS;
    var i := 0;
    while i < |attrs|
      invariant 0 <= i <= |attrs|
      invariant ReadAttributes(attrs[..i], f) == Success(fs)
    {
      assert attrs[..i + 1][..i] == attrs[..i];
      var (name, value) := attrs[i];
      var err: Option<LoadError> := None;
      if name == "latitude" {
        match f.doubles.parse(value) {
          case None => err := Some(BadNumber(value));
          case Some(v) => fs := fs.(lat := v);
        }
      } else if name == "longitude" {
        match f.doubles.parse(value) {
          case None => err := Some(BadNumber(value));
          case Some(v) => fs := fs.(lon := v);
        }
      } else if name == "date" {
        match f.dates.parse(value) {
          case None => err := Some(UnparsableDate(value));
          case Some(d) => fs := fs.(date := Some(d));
        }
      } else if name == "type" {
        match ValueOf(value) {
          case None => err := Some(UnknownType(value));
          case Some(t) => fs := fs.(kind := Some(t));
        }
      }
      if err.Some? {
        ReadAttributesSticky(attrs, i + 1, f);
        return Failure(err.value);
      }
      i := i + 1;
    }
    assert attrs[..i] == attrs;
    r := Success(fs);
  }

  /** A poi start tag: the attribute loop, the type and date checks, then constructPoi. */
  method ReadPoiStart(attrs: seq<Attribute>, f: Formats) returns (r: Result<Record, LoadError>)
    ensures r == PoiStart(attrs, f)
  {
    var fields := ReadPoiAttributes(attrs, f);
    if fields.Failure? {
      return Failure(fields.error);
    }
    var fs := fields.value;
    if fs.kind.None? {
      return Failure(TypeUndefined);
    }
    if fs.date.None? {
      return Failure(DateUndefined);
    }
    r := Success(Record(ConstructPoi(fs.kind.value, fs.lat, fs.lon, fs.date.value), None));
  }

  /** The server's store with its voting rules (ServerPoiList extends PoiList). */
  class ServerPoiList {
    const list: PoiList

    constructor (distance: Distance)
      ensures fresh(list) && fresh(list.listeners)
      ensures list.State() == StoreState([], [], []) && list.distance == distance && list.listeners.members == []
    {
      list := new PoiList(distance);
    }

    /** notSeen: each active POI matching the report is refuted once; `now` is the clock read by removePoi. */
    method NotSeen(p: Poi, now: int)
      modifies list`active, list`removed, list`notices
      ensures list.State() == NotSeenSpec(old(list.State()), list.distance, p, now, list.listeners.members)
    {
      var found := list.GetPoisInArea(p.lat, p.lon, PRECISION, Some(p.kind), Some(p.date));
      if found == [] {
        return;
      }
      ghost var st := list.State();
      var i := 0;
      while i < |found|
        invariant 0 <= i <= |found|
        invariant list.State() == RefuteAll(st, found[..i], now, list.listeners.members)
      {
        RefuteAllStep(st, found, i, now, list.listeners.members);
        RefuteOne(found[i], now);
        i := i + 1;
      }
      assert found[..i] == found;
    }

    /** One turn of notSeen's loop: the POI found gets one more refutation, or is removed at the threshold. */
    method RefuteOne(q: Poi, now: int)
      modifies list`active, list`removed, list`notices
      ensures list.State() == Refute(old(list.State()), q, now, list.listeners.members)
    {
      var n := Inc(q.refutations);
      if n >= NB_REFUTATION_FOR_DELETE {
        list.RemovePoi(q, now);
      } else {
        var q' := q.(refutations := n);
        list.SetInPlace(q, q');
        list.Fire(PoiUpdated(q'));
      }
    }

    /** addPoi: a report with nothing of its type nearby is added, otherwise it confirms what is there. */
    method AddPoi(p: Poi)
      modifies list`active, list`notices
      ensures list.State() == AddSpec(old(list.State()), list.distance, p, list.listeners.members)
    {
      var around := list.GetPoisInAreaOfType(p.lat, p.lon, PRECISION, Some(p.kind));
      if around == [] {
        list.AddPoi(p);
        return;
      }
      ghost var st := list.State();
      var i := 0;
      while i < |around|
        invariant 0 <= i <= |around|
        invariant list.State() == ConfirmAll(st, around[..i], p, list.listeners.members)
      {
        var q := around[i];
        list.SetInPlace(q, q.(confirmations := Inc(q.confirmations)));
        list.Fire(PoiUpdated(p));
        ConfirmAllStep(st, around, i, p, list.listeners.members);
        i := i + 1;
      }
      assert around[..i] == around;
    }

    /** saveToFile: the points element, version 1, with the active POIs, then the removed ones. */
    method SaveToFile(f: Formats) returns (out: seq<XmlEvent>)
      ensures out == Document(list.active, list.removed, f)
    {
      var active := WritePoi(ActiveRecords(list.active), f);
      var removed := WritePoi(RemovedRecords(list.removed), f);
      var body := active + removed;
      out := [OtherEvent, StartElement("points", [("version", XML_VERSION)], if body == [] then Some("") else None)]
             + body + [EndElement("points"), OtherEvent];
    }

    /**
     * readFromFile: the reader's event loop fills a fresh store directly (no listener hears it);
     * the first exception aborts the load.
     */
    static method ReadFromFile(events: seq<XmlEvent>, f: Formats, distance: Distance) returns (r: Result<ServerPoiList, LoadError>)
      ensures Load(events, f).Failure? ==> r.Failure? && r.error == Load(events, f).error
      ensures Load(events, f).Success? ==>
                && r.Success? && fresh(r.value) && fresh(r.value.list)
                && r.value.list.active == Load(events, f).value.active
                && r.value.list.removed == Load(events, f).value.removed
                && r.value.list.notices == [] && r.value.list.distance == distance
                && r.value.list.listeners.members == []
    {
      var poiList := new ServerPoiList(distance);
      var pos := 0;
      var current: Option<Record> := None;
      while pos < |events|
        invariant pos <= |events|
        invariant fresh(poiList) && fresh(poiList.list)
        invariant poiList.list.notices == [] && poiList.list.distance == distance && poiList.list.listeners.members == []
        invariant Run(events, Reading(pos, current, poiList.list.active, poiList.list.removed), f) == Load(events, f)
        decreases |events| - pos
      {
        ghost var r0 := Reading(pos, current, poiList.list.active, poiList.list.removed);
        match events[pos]
        case OtherEvent =>
          pos := pos + 1;
        case EndElement(name) =>
          if name == "poi" && current.Some? {
            var rec := current.value;
            if rec.removedDate.None? {
              poiList.list.active := poiList.list.active + [rec.poi];
            } else {
              poiList.list.removed := poiList.list.removed + [Removal(rec.poi, rec.removedDate.value)];
            }
            current := None;
          }
          pos := pos + 1;
        case StartElement(name, attrs, text) =>
          if name == "points" {
            var err := CheckFileVersion(attrs);
            if err.Some? {
              RunFails(events, r0, f, err.value);
              return Failure(err.value);
            }
            pos := pos + 1;
          } else if name == "poi" {
            var start := ReadPoiStart(attrs, f);
            if start.Failure? {
              RunFails(events, r0, f, start.error);
              return Failure(start.error);
            }
            current := Some(start.value);
            pos := pos + 1;
          } else if name == "confirmations" || name == "refutations" || name == "removedDate" {
            var res := TextElement(name, text, current, f);
            if res.Failure? {
              RunFails(events, r0, f, res.error);
              return Failure(res.error);
            }
            current := Some(res.value);
            pos := if pos + 2 <= |events| then pos + 2 else |events|;
          } else {
            pos := pos + 1;
          }
        RunStep(events, r0, f, Reading(pos, current, poiList.list.active, poiList.list.removed));
      }
      return Success(poiList);
    }
  }
}
