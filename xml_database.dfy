/**
 * The XML file of the server's store (data/ServerPoiList saveToFile and readFromFile), seen
 * as the sequence of events a StAX writer emits and a StAX reader delivers.
 *
 * A text-only element (confirmations, refutations, removedDate) is a StartElement carrying
 * the text getElementText returns, immediately followed by its EndElement; an element that
 * holds other elements carries no text.
 */
module XmlDatabase {
  import opened Wrappers
  import opened Numbers
  import opened Lists
  import opened Text
  import opened PoiTypes
  import opened ServerStore

  /** The version written in, and required of, the points element. */
  const XML_VERSION: string := "1"

  /** An attribute: its local name and its value. */
  type Attribute = (string, string)

  datatype XmlEvent =
    | StartElement(name: string, attributes: seq<Attribute>, text: Option<string>)
    | EndElement(name: string)
      /** Document start and end, characters, comments: the reader's switch ignores them. */
    | OtherEvent

  /** Why readFromFile throws. */
  datatype LoadError =
      /** XMLDatabaseException "Invalid file version!" */
    | InvalidVersion(found: string)
      /** NumberFormatException from Double.parseDouble or Integer.parseInt */
    | BadNumber(text: string)
      /** XMLDatabaseException "Unparsable date format" on a poi's date attribute */
    | UnparsableDate(text: string)
      /** IllegalArgumentException from Enum.valueOf on the type attribute */
    | UnknownType(text: string)
      /** XMLDatabaseException "Type undefined" */
    | TypeUndefined
      /** XMLDatabaseException "Date undefined" */
    | DateUndefined
      /** NullPointerException: a counter or removal date outside any poi element */
    | NoCurrentPoi
      /** XMLStreamException from getElementText */
    | ReaderError

  /** A POI as it is written and read: removedDate is set exactly for the POIs of the removed list. */
  datatype Record = Record(poi: Poi, removedDate: Option<int>)

  function ActiveRecords(active: seq<Poi>): seq<Record> {
    seq(|active|, i requires 0 <= i < |active| => Record(active[i], None))
  }

  function RemovedRecords(removed: seq<Removal>): seq<Record> {
    seq(|removed|, i requires 0 <= i < |removed| => Record(removed[i].poi, Some(removed[i].removedDate)))
  }

  // ---------------------------------------------------------------- writing

  /** writePoi, for one POI: its attributes, its two counters, and its removal date when it has one. */
  function PoiElement(rec: Record, f: Formats): seq<XmlEvent> {
    var p := rec.poi;
    [StartElement("poi", [("type", Name(p.kind)), ("latitude", f.doubles.show(p.lat)),
                          ("longitude", f.doubles.show(p.lon)), ("date", f.dates.show(p.date))], None),
     StartElement("confirmations", [], Some(IntToString(p.confirmations))), EndElement("confirmations"),
     StartElement("refutations", [], Some(IntToString(p.refutations))), EndElement("refutations")]
    + (if rec.removedDate.Some? then
         [StartElement("removedDate", [], Some(f.dates.show(rec.removedDate.value))), EndElement("removedDate")]
       else [])
    + [EndElement("poi")]
  }

  /** writePoi: one poi element per record, in list order. */
  function Elements(recs: seq<Record>, f: Formats): seq<XmlEvent> {
    if recs == [] then [] else Elements(recs[..|recs| - 1], f) + PoiElement(recs[|recs| - 1], f)
  }

  /** saveToFile: the points element, version 1, holding the active POIs then the removed ones. */
  function Document(active: seq<Poi>, removed: seq<Removal>, f: Formats): seq<XmlEvent> {
    var body := Elements(ActiveRecords(active), f) + Elements(RemovedRecords(removed), f);
    [OtherEvent, StartElement("points", [("version", XML_VERSION)], if body == [] then Some("") else None)]
    + body + [EndElement("points"), OtherEvent]
  }

  // ---------------------------------------------------------------- reading

  /** The version check on the points element: the first version attribute that is not "1". */
  function CheckVersion(attrs: seq<Attribute>): (r: Option<LoadError>)
    ensures r.Some? ==> r.value.InvalidVersion?
  {
    if attrs == [] then None
    else
      match CheckVersion(attrs[..|attrs| - 1])
      case Some(e) => Some(e)
      case None =>
        var a := attrs[|attrs| - 1];
        if a.0 == "version" && a.1 != XML_VERSION then Some(InvalidVersion(a.1)) else None
  }

  /** What the attribute loop of a poi element has gathered: the position defaults to 0.0, type and date to null. */
  datatype Fields = Fields(lat: real, lon: real, date: Option<int>, kind: Option<PoiType>)

  const NO_FIELDS := Fields(0.0, 0.0, None, None)

  function ReadAttribute(fs: Fields, a: Attribute, f: Formats): Result<Fields, LoadError> {
    if a.0 == "latitude" then
      (match f.doubles.parse(a.1) case None => Failure(BadNumber(a.1)) case Some(v) => Success(fs.(lat := v)))
    else if a.0 == "longitude" then
      (match f.doubles.parse(a.1) case None => Failure(BadNumber(a.1)) case Some(v) => Success(fs.(lon := v)))
    else if a.0 == "date" then
      (match f.dates.parse(a.1) case None => Failure(UnparsableDate(a.1)) case Some(d) => Success(fs.(date := Some(d))))
    else if a.0 == "type" then
      (match ValueOf(a.1) case None => Failure(UnknownType(a.1)) case Some(t) => Success(fs.(kind := Some(t))))
    else Success(fs)
  }

  /** The attribute loop of a poi element, in document order; a later attribute overrides an earlier one. */
  function ReadAttributes(attrs: seq<Attribute>, f: Formats): Result<Fields, LoadError> {
    if attrs == [] then Success(NO_FIELDS)
    else
      match ReadAttributes(attrs[..|attrs| - 1], f)
      case Failure(e) => Failure(e)
      case Success(fs) => ReadAttribute(fs, attrs[|attrs| - 1], f)
  }

  /** A poi element's start: its attributes, then the type and date checks, then constructPoi. */
  function PoiStart(attrs: seq<Attribute>, f: Formats): Result<Record, LoadError> {
    match ReadAttributes(attrs, f)
    case Failure(e) => Failure(e)
    case Success(fs) =>
      if fs.kind.None? then Failure(TypeUndefined)
      else if fs.date.None? then Failure(DateUndefined)
      else Success(Record(ConstructPoi(fs.kind.value, fs.lat, fs.lon, fs.date.value), None))
  }

  /** The text elements: getElementText, then the parse, then the call on currentPoi (null is a NullPointerException). */
  function TextElement(name: string, text: Option<string>, current: Option<Record>, f: Formats): Result<Record, LoadError>
    requires name == "confirmations" || name == "refutations" || name == "removedDate"
  {
    if text.None? then Failure(ReaderError)
    else if name == "removedDate" then
      // a date that does not parse makes the handler call getElementText a second time, which throws
      match f.dates.parse(text.value)
      case None => Failure(ReaderError)
      case Some(d) => if current.None? then Failure(NoCurrentPoi) else Success(current.value.(removedDate := Some(d)))
    else
      match ParseInt(text.value)
      case None => Failure(BadNumber(text.value))
      case Some(n) =>
        if current.None? then Failure(NoCurrentPoi)
        else if name == "confirmations" then Success(current.value.(poi := current.value.poi.(confirmations := n)))
        else Success(current.value.(poi := current.value.poi.(refutations := n)))
  }

  /** The reader's state: its position, currentPoi, and the two lists built so far. */
  datatype Reading = Reading(pos: nat, current: Option<Record>, active: seq<Poi>, removed: seq<Removal>)

  /** A finished record goes to the removed list when it has a removal date, to the active list otherwise. */
  function Route(r: Reading, rec: Record): Reading {
    if rec.removedDate.None? then r.(active := r.active + [rec.poi])
    else r.(removed := r.removed + [Removal(rec.poi, rec.removedDate.value)])
  }

  /** One turn of readFromFile's loop: the event at `r.pos`, dispatched on its kind and name. */
  function Step(events: seq<XmlEvent>, r: Reading, f: Formats): (res: Result<Reading, LoadError>)
    requires r.pos < |events|
    ensures res.Success? ==> r.pos < res.value.pos <= |events|
  {
    var after := r.(pos := r.pos + 1);
    match events[r.pos]
    case OtherEvent => Success(after)
    case EndElement(name) =>
      if name == "poi" && r.current.Some? then Success(Route(after, r.current.value).(current := None))
      else Success(after)
    case StartElement(name, attrs, text) =>
      if name == "points" then
        (match CheckVersion(attrs) case Some(e) => Failure(e) case None => Success(after))
      else if name == "poi" then
        (match PoiStart(attrs, f) case Failure(e) => Failure(e) case Success(rec) => Success(after.(current := Some(rec))))
      else if name == "confirmations" || name == "refutations" || name == "removedDate" then
        (match TextElement(name, text, r.current, f)
         case Failure(e) => Failure(e)
         case Success(rec) =>
           // getElementText leaves the reader on the element's end, which the next turn steps over
           Success(r.(pos := if r.pos + 2 <= |events| then r.pos + 2 else |events|, current := Some(rec))))
      else Success(after)
  }

  /** The lists readFromFile returns. */
  datatype Loaded = Loaded(active: seq<Poi>, removed: seq<Removal>)

  function Run(events: seq<XmlEvent>, r: Reading, f: Formats): Result<Loaded, LoadError>
    requires r.pos <= |events|
    decreases |events| - r.pos
  {
    if r.pos == |events| then Success(Loaded(r.active, r.removed))
    else
      match Step(events, r, f)
      case Failure(e) => Failure(e)
      case Success(r') => Run(events, r', f)
  }

  /** readFromFile: the whole event sequence from an empty store. */
  function Load(events: seq<XmlEvent>, f: Formats): Result<Loaded, LoadError> {
    Run(events, Reading(0, None, [], []), f)
  }

  // ---------------------------------------------------------------- the checks

  /** A turn that succeeds hands over to the rest of the run. */
  lemma RunStep(events: seq<XmlEvent>, r: Reading, f: Formats, r': Reading)
    requires r.pos < |events| && Step(events, r, f) == Success(r')
    ensures Run(events, r, f) == Run(events, r', f)
  {
  }

  /** A turn that fails ends the run with its error. */
  lemma RunFails(events: seq<XmlEvent>, r: Reading, f: Formats, e: LoadError)
    requires r.pos < |events| && Step(events, r, f) == Failure(e)
    ensures Run(events, r, f) == Failure(e)
  {
  }

  /** Once a version attribute has failed the check, later attributes do not matter. */
  lemma {:induction false} CheckVersionSticky(attrs: seq<Attribute>, i: nat)
    requires i <= |attrs| && CheckVersion(attrs[..i]).Some?
    ensures CheckVersion(attrs) == CheckVersion(attrs[..i])
    decreases |attrs| - i
  {
    if i < |attrs| {
      var init := attrs[..|attrs| - 1];
      assert init[..i] == attrs[..i];
      CheckVersionSticky(init, i);
    } else {
      assert attrs[..i] == attrs;
    }
  }

  /** Once an attribute has failed to parse, later attributes do not matter. */
  lemma {:induction false} ReadAttributesSticky(attrs: seq<Attribute>, i: nat, f: Formats)
    requires i <= |attrs| && ReadAttributes(attrs[..i], f).Failure?
    ensures ReadAttributes(attrs, f) == ReadAttributes(attrs[..i], f)
    decreases |attrs| - i
  {
    if i < |attrs| {
      var init := attrs[..|attrs| - 1];
      assert init[..i] == attrs[..i];
      ReadAttributesSticky(init, i, f);
    } else {
      assert attrs[..i] == attrs;
    }
  }

  predicate HasAttribute(attrs: seq<Attribute>, name: string) {
    exists i :: 0 <= i < |attrs| && attrs[i].0 == name
  }

  /** The version check passes exactly when every version attribute of the points element says "1". */
  lemma {:induction false} CheckVersionPasses(attrs: seq<Attribute>)
    ensures CheckVersion(attrs).None? <==> forall i :: 0 <= i < |attrs| && attrs[i].0 == "version" ==> attrs[i].1 == XML_VERSION
  {
    if attrs != [] {
      var init := attrs[..|attrs| - 1];
      CheckVersionPasses(init);
      assert forall i :: 0 <= i < |init| ==> init[i] == attrs[i];
    }
  }

  /** A file whose points element carries a version other than "1" is rejected with that version. */
  lemma WrongVersionRejected(attrs: seq<Attribute>, text: Option<string>, rest: seq<XmlEvent>, f: Formats, i: nat)
    requires i < |attrs| && attrs[i].0 == "version" && attrs[i].1 != XML_VERSION
    ensures Load([OtherEvent, StartElement("points", attrs, text)] + rest, f).Failure?
    ensures Load([OtherEvent, StartElement("points", attrs, text)] + rest, f).error.InvalidVersion?
  {
    CheckVersionPasses(attrs);
    var ev := [OtherEvent, StartElement("points", attrs, text)] + rest;
    var r1 := Reading(1, None, [], []);
    assert ev[0] == OtherEvent && ev[1] == StartElement("points", attrs, text);
    RunStep(ev, Reading(0, None, [], []), f, r1);
    assert Step(ev, r1, f) == Failure(CheckVersion(attrs).value);
  }

  /** The attribute loop sets the type, and the date, exactly when such an attribute is present. */
  lemma {:induction false} ReadAttributesFields(attrs: seq<Attribute>, f: Formats)
    requires ReadAttributes(attrs, f).Success?
    ensures ReadAttributes(attrs, f).value.kind.Some? <==> HasAttribute(attrs, "type")
    ensures ReadAttributes(attrs, f).value.date.Some? <==> HasAttribute(attrs, "date")
  {
    if attrs != [] {
      var init := attrs[..|attrs| - 1];
      var a := attrs[|attrs| - 1];
      assert ReadAttributes(init, f).Success?;
      ReadAttributesFields(init, f);
      assert forall i :: 0 <= i < |init| ==> init[i] == attrs[i];
      assert attrs[|attrs| - 1] == a;
      if HasAttribute(attrs, "type") && !HasAttribute(init, "type") {
        assert a.0 == "type";
      }
      if HasAttribute(attrs, "date") && !HasAttribute(init, "date") {
        assert a.0 == "date";
      }
    }
  }

  /** A poi element is accepted only if it has both a type and a date attribute. */
  lemma PoiNeedsTypeAndDate(attrs: seq<Attribute>, f: Formats)
    ensures PoiStart(attrs, f).Success? ==> HasAttribute(attrs, "type") && HasAttribute(attrs, "date")
    ensures ReadAttributes(attrs, f).Success? && !HasAttribute(attrs, "type") ==> PoiStart(attrs, f) == Failure(TypeUndefined)
    ensures ReadAttributes(attrs, f).Success? && HasAttribute(attrs, "type") && !HasAttribute(attrs, "date") ==> PoiStart(attrs, f) == Failure(DateUndefined)
  {
    if ReadAttributes(attrs, f).Success? {
      ReadAttributesFields(attrs, f);
    }
  }

  /** Reaching a poi element without a type or a date makes the whole load fail. */
  lemma IncompletePoiRejected(events: seq<XmlEvent>, r: Reading, f: Formats)
    requires r.pos < |events| && events[r.pos].StartElement? && events[r.pos].name == "poi"
    requires !HasAttribute(events[r.pos].attributes, "type") || !HasAttribute(events[r.pos].attributes, "date")
    ensures Run(events, r, f).Failure?
  {
    PoiNeedsTypeAndDate(events[r.pos].attributes, f);
  }

  // ---------------------------------------------------------------- the round trip

  /** The library formats read back what they wrote for this POI: its coordinates exactly, its date as some date. */
  ghost predicate PoiReadable(p: Poi, f: Formats) {
    ReadsBack(f.doubles, p.lat) && ReadsBack(f.doubles, p.lon) && ParsesBack(f.dates, p.date)
  }

  /** A saved record reads back: its POI, and its removal date when it has one. */
  ghost predicate Readable(rec: Record, f: Formats) {
    PoiReadable(rec.poi, f) && (rec.removedDate.Some? ==> ParsesBack(f.dates, rec.removedDate.value))
  }

  ghost predicate AllReadable(recs: seq<Record>, f: Formats) {
    forall i :: 0 <= i < |recs| ==> Readable(recs[i], f)
  }

  /** The records saved for two lists whose POIs and removal dates read back all read back. */
  lemma ListsReadable(active: seq<Poi>, removed: seq<Removal>, f: Formats)
    requires forall i :: 0 <= i < |active| ==> PoiReadable(active[i], f)
    requires forall i :: 0 <= i < |removed| ==> PoiReadable(removed[i].poi, f) && ParsesBack(f.dates, removed[i].removedDate)
    ensures AllReadable(ActiveRecords(active) + RemovedRecords(removed), f)
  {
    var recs := ActiveRecords(active) + RemovedRecords(removed);
    forall i | 0 <= i < |recs|
      ensures Readable(recs[i], f)
    {
      if i < |active| {
        assert recs[i] == Record(active[i], None);
      } else {
        assert recs[i] == Record(removed[i - |active|].poi, Some(removed[i - |active|].removedDate));
      }
    }
  }

  /** The date read back for `d`: the LONG date format keeps only the day. */
  function Day(f: Formats, d: int): int {
    match f.dates.parse(f.dates.show(d))
    case Some(x) => x
    case None => d
  }

  function ReadBack(f: Formats, p: Poi): Poi {
    p.(date := Day(f, p.date))
  }

  function ReadBackRecord(f: Formats, rec: Record): Record {
    Record(ReadBack(f, rec.poi), if rec.removedDate.Some? then Some(Day(f, rec.removedDate.value)) else None)
  }

  function ReadBackAll(f: Formats, ps: seq<Poi>): seq<Poi> {
    seq(|ps|, i requires 0 <= i < |ps| => ReadBack(f, ps[i]))
  }

  function ReadBackRemovals(f: Formats, rs: seq<Removal>): seq<Removal> {
    seq(|rs|, i requires 0 <= i < |rs| => Removal(ReadBack(f, rs[i].poi), Day(f, rs[i].removedDate)))
  }

  function ReadBackRecords(f: Formats, recs: seq<Record>): seq<Record> {
    seq(|recs|, i requires 0 <= i < |recs| => ReadBackRecord(f, recs[i]))
  }

  /** Routing each record in turn, as the poi end tags do. */
  function RouteAll(r: Reading, recs: seq<Record>): (r': Reading)
    ensures r'.pos == r.pos && r'.current == r.current
  {
    if recs == [] then r else Route(RouteAll(r, recs[..|recs| - 1]), recs[|recs| - 1])
  }

  /** Routing is blind to the reader's position. */
  lemma {:induction false} RouteAllAt(r: Reading, recs: seq<Record>, n: nat)
    ensures RouteAll(r.(pos := n), recs) == RouteAll(r, recs).(pos := n)
  {
    if recs != [] {
      RouteAllAt(r, recs[..|recs| - 1], n);
    }
  }

  /** Routing a list of records routes its first part, then its second. */
  lemma {:induction false} RouteAllAppend(r: Reading, xs: seq<Record>, ys: seq<Record>)
    ensures RouteAll(r, xs + ys) == RouteAll(RouteAll(r, xs), ys)
    decreases |ys|
  {
    if ys == [] {
      assert xs + ys == xs;
    } else {
      var init := ys[..|ys| - 1];
      assert (xs + ys)[..|xs + ys| - 1] == xs + init;
      RouteAllAppend(r, xs, init);
    }
  }

  /** Records without a removal date all go, in order, to the active list. */
  lemma {:induction false} RouteAllActive(r: Reading, ps: seq<Poi>)
    ensures RouteAll(r, ActiveRecords(ps)) == r.(active := r.active + ps)
  {
    if ps == [] {
      assert r.active + ps == r.active;
    } else {
      var init := ps[..|ps| - 1];
      assert ActiveRecords(ps)[..|ps| - 1] == ActiveRecords(init);
      RouteAllActive(r, init);
      assert r.active + init + [ps[|ps| - 1]] == r.active + ps;
    }
  }

  /** Records with a removal date all go, in order, to the removed list. */
  lemma {:induction false} RouteAllRemoved(r: Reading, rs: seq<Removal>)
    ensures RouteAll(r, RemovedRecords(rs)) == r.(removed := r.removed + rs)
  {
    if rs == [] {
      assert r.removed + rs == r.removed;
    } else {
      var init := rs[..|rs| - 1];
      assert RemovedRecords(rs)[..|rs| - 1] == RemovedRecords(init);
      RouteAllRemoved(r, init);
      assert r.removed + init + [rs[|rs| - 1]] == r.removed + rs;
    }
  }

  lemma PoiAttributesRead(p: Poi, f: Formats)
    requires PoiReadable(p, f)
    ensures ReadAttributes([("type", Name(p.kind)), ("latitude", f.doubles.show(p.lat)),
                            ("longitude", f.doubles.show(p.lon)), ("date", f.dates.show(p.date))], f)
         == Success(Fields(p.lat, p.lon, Some(Day(f, p.date)), Some(p.kind)))
  {
    var a0, a1, a2, a3 := ("type", Name(p.kind)), ("latitude", f.doubles.show(p.lat)),
                          ("longitude", f.doubles.show(p.lon)), ("date", f.dates.show(p.date));
    var attrs := [a0, a1, a2, a3];
    assert attrs[..3] == [a0, a1, a2] && [a0, a1, a2][..2] == [a0, a1] && [a0, a1][..1] == [a0] && [a0][..0] == [];
    ValueOfName(p.kind, Name(p.kind));
    assert f.doubles.parse(f.doubles.show(p.lat)) == Some(p.lat);
    assert f.doubles.parse(f.doubles.show(p.lon)) == Some(p.lon);
    assert f.dates.parse(f.dates.show(p.date)).Some?;
    var fs1 := Fields(0.0, 0.0, None, Some(p.kind));
    assert ReadAttributes([a0], f) == Success(fs1);
    assert ReadAttributes([a0, a1], f) == Success(fs1.(lat := p.lat));
    assert ReadAttributes([a0, a1, a2], f) == Success(fs1.(lat := p.lat, lon := p.lon));
  }

  lemma StepPoiStart(ev: seq<XmlEvent>, r: Reading, rec: Record, f: Formats)
    requires PoiReadable(rec.poi, f)
    requires r.pos < |ev| && ev[r.pos] == PoiElement(rec, f)[0]
    ensures Step(ev, r, f) == Success(r.(pos := r.pos + 1, current := Some(Record(ReadBack(f, rec.poi).(confirmations := 0, refutations := 0), None))))
  {
    PoiAttributesRead(rec.poi, f);
  }

  lemma StepConfirmations(ev: seq<XmlEvent>, r: Reading, n: int32, f: Formats)
    requires r.pos + 2 <= |ev| && ev[r.pos] == StartElement("confirmations", [], Some(IntToString(n))) && r.current.Some?
    ensures Step(ev, r, f) == Success(r.(pos := r.pos + 2, current := Some(r.current.value.(poi := r.current.value.poi.(confirmations := n)))))
  {
    IntRoundTrip(n);
  }

  lemma StepRefutations(ev: seq<XmlEvent>, r: Reading, n: int32, f: Formats)
    requires r.pos + 2 <= |ev| && ev[r.pos] == StartElement("refutations", [], Some(IntToString(n))) && r.current.Some?
    ensures Step(ev, r, f) == Success(r.(pos := r.pos + 2, current := Some(r.current.value.(poi := r.current.value.poi.(refutations := n)))))
  {
    IntRoundTrip(n);
  }

  lemma StepRemovedDate(ev: seq<XmlEvent>, r: Reading, d: int, f: Formats)
    requires ParsesBack(f.dates, d)
    requires r.pos + 2 <= |ev| && ev[r.pos] == StartElement("removedDate", [], Some(f.dates.show(d))) && r.current.Some?
    ensures Step(ev, r, f) == Success(r.(pos := r.pos + 2, current := Some(r.current.value.(removedDate := Some(Day(f, d))))))
  {
    assert f.dates.parse(f.dates.show(d)).Some?;
  }

  lemma StepPoiEnd(ev: seq<XmlEvent>, r: Reading, f: Formats)
    requires r.pos < |ev| && ev[r.pos] == EndElement("poi") && r.current.Some?
    ensures Step(ev, r, f) == Success(Route(r.(pos := r.pos + 1, current := None), r.current.value))
  {
  }

  /** The head of a written poi element: its start tag and its two counters. */
  lemma PoiElementHead(ev: seq<XmlEvent>, k: nat, rec: Record, A: seq<Poi>, R: seq<Removal>, f: Formats)
    requires PoiReadable(rec.poi, f)
    requires k + |PoiElement(rec, f)| <= |ev| && ev[k..k + |PoiElement(rec, f)|] == PoiElement(rec, f)
    ensures Run(ev, Reading(k, None, A, R), f) == Run(ev, Reading(k + 5, Some(Record(ReadBack(f, rec.poi), None)), A, R), f)
  {
    var e := PoiElement(rec, f);
    var p := rec.poi;
    assert ev[k] == e[0] && ev[k + 1] == e[1] && ev[k + 3] == e[3];
    var c0 := Record(ReadBack(f, p).(confirmations := 0, refutations := 0), None);
    var r0 := Reading(k, None, A, R);
    var r1 := Reading(k + 1, Some(c0), A, R);
    StepPoiStart(ev, r0, rec, f);
    RunStep(ev, r0, f, r1);
    var c1 := c0.(poi := c0.poi.(confirmations := p.confirmations));
    var r3 := Reading(k + 3, Some(c1), A, R);
    StepConfirmations(ev, r1, p.confirmations, f);
    RunStep(ev, r1, f, r3);
    var c2 := c1.(poi := c1.poi.(refutations := p.refutations));
    assert c2.poi == ReadBack(f, p);
    StepRefutations(ev, r3, p.refutations, f);
    RunStep(ev, r3, f, Reading(k + 5, Some(c2), A, R));
  }

  /** The tail of a written poi element: the removal date if any, then the end tag that routes the POI. */
  lemma PoiElementTail(ev: seq<XmlEvent>, k: nat, rec: Record, A: seq<Poi>, R: seq<Removal>, f: Formats)
    requires Readable(rec, f)
    requires k + |PoiElement(rec, f)| <= |ev| && ev[k..k + |PoiElement(rec, f)|] == PoiElement(rec, f)
    ensures Run(ev, Reading(k + 5, Some(Record(ReadBack(f, rec.poi), None)), A, R), f)
         == Run(ev, Route(Reading(k + |PoiElement(rec, f)|, None, A, R), ReadBackRecord(f, rec)), f)
  {
    var e := PoiElement(rec, f);
    var c2 := Record(ReadBack(f, rec.poi), None);
    var r5 := Reading(k + 5, Some(c2), A, R);
    if rec.removedDate.Some? {
      assert |e| == 8 && ev[k + 5] == e[5] && ev[k + 7] == e[7];
      var c3 := c2.(removedDate := Some(Day(f, rec.removedDate.value)));
      var r7 := Reading(k + 7, Some(c3), A, R);
      StepRemovedDate(ev, r5, rec.removedDate.value, f);
      RunStep(ev, r5, f, r7);
      StepPoiEnd(ev, r7, f);
      RunStep(ev, r7, f, Route(Reading(k + 8, None, A, R), c3));
    } else {
      assert |e| == 6 && ev[k + 5] == e[5];
      StepPoiEnd(ev, r5, f);
      RunStep(ev, r5, f, Route(Reading(k + 6, None, A, R), c2));
    }
  }

  /** The events from position `k` on start with the poi element written for `rec`. */
  predicate ElementAt(ev: seq<XmlEvent>, k: nat, rec: Record, f: Formats) {
    k + |PoiElement(rec, f)| <= |ev| && ev[k..k + |PoiElement(rec, f)|] == PoiElement(rec, f)
  }

  /** The events from position `k` on hold, one after the other, the poi elements written for `recs`. */
  predicate WrittenAt(ev: seq<XmlEvent>, k: nat, recs: seq<Record>, f: Formats)
    decreases |recs|
  {
    if recs == [] then k <= |ev|
    else WrittenAt(ev, k, recs[..|recs| - 1], f) && ElementAt(ev, k + |Elements(recs[..|recs| - 1], f)|, recs[|recs| - 1], f)
  }

  /** Events that start with the whole written sequence hold each element in its place. */
  lemma {:induction false} SliceWritten(ev: seq<XmlEvent>, k: nat, recs: seq<Record>, f: Formats)
    requires k + |Elements(recs, f)| <= |ev| && ev[k..k + |Elements(recs, f)|] == Elements(recs, f)
    ensures WrittenAt(ev, k, recs, f)
    decreases |recs|
  {
    if recs != [] {
      SnocSlices(ev, k, recs, Elements(recs[..|recs| - 1], f), f);
      SliceWritten(ev, k, recs[..|recs| - 1], f);
    }
  }

  /** A whole written poi element reads back as its record, routed to its list. */
  lemma PoiElementRead(ev: seq<XmlEvent>, r: Reading, rec: Record, n: nat, f: Formats)
    requires Readable(rec, f) && r.current.None? && ElementAt(ev, r.pos, rec, f) && n == r.pos + |PoiElement(rec, f)|
    ensures Run(ev, r, f) == Run(ev, Route(r.(pos := n), ReadBackRecord(f, rec)), f)
  {
    PoiElementHead(ev, r.pos, rec, r.active, r.removed, f);
    PoiElementTail(ev, r.pos, rec, r.active, r.removed, f);
    assert r == Reading(r.pos, None, r.active, r.removed);
    assert r.(pos := n) == Reading(r.pos + |PoiElement(rec, f)|, None, r.active, r.removed);
  }

  /** A window holding the written elements holds those before the last at its start, and the last right after them. */
  lemma SnocSlices(ev: seq<XmlEvent>, k: nat, recs: seq<Record>, init: seq<XmlEvent>, f: Formats)
    requires recs != [] && init == Elements(recs[..|recs| - 1], f)
    requires k + |Elements(recs, f)| <= |ev| && ev[k..k + |Elements(recs, f)|] == Elements(recs, f)
    ensures k + |init| <= |ev| && ev[k..k + |init|] == init && ElementAt(ev, k + |init|, recs[|recs| - 1], f)
  {
    ElementsSnoc(recs, f);
    SliceConcat(ev, k, Elements(recs, f), init, PoiElement(recs[|recs| - 1], f));
  }

  lemma ReadBackSnoc(f: Formats, recs: seq<Record>)
    requires recs != []
    ensures ReadBackRecords(f, recs) == ReadBackRecords(f, recs[..|recs| - 1]) + [ReadBackRecord(f, recs[|recs| - 1])]
  {
  }

  /** Reading no elements leaves the reader where it was. */
  lemma NoElements(ev: seq<XmlEvent>, k: nat, recs: seq<Record>, A: seq<Poi>, R: seq<Removal>, f: Formats)
    requires recs == [] && WrittenAt(ev, k, recs, f)
    ensures Run(ev, Reading(k, None, A, R), f)
         == Run(ev, RouteAll(Reading(k + |Elements(recs, f)|, None, A, R), ReadBackRecords(f, recs)), f)
  {
    RouteNothing(k, recs, A, R, f);
  }

  /** No records: nothing is routed and the position stays. */
  lemma RouteNothing(k: nat, recs: seq<Record>, A: seq<Poi>, R: seq<Removal>, f: Formats)
    requires recs == []
    ensures RouteAll(Reading(k + |Elements(recs, f)|, None, A, R), ReadBackRecords(f, recs)) == Reading(k, None, A, R)
  {
    assert Elements(recs, f) == [] && ReadBackRecords(f, recs) == [];
  }

  /** Reading up to some records, then one more, is reading up to all of them. */
  lemma RunRouteSnoc(ev: seq<XmlEvent>, start: Reading, xs: seq<Record>, x: Record, n: nat, target: Reading, f: Formats)
    requires start.pos <= n <= |ev| && target == RouteAll(start.(pos := n), xs + [x])
    requires Run(ev, RouteAll(start, xs), f) == Run(ev, Route(RouteAll(start, xs).(pos := n), x), f)
    ensures Run(ev, RouteAll(start, xs), f) == Run(ev, target, f)
  {
    RouteAllAt(start, xs, n);
    assert (xs + [x])[..|xs|] == xs;
    assert target == Route(RouteAll(start, xs).(pos := n), x);
  }

  /** Reading back written poi elements routes their POIs, dates read back, in document order. */
  lemma {:induction false} ElementsRead(ev: seq<XmlEvent>, k: nat, recs: seq<Record>, n: nat, A: seq<Poi>, R: seq<Removal>, f: Formats)
    requires AllReadable(recs, f) && WrittenAt(ev, k, recs, f) && n == k + |Elements(recs, f)|
    ensures Run(ev, Reading(k, None, A, R), f) == Run(ev, RouteAll(Reading(n, None, A, R), ReadBackRecords(f, recs)), f)
    decreases |recs|
  {
    if recs == [] {
      NoElements(ev, k, recs, A, R, f);
    } else {
      var p := k + |Elements(recs[..|recs| - 1], f)|;
      assert Readable(recs[|recs| - 1], f);
      var init := recs[..|recs| - 1];
      assert AllReadable(init, f) by {
        forall i | 0 <= i < |init|
          ensures Readable(init[i], f)
        {
          assert init[i] == recs[i];
        }
      }
      WrittenInit(ev, k, recs, f);
      WrittenLast(ev, k, recs, f);
      ElementsRead(ev, k, recs[..|recs| - 1], p, A, R, f);
      LastElementRead(ev, k, recs, p, n, A, R, f);
    }
  }

  /** The elements before the last are written in their places too. */
  lemma WrittenInit(ev: seq<XmlEvent>, k: nat, recs: seq<Record>, f: Formats)
    requires recs != [] && WrittenAt(ev, k, recs, f)
    ensures WrittenAt(ev, k, recs[..|recs| - 1], f)
  {
  }

  /** Once the elements before the last are read, the last one is read and its record routed after theirs. */
  lemma LastElementRead(ev: seq<XmlEvent>, k: nat, recs: seq<Record>, p: nat, n: nat, A: seq<Poi>, R: seq<Removal>, f: Formats)
    requires recs != [] && Readable(recs[|recs| - 1], f) && p == k + |Elements(recs[..|recs| - 1], f)| && n == k + |Elements(recs, f)|
    requires ElementAt(ev, p, recs[|recs| - 1], f)
    ensures Run(ev, RouteAll(Reading(p, None, A, R), ReadBackRecords(f, recs[..|recs| - 1])), f)
         == Run(ev, RouteAll(Reading(n, None, A, R), ReadBackRecords(f, recs)), f)
  {
    ElementsSnocLength(recs, f);
    ReadBackSnoc(f, recs);
    LastRead(ev, p, n, A, R, ReadBackRecords(f, recs[..|recs| - 1]), recs[|recs| - 1], ReadBackRecords(f, recs), f);
  }

  lemma ElementsSnocLength(recs: seq<Record>, f: Formats)
    requires recs != []
    ensures |Elements(recs, f)| == |Elements(recs[..|recs| - 1], f)| + |PoiElement(recs[|recs| - 1], f)|
  {
  }

  /** The last of the written elements sits right after the others. */
  lemma WrittenLast(ev: seq<XmlEvent>, k: nat, recs: seq<Record>, f: Formats)
    requires recs != [] && WrittenAt(ev, k, recs, f)
    ensures ElementAt(ev, k + |Elements(recs[..|recs| - 1], f)|, recs[|recs| - 1], f)
  {
  }

  /** Reading the element that follows the routed records routes one more. */
  lemma LastRead(ev: seq<XmlEvent>, p: nat, n: nat, A: seq<Poi>, R: seq<Removal>, xs: seq<Record>, last: Record, ys: seq<Record>, f: Formats)
    requires Readable(last, f) && ElementAt(ev, p, last, f) && n == p + |PoiElement(last, f)| && ys == xs + [ReadBackRecord(f, last)]
    ensures Run(ev, RouteAll(Reading(p, None, A, R), xs), f) == Run(ev, RouteAll(Reading(n, None, A, R), ys), f)
  {
    var start := Reading(p, None, A, R);
    assert start.(pos := n) == Reading(n, None, A, R);
    PoiElementRead(ev, RouteAll(start, xs), last, n, f);
    RunRouteSnoc(ev, start, xs, ReadBackRecord(f, last), n, RouteAll(Reading(n, None, A, R), ys), f);
  }

  lemma {:induction false} ElementsAppend(xs: seq<Record>, ys: seq<Record>, f: Formats)
    ensures Elements(xs + ys, f) == Elements(xs, f) + Elements(ys, f)
    decreases |ys|
  {
    if ys == [] {
      assert xs + ys == xs;
    } else {
      ElementsAppend(xs, ys[..|ys| - 1], f);
      ElementsAppendStep(xs, ys, f);
    }
  }

  lemma ElementsAppendStep(xs: seq<Record>, ys: seq<Record>, f: Formats)
    requires ys != [] && Elements(xs + ys[..|ys| - 1], f) == Elements(xs, f) + Elements(ys[..|ys| - 1], f)
    ensures Elements(xs + ys, f) == Elements(xs, f) + Elements(ys, f)
  {
    var init, last := ys[..|ys| - 1], ys[|ys| - 1];
    assert (xs + ys)[..|xs + ys| - 1] == xs + init && (xs + ys)[|xs + ys| - 1] == last;
    ElementsSnoc(xs + ys, f);
    ElementsSnoc(ys, f);
    Associative(Elements(xs, f), Elements(init, f), PoiElement(last, f));
  }

  lemma ElementsSnoc(recs: seq<Record>, f: Formats)
    requires recs != []
    ensures Elements(recs, f) == Elements(recs[..|recs| - 1], f) + PoiElement(recs[|recs| - 1], f)
  {
  }

  /** The points start tag of a saved document passes the version check. */
  lemma DocumentHead(active: seq<Poi>, removed: seq<Removal>, f: Formats)
    ensures Load(Document(active, removed, f), f) == Run(Document(active, removed, f), Reading(2, None, [], []), f)
  {
    var ev := Document(active, removed, f);
    RunStep(ev, Reading(0, None, [], []), f, Reading(1, None, [], []));
    assert CheckVersion([("version", XML_VERSION)]) == None by {
      assert [("version", XML_VERSION)][..0] == [];
    }
    RunStep(ev, Reading(1, None, [], []), f, Reading(2, None, [], []));
  }

  /** After the last poi element only the points end tag and the document end remain. */
  lemma DocumentTail(ev: seq<XmlEvent>, r: Reading, f: Formats)
    requires |ev| >= 2 && r.pos == |ev| - 2 && ev[|ev| - 2..] == [EndElement("points"), OtherEvent]
    ensures Run(ev, r, f) == Success(Loaded(r.active, r.removed))
  {
    assert ev[|ev| - 2] == EndElement("points") && ev[|ev| - 1] == OtherEvent;
    RunStep(ev, r, f, r.(pos := |ev| - 1));
    RunStep(ev, r.(pos := |ev| - 1), f, r.(pos := |ev|));
  }

  /** The saved records, read back, split into the two lists again. */
  lemma RecordsRouted(start: Reading, active: seq<Poi>, removed: seq<Removal>, f: Formats)
    ensures RouteAll(start, ReadBackRecords(f, ActiveRecords(active) + RemovedRecords(removed)))
         == start.(active := start.active + ReadBackAll(f, active), removed := start.removed + ReadBackRemovals(f, removed))
  {
    var a', r' := ReadBackAll(f, active), ReadBackRemovals(f, removed);
    assert ReadBackRecords(f, ActiveRecords(active) + RemovedRecords(removed)) == ActiveRecords(a') + RemovedRecords(r');
    RouteAllAppend(start, ActiveRecords(a'), RemovedRecords(r'));
    RouteAllActive(start, a');
    RouteAllRemoved(start.(active := start.active + a'), r');
  }

  /** A saved document is its header, the written records, and its trailer. */
  lemma DocumentLayout(active: seq<Poi>, removed: seq<Removal>, f: Formats)
    ensures var ev := Document(active, removed, f);
      var body := Elements(ActiveRecords(active) + RemovedRecords(removed), f);
      && |ev| == |body| + 4
      && ev[2..2 + |body|] == body
      && ev[|ev| - 2..] == [EndElement("points"), OtherEvent]
  {
    var ar, rr := ActiveRecords(active), RemovedRecords(removed);
    ElementsAppend(ar, rr, f);
    var body := Elements(ar, f) + Elements(rr, f);
    var head := [OtherEvent, StartElement("points", [("version", XML_VERSION)], if body == [] then Some("") else None)];
    var ev := Document(active, removed, f);
    assert ev == head + body + [EndElement("points"), OtherEvent];
    assert ev[2..2 + |body|] == body;
  }

  /**
   * saveToFile then readFromFile gives back both lists, in order, with every POI in the list
   * it was saved from; dates come back as the date format reads what it wrote. The formats
   * need only read back the coordinates and dates of the POIs saved.
   */
  lemma SaveLoadRoundTrip(active: seq<Poi>, removed: seq<Removal>, f: Formats)
    requires forall i :: 0 <= i < |active| ==> PoiReadable(active[i], f)
    requires forall i :: 0 <= i < |removed| ==> PoiReadable(removed[i].poi, f) && ParsesBack(f.dates, removed[i].removedDate)
    ensures Load(Document(active, removed, f), f) == Success(Loaded(ReadBackAll(f, active), ReadBackRemovals(f, removed)))
  {
    DocumentLayout(active, removed, f);
    DocumentHead(active, removed, f);
    var recs := ActiveRecords(active) + RemovedRecords(removed);
    ListsReadable(active, removed, f);
    BodyRead(Document(active, removed, f), active, removed, recs, 2 + |Elements(recs, f)|, f);
  }

  /** Events holding the written records between a two-event header and the trailer read back as both lists. */
  lemma BodyRead(ev: seq<XmlEvent>, active: seq<Poi>, removed: seq<Removal>, recs: seq<Record>, n: nat, f: Formats)
    requires AllReadable(recs, f) && recs == ActiveRecords(active) + RemovedRecords(removed) && n == 2 + |Elements(recs, f)|
    requires |ev| == n + 2 && ev[2..n] == Elements(recs, f) && ev[n..] == [EndElement("points"), OtherEvent]
    ensures Run(ev, Reading(2, None, [], []), f) == Success(Loaded(ReadBackAll(f, active), ReadBackRemovals(f, removed)))
  {
    SliceWritten(ev, 2, recs, f);
    ElementsRead(ev, 2, recs, n, [], [], f);
    var start := Reading(n, None, [], []);
    var done := Reading(n, None, ReadBackAll(f, active), ReadBackRemovals(f, removed));
    RecordsRouted(start, active, removed, f);
    assert [] + done.active == done.active && [] + done.removed == done.removed;
    DocumentTail(ev, done, f);
  }
}
