/**
 * The server's ClientCommandHandler: the commands SUBMIT, NOT_SEEN and GET_INFO, each reading
 * the rest of its request line from a Scanner and acting on the legacy voting store
 * (ServerPOIList over EventType). Validation always comes first: a rejected request leaves the
 * store as it was.
 */
module CommandHandler {
  import opened Wrappers
  import opened Numbers
  import opened Reports
  import opened Text
  import opened EventTypes
  import opened Listeners
  import opened SortedStores
  import opened LegacyConsensus
  import LegacyProtocol
  import opened NetUtils

  /** Half the side of the square GET_INFO answers with (about 20 km). */
  const SQUARE_AREA: real := 0.247

  /**
   * What a handler throws: an IOException with its message, or the IllegalArgumentException of
   * a TreeSet range whose lower corner the comparator puts after its upper one.
   */
  datatype HandlerError = IoError(message: string) | IllegalRange

  /** The fields of a SUBMIT or NOT_SEEN request after its command word. */
  datatype Sighting = Sighting(kind: EventType, x: real, y: real, date: int)

  /** The store as a value, and what is needed to act on it besides the request. */
  datatype Store = Store(state: SetState<EventType>, order: Order<EventType>, cornerKind: EventType, to: seq<Listener>)

  /** EventType.constructPOI: a report of the event's type at (x, y) on its date, counters at zero. */
  function Submitted(v: Sighting): Report<EventType> {
    Report(v.x, v.y, v.kind, v.date, 0, 0)
  }

  /** POI.toEvent: the type and the position, nothing else. */
  function ToEvent(p: Report<EventType>): LegacyProtocol.Event {
    LegacyProtocol.Event(p.kind, p.lat, p.lon)
  }

  /** The events GET_INFO builds from a range, in set order. */
  function ToEvents(ps: seq<Report<EventType>>): (r: seq<LegacyProtocol.Event>)
    ensures |r| == |ps|
  {
    seq(|ps|, i requires 0 <= i < |ps| => ToEvent(ps[i]))
  }

  /**
   * The reads SUBMIT and NOT_SEEN make on the unread input `s`: a type name, two doubles, then
   * the rest of the line with its leading spaces removed as the date; the sighting and the input
   * after that line.
   */
  function ParseSighting(s: string, f: Formats): (r: Result<(Sighting, string), HandlerError>)
    ensures r.Success? ==> |r.value.1| < |s|
  {
    if !HasNext(s) then Failure(IoError("Invalid command"))
    else
      var (name, s1) := NextToken(s);
      match ValueOf(name)
      case None => Failure(IoError("Invalid event type"))
      case Some(kind) =>
        if !HasNextDouble(s1, f.doubles) then Failure(IoError("Missing X coordinate"))
        else
          var (xs, s2) := NextToken(s1);
          if !HasNextDouble(s2, f.doubles) then Failure(IoError("Missing Y coordinate"))
          else
            var (ys, s3) := NextToken(s2);
            if !HasNext(s3) then Failure(IoError("Missing time coordinate"))
            else
              var (line, s4) := LineFrom(s3).value;
              var d := DropLeadingSpaces(line);
              match f.dates.parse(d)
              case None => Failure(IoError("Invalid date: " + d))
              case Some(date) =>
                Success((Sighting(kind, f.doubles.parse(xs).value, f.doubles.parse(ys).value, date), s4))
  }

  /** The reads GET_INFO makes: two doubles; the point and the input after them. */
  function ParsePoint(s: string, f: Formats): (r: Result<(real, real, string), HandlerError>)
    ensures r.Success? ==> |r.value.2| < |s|
  {
    if !HasNextDouble(s, f.doubles) then Failure(IoError("Missing X coordinate"))
    else
      var (xs, s1) := NextToken(s);
      if !HasNextDouble(s1, f.doubles) then Failure(IoError("Missing Y coordinate"))
      else
        var (ys, s2) := NextToken(s1);
        Success((f.doubles.parse(xs).value, f.doubles.parse(ys).value, s2))
  }

  /** SUBMIT: a valid request has addPOI applied to the report it describes, and only then. */
  function SubmitSpec(st: Store, s: string, f: Formats, now: int): Result<(SetState<EventType>, string), HandlerError> {
    match ParseSighting(s, f)
    case Failure(e) => Failure(e)
    case Success((v, rest)) =>
      match AddSpec(st.state, st.order, st.cornerKind, Submitted(v), now, st.to)
      case None => Failure(IllegalRange)
      case Some(state) => Success((state, rest))
  }

  /**
   * NOT_SEEN: among the POIs getPOIAt finds for the request, the first one dated as the request
   * has notSeen applied to it; with none, nothing changes.
   */
  function NotSeenHandlerSpec(st: Store, s: string, f: Formats, now: int): Result<(SetState<EventType>, string), HandlerError> {
    match ParseSighting(s, f)
    case Failure(e) => Failure(e)
    case Success((v, rest)) =>
      match NotSeenSighting(st, v, now)
      case Failure(e) => Failure(e)
      case Success(state) => Success((state, rest))
  }

  /** NOT_SEEN once its request is read. */
  function NotSeenSighting(st: Store, v: Sighting, now: int): Result<SetState<EventType>, HandlerError> {
    match Lookup(st.state.points, st.order, v.x, v.y, v.kind, now)
    case None => Failure(IllegalRange)
    case Some(found) =>
      match FirstDated(found, v.date)
      case None => Success(st.state)
      case Some(i) =>
        match NotSeenSpec(st.state, st.order, found[i], now, st.to)
        case None => Failure(IllegalRange)
        case Some(state) => Success(state)
  }

  /** The POIs GET_INFO answers with: the range SQUARE_AREA around the point, in set order. */
  function Square(st: Store, x: real, y: real, now: int): Option<seq<Report<EventType>>> {
    SubSet(st.state.points, st.order, Corner(x - SQUARE_AREA, y - SQUARE_AREA, st.cornerKind, now),
           Corner(x + SQUARE_AREA, y + SQUARE_AREA, st.cornerKind, now))
  }

  /** GET_INFO: the text of the INFOS reply listing the square's POIs, and the input left. */
  function GetInfoSpec(st: Store, s: string, f: Formats, now: int): Result<(string, string), HandlerError> {
    match ParsePoint(s, f)
    case Failure(e) => Failure(e)
    case Success((x, y, rest)) =>
      match Square(st, x, y, now)
      case None => Failure(IllegalRange)
      case Some(points) => Success((Transcript(LegacyProtocol.Reply(ToEvents(points), f)), rest))
  }

  /** The store a ConsensusPoiSet holds, as a value. */
  function StoreOf(poiList: ConsensusPoiSet<EventType>): Store
    reads poiList, poiList.store, poiList.store.listeners
  {
    Store(poiList.store.State(), poiList.store.order, poiList.store.cornerKind, poiList.store.listeners.members)
  }

  /** The reads SUBMIT and NOT_SEEN share, on the Scanner. */
  method ReadSighting(scanner: Scanner, f: Formats) returns (r: Result<Sighting, HandlerError>)
    modifies scanner
    ensures var spec := ParseSighting(old(scanner.input), f);
      (spec.Success? ==> r == Success(spec.value.0) && scanner.input == spec.value.1)
      && (spec.Failure? ==> r == Failure(spec.error))
  {
    if !scanner.HasNextToken() {
      return Failure(IoError("Invalid command"));
    }
    var name := scanner.Next();
    var kind := ValueOf(name.value);
    if kind.None? {
      return Failure(IoError("Invalid event type"));
    }
    if !scanner.HasNextDoubleToken(f.doubles) {
      return Failure(IoError("Missing X coordinate"));
    }
    var x := scanner.NextDouble(f.doubles);
    if !scanner.HasNextDoubleToken(f.doubles) {
      return Failure(IoError("Missing Y coordinate"));
    }
    var y := scanner.NextDouble(f.doubles);
    if !scanner.HasNextToken() {
      return Failure(IoError("Missing time coordinate"));
    }
    var line := scanner.NextLine();
    var d := StripLeadingSpaces(line.value);
    var date := f.dates.parse(d);
    if date.None? {
      return Failure(IoError("Invalid date: " + d));
    }
    return Success(Sighting(kind.value, x.value, y.value, date.value));
  }

  /** SUBMIT.handle: on failure the store is untouched. */
  method HandleSubmit(scanner: Scanner, poiList: ConsensusPoiSet<EventType>, f: Formats, now: int) returns (err: Option<HandlerError>)
    modifies scanner, poiList.store
    ensures var spec := SubmitSpec(old(StoreOf(poiList)), old(scanner.input), f, now);
      (spec.Success? ==> err == None && poiList.store.State() == spec.value.0 && scanner.input == spec.value.1)
      && (spec.Failure? ==> err == Some(spec.error) && poiList.store.State() == old(poiList.store.State()))
  {
    var v := ReadSighting(scanner, f);
    if v.Failure? {
      return Some(v.error);
    }
    var ok := poiList.AddPOI(Submitted(v.value), now);
    if !ok {
      return Some(IllegalRange);
    }
    return None;
  }

  /** NOT_SEEN.handle: the request, then the search for its POI. */
  method HandleNotSeen(scanner: Scanner, poiList: ConsensusPoiSet<EventType>, f: Formats, now: int) returns (err: Option<HandlerError>)
    modifies scanner, poiList.store
    ensures var spec := NotSeenHandlerSpec(old(StoreOf(poiList)), old(scanner.input), f, now);
      (spec.Success? ==> err == None && poiList.store.State() == spec.value.0 && scanner.input == spec.value.1)
      && (spec.Failure? ==> err == Some(spec.error) && poiList.store.State() == old(poiList.store.State()))
  {
    var v := ReadSighting(scanner, f);
    if v.Failure? {
      return Some(v.error);
    }
    err := RefuteSighting(poiList, v.value, now);
  }

  /** The search loop for the first candidate with the request's date, then notSeen on it. */
  method RefuteSighting(poiList: ConsensusPoiSet<EventType>, sighting: Sighting, now: int) returns (err: Option<HandlerError>)
    modifies poiList.store
    ensures var spec := NotSeenSighting(old(StoreOf(poiList)), sighting, now);
      (spec.Success? ==> err == None && poiList.store.State() == spec.value)
      && (spec.Failure? ==> err == Some(spec.error) && poiList.store.State() == old(poiList.store.State()))
  {
    var poiAt := poiList.store.GetPOIAt(sighting.x, sighting.y, sighting.kind, now);
    if poiAt.None? {
      return Some(IllegalRange);
    }
    var found := poiAt.value;
    var i := 0;
    while i < |found| && found[i].date != sighting.date
      invariant 0 <= i <= |found|
      invariant forall j :: 0 <= j < i ==> found[j].date != sighting.date
    {
      i := i + 1;
    }
    if i == |found| {
      return None;
    }
    assert FirstDated(found, sighting.date) == Some(i);
    var ok := poiList.NotSeen(found[i], now);
    if !ok {
      return Some(IllegalRange);
    }
    return None;
  }

  /** GET_INFO.handle: the events of the square, then sendInfos on the channel. */
  method HandleGetInfo(channel: Channel, scanner: Scanner, poiList: ConsensusPoiSet<EventType>, f: Formats, now: int)
    returns (err: Option<HandlerError>)
    modifies channel`sent, scanner
    ensures var spec := GetInfoSpec(old(StoreOf(poiList)), old(scanner.input), f, now);
      (spec.Success? ==> err == None && channel.sent == old(channel.sent) + spec.value.0 && scanner.input == spec.value.1)
      && (spec.Failure? ==> err == Some(spec.error) && channel.sent == old(channel.sent))
  {
    if !scanner.HasNextDoubleToken(f.doubles) {
      return Some(IoError("Missing X coordinate"));
    }
    var x := scanner.NextDouble(f.doubles);
    if !scanner.HasNextDoubleToken(f.doubles) {
      return Some(IoError("Missing Y coordinate"));
    }
    var y := scanner.NextDouble(f.doubles);
    var square := poiList.store.GetPointsBetween(x.value - SQUARE_AREA, y.value - SQUARE_AREA, x.value + SQUARE_AREA, y.value + SQUARE_AREA, now);
    if square.None? {
      return Some(IllegalRange);
    }
    var points := square.value;
    var list: seq<LegacyProtocol.Event> := [];
    for i := 0 to |points|
      invariant |list| == i
      invariant forall j :: 0 <= j < i ==> list[j] == ToEvent(points[j])
    {
      list := list + [ToEvent(points[i])];
    }
    assert list == ToEvents(points);
    LegacyProtocol.SendInfos(channel, list, f);
    return None;
  }

  // The requests ClientCommand writes, as the handlers read them.

  /** A date written on its own at the end of the line, after one space, is the rest of that line. */
  lemma DateAtEnd(ds: string)
    requires ds != [] && !IsWhitespace(ds[0]) && '\n' !in ds
    ensures HasNext(" " + ds) && LineFrom(" " + ds) == Some((" " + ds, []))
    ensures DropLeadingSpaces(" " + ds) == ds
  {
    var s := " " + ds;
    assert s[1..] == ds;
    assert '\n' !in s;
    LineAtEnd(s);
  }

  /** The reads of a sighting with its words spelt out. */
  lemma SightingWords(name: string, xs: string, ys: string, ds: string, v: Sighting, f: Formats)
    requires IsToken(name) && IsToken(xs) && IsToken(ys)
    requires ds != [] && !IsWhitespace(ds[0]) && '\n' !in ds
    requires ValueOf(name) == Some(v.kind)
    requires f.doubles.parse(xs) == Some(v.x) && f.doubles.parse(ys) == Some(v.y) && f.dates.parse(ds) == Some(v.date)
    ensures ParseSighting(" " + (name + (" " + (xs + (" " + (ys + (" " + ds)))))), f) == Success((v, []))
  {
    var s2 := " " + (ys + (" " + ds));
    var s1 := " " + (xs + s2);
    SpaceTokenThen(name, s1);
    SpaceTokenThen(xs, s2);
    assert (" " + ds)[0] == ' ';
    SpaceTokenThen(ys, " " + ds);
    DateAtEnd(ds);
  }

  /** A sighting whose coordinates and date the formats read back exactly from what they wrote. */
  ghost predicate SightingReadsBack(v: Sighting, f: Formats) {
    ReadsBack(f.doubles, v.x) && ReadsBack(f.doubles, v.y) && ReadsBack(f.dates, v.date)
  }

  /**
   * What ClientCommand.submit or notSeen writes reads back, once its command word is taken, as
   * the sighting it reports, to the end of the line.
   */
  lemma ReportLineParses(word: string, v: Sighting, f: Formats)
    requires IsToken(word)
    requires ShowsTokens(f.doubles) && ShowsLines(f.dates) && SightingReadsBack(v, f)
    ensures var line := JoinWithSpaces([word] + LegacyProtocol.ReportFields(v.kind, v.x, v.y, v.date, f));
      HasNext(line) && NextToken(line).0 == word && ParseSighting(NextToken(line).1, f) == Success((v, []))
  {
    var name, xs, ys, ds := Name(v.kind), f.doubles.show(v.x), f.doubles.show(v.y), f.dates.show(v.date);
    LegacyProtocol.ReportLineWords(word, v.kind, v.x, v.y, v.date, f);
    var rest := " " + (name + (" " + (xs + (" " + (ys + (" " + ds))))));
    TokenThen(word, rest);
    LegacyProtocol.NameIsToken(v.kind);
    ValueOfName(v.kind, name);
    assert IsToken(xs) && IsToken(ys);
    assert ds != [] && !IsWhitespace(ds[0]) && '\n' !in ds;
    SightingWords(name, xs, ys, ds, v, f);
  }

  /** SUBMIT lines from the client read back as the reported sighting. */
  lemma SubmitLineParses(v: Sighting, f: Formats)
    requires ShowsTokens(f.doubles) && ShowsLines(f.dates) && SightingReadsBack(v, f)
    ensures var line := LegacyProtocol.SubmitLine(v.kind, v.x, v.y, v.date, f);
      HasNext(line) && NextToken(line).0 == "SUBMIT" && ParseSighting(NextToken(line).1, f) == Success((v, []))
  {
    ReportLineParses("SUBMIT", v, f);
  }

  /** NOT_SEEN lines from the client read back as the reported sighting. */
  lemma NotSeenLineParses(v: Sighting, f: Formats)
    requires ShowsTokens(f.doubles) && ShowsLines(f.dates) && SightingReadsBack(v, f)
    ensures var line := LegacyProtocol.NotSeenLine(v.kind, v.x, v.y, v.date, f);
      HasNext(line) && NextToken(line).0 == "NOT_SEEN" && ParseSighting(NextToken(line).1, f) == Success((v, []))
  {
    ReportLineParses("NOT_SEEN", v, f);
  }

  /** GET_INFO lines from the client read back as the point asked about. */
  lemma GetInfoLineParses(x: real, y: real, f: Formats)
    requires ShowsTokens(f.doubles) && ReadsBack(f.doubles, x) && ReadsBack(f.doubles, y)
    ensures var line := LegacyProtocol.GetInfoLine(x, y, f);
      HasNext(line) && NextToken(line).0 == "GET_INFO" && ParsePoint(NextToken(line).1, f) == Success((x, y, []))
  {
    var xs, ys := f.doubles.show(x), f.doubles.show(y);
    LegacyProtocol.GetInfoLineWords(x, y, f);
    assert IsToken(xs) && IsToken(ys);
    TokenThen("GET_INFO", " " + (xs + (" " + ys)));
    SpaceTokenThen(xs, " " + ys);
    assert ys + [] == ys;
    SpaceTokenThen(ys, []);
  }

  /**
   * The answer to GET_INFO, read by the client's INFOS handler, gives back the events of the
   * POIs in the square, in set order, and nothing after them.
   */
  lemma GetInfoReplyReadsBack(st: Store, s: string, f: Formats, now: int)
    requires ShowsTokens(f.doubles)
    requires ParsePoint(s, f).Success?
    requires var (x, y, _) := ParsePoint(s, f).value;
      Square(st, x, y, now).Some? && |Square(st, x, y, now).value| <= MAX_INT as int
      && LegacyProtocol.AllSendable(ToEvents(Square(st, x, y, now).value), f)
    ensures var (x, y, _) := ParsePoint(s, f).value;
      var reply := GetInfoSpec(st, s, f, now).value.0;
      HasNext(reply) && NextToken(reply).0 == "INFOS"
      && LegacyProtocol.ReadInfos(NextToken(reply).1, f) == Success((ToEvents(Square(st, x, y, now).value), []))
  {
    var (x, y, _) := ParsePoint(s, f).value;
    LegacyProtocol.ReplyRoundTrip(ToEvents(Square(st, x, y, now).value), f);
  }
}
