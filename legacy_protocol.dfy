/**
 * The legacy text protocol around EventType: the command lines ClientCommand writes, the
 * INFOS reply the legacy ServerCommand.sendInfos writes, and the client's ServerCommandHandler
 * that reads that reply back from a Scanner.
 */
module LegacyProtocol {
  import opened Wrappers
  import opened Numbers
  import opened Text
  import opened EventTypes
  import opened NetUtils
  import opened Lists

  /** An Event as the legacy reply carries it: a type and a position, nothing else. */
  datatype Event = Event(kind: EventType, x: real, y: real)

  /** What a failed read raises: an IOException with its message, or Scanner's NoSuchElementException. */
  datatype ReadError = IoError(message: string) | NoSuchElement

  lemma NameIsToken(t: EventType)
    ensures IsToken(Name(t))
  {
  }

  // ClientCommand: one writeLine per call, its words joined by single spaces.

  /** The fields a report carries after its command word: type name, x, y and the formatted date. */
  function ReportFields(kind: EventType, x: real, y: real, date: int, f: Formats): seq<string> {
    [Name(kind), f.doubles.show(x), f.doubles.show(y), f.dates.show(date)]
  }

  function SubmitLine(kind: EventType, x: real, y: real, date: int, f: Formats): string {
    JoinWithSpaces(["SUBMIT"] + ReportFields(kind, x, y, date, f))
  }

  function NotSeenLine(kind: EventType, x: real, y: real, date: int, f: Formats): string {
    JoinWithSpaces(["NOT_SEEN"] + ReportFields(kind, x, y, date, f))
  }

  function GetInfoLine(x: real, y: real, f: Formats): string {
    JoinWithSpaces(["GET_INFO", f.doubles.show(x), f.doubles.show(y)])
  }

  /** SUBMIT and NOT_SEEN differ only in their command word: past it and its space the text is the same. */
  lemma ReportLinesDiffer(kind: EventType, x: real, y: real, date: int, f: Formats)
    ensures var submit, notSeen := SubmitLine(kind, x, y, date, f), NotSeenLine(kind, x, y, date, f);
      submit[..7] == "SUBMIT " && notSeen[..9] == "NOT_SEEN " && submit[7..] == notSeen[9..]
  {
    var fields := ReportFields(kind, x, y, date, f);
    var rest := JoinWithSpaces(fields);
    assert (["SUBMIT"] + fields)[1..] == fields;
    assert (["NOT_SEEN"] + fields)[1..] == fields;
    assert SubmitLine(kind, x, y, date, f) == "SUBMIT " + rest;
    assert NotSeenLine(kind, x, y, date, f) == "NOT_SEEN " + rest;
  }

  /** A report line word by word: the command word, then the four fields, one space before each. */
  lemma ReportLineWords(word: string, kind: EventType, x: real, y: real, date: int, f: Formats)
    ensures var fs := ReportFields(kind, x, y, date, f);
      JoinWithSpaces([word] + fs) == word + (" " + (fs[0] + (" " + (fs[1] + (" " + (fs[2] + (" " + fs[3])))))))
  {
    var fs := ReportFields(kind, x, y, date, f);
    JoinCons(word, fs);
    assert fs == [fs[0]] + fs[1..];
    JoinCons(fs[0], fs[1..]);
    assert fs[1..] == [fs[1]] + fs[2..];
    JoinCons(fs[1], fs[2..]);
    assert fs[2..] == [fs[2]] + [fs[3]];
    JoinCons(fs[2], [fs[3]]);
  }

  /** GET_INFO's line word by word. */
  lemma GetInfoLineWords(x: real, y: real, f: Formats)
    ensures GetInfoLine(x, y, f) == "GET_INFO" + (" " + (f.doubles.show(x) + (" " + f.doubles.show(y))))
  {
    var xs, ys := f.doubles.show(x), f.doubles.show(y);
    assert ["GET_INFO", xs, ys] == ["GET_INFO"] + [xs, ys];
    JoinCons("GET_INFO", [xs, ys]);
    assert [xs, ys] == [xs] + [ys];
    JoinCons(xs, [ys]);
  }

  /** GET_INFO's line splits back on its spaces into the command word and the two numbers. */
  lemma GetInfoFields(x: real, y: real, f: Formats)
    requires ShowsTokens(f.doubles)
    ensures SplitOnSpace(GetInfoLine(x, y, f)) == ["GET_INFO", f.doubles.show(x), f.doubles.show(y)]
  {
    var fs := ["GET_INFO", f.doubles.show(x), f.doubles.show(y)];
    assert IsToken(fs[1]) && IsToken(fs[2]);
    SplitOfJoin(fs);
  }

  /** A line without a newline is received as exactly that one line. */
  lemma OneLineSent(line: string)
    requires '\n' !in line
    ensures LineFrom(Terminated(line)) == Some((line, ""))
  {
    TerminatedPlain(line);
    assert line + "\n" == line + ("\n" + "");
    LineThen(line, "");
  }

  // ServerCommand.sendInfos (legacy).

  /** "INFOS " and the size of the list. */
  function Header(n: nat): string {
    JoinWithSpaces(["INFOS", NatToString(n)])
  }

  /** The four words of an event's INFO line. */
  function InfoFields(e: Event, f: Formats): seq<string> {
    ["INFO", Name(e.kind), f.doubles.show(e.x), f.doubles.show(e.y)]
  }

  /** "INFO", the type name, x and y, a single space between two. */
  function InfoLine(e: Event, f: Formats): string {
    JoinWithSpaces(InfoFields(e, f))
  }

  /** One INFO line per event, in list order. */
  function InfoLines(events: seq<Event>, f: Formats): (r: seq<string>)
    ensures |r| == |events|
    ensures forall i :: 0 <= i < |events| ==> r[i] == InfoLine(events[i], f)
  {
    if events == [] then [] else [InfoLine(events[0], f)] + InfoLines(events[1..], f)
  }

  /** The lines of the reply: the header, then the INFO lines. */
  function Reply(events: seq<Event>, f: Formats): (r: seq<string>)
    ensures |r| == |events| + 1 && r[0] == Header(|events|)
    ensures forall i :: 0 <= i < |events| ==> r[i + 1] == InfoLine(events[i], f)
  {
    [Header(|events|)] + InfoLines(events, f)
  }

  /** The text of a run of lines starting with `line`: that line, then the others. */
  lemma TranscriptCons(line: string, rest: seq<string>)
    ensures Transcript([line] + rest) == Terminated(line) + Transcript(rest)
  {
    assert ([line] + rest)[1..] == rest;
  }

  /** The text still to send from event i on: its INFO line, then those of the events after it. */
  lemma InfoLinesFrom(events: seq<Event>, f: Formats, i: nat)
    requires i < |events|
    ensures Transcript(InfoLines(events[i..], f)) == Terminated(InfoLine(events[i], f)) + Transcript(InfoLines(events[i + 1..], f))
  {
    assert events[i..][1..] == events[i + 1..];
    TranscriptCons(InfoLine(events[i], f), InfoLines(events[i + 1..], f));
  }

  /** The header write, then one write per event. */
  method SendInfos(channel: Channel, events: seq<Event>, f: Formats)
    modifies channel`sent
    ensures channel.sent == old(channel.sent) + Transcript(Reply(events, f))
  {
    var header := Header(|events|);
    TranscriptCons(header, InfoLines(events, f));
    assert events[0..] == events;
    Associative(channel.sent, Terminated(header), Transcript(InfoLines(events, f)));
    channel.WriteLine(header);
    for i := 0 to |events|
      invariant channel.sent + Transcript(InfoLines(events[i..], f)) == old(channel.sent) + Transcript(Reply(events, f))
    {
      var line := InfoLine(events[i], f);
      InfoLinesFrom(events, f, i);
      Associative(channel.sent, Terminated(line), Transcript(InfoLines(events[i + 1..], f)));
      channel.WriteLine(line);
    }
    assert channel.sent + "" == channel.sent;
  }

  /** Each INFO line holds four space-separated fields: INFO, the type name, x and y. */
  lemma InfoLineFields(e: Event, f: Formats)
    requires ShowsTokens(f.doubles)
    ensures SplitOnSpace(InfoLine(e, f)) == ["INFO", Name(e.kind), f.doubles.show(e.x), f.doubles.show(e.y)]
  {
    NameIsToken(e.kind);
    assert IsToken(f.doubles.show(e.x)) && IsToken(f.doubles.show(e.y));
    SplitOfJoin(InfoFields(e, f));
  }

  /** An empty list is answered by the header alone. */
  lemma EmptyReply(f: Formats)
    ensures Transcript(Reply([], f)) == "INFOS 0\n"
  {
    TranscriptCons(Header(0), []);
  }

  // ServerCommandHandler (client side, legacy): INFO and INFOS read from a Scanner.

  /**
   * INFO.handle on the unread input `s`: a type name, x as the next token, y as the rest of
   * the line with its leading spaces removed; the event and the input after that line.
   */
  function ReadInfo(s: string, f: Formats): (r: Result<(Event, string), ReadError>)
    ensures r.Success? ==> |r.value.1| < |s|
  {
    if !HasNext(s) then Failure(IoError("Invalid command"))
    else
      var (name, s1) := NextToken(s);
      match ValueOf(name)
      case None => Failure(IoError("Invalid event type"))
      case Some(kind) =>
        if !HasNext(s1) then Failure(NoSuchElement)
        else
          var (xs, s2) := NextToken(s1);
          match f.doubles.parse(xs)
          case None => Failure(IoError("Missing X coordinate"))
          case Some(x) =>
            match LineFrom(s2)
            case None => Failure(NoSuchElement)
            case Some((rest, s3)) =>
              match f.doubles.parse(DropLeadingSpaces(rest))
              case None => Failure(IoError("Missing Y coordinate"))
              case Some(y) => Success((Event(kind, x, y), s3))
  }

  /** One record of an INFOS reply: the token INFO, then what ReadInfo reads. */
  function ReadRecord(s: string, f: Formats): (r: Result<(Event, string), ReadError>)
    ensures r.Success? ==> |r.value.1| < |s|
  {
    if !HasNext(s) || NextToken(s).0 != "INFO" then Failure(IoError("Missing INFO answer"))
    else ReadInfo(NextToken(s).1, f)
  }

  /** `count` records, one after the other. */
  function ReadRecords(s: string, count: nat, f: Formats): (r: Result<(seq<Event>, string), ReadError>)
    ensures r.Success? ==> |r.value.0| == count && |r.value.1| <= |s|
    decreases count
  {
    if count == 0 then Success(([], s))
    else
      match ReadRecord(s, f)
      case Failure(e) => Failure(e)
      case Success((e, next)) => Prepend([e], ReadRecords(next, count - 1, f))
  }

  /** The events read so far in front of what a later read yields; failures pass through. */
  function Prepend(prefix: seq<Event>, r: Result<(seq<Event>, string), ReadError>): (p: Result<(seq<Event>, string), ReadError>)
    ensures p.Success? <==> r.Success?
    ensures p.Success? ==> p.value == (prefix + r.value.0, r.value.1)
    ensures p.Failure? ==> p.error == r.error
  {
    match r
    case Failure(e) => Failure(e)
    case Success((events, next)) => Success((prefix + events, next))
  }

  /** The first of `count` records, then the others from where it ended; its failure is theirs. */
  lemma RecordsStep(s: string, count: nat, f: Formats)
    requires count > 0
    ensures var first := ReadRecord(s, f);
      (first.Success? ==> ReadRecords(s, count, f) == Prepend([first.value.0], ReadRecords(first.value.1, count - 1, f)))
      && (first.Failure? ==> ReadRecords(s, count, f) == Failure(first.error))
  {
  }

  /** A pass of the INFOS loop that reads a record keeps what is left to read in step with the list. */
  lemma RecordRead(list: seq<Event>, s: string, count: nat, spec: Result<(seq<Event>, string), ReadError>, f: Formats)
    requires count > 0 && ReadRecord(s, f).Success?
    requires Prepend(list, ReadRecords(s, count, f)) == spec
    ensures var (e, next) := ReadRecord(s, f).value;
      Prepend(list + [e], ReadRecords(next, count - 1, f)) == spec
  {
    var (e, next) := ReadRecord(s, f).value;
    RecordsStep(s, count, f);
    PrependTwice(list, [e], ReadRecords(next, count - 1, f));
  }

  /** A pass that fails makes the whole read fail with its error. */
  lemma RecordFails(list: seq<Event>, s: string, count: nat, spec: Result<(seq<Event>, string), ReadError>, f: Formats)
    requires count > 0 && ReadRecord(s, f).Failure?
    requires Prepend(list, ReadRecords(s, count, f)) == spec
    ensures spec == Failure(ReadRecord(s, f).error)
  {
    RecordsStep(s, count, f);
  }

  /** Prepending nothing changes nothing; prepending twice is prepending both at once. */
  lemma PrependTwice(a: seq<Event>, b: seq<Event>, r: Result<(seq<Event>, string), ReadError>)
    ensures Prepend([], r) == r
    ensures Prepend(a, Prepend(b, r)) == Prepend(a + b, r)
  {
    if r.Success? {
      assert [] + r.value.0 == r.value.0;
      assert a + (b + r.value.0) == (a + b) + r.value.0;
    }
  }

  /**
   * INFOS.handle on the input just after the INFOS token: the rest of the line, leading spaces
   * removed, is the count n; then n records, none when n is negative.
   */
  function ReadInfos(s: string, f: Formats): (r: Result<(seq<Event>, string), ReadError>)
    ensures r.Success? ==> |r.value.1| < |s|
  {
    match LineFrom(s)
    case None => Failure(IoError("Invalid command"))
    case Some((line, next)) =>
      var digits := DropLeadingSpaces(line);
      match ParseInt(digits)
      case None => Failure(IoError("Invalid integer value: " + digits))
      case Some(n) => ReadRecords(next, if n < 0 then 0 else n as nat, f)
  }

  method HandleInfo(scanner: Scanner, f: Formats) returns (r: Result<Event, ReadError>)
    modifies scanner
    ensures var spec := ReadInfo(old(scanner.input), f);
      (spec.Success? ==> r == Success(spec.value.0) && scanner.input == spec.value.1)
      && (spec.Failure? ==> r == Failure(spec.error))
  {
    if !scanner.HasNextToken() {
      return Failure(IoError("Invalid command"));
    }
    var name := scanner.Next();
    var kind := ValueOf(name.value);
    if kind.None? {
      return Failure(IoError("Invalid event type"));
    }
    var tmp := scanner.Next();
    if tmp.None? {
      return Failure(NoSuchElement);
    }
    var x := f.doubles.parse(tmp.value);
    if x.None? {
      return Failure(IoError("Missing X coordinate"));
    }
    var rest := scanner.NextLine();
    if rest.None? {
      return Failure(NoSuchElement);
    }
    var ys := StripLeadingSpaces(rest.value);
    var y := f.doubles.parse(ys);
    if y.None? {
      return Failure(IoError("Missing Y coordinate"));
    }
    return Success(Event(kind.value, x.value, y.value));
  }

  /** One pass of the INFOS loop: the INFO token, then INFO.handle. */
  method HandleRecord(scanner: Scanner, f: Formats) returns (r: Result<Event, ReadError>)
    modifies scanner
    ensures var spec := ReadRecord(old(scanner.input), f);
      (spec.Success? ==> r == Success(spec.value.0) && scanner.input == spec.value.1)
      && (spec.Failure? ==> r == Failure(spec.error))
  {
    if !scanner.HasNextToken() {
      return Failure(IoError("Missing INFO answer"));
    }
    var tok := scanner.Next();
    if tok != Some("INFO") {
      return Failure(IoError("Missing INFO answer"));
    }
    r := HandleInfo(scanner, f);
  }

  /** The loop of INFOS.handle: `n` passes, none when n is negative, the events in the order read. */
  method HandleRecords(scanner: Scanner, n: int, f: Formats) returns (r: Result<seq<Event>, ReadError>)
    modifies scanner
    ensures var spec := ReadRecords(old(scanner.input), if n < 0 then 0 else n, f);
      (spec.Success? ==> r == Success(spec.value.0) && scanner.input == spec.value.1)
      && (spec.Failure? ==> r == Failure(spec.error))
  {
    // The loop `for i in 0 .. n` runs as a count of the records still to read.
    var left: nat := if n < 0 then 0 else n;
    ghost var spec := ReadRecords(scanner.input, left, f);
    var list: seq<Event> := [];
    PrependTwice([], [], spec);
    while left > 0
      invariant Prepend(list, ReadRecords(scanner.input, left, f)) == spec
    {
      ghost var before := scanner.input;
      var e := HandleRecord(scanner, f);
      if e.Failure? {
        RecordFails(list, before, left, spec, f);
        return Failure(e.error);
      }
      RecordRead(list, before, left, spec, f);
      list := list + [e.value];
      left := left - 1;
    }
    assert list + [] == list;
    return Success(list);
  }

  method HandleInfos(scanner: Scanner, f: Formats) returns (r: Result<seq<Event>, ReadError>)
    modifies scanner
    ensures var spec := ReadInfos(old(scanner.input), f);
      (spec.Success? ==> r == Success(spec.value.0) && scanner.input == spec.value.1)
      && (spec.Failure? ==> r == Failure(spec.error))
  {
    var line := scanner.NextLine();
    if line.None? {
      return Failure(IoError("Invalid command"));
    }
    var digits := StripLeadingSpaces(line.value);
    var parsed := ParseInt(digits);
    if parsed.None? {
      return Failure(IoError("Invalid integer value: " + digits));
    }
    r := HandleRecords(scanner, parsed.value as int, f);
  }

  // The reply read back.

  lemma DropOneSpace(t: string)
    requires IsToken(t)
    ensures DropLeadingSpaces(" " + t) == t
  {
    assert (" " + t)[1..] == t;
  }

  /** A record's words after INFO, ended by '\n', read back as its event, and reading goes on after the '\n'. */
  lemma ReadInfoWords(name: string, xs: string, ys: string, post: string, e: Event, f: Formats)
    requires IsToken(name) && IsToken(xs) && IsToken(ys)
    requires ValueOf(name) == Some(e.kind)
    requires f.doubles.parse(xs) == Some(e.x) && f.doubles.parse(ys) == Some(e.y)
    ensures ReadInfo(" " + (name + (" " + (xs + (" " + (ys + ("\n" + post)))))), f) == Success((e, post))
  {
    var line := " " + ys;
    var r2 := " " + (ys + ("\n" + post));
    SpaceTokenThen(name, " " + (xs + r2));
    SpaceTokenThen(xs, r2);
    assert r2 == line + ("\n" + post);
    assert '\n' !in line by {
      assert forall k :: 0 <= k < |line| ==> line[k] != '\n';
    }
    LineThen(line, post);
    DropOneSpace(ys);
  }

  /** An INFO line spelt out word by word, with whatever text follows the line. */
  lemma InfoLineThen(e: Event, f: Formats, tail: string)
    ensures InfoLine(e, f) + tail
      == "INFO" + (" " + (Name(e.kind) + (" " + (f.doubles.show(e.x) + (" " + (f.doubles.show(e.y) + tail))))))
  {
    var fs := InfoFields(e, f);
    assert fs[1..][1..][1..] == [fs[3]];
    var j2 := JoinWithSpaces(fs[1..][1..]);
    var j1 := JoinWithSpaces(fs[1..]);
    assert JoinWithSpaces(fs[1..][1..][1..]) == fs[3];
    assert j2 == fs[2] + " " + fs[3];
    assert j2 + tail == fs[2] + (" " + (fs[3] + tail));
    assert j1 == fs[1] + " " + j2;
    assert j1 + tail == fs[1] + (" " + (j2 + tail));
    assert InfoLine(e, f) == "INFO" + " " + j1;
    assert InfoLine(e, f) + tail == "INFO" + (" " + (j1 + tail));
  }

  lemma InfoLineHasNoNewline(e: Event, f: Formats)
    requires ShowsTokens(f.doubles)
    ensures '\n' !in InfoLine(e, f)
  {
    var name, xs, ys := Name(e.kind), f.doubles.show(e.x), f.doubles.show(e.y);
    NameIsToken(e.kind);
    assert IsToken(xs) && IsToken(ys);
    InfoLineThen(e, f, "");
    assert InfoLine(e, f) + "" == InfoLine(e, f);
    assert '\n' !in name && '\n' !in xs && '\n' !in ys by {
      assert forall k :: 0 <= k < |name| ==> name[k] != '\n';
      assert forall k :: 0 <= k < |xs| ==> xs[k] != '\n';
      assert forall k :: 0 <= k < |ys| ==> ys[k] != '\n';
    }
  }

  /** An event whose coordinates Double.parseDouble reads back from what Double.toString wrote. */
  ghost predicate Sendable(e: Event, f: Formats) {
    ReadsBack(f.doubles, e.x) && ReadsBack(f.doubles, e.y)
  }

  ghost predicate AllSendable(events: seq<Event>, f: Formats) {
    forall i :: 0 <= i < |events| ==> Sendable(events[i], f)
  }

  /** The INFO lines of `events`, sent one after the other, read back as `events` with nothing left over. */
  lemma {:induction false} ReadRecordsOf(events: seq<Event>, f: Formats)
    requires ShowsTokens(f.doubles) && AllSendable(events, f)
    ensures ReadRecords(Transcript(InfoLines(events, f)), |events|, f) == Success((events, ""))
  {
    if events != [] {
      var later := events[1..];
      assert AllSendable(later, f) by {
        forall i | 0 <= i < |later|
          ensures Sendable(later[i], f)
        {
          assert later[i] == events[i + 1];
        }
      }
      ReadRecordsOf(later, f);
      RecordsCons(events, events[0], later, Transcript(InfoLines(events, f)), Transcript(InfoLines(later, f)), f);
    }
  }

  /** The INFO line of a first event in front of the others' lines: that event, then theirs. */
  lemma RecordsCons(events: seq<Event>, first: Event, later: seq<Event>, text: string, rest: string, f: Formats)
    requires events != [] && first == events[0] && later == events[1..]
    requires ShowsTokens(f.doubles) && Sendable(first, f)
    requires text == Transcript(InfoLines(events, f)) && rest == Transcript(InfoLines(later, f))
    requires ReadRecords(rest, |later|, f) == Success((later, ""))
    ensures ReadRecords(text, |events|, f) == Success((events, ""))
  {
    assert events == [first] + later;
    InfoLinesCons(first, later, f);
    TranscriptCons(InfoLine(first, f), InfoLines(later, f));
    RecordSent(first, rest, f);
    RecordsStep(text, |later| + 1, f);
  }

  lemma InfoLinesCons(first: Event, later: seq<Event>, f: Formats)
    ensures InfoLines([first] + later, f) == [InfoLine(first, f)] + InfoLines(later, f)
  {
    assert ([first] + later)[1..] == later;
  }

  /** One sent INFO line, whatever follows it, reads back as its event, and reading goes on after it. */
  lemma RecordSent(e: Event, rest: string, f: Formats)
    requires ShowsTokens(f.doubles) && Sendable(e, f)
    ensures ReadRecord(Terminated(InfoLine(e, f)) + rest, f) == Success((e, rest))
  {
    var name, xs, ys := Name(e.kind), f.doubles.show(e.x), f.doubles.show(e.y);
    var text := Terminated(InfoLine(e, f)) + rest;
    InfoLineHasNoNewline(e, f);
    TerminatedPlain(InfoLine(e, f));
    Associative(InfoLine(e, f), "\n", rest);
    InfoLineThen(e, f, "\n" + rest);
    var after := " " + (name + (" " + (xs + (" " + (ys + ("\n" + rest))))));
    assert text == "INFO" + after;
    TokenThen("INFO", after);
    NameIsToken(e.kind);
    ValueOfName(e.kind, name);
    assert IsToken(xs) && IsToken(ys);
    ReadInfoWords(name, xs, ys, rest, e, f);
  }

  /** The count the header carries is a single token, and Integer.parseInt reads it back. */
  lemma CountReadsBack(n: nat)
    requires n <= MAX_INT as int
    ensures IsToken(NatToString(n)) && DropLeadingSpaces(" " + NatToString(n)) == NatToString(n)
    ensures ParseInt(NatToString(n)) == Some(n as int32)
  {
    CountIsToken(n);
    DropOneSpace(NatToString(n));
    IntRoundTrip(n as int32);
  }

  /** The decimal digits of a count are one token and hold no line break. */
  lemma CountIsToken(n: nat)
    ensures IsToken(NatToString(n)) && '\n' !in NatToString(n)
  {
    var d := NatToString(n);
    assert forall k :: 0 <= k < |d| ==> IsDigit(d[k]) && !IsWhitespace(d[k]);
  }

  lemma HeaderWords(n: nat)
    ensures Header(n) == "INFOS" + (" " + NatToString(n))
  {
    var d := NatToString(n);
    assert ["INFOS", d][1..] == [d];
    assert JoinWithSpaces([d]) == d;
  }

  /** The header line as sent, followed by whatever comes after it. */
  lemma HeaderThen(n: nat, rest: string)
    ensures Terminated(Header(n)) + rest == "INFOS" + ((" " + NatToString(n)) + ("\n" + rest))
  {
    var line := " " + NatToString(n);
    HeaderWords(n);
    CountIsToken(n);
    assert '\n' !in "INFOS";
    assert '\n' !in line;
    TerminatedPlain(Header(n));
  }

  /** The reply keyword is one token. */
  lemma InfosIsToken()
    ensures IsToken("INFOS")
  {
    var w := "INFOS";
    assert w[0] == 'I' && w[1] == 'N' && w[2] == 'F' && w[3] == 'O' && w[4] == 'S';
  }

  /**
   * What the legacy sendInfos writes, the legacy client reads back: the first token is INFOS,
   * and INFOS.handle then yields exactly the events sent, in order, and consumes the whole reply.
   */
  lemma ReplyRoundTrip(events: seq<Event>, f: Formats)
    requires ShowsTokens(f.doubles) && AllSendable(events, f)
    requires |events| <= MAX_INT as int
    ensures var text := Transcript(Reply(events, f));
      HasNext(text) && NextToken(text).0 == "INFOS" && ReadInfos(NextToken(text).1, f) == Success((events, ""))
  {
    var n := |events|;
    var line := " " + NatToString(n);
    var rest := Transcript(InfoLines(events, f));
    TranscriptCons(Header(n), InfoLines(events, f));
    HeaderThen(n, rest);
    assert (line + ("\n" + rest))[0] == ' ';
    InfosIsToken();
    TokenThen("INFOS", line + ("\n" + rest));
    CountIsToken(n);
    assert '\n' !in line;
    LineThen(line, rest);
    CountReadsBack(n);
    ReadRecordsOf(events, f);
  }
}
