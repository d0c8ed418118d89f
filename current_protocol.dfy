/**
 * The current text protocol around PoiType: the INFOS reply the server's
 * communication/ServerCommand writes, and the client's ServerCommunication, which formats
 * SUBMIT, NOT_SEEN and GET_INFOS and decodes the INFOS reply line by line.
 */
module CurrentProtocol {
  import opened Wrappers
  import opened Numbers
  import opened Reports
  import opened PoiTypes
  import opened Text
  import opened NetUtils
  import opened Lists
  import LegacyProtocol

  // communication/ServerCommand.sendInfos.

  /** The six fields of an INFO line: the word INFO, type name, latitude, longitude, date and confirmations. */
  function InfoFields(p: Poi, f: Formats): seq<string> {
    ["INFO", Name(p.kind), f.doubles.show(p.lat), f.doubles.show(p.lon), f.dates.show(p.date), IntToString(p.confirmations)]
  }

  function InfoLine(p: Poi, f: Formats): string {
    JoinWithSpaces(InfoFields(p, f))
  }

  function InfoLines(pois: seq<Poi>, f: Formats): (r: seq<string>)
    ensures |r| == |pois|
    ensures forall i :: 0 <= i < |pois| ==> r[i] == InfoLine(pois[i], f)
  {
    if pois == [] then [] else [InfoLine(pois[0], f)] + InfoLines(pois[1..], f)
  }

  /** The lines sendInfos writes: the "INFOS <size>" header, then one INFO line per POI in list order. */
  function Reply(pois: seq<Poi>, f: Formats): (r: seq<string>)
    ensures |r| == |pois| + 1 && r[0] == LegacyProtocol.Header(|pois|)
    ensures forall i :: 0 <= i < |pois| ==> r[i + 1] == InfoLine(pois[i], f)
  {
    [LegacyProtocol.Header(|pois|)] + InfoLines(pois, f)
  }

  lemma InfoLinesFrom(pois: seq<Poi>, f: Formats, i: nat)
    requires i < |pois|
    ensures Transcript(InfoLines(pois[i..], f)) == Terminated(InfoLine(pois[i], f)) + Transcript(InfoLines(pois[i + 1..], f))
  {
    assert pois[i..][1..] == pois[i + 1..];
    LegacyProtocol.TranscriptCons(InfoLine(pois[i], f), InfoLines(pois[i + 1..], f));
  }

  /** sendInfos: one writeLine for the header, then one per POI. */
  method SendInfos(channel: Channel, pois: seq<Poi>, f: Formats)
    modifies channel`sent
    ensures channel.sent == old(channel.sent) + Transcript(Reply(pois, f))
  {
    var header := LegacyProtocol.Header(|pois|);
    LegacyProtocol.TranscriptCons(header, InfoLines(pois, f));
    assert pois[0..] == pois;
    Associative(channel.sent, Terminated(header), Transcript(InfoLines(pois, f)));
    channel.WriteLine(header);
    for i := 0 to |pois|
      invariant channel.sent + Transcript(InfoLines(pois[i..], f)) == old(channel.sent) + Transcript(Reply(pois, f))
    {
      var line := InfoLine(pois[i], f);
      InfoLinesFrom(pois, f, i);
      Associative(channel.sent, Terminated(line), Transcript(InfoLines(pois[i + 1..], f)));
      channel.WriteLine(line);
    }
    assert channel.sent + "" == channel.sent;
  }

  /** An empty list is answered by the single line "INFOS 0". */
  lemma EmptyReply(f: Formats)
    ensures Transcript(Reply([], f)) == "INFOS 0\n"
  {
    LegacyProtocol.TranscriptCons(LegacyProtocol.Header(0), []);
    LegacyProtocol.HeaderWords(0);
    assert NatToString(0) == "0";
  }

  /** The refutation count is never sent: two POIs that differ only in it get the same INFO line. */
  lemma RefutationsNotSent(p: Poi, q: Poi, f: Formats)
    requires p.(refutations := 0) == q.(refutations := 0)
    ensures InfoLine(p, f) == InfoLine(q, f)
  {
    assert p.kind == q.kind && p.lat == q.lat && p.lon == q.lon && p.date == q.date && p.confirmations == q.confirmations;
  }

  // The regular expressions the client's decoder applies, as predicates on the fields.

  /** `.` in a pattern: any character but a line terminator. */
  predicate AnyChar(c: char) {
    c != '\n' && c != '\r' && c != '\U{85}' && c != '\U{2028}' && c != '\U{2029}'
  }

  /** `\-?\d{1,k}.\d+` matched inside one field: a sign, one to k digits, any character but a space, then at least one digit. */
  predicate CoordShape(s: string, k: nat) {
    var t := if s != [] && s[0] == '-' then s[1..] else s;
    exists j :: 1 <= j <= k && j + 1 < |t| && AllDigits(t[..j]) && AnyChar(t[j]) && t[j] != ' ' && AllDigits(t[j + 1..])
  }

  /** `\-?\d{1,k}`: a sign, then one to k digits. */
  predicate SignedDigits(s: string, k: nat) {
    var t := if s != [] && s[0] == '-' then s[1..] else s;
    1 <= |t| <= k && AllDigits(t)
  }

  /**
   * The coordinate pattern `\-?\d{1,k}.\d+` over the fields from fs[i] on: one field when its `.`
   * matched another character, two fields when it matched a space.
   */
  predicate CoordAt(fs: seq<string>, i: nat, k: nat, width: nat) {
    (width == 1 && i < |fs| && CoordShape(fs[i], k))
    || (width == 2 && i + 1 < |fs| && SignedDigits(fs[i], k) && CountShape(fs[i + 1]))
  }

  /** The date pattern of "yyyy-MM-dd'T'HH:mm:ss.SSSZ": '#' stands for a digit and '~' for a sign. */
  const DatePattern: string := "####-##-##T##:##:##.###~####"

  predicate Fits(c: char, pattern: char) {
    if pattern == '#' then IsDigit(c) else if pattern == '~' then c == '+' || c == '-' else c == pattern
  }

  predicate DateShape(s: string) {
    |s| == |DatePattern| && forall i :: 0 <= i < |s| ==> Fits(s[i], DatePattern[i])
  }

  /** `\d+` */
  predicate CountShape(s: string) {
    s != [] && AllDigits(s)
  }

  /** "INFOS \d+" */
  predicate HeaderMatches(line: string) {
    |line| > 6 && line[..6] == "INFOS " && AllDigits(line[6..])
  }

  /**
   * The INFO line pattern: INFO, a type name, the two coordinates, the date and the count, the
   * fields separated by single spaces; a coordinate's `.` may itself be a space, which makes
   * seven or eight fields.
   */
  predicate InfoLineMatches(line: string) {
    var fs := SplitOnSpace(line);
    JoinWithSpaces(fs) == line && |fs| >= 6 && fs[0] == "INFO" && ValueOf(fs[1]).Some?
    && (InfoTail(fs, 1, 1) || InfoTail(fs, 1, 2) || InfoTail(fs, 2, 1) || InfoTail(fs, 2, 2))
  }

  /** The fields after the type: coordinates `w1` and `w2` fields wide, then the date and the count. */
  predicate InfoTail(fs: seq<string>, w1: nat, w2: nat) {
    |fs| == 4 + w1 + w2 && CoordAt(fs, 2, 2, w1) && CoordAt(fs, 2 + w1, 3, w2)
    && DateShape(fs[2 + w1 + w2]) && CountShape(fs[3 + w1 + w2])
  }

  /** The message of the NumberFormatException Double.parseDouble and Integer.parseInt throw. */
  function NumberFormatMessage(s: string): string {
    "For input string: \"" + s + "\""
  }

  /** A header that matches splits into INFOS and its digits. */
  lemma HeaderSplit(line: string)
    requires HeaderMatches(line)
    ensures SplitOnSpace(line) == ["INFOS", line[6..]]
  {
    var d := line[6..];
    assert ' ' !in d by {
      assert forall k :: 0 <= k < |d| ==> IsDigit(d[k]);
    }
    assert ' ' !in "INFOS";
    assert ["INFOS", d][1..] == [d];
    assert JoinWithSpaces([d]) == d;
    assert JoinWithSpaces(["INFOS", d]) == "INFOS" + " " + d;
    assert line == line[..6] + d;
    assert line[..6] == "INFOS" + " ";
    SplitOfJoin(["INFOS", d]);
  }

  // Client ServerCommunication: the three commands.

  /** "SUBMIT <type> <lat> <lon> <date> <confirmations>\n" */
  function SubmitCommand(p: Poi, f: Formats): string {
    JoinWithSpaces(["SUBMIT", Name(p.kind), f.doubles.show(p.lat), f.doubles.show(p.lon), f.dates.show(p.date), IntToString(p.confirmations)]) + "\n"
  }

  /** "NOT_SEEN <type> <lat> <lon> <date>\n" */
  function NotSeenCommand(p: Poi, f: Formats): string {
    JoinWithSpaces(["NOT_SEEN", Name(p.kind), f.doubles.show(p.lat), f.doubles.show(p.lon), f.dates.show(p.date)]) + "\n"
  }

  /** "GET_INFOS <lat> <lon>\n" */
  function GetInfosCommand(lat: real, lon: real, f: Formats): string {
    JoinWithSpaces(["GET_INFOS", f.doubles.show(lat), f.doubles.show(lon)]) + "\n"
  }

  /** SUBMIT carries exactly the fields of the INFO line the server would send for the same POI. */
  lemma SubmitCarriesInfoFields(p: Poi, f: Formats)
    ensures SubmitCommand(p, f) == "SUBMIT" + InfoLine(p, f)[4..] + "\n"
  {
    var fs := InfoFields(p, f);
    var gs := ["SUBMIT"] + fs[1..];
    assert gs == ["SUBMIT", Name(p.kind), f.doubles.show(p.lat), f.doubles.show(p.lon), f.dates.show(p.date), IntToString(p.confirmations)];
    assert fs == ["INFO"] + fs[1..];
    JoinCons("INFO", fs[1..]);
    JoinCons("SUBMIT", fs[1..]);
  }

  /** NOT_SEEN is SUBMIT under another word and without the confirmation count. */
  lemma NotSeenDropsCount(p: Poi, f: Formats)
    ensures var fields := [Name(p.kind), f.doubles.show(p.lat), f.doubles.show(p.lon), f.dates.show(p.date)];
      NotSeenCommand(p, f) == "NOT_SEEN " + JoinWithSpaces(fields) + "\n"
      && SubmitCommand(p, f) == "SUBMIT " + JoinWithSpaces(fields + [IntToString(p.confirmations)]) + "\n"
  {
    var fields := [Name(p.kind), f.doubles.show(p.lat), f.doubles.show(p.lon), f.dates.show(p.date)];
    var counted := fields + [IntToString(p.confirmations)];
    assert ["NOT_SEEN", Name(p.kind), f.doubles.show(p.lat), f.doubles.show(p.lon), f.dates.show(p.date)] == ["NOT_SEEN"] + fields;
    assert ["SUBMIT", Name(p.kind), f.doubles.show(p.lat), f.doubles.show(p.lon), f.dates.show(p.date), IntToString(p.confirmations)] == ["SUBMIT"] + counted;
    JoinCons("NOT_SEEN", fields);
    JoinCons("SUBMIT", counted);
  }

  // Client ServerCommunication.getPois: the reply decoder.

  /** One INFO line: the pattern first, then the type, the two numbers, the date and the count, in that order. */
  function DecodeInfo(line: string, f: Formats): (r: Result<Poi, string>)
    ensures r.Success? ==> InfoLineMatches(line) && r.value.refutations == 0
    ensures !InfoLineMatches(line) ==> r == Failure("Invalide answer " + line)
  {
    if !InfoLineMatches(line) then Failure("Invalide answer " + line)
    else
      var split := SplitOnSpace(line);
      var kind := ValueOf(split[1]).value;
      match f.doubles.parse(split[2])
      case None => Failure("Invalid answer: " + NumberFormatMessage(split[2]))
      case Some(lat) =>
        match f.doubles.parse(split[3])
        case None => Failure("Invalid answer: " + NumberFormatMessage(split[3]))
        case Some(lon) =>
          match f.dates.parse(split[4])
          case None => Failure("Invalid date format: " + split[4])
          case Some(date) =>
            match ParseInt(split[5])
            case None => Failure("Invalid answer: " + NumberFormatMessage(split[5]))
            case Some(count) => Success(ConstructConfirmedPoi(kind, lat, lon, date, count))
  }

  /** DecodeInfo with the conversions fixed: what getPois applies to each INFO line. */
  function InfoDecoder(f: Formats): string -> Result<Poi, string> {
    line => DecodeInfo(line, f)
  }

  /**
   * The loop over the n INFO lines: each is read and decoded, the first failure ends it, and
   * too few lines is "Missing INFO answer". It is stated for any line decoder; getPois uses
   * InfoDecoder(f).
   */
  function DecodeInfos(s: string, n: nat, decode: string -> Result<Poi, string>): (r: Result<(seq<Poi>, string), string>)
    decreases n
  {
    if n == 0 then Success(([], s))
    else
      match LineFrom(s)
      case None => Failure("Missing INFO answer")
      case Some((line, rest)) =>
        match decode(line)
        case Failure(e) => Failure(e)
        case Success(p) => Prepend([p], DecodeInfos(rest, n - 1, decode))
  }

  /** The POIs decoded so far in front of what a later read yields; failures pass through. */
  function Prepend(prefix: seq<Poi>, r: Result<(seq<Poi>, string), string>): Result<(seq<Poi>, string), string> {
    match r
    case Failure(e) => Failure(e)
    case Success((pois, next)) => Success((prefix + pois, next))
  }

  /** A successful read of n INFO lines yields exactly n POIs. */
  lemma {:induction false} DecodeInfosCount(s: string, n: nat, decode: string -> Result<Poi, string>)
    ensures DecodeInfos(s, n, decode).Success? ==> |DecodeInfos(s, n, decode).value.0| == n
    decreases n
  {
    if n > 0 {
      match LineFrom(s) {
        case None =>
        case Some((line, rest)) =>
          DecodeInfosCount(rest, n - 1, decode);
      }
    }
  }

  /** getPois once the request is written: the header line, its count, then that many INFO lines; later lines are not read. */
  function DecodeReply(s: string, f: Formats): (r: Result<seq<Poi>, string>) {
    match LineFrom(s)
    case None => Failure("No response from the server")
    case Some((line, rest)) =>
      if !HeaderMatches(line) then Failure("Invalide answer " + line)
      else
        HeaderSplit(line);
        match ParseInt(SplitOnSpace(line)[1])
        case None => Failure("Invalid number of POI: " + line)
        case Some(n) =>
          assert n >= 0 by {
            assert AllDigits(line[6..]);
          }
          Decoded(DecodeInfos(rest, n as nat, InfoDecoder(f)))
  }

  /** The POIs the loop decoded, once the lines after them are no longer of interest. */
  function Decoded(r: Result<(seq<Poi>, string), string>): (d: Result<seq<Poi>, string>)
    ensures d.Success? <==> r.Success?
    ensures d.Success? ==> d.value == r.value.0
    ensures d.Failure? ==> d.error == r.error
  {
    match r
    case Failure(e) => Failure(e)
    case Success((pois, _)) => Success(pois)
  }

  lemma PrependNothing(r: Result<(seq<Poi>, string), string>)
    ensures Prepend([], r) == r
  {
    if r.Success? {
      assert [] + r.value.0 == r.value.0;
    }
  }

  /** The first value in front of what the rest of the values and a later read give. */
  lemma PrependFirst(ps: seq<Poi>, rest: Result<(seq<Poi>, string), string>, after: Result<(seq<Poi>, string), string>)
    requires ps != [] && rest == Prepend(ps[1..], after)
    ensures Prepend([ps[0]], rest) == Prepend(ps, after)
  {
    PrependTwice([ps[0]], ps[1..], after);
    assert [ps[0]] + ps[1..] == ps;
  }

  lemma PrependTwice(a: seq<Poi>, b: seq<Poi>, r: Result<(seq<Poi>, string), string>)
    ensures Prepend(a, Prepend(b, r)) == Prepend(a + b, r)
  {
    if r.Success? {
      assert a + (b + r.value.0) == (a + b) + r.value.0;
    }
  }

  /** getPois' loop when no line is left: the read ends with "Missing INFO answer". */
  lemma InfoMissing(pois: seq<Poi>, unread: string, left: nat, decode: string -> Result<Poi, string>)
    requires left > 0 && LineFrom(unread).None?
    ensures Prepend(pois, DecodeInfos(unread, left, decode)) == Failure("Missing INFO answer")
  {
  }

  /** getPois' loop on a line that does not decode: the read ends with that line's error. */
  lemma InfoRejected(pois: seq<Poi>, unread: string, left: nat, decode: string -> Result<Poi, string>, line: string, rest: string, e: string)
    requires left > 0 && LineFrom(unread) == Some((line, rest)) && decode(line) == Failure(e)
    ensures Prepend(pois, DecodeInfos(unread, left, decode)) == Failure(e)
  {
  }

  /** getPois' loop on a line that decodes: its POI joins those already read, and reading goes on after it. */
  lemma InfoKept(pois: seq<Poi>, unread: string, left: nat, fewer: nat, decode: string -> Result<Poi, string>, line: string, rest: string, p: Poi)
    requires left == fewer + 1 && LineFrom(unread) == Some((line, rest)) && decode(line) == Success(p)
    ensures Prepend(pois, DecodeInfos(unread, left, decode)) == Prepend(pois + [p], DecodeInfos(rest, fewer, decode))
  {
    PrependTwice(pois, [p], DecodeInfos(rest, fewer, decode));
  }

  /** getPois' reading half, on a fresh Scanner over what the server sends back. */
  method ReadReply(incoming: string, f: Formats) returns (r: Result<seq<Poi>, string>)
    ensures r == DecodeReply(incoming, f)
  {
    var scanner := new Scanner(incoming);
    var first := scanner.NextLine();
    if first.None? {
      return Failure("No response from the server");
    }
    var line := first.value;
    if !HeaderMatches(line) {
      return Failure("Invalide answer " + line);
    }
    HeaderSplit(line);
    var count := ParseInt(SplitOnSpace(line)[1]);
    if count.None? {
      return Failure("Invalid number of POI: " + line);
    }
    var n: int := count.value as int;
    assert n >= 0 by {
      assert AllDigits(line[6..]);
    }
    r := ReadInfos(scanner, n, f);
  }

  /** getPois' loop: n INFO lines read from the scanner and decoded, stopping at the first error. */
  method ReadInfos(scanner: Scanner, n: nat, f: Formats) returns (r: Result<seq<Poi>, string>)
    modifies scanner
    ensures r == Decoded(DecodeInfos(old(scanner.input), n, InfoDecoder(f)))
  {
    ghost var decode := InfoDecoder(f);
    ghost var infos := DecodeInfos(scanner.input, n, decode);
    PrependNothing(infos);
    var pois: seq<Poi> := [];
    var left := n;  // the INFO lines still expected
    while left > 0
      invariant Prepend(pois, DecodeInfos(scanner.input, left, decode)) == infos
    {
      ghost var unread := scanner.input;
      var next := scanner.NextLine();
      if next.None? {
        InfoMissing(pois, unread, left, decode);
        return Failure("Missing INFO answer");
      }
      var info := DecodeInfo(next.value, f);
      assert decode(next.value) == info;
      if info.Failure? {
        InfoRejected(pois, unread, left, decode, next.value, scanner.input, info.error);
        return Failure(info.error);
      }
      ghost var before := left;
      left := left - 1;
      InfoKept(pois, unread, before, left, decode, next.value, scanner.input, info.value);
      pois := pois + [info.value];
    }
    assert pois + [] == pois;
    r := Success(pois);
  }

  // What the client reads back from what the server writes.

  /** The POIs as the client rebuilds them: all that was sent, with the refutations, which are not sent, at 0. */
  function Received(pois: seq<Poi>): (r: seq<Poi>)
    ensures |r| == |pois|
    ensures forall i :: 0 <= i < |pois| ==> r[i] == pois[i].(refutations := 0)
  {
    if pois == [] then [] else [pois[0].(refutations := 0)] + Received(pois[1..])
  }

  /**
   * A POI whose INFO line the client's pattern accepts: its coordinates and date are shown in
   * the shapes the pattern expects, and its confirmation count is not negative.
   */
  predicate Representable(p: Poi, f: Formats) {
    CoordShape(f.doubles.show(p.lat), 2) && CoordShape(f.doubles.show(p.lon), 3)
    && DateShape(f.dates.show(p.date)) && p.confirmations >= 0
  }

  /**
   * A POI the INFO line carries intact: the pattern accepts its line, and Double.parseDouble and
   * the date format read back exactly the coordinates and date written for it.
   */
  ghost predicate Sendable(p: Poi, f: Formats) {
    Representable(p, f) && ReadsBack(f.doubles, p.lat) && ReadsBack(f.doubles, p.lon) && ReadsBack(f.dates, p.date)
  }

  /** A field without spaces and line ends, which therefore stays one field and one line. */
  predicate Plain(s: string) {
    s != [] && ' ' !in s && '\n' !in s
  }

  /** The characters of a run of digits, read in the text they were cut from. */
  lemma DigitsAt(t: string, a: nat, b: nat)
    requires a <= b <= |t| && AllDigits(t[a..b])
    ensures forall i :: a <= i < b ==> IsDigit(t[i])
  {
    forall i | a <= i < b
      ensures IsDigit(t[i])
    {
      var u := t[a..b];
      assert IsDigit(u[i - a]);
    }
  }

  lemma CoordPlain(s: string, k: nat)
    requires CoordShape(s, k)
    ensures Plain(s)
  {
    var t := if s != [] && s[0] == '-' then s[1..] else s;
    var j :| 1 <= j <= k && j + 1 < |t| && AllDigits(t[..j]) && AnyChar(t[j]) && t[j] != ' ' && AllDigits(t[j + 1..]);
    assert t[..j] == t[0..j] && t[j + 1..] == t[j + 1..|t|];
    DigitsAt(t, 0, j);
    DigitsAt(t, j + 1, |t|);
    var d := if s[0] == '-' then 1 else 0;
    forall i | 0 <= i < |s|
      ensures s[i] != ' ' && s[i] != '\n'
    {
      if i >= d {
        assert s[i] == t[i - d];
        if i - d != j {
          assert IsDigit(t[i - d]);
          assert t[i - d] != ' ' && t[i - d] != '\n';
        } else {
          assert AnyChar(t[j]) && t[j] != ' ';
        }
      } else {
        assert s[i] == '-';
      }
    }
  }

  lemma DatePlain(s: string)
    requires DateShape(s)
    ensures Plain(s)
  {
    forall i | 0 <= i < |s|
      ensures s[i] != ' ' && s[i] != '\n'
    {
      assert Fits(s[i], DatePattern[i]);
    }
  }

  lemma CountPlain(x: int32)
    requires x >= 0
    ensures Plain(IntToString(x)) && CountShape(IntToString(x))
  {
    var d := IntToString(x);
    assert forall i :: 0 <= i < |d| ==> IsDigit(d[i]);
  }

  lemma NamePlain(t: PoiType)
    ensures Plain(Name(t))
  {
  }

  /** Fields without spaces or line ends make a joined line without line ends. */
  lemma {:induction false} JoinWithoutNewline(fs: seq<string>)
    requires forall i :: 0 <= i < |fs| ==> '\n' !in fs[i]
    ensures '\n' !in JoinWithSpaces(fs)
  {
    if |fs| > 1 {
      JoinWithoutNewline(fs[1..]);
    }
  }

  /** The INFO line of a representable POI is one line, splits back into its six fields and matches the pattern. */
  lemma InfoLineRead(p: Poi, f: Formats)
    requires Representable(p, f)
    ensures '\n' !in InfoLine(p, f)
    ensures SplitOnSpace(InfoLine(p, f)) == InfoFields(p, f)
    ensures InfoLineMatches(InfoLine(p, f))
  {
    var fs := InfoFields(p, f);
    NamePlain(p.kind);
    CoordPlain(fs[2], 2);
    CoordPlain(fs[3], 3);
    DatePlain(fs[4]);
    CountPlain(p.confirmations);
    assert Plain(fs[0]);
    assert forall i :: 0 <= i < |fs| ==> Plain(fs[i]);
    JoinWithoutNewline(fs);
    SplitOfJoin(fs);
    ValueOfName(p.kind, Name(p.kind));
    assert InfoTail(fs, 1, 1);
  }

  /**
   * When a coordinate's `.` matched a space the line still matches, but split(" ") then has more
   * than six fields and the one converted as the date, split[4], is not a date at all: a date
   * format that refuses it ends the read with "Invalid date format: " and that field.
   */
  lemma SpacedDotMisplacesDate(line: string, f: Formats)
    requires InfoLineMatches(line) && |SplitOnSpace(line)| > 6
    ensures var fs := SplitOnSpace(line);
      && !DateShape(fs[4])
      && (f.doubles.parse(fs[2]).Some? && f.doubles.parse(fs[3]).Some? && f.dates.parse(fs[4]).None?
          ==> DecodeInfo(line, f) == Failure("Invalid date format: " + fs[4]))
  {
    var fs := SplitOnSpace(line);
    if InfoTail(fs, 2, 1) || InfoTail(fs, 2, 2) {
      if CoordShape(fs[4], 3) {
        CoordNotDate(fs[4], 3);
      } else {
        assert SignedDigits(fs[4], 3);
      }
    } else {
      assert InfoTail(fs, 1, 2);
      DigitsNotDate(fs[4]);
    }
  }

  /** A string of digits does not fit the date pattern, whose fifth character is '-'. */
  lemma DigitsNotDate(s: string)
    requires AllDigits(s)
    ensures !DateShape(s)
  {
    if |s| == |DatePattern| {
      assert IsDigit(s[4]) && DatePattern[4] == '-';
    }
  }

  /** A coordinate field does not fit the date pattern: of its fifth and eighth characters, one is a digit. */
  lemma CoordNotDate(s: string, k: nat)
    requires CoordShape(s, k)
    ensures !DateShape(s)
  {
    if |s| == |DatePattern| && Fits(s[0], DatePattern[0]) {
      assert DatePattern[0] == '#' && s[0] != '-';
      var j :| 1 <= j <= k && j + 1 < |s| && AllDigits(s[..j]) && AnyChar(s[j]) && s[j] != ' ' && AllDigits(s[j + 1..]);
      DigitsAt(s, 0, j);
      assert s[..|s|] == s;
      DigitsAt(s, j + 1, |s|);
      var i := if j == 4 then 7 else 4;
      assert IsDigit(s[i]) && DatePattern[i] == '-';
      assert !Fits(s[i], DatePattern[i]);
    }
  }

  /** decode(encode(p)): the client rebuilds from an INFO line the POI it was written for, without its refutations. */
  lemma InfoRoundTrip(p: Poi, f: Formats)
    requires Sendable(p, f)
    ensures DecodeInfo(InfoLine(p, f), f) == Success(p.(refutations := 0))
  {
    InfoLineRead(p, f);
    ValueOfName(p.kind, Name(p.kind));
    assert f.doubles.parse(f.doubles.show(p.lat)) == Some(p.lat);
    assert f.doubles.parse(f.doubles.show(p.lon)) == Some(p.lon);
    assert f.dates.parse(f.dates.show(p.date)) == Some(p.date);
    IntRoundTrip(p.confirmations);
  }

  /** A line that decodes, in front of the rest: its POI comes first, then what the rest yields. */
  lemma DecodedFirst(line: string, rest: string, n: nat, decode: string -> Result<Poi, string>, p: Poi)
    requires n > 0 && '\n' !in line && decode(line) == Success(p)
    ensures DecodeInfos(line + ("\n" + rest), n, decode) == Prepend([p], DecodeInfos(rest, n - 1, decode))
  {
    LineThen(line, rest);
  }

  /** The first of several lines sent, when it decodes, gives the first value. */
  lemma FirstLineDecoded(lines: seq<string>, more: string, n: nat, decode: string -> Result<Poi, string>, p: Poi)
    requires lines != [] && n > 0 && '\n' !in lines[0] && decode(lines[0]) == Success(p)
    ensures DecodeInfos(Transcript(lines) + more, n, decode) == Prepend([p], DecodeInfos(Transcript(lines[1..]) + more, n - 1, decode))
  {
    TranscriptThen(lines, more);
    DecodedFirst(lines[0], Transcript(lines[1..]) + more, n, decode, p);
  }

  /** Several lines sent, then anything: the first line, its '\n', and the rest. */
  lemma TranscriptThen(lines: seq<string>, more: string)
    requires lines != [] && '\n' !in lines[0]
    ensures Transcript(lines) + more == lines[0] + ("\n" + (Transcript(lines[1..]) + more))
  {
    TerminatedPlain(lines[0]);
    assert Transcript(lines) == (lines[0] + "\n") + Transcript(lines[1..]);
    Associative(lines[0] + "\n", Transcript(lines[1..]), more);
    Associative(lines[0], "\n", Transcript(lines[1..]) + more);
  }

  /** Each line is one line of text and decodes to the value at the same place. */
  predicate EachDecodes(lines: seq<string>, ps: seq<Poi>, decode: string -> Result<Poi, string>)
    decreases |lines|
  {
    |lines| == |ps|
    && (lines != [] ==>
          '\n' !in lines[0] && decode(lines[0]) == Success(ps[0]) && EachDecodes(lines[1..], ps[1..], decode))
  }

  /**
   * Lines that each decode, sent one after the other and followed by anything: the decoder
   * yields their values in order, then reads on from what follows with the count left.
   */
  lemma {:induction false} LinesRoundTrip(lines: seq<string>, ps: seq<Poi>, more: string, n: nat, m: nat, decode: string -> Result<Poi, string>)
    requires EachDecodes(lines, ps, decode) && n == |ps| + m
    ensures DecodeInfos(Transcript(lines) + more, n, decode) == Prepend(ps, DecodeInfos(more, m, decode))
    decreases |lines|, 1
  {
    if lines == [] {
      NoLines(lines, ps, more, n, m, decode);
    } else {
      LinesCons(lines, ps, more, n, m, decode);
    }
  }

  lemma {:induction false} LinesCons(lines: seq<string>, ps: seq<Poi>, more: string, n: nat, m: nat, decode: string -> Result<Poi, string>)
    requires lines != [] && EachDecodes(lines, ps, decode) && n == |ps| + m
    ensures DecodeInfos(Transcript(lines) + more, n, decode) == Prepend(ps, DecodeInfos(more, m, decode))
    decreases |lines|, 0
  {
    var tail, rest := lines[1..], ps[1..];
    LinesRoundTrip(tail, rest, more, n - 1, m, decode);
    LinesStep(lines, ps, tail, rest, more, n, m, decode);
  }

  /** No lines in front: the decoder reads on from what follows. */
  lemma NoLines(lines: seq<string>, ps: seq<Poi>, more: string, n: nat, m: nat, decode: string -> Result<Poi, string>)
    requires lines == [] && EachDecodes(lines, ps, decode) && n == |ps| + m
    ensures DecodeInfos(Transcript(lines) + more, n, decode) == Prepend(ps, DecodeInfos(more, m, decode))
  {
    assert ps == [] && n == m;
    assert Transcript(lines) + more == more;
    PrependNothing(DecodeInfos(more, m, decode));
  }

  /** One more line in front: its value goes in front of what the lines after it give. */
  predicate ConsParts(lines: seq<string>, ps: seq<Poi>, tail: seq<string>, rest: seq<Poi>) {
    lines != [] && |ps| == |lines| && tail == lines[1..] && rest == ps[1..]
  }

  lemma LinesStep(lines: seq<string>, ps: seq<Poi>, tail: seq<string>, rest: seq<Poi>, more: string, n: nat, m: nat, decode: string -> Result<Poi, string>)
    requires ConsParts(lines, ps, tail, rest) && EachDecodes(lines, ps, decode) && n == |ps| + m
    requires DecodeInfos(Transcript(tail) + more, n - 1, decode) == Prepend(rest, DecodeInfos(more, m, decode))
    ensures DecodeInfos(Transcript(lines) + more, n, decode) == Prepend(ps, DecodeInfos(more, m, decode))
  {
    FirstLineDecoded(lines, more, n, decode, ps[0]);
    PrependFirst(ps, DecodeInfos(Transcript(tail) + more, n - 1, decode), DecodeInfos(more, m, decode));
  }

  /** The hypotheses of the round trips can be met: a POI at (1.5, 1.5) whose INFO line reads back. */
  lemma SendableMet()
    ensures Sendable(Report(1.5, 1.5, FixedSpeedCam, 0, 0, 0), SampleFormats())
  {
    var t := "1.5";
    assert AllDigits(t[..1]) && AnyChar(t[1]) && t[1] != ' ' && AllDigits(t[2..]);
    assert CoordShape(t, 2) && CoordShape(t, 3);
    assert DateShape(SampleDate) by {
      forall i | 0 <= i < |SampleDate|
        ensures Fits(SampleDate[i], DatePattern[i])
      {
      }
    }
  }

  /** Reading the INFO lines of a list, whatever follows them, yields its POIs first; the count left is read from what follows. */
  lemma InfoLinesRoundTrip(pois: seq<Poi>, more: string, n: nat, f: Formats)
    requires forall i :: 0 <= i < |pois| ==> Sendable(pois[i], f)
    requires |pois| <= n
    ensures DecodeInfos(Transcript(InfoLines(pois, f)) + more, n, InfoDecoder(f))
      == Prepend(Received(pois), DecodeInfos(more, n - |pois|, InfoDecoder(f)))
  {
    InfoLinesDecode(pois, f);
    LinesRoundTrip(InfoLines(pois, f), Received(pois), more, n, n - |pois|, InfoDecoder(f));
  }

  /** Every INFO line of a list is one line, and decodes to its POI without refutations. */
  lemma {:induction false} InfoLinesDecode(pois: seq<Poi>, f: Formats)
    requires forall i :: 0 <= i < |pois| ==> Sendable(pois[i], f)
    ensures EachDecodes(InfoLines(pois, f), Received(pois), InfoDecoder(f))
    decreases |pois|
  {
    if pois != [] {
      InfoLineRead(pois[0], f);
      InfoRoundTrip(pois[0], f);
      assert InfoLines(pois, f)[1..] == InfoLines(pois[1..], f);
      assert Received(pois)[1..] == Received(pois[1..]);
      InfoLinesDecode(pois[1..], f);
    }
  }

  /** The header line for n POIs: one line that matches "INFOS \\d+", with the count's digits after the space. */
  lemma HeaderShape(n: nat)
    ensures '\n' !in LegacyProtocol.Header(n) && HeaderMatches(LegacyProtocol.Header(n))
    ensures LegacyProtocol.Header(n)[6..] == NatToString(n)
  {
    LegacyProtocol.HeaderWords(n);
    LegacyProtocol.CountIsToken(n);
    assert LegacyProtocol.Header(n) == "INFOS " + NatToString(n);
    assert LegacyProtocol.Header(n)[..6] == "INFOS ";
    assert '\n' !in "INFOS ";
  }

  /** The header line sent for n POIs, once read, leaves the decoder on the n INFO lines after it. */
  lemma HeaderRead(n: nat, rest: string, f: Formats)
    requires n <= MAX_INT as int
    ensures DecodeReply(Terminated(LegacyProtocol.Header(n)) + rest, f) == Decoded(DecodeInfos(rest, n, InfoDecoder(f)))
  {
    HeaderShape(n);
    TerminatedPlain(LegacyProtocol.Header(n));
    assert Terminated(LegacyProtocol.Header(n)) + rest == LegacyProtocol.Header(n) + ("\n" + rest);
    LineThen(LegacyProtocol.Header(n), rest);
    HeaderSplit(LegacyProtocol.Header(n));
    assert IntToString(n as int32) == NatToString(n);
    IntRoundTrip(n as int32);
  }

  /**
   * decode(encode(list)): getPois on the full reply sendInfos writes yields the POIs in list
   * order, without their refutations; lines after the reply are left unread.
   */
  lemma ReplyRoundTrip(pois: seq<Poi>, more: string, f: Formats)
    requires forall i :: 0 <= i < |pois| ==> Sendable(pois[i], f)
    requires |pois| <= MAX_INT as int
    ensures DecodeReply(Transcript(Reply(pois, f)) + more, f) == Success(Received(pois))
  {
    var header := LegacyProtocol.Header(|pois|);
    var infos := Transcript(InfoLines(pois, f));
    LegacyProtocol.TranscriptCons(header, InfoLines(pois, f));
    Associative(Terminated(header), infos, more);
    HeaderRead(|pois|, infos + more, f);
    InfoLinesRoundTrip(pois, more, |pois|, f);
    assert Received(pois) + [] == Received(pois);
  }

  /** A reply cut short after k of its INFO lines fails with "Missing INFO answer". */
  lemma TruncatedReply(pois: seq<Poi>, k: nat, f: Formats)
    requires forall i :: 0 <= i < |pois| ==> Sendable(pois[i], f)
    requires |pois| <= MAX_INT as int && k < |pois|
    ensures DecodeReply(Transcript(Reply(pois, f)[..k + 1]), f) == Failure("Missing INFO answer")
  {
    var header := LegacyProtocol.Header(|pois|);
    assert Reply(pois, f)[..k + 1] == [header] + InfoLines(pois[..k], f);
    LegacyProtocol.TranscriptCons(header, InfoLines(pois[..k], f));
    HeaderRead(|pois|, Transcript(InfoLines(pois[..k], f)), f);
    SentTooFew(pois, k, f);
  }

  /** The first k INFO lines alone, when the header promised all of them, leave a line missing. */
  lemma SentTooFew(pois: seq<Poi>, k: nat, f: Formats)
    requires forall i :: 0 <= i < |pois| ==> Sendable(pois[i], f)
    requires k < |pois|
    ensures DecodeInfos(Transcript(InfoLines(pois[..k], f)), |pois|, InfoDecoder(f)) == Failure("Missing INFO answer")
  {
    var sent := pois[..k];
    assert Transcript(InfoLines(sent, f)) + "" == Transcript(InfoLines(sent, f));
    InfoLinesRoundTrip(sent, "", |pois|, f);
  }

  /**
   * The client's end of the connection (client/ServerCommunication): `channel` is null until
   * the first connect. Whether the server can be reached and whether a write goes through are
   * parameters; what the server answers a GET_INFOS is the text `incoming`.
   */
  class ServerCommunication {
    var channel: Channel?

    constructor ()
      ensures channel == null
    {
      channel := null;
    }

    /** channel != null && channel.isConnected(): a closed channel is no longer connected. */
    predicate Connected()
      reads this, channel
    {
      channel != null && channel.open
    }

    /** connect: a new open channel when the server can be reached; otherwise the error, and the old channel stays. */
    method Connect(reachable: bool) returns (err: Option<string>)
      modifies this`channel
      ensures reachable ==> err == None && channel != null && fresh(channel) && channel.sent == [] && channel.open
      ensures !reachable ==> err == Some("Unable to connect to the server") && channel == old(channel)
    {
      if !reachable {
        return Some("Unable to connect to the server");
      }
      channel := new Channel();
      err := None;
    }

    /**
     * The part submit, notSeen and getPois share: connect unless connected, then write the
     * command; a write that fails closes the channel and reports `failure`.
     */
    method Send(cmd: string, failure: string, reachable: bool, writable: bool) returns (err: Option<string>)
      modifies this`channel, channel
      ensures !old(Connected()) && !reachable ==>
        err == Some("Unable to connect to the server") && channel == old(channel)
        && (channel != null ==> channel.sent == old(channel.sent) && channel.open == old(channel.open))
      ensures old(Connected()) || reachable ==>
        channel != null && (if old(Connected()) then channel == old(channel) else fresh(channel))
        && channel.sent == (if old(Connected()) then old(channel.sent) else []) + (if writable then cmd else [])
        && channel.open == writable
        && err == (if writable then None else Some(failure))
    {
      if channel == null || !channel.open {
        err := Connect(reachable);
        if err.Some? {
          return;
        }
      }
      if !writable {
        channel.Close();
        return Some(failure);
      }
      channel.Write(cmd);
      err := None;
    }

    /** submit: the SUBMIT command goes out on a connected channel. */
    method Submit(p: Poi, f: Formats, reachable: bool, writable: bool) returns (err: Option<string>)
      modifies this`channel, channel
      ensures !old(Connected()) && !reachable ==>
        err == Some("Unable to connect to the server") && channel == old(channel)
        && (channel != null ==> channel.sent == old(channel.sent) && channel.open == old(channel.open))
      ensures old(Connected()) || reachable ==>
        channel != null && (if old(Connected()) then channel == old(channel) else fresh(channel))
        && channel.sent == (if old(Connected()) then old(channel.sent) else []) + (if writable then SubmitCommand(p, f) else [])
        && channel.open == writable
        && err == (if writable then None else Some("Unable to submit the POI to the server"))
    {
      err := Send(SubmitCommand(p, f), "Unable to submit the POI to the server", reachable, writable);
    }

    /** notSeen: the NOT_SEEN command goes out on a connected channel. */
    method NotSeen(p: Poi, f: Formats, reachable: bool, writable: bool) returns (err: Option<string>)
      modifies this`channel, channel
      ensures !old(Connected()) && !reachable ==>
        err == Some("Unable to connect to the server") && channel == old(channel)
        && (channel != null ==> channel.sent == old(channel.sent) && channel.open == old(channel.open))
      ensures old(Connected()) || reachable ==>
        channel != null && (if old(Connected()) then channel == old(channel) else fresh(channel))
        && channel.sent == (if old(Connected()) then old(channel.sent) else []) + (if writable then NotSeenCommand(p, f) else [])
        && channel.open == writable
        && err == (if writable then None else Some("Unable to report the POI as not seen to the server"))
    {
      err := Send(NotSeenCommand(p, f), "Unable to report the POI as not seen to the server", reachable, writable);
    }

    /**
     * getPois: GET_INFOS goes out, then the reply is decoded; every failure after the write
     * closes the channel, and a successful read leaves it open.
     */
    method GetPois(lat: real, lon: real, f: Formats, reachable: bool, writable: bool, incoming: string)
      returns (r: Result<seq<Poi>, string>)
      modifies this`channel, channel
      ensures !old(Connected()) && !reachable ==>
        r == Failure("Unable to connect to the server") && channel == old(channel)
        && (channel != null ==> channel.sent == old(channel.sent) && channel.open == old(channel.open))
      ensures old(Connected()) || reachable ==>
        channel != null && (if old(Connected()) then channel == old(channel) else fresh(channel))
        && channel.sent == (if old(Connected()) then old(channel.sent) else []) + (if writable then GetInfosCommand(lat, lon, f) else [])
        && r == (if writable then DecodeReply(incoming, f) else Failure("Unable to request POIs from the server"))
        && channel.open == r.Success?
    {
      var err := Send(GetInfosCommand(lat, lon, f), "Unable to request POIs from the server", reachable, writable);
      if err.Some? {
        return Failure(err.value);
      }
      r := ReadReply(incoming, f);
      if r.Failure? {
        channel.Close();
      }
    }

    /** close: closes the channel; with no channel ever opened it is an error. */
    method Close() returns (err: Option<string>)
      modifies channel
      ensures old(channel) == null ==> err == Some("Channel already closed")
      ensures channel != null ==> err == None && !channel.open && channel.sent == old(channel.sent)
    {
      if channel == null {
        return Some("Channel already closed");
      }
      channel.Close();
      err := None;
    }
  }
}
