/**
 * The server's connection handling (server/communication/ServerCommunication): serveClient reads
 * the client's lines in order and hands each to the ClientCommandHandler named by its first word,
 * until the input ends, a blank line arrives, a line is refused or shutdown is requested; run
 * accepts connections one after the other and serves each.
 *
 * The connection's input is the sequence of lines the client sent; what the server writes back is
 * the text sent on its Channel.
 */
module Dispatcher {
  import opened Wrappers
  import opened Text
  import opened EventTypes
  import opened SortedStores
  import opened LegacyConsensus
  import opened CommandHandler
  import opened NetUtils
  import opened Lists
  import CurrentProtocol

  /** Why a session ended. */
  datatype SessionEnd =
    | InputExhausted
    | BlankLine
    | Refused(message: string)
    | ShutdownRequested

  /** The effect of one line: the session stops, goes on with a new store and a reply, or fails with a message. */
  datatype Step =
    | Stop
    | Continue(state: SetState<EventType>, reply: string)
    | Fail(message: string)

  /** A session as a value: the store after it, the text sent back, the lines handled and why it ended. */
  datatype Session = Session(state: SetState<EventType>, reply: string, handled: nat, end: SessionEnd)

  /**
   * The message the session ends with when a handler fails: the handler's IOException message,
   * or "Invalid command: " and the line when an IllegalArgumentException escapes it.
   */
  function Message(e: HandlerError, line: string): string {
    match e
    case IoError(m) => m
    case IllegalRange => "Invalid command: " + line
  }

  /** One line: a blank line stops; otherwise its first word names the handler. */
  function LineStep(line: string, st: Store, f: Formats, now: int): Step {
    if !HasNext(line) then Stop
    else
      var (word, rest) := NextToken(line);
      CommandStep(word, rest, line, st, f, now)
  }

  /** A line whose first word is `word`, followed by `rest`: the handler that word names, and an unknown word is refused. */
  function CommandStep(word: string, rest: string, line: string, st: Store, f: Formats, now: int): Step {
    if word == "SUBMIT" then
      match SubmitSpec(st, rest, f, now)
      case Failure(e) => Fail(Message(e, line))
      case Success((state, _)) => Continue(state, "")
    else if word == "NOT_SEEN" then
      match NotSeenHandlerSpec(st, rest, f, now)
      case Failure(e) => Fail(Message(e, line))
      case Success((state, _)) => Continue(state, "")
    else if word == "GET_INFO" then
      match GetInfoSpec(st, rest, f, now)
      case Failure(e) => Fail(Message(e, line))
      case Success((reply, _)) => Continue(st.state, reply)
    else Fail("Invalid command: " + line)
  }

  /** The lines handled before `s`, and their replies, put in front of it. */
  function After(reply: string, handled: nat, s: Session): Session {
    s.(reply := reply + s.reply, handled := handled + s.handled)
  }

  /** serveClient's loop for any handling of single lines: each line in turn until one stops or fails. */
  function ServeBy(lines: seq<string>, st: Store, step: (string, Store) -> Step): (r: Session)
    ensures r.handled <= |lines|
    ensures r.end == InputExhausted <==> r.handled == |lines|
    ensures r.end != ShutdownRequested
    decreases |lines|
  {
    if lines == [] then Session(st.state, "", 0, InputExhausted)
    else
      match step(lines[0], st)
      case Stop => Session(st.state, "", 0, BlankLine)
      case Fail(m) => Session(st.state, "", 0, Refused(m))
      case Continue(state, reply) => After(reply, 1, ServeBy(lines[1..], st.(state := state), step))
  }

  /** The handlers ClientCommandHandler dispatches to. */
  function Handlers(f: Formats, now: int): (string, Store) -> Step {
    (line, st) => LineStep(line, st, f, now)
  }

  /** serveClient on the lines `lines` and the store `st`. */
  function Serve(lines: seq<string>, st: Store, f: Formats, now: int): Session {
    ServeBy(lines, st, Handlers(f, now))
  }

  /** How a line was dealt with, as the loop sees it. */
  datatype Verdict = Handled | Blank | Rejected(message: string)

  /** What happened to the connections `run` accepted: the replies sent on each, in order. */
  datatype Accept = Connection(lines: seq<string>) | AcceptFailed | ListenerClosed

  /** The run loop as a value: the store after it, the text sent to each client served, and whether it ended on a closed listener. */
  datatype Run = Run(state: SetState<EventType>, replies: seq<string>, closed: bool)

  /**
   * run on a sequence of accept outcomes: a closed listening channel ends the loop, a failed
   * accept is skipped, an accepted connection is served on the store the previous ones left.
   */
  function RunSpec(attempts: seq<Accept>, st: Store, f: Formats, now: int): (r: Run)
    ensures |r.replies| <= |attempts|
    decreases |attempts|
  {
    if attempts == [] then Run(st.state, [], false)
    else
      match attempts[0]
      case ListenerClosed => Run(st.state, [], true)
      case AcceptFailed => RunSpec(attempts[1..], st, f, now)
      case Connection(lines) =>
        var s := Serve(lines, st, f, now);
        var rest := RunSpec(attempts[1..], st.(state := s.state), f, now);
        rest.(replies := [s.reply] + rest.replies)
  }

  /** A ServerCommunication worker: the store it serves and its shutdown flag. */
  class ServerCommunication {
    const poiList: ConsensusPoiSet<EventType>
    var requestShutdown: bool
    /** The connection being served, once one was accepted. */
    var sc: Channel?

    constructor (poiList: ConsensusPoiSet<EventType>)
      ensures this.poiList == poiList && !requestShutdown && sc == null
    {
      this.poiList := poiList;
      requestShutdown := false;
      sc := null;
    }

    /** shutdown: the flag is set and the connection being served, if any, is closed. */
    method Shutdown()
      modifies this`requestShutdown, sc
      ensures requestShutdown && sc == old(sc)
      ensures sc != null ==> !sc.open && sc.sent == old(sc.sent)
    {
      requestShutdown := true;
      if sc != null {
        sc.Close();
      }
    }

    /** The body of serveClient's loop for one line. */
    method DispatchLine(channel: Channel, line: string, f: Formats, now: int) returns (v: Verdict)
      modifies channel`sent, poiList.store
      ensures var spec := LineStep(line, old(StoreOf(poiList)), f, now);
        match spec
        case Stop => v == Blank && poiList.store.State() == old(poiList.store.State()) && channel.sent == old(channel.sent)
        case Fail(m) => v == Rejected(m) && poiList.store.State() == old(poiList.store.State()) && channel.sent == old(channel.sent)
        case Continue(state, reply) => v == Handled && poiList.store.State() == state && channel.sent == old(channel.sent) + reply
    {
      var scanner := new Scanner(line);
      if !scanner.HasNextToken() {
        return Blank;
      }
      var word := scanner.Next();
      v := DispatchCommand(channel, scanner, word.value, line, f, now);
    }

    /** ClientCommandHandler's choice of handler by the line's first word, and what the loop makes of its outcome. */
    method DispatchCommand(channel: Channel, scanner: Scanner, word: string, line: string, f: Formats, now: int) returns (v: Verdict)
      modifies channel`sent, scanner, poiList.store
      ensures var spec := CommandStep(word, old(scanner.input), line, old(StoreOf(poiList)), f, now);
        match spec
        case Stop => false
        case Fail(m) => v == Rejected(m) && poiList.store.State() == old(poiList.store.State()) && channel.sent == old(channel.sent)
        case Continue(state, reply) => v == Handled && poiList.store.State() == state && channel.sent == old(channel.sent) + reply
    {
      var err: Option<HandlerError>;
      if word == "SUBMIT" {
        err := HandleSubmit(scanner, poiList, f, now);
      } else if word == "NOT_SEEN" {
        err := HandleNotSeen(scanner, poiList, f, now);
      } else if word == "GET_INFO" {
        err := HandleGetInfo(channel, scanner, poiList, f, now);
      } else {
        return Rejected("Invalid command: " + line);
      }
      if err.Some? {
        return Rejected(Message(err.value, line));
      }
      assert channel.sent == old(channel.sent) + "" || word == "GET_INFO";
      return Handled;
    }

    /**
     * serveClient: the lines in arrival order while no shutdown is requested; the session's
     * end, and the connection closed on every way out.
     */
    method ServeClient(channel: Channel, input: seq<string>, f: Formats, now: int) returns (end: SessionEnd)
      modifies channel, poiList.store
      ensures !channel.open
      ensures old(requestShutdown) ==>
        end == ShutdownRequested && poiList.store.State() == old(poiList.store.State()) && channel.sent == old(channel.sent)
      ensures !old(requestShutdown) ==>
        var spec := Serve(input, old(StoreOf(poiList)), f, now);
        end == spec.end && poiList.store.State() == spec.state && channel.sent == old(channel.sent) + spec.reply
    {
      if requestShutdown {
        channel.Close();
        return ShutdownRequested;
      }
      end := ServeLines(channel, input, f, now);
      channel.Close();
    }

    /**
     * run: accepts connections until shutdown is requested or the listening channel is closed;
     * each accepted connection becomes the current one, is served, and is closed afterwards.
     * The result is the text sent on each connection served, in order.
     */
    method Run(attempts: seq<Accept>, f: Formats, now: int) returns (replies: seq<string>, closed: bool)
      modifies this`sc, poiList.store
      ensures old(requestShutdown) ==> replies == [] && !closed && poiList.store.State() == old(poiList.store.State())
      ensures !old(requestShutdown) ==>
        var spec := RunSpec(attempts, old(StoreOf(poiList)), f, now);
        replies == spec.replies && closed == spec.closed && poiList.store.State() == spec.state
    {
      replies := [];
      closed := false;
      if requestShutdown {
        return;
      }
      ghost var st0 := StoreOf(poiList);
      ghost var whole := RunSpec(attempts, st0, f, now);
      var rest := attempts;
      while rest != [] && !requestShutdown
        invariant !requestShutdown
        invariant StoreOf(poiList) == st0.(state := poiList.store.State())
        invariant RunAfter(replies, RunSpec(rest, StoreOf(poiList), f, now)) == whole
      {
        ghost var st := StoreOf(poiList);
        match rest[0]
        case ListenerClosed =>
          RunEnds(rest, st, f, now, replies, whole);
          closed := true;
          return;
        case AcceptFailed =>
          rest := rest[1..];
        case Connection(lines) =>
          var reply := ServeConnection(lines, f, now);
          RunStep(rest, st, f, now, replies, whole);
          replies := replies + [reply];
          rest := rest[1..];
      }
      RunEnds(rest, StoreOf(poiList), f, now, replies, whole);
    }

    /** One accepted connection: it becomes the current one, is served, and is closed in the end. */
    method ServeConnection(lines: seq<string>, f: Formats, now: int) returns (reply: string)
      requires !requestShutdown
      modifies this`sc, poiList.store
      ensures sc != null && fresh(sc) && !sc.open && reply == sc.sent
      ensures var spec := Serve(lines, old(StoreOf(poiList)), f, now);
        reply == spec.reply && poiList.store.State() == spec.state
    {
      var channel := new Channel();
      sc := channel;
      var _ := ServeClient(channel, lines, f, now);
      channel.Close();
      reply := channel.sent;
    }

    /** serveClient's loop, once the session has started: one line at a time until one ends it. */
    method ServeLines(channel: Channel, input: seq<string>, f: Formats, now: int) returns (end: SessionEnd)
      modifies channel`sent, poiList.store
      ensures var spec := Serve(input, old(StoreOf(poiList)), f, now);
        end == spec.end && poiList.store.State() == spec.state && channel.sent == old(channel.sent) + spec.reply
    {
      ghost var st0 := StoreOf(poiList);
      ghost var whole := Serve(input, st0, f, now);
      ghost var replied := "";
      var rest := input;
      ghost var done: nat := 0;
      end := InputExhausted;
      while rest != []
        invariant channel.sent == old(channel.sent) + replied
        invariant After(replied, done, Serve(rest, StoreOf(poiList), f, now)) == whole
      {
        var v, reply := ServeLine(channel, rest, f, now, replied, done, whole);
        Associative(old(channel.sent), replied, reply);
        replied := replied + reply;
        if !v.Handled? {
          end := if v.Blank? then BlankLine else Refused(v.message);
          break;
        }
        done := done + 1;
        rest := rest[1..];
      }
    }

    /** One turn of serveClient's loop: the first of the remaining lines, handled against the session's progress so far. */
    method ServeLine(channel: Channel, rest: seq<string>, f: Formats, now: int, ghost replied: string, ghost done: nat, ghost whole: Session)
      returns (v: Verdict, ghost reply: string)
      requires rest != []
      requires After(replied, done, Serve(rest, StoreOf(poiList), f, now)) == whole
      modifies channel`sent, poiList.store
      ensures channel.sent == old(channel.sent) + reply
      ensures v.Handled? ==> After(replied + reply, done + 1, Serve(rest[1..], StoreOf(poiList), f, now)) == whole
      ensures !v.Handled? ==>
        reply == "" && whole.state == poiList.store.State() && whole.reply == replied
        && whole.end == (if v.Blank? then BlankLine else Refused(v.message))
    {
      ghost var st := StoreOf(poiList);
      ghost var sentBefore := channel.sent;
      v := DispatchLine(channel, rest[0], f, now);
      ghost var step := Handlers(f, now);
      if !v.Handled? {
        ServeEnds(rest, st, step, replied, done, whole);
        reply := "";
      } else {
        ServeStep(rest, st, step, replied, done, whole);
        reply := channel.sent[|sentBefore|..];
      }
    }
  }

  /** The run loop's progress: the replies sent so far, in front of what the remaining attempts produce. */
  function RunAfter(replies: seq<string>, r: Run): Run {
    r.(replies := replies + r.replies)
  }

  /** A closed listening channel, or the end of the attempts, ends run on the store and the replies so far. */
  lemma RunEnds(rest: seq<Accept>, st: Store, f: Formats, now: int, replies: seq<string>, whole: Run)
    requires rest == [] || rest[0].ListenerClosed?
    requires RunAfter(replies, RunSpec(rest, st, f, now)) == whole
    ensures whole == Run(st.state, replies, rest != [])
  {
    assert replies + [] == replies;
  }

  /** After a served connection, run continues from the store the session left. */
  lemma RunStep(rest: seq<Accept>, st: Store, f: Formats, now: int, replies: seq<string>, whole: Run)
    requires rest != [] && rest[0].Connection?
    requires RunAfter(replies, RunSpec(rest, st, f, now)) == whole
    ensures var s := Serve(rest[0].lines, st, f, now);
      RunAfter(replies + [s.reply], RunSpec(rest[1..], st.(state := s.state), f, now)) == whole
  {
    var s := Serve(rest[0].lines, st, f, now);
    var later := RunSpec(rest[1..], st.(state := s.state), f, now);
    assert replies + ([s.reply] + later.replies) == (replies + [s.reply]) + later.replies;
  }

  /** A blank or refused line ends the session on the store and the replies so far. */
  lemma ServeEnds(rest: seq<string>, st: Store, step: (string, Store) -> Step, replied: string, done: nat, whole: Session)
    requires rest != [] && !step(rest[0], st).Continue?
    requires After(replied, done, ServeBy(rest, st, step)) == whole
    ensures whole.state == st.state && whole.reply == replied
    ensures whole.end == match step(rest[0], st)
      case Stop => BlankLine
      case Fail(m) => Refused(m)
      case Continue(_, _) => InputExhausted
  {
    assert replied + "" == replied;
  }

  /** After a handled line, the session's remainder continues from the store that line left. */
  lemma ServeStep(rest: seq<string>, st: Store, step: (string, Store) -> Step, replied: string, done: nat, whole: Session)
    requires rest != [] && step(rest[0], st).Continue?
    requires After(replied, done, ServeBy(rest, st, step)) == whole
    ensures var next := step(rest[0], st);
      After(replied + next.reply, done + 1, ServeBy(rest[1..], st.(state := next.state), step)) == whole
  {
    var next := step(rest[0], st);
    var later := ServeBy(rest[1..], st.(state := next.state), step);
    assert replied + (next.reply + later.reply) == (replied + next.reply) + later.reply;
  }

  /** Once a session has ended on a blank or refused line, the lines the client sent after it change nothing. */
  lemma {:induction false} LinesAfterEndIgnored(lines: seq<string>, more: seq<string>, st: Store, step: (string, Store) -> Step)
    requires ServeBy(lines, st, step).end != InputExhausted
    ensures ServeBy(lines + more, st, step) == ServeBy(lines, st, step)
    decreases |lines|
  {
    assert (lines + more)[0] == lines[0];
    var next := step(lines[0], st);
    if next.Continue? {
      assert (lines + more)[1..] == lines[1..] + more;
      LinesAfterEndIgnored(lines[1..], more, st.(state := next.state), step);
    }
  }

  /**
   * Lines are handled in order: a session over `a + b` in which every line of `a` was handled is
   * the session over `a`, followed by the session over `b` on the store `a` left.
   */
  lemma {:induction false} ServeInOrder(a: seq<string>, b: seq<string>, st: Store, step: (string, Store) -> Step)
    requires ServeBy(a, st, step).end == InputExhausted
    ensures var first := ServeBy(a, st, step);
      ServeBy(a + b, st, step) == After(first.reply, |a|, ServeBy(b, st.(state := first.state), step))
    decreases |a|
  {
    if a == [] {
      assert a + b == b;
      assert "" + ServeBy(b, st, step).reply == ServeBy(b, st, step).reply;
    } else {
      assert (a + b)[0] == a[0];
      assert (a + b)[1..] == a[1..] + b;
      var next := step(a[0], st);
      var st1 := st.(state := next.state);
      ServeInOrder(a[1..], b, st1, step);
      var mid := ServeBy(a[1..], st1, step);
      var last := ServeBy(b, st1.(state := mid.state), step);
      assert next.reply + (mid.reply + last.reply) == (next.reply + mid.reply) + last.reply;
    }
  }

  /** A line whose first word names no handler ends the session at once, refused, with the store as it was. */
  lemma UnknownCommandRefused(line: string, more: seq<string>, st: Store, f: Formats, now: int)
    requires HasNext(line)
    requires NextToken(line).0 != "SUBMIT" && NextToken(line).0 != "NOT_SEEN" && NextToken(line).0 != "GET_INFO"
    ensures Serve([line] + more, st, f, now) == Session(st.state, "", 0, Refused("Invalid command: " + line))
  {
    assert ([line] + more)[0] == line;
  }

  /**
   * The request the current client sends for the POIs around it, GET_INFOS, is not a command
   * the legacy handler enum knows (it knows GET_INFO): a session served by the legacy handlers
   * ends on it with "Invalid command", no reply and the store unchanged.
   */
  lemma GetInfosRefused(lat: real, lon: real, client: Formats, more: seq<string>, st: Store, f: Formats, now: int)
    ensures var line := JoinWithSpaces(["GET_INFOS", client.doubles.show(lat), client.doubles.show(lon)]);
      CurrentProtocol.GetInfosCommand(lat, lon, client) == line + "\n"
      && Serve([line] + more, st, f, now) == Session(st.state, "", 0, Refused("Invalid command: " + line))
  {
    var coords := [client.doubles.show(lat), client.doubles.show(lon)];
    var line := JoinWithSpaces(["GET_INFOS", client.doubles.show(lat), client.doubles.show(lon)]);
    assert ["GET_INFOS", client.doubles.show(lat), client.doubles.show(lon)] == ["GET_INFOS"] + coords;
    JoinCons("GET_INFOS", coords);
    assert IsToken("GET_INFOS");
    TokenThen("GET_INFOS", " " + JoinWithSpaces(coords));
    UnknownCommandRefused(line, more, st, f, now);
  }

  /** A line with no word ends the session without touching the store or answering. */
  lemma BlankLineEnds(line: string, more: seq<string>, st: Store, f: Formats, now: int)
    requires forall i :: 0 <= i < |line| ==> IsWhitespace(line[i])
    ensures Serve([line] + more, st, f, now) == Session(st.state, "", 0, BlankLine)
  {
    assert ([line] + more)[0] == line;
    AllWhitespaceSkipped(line);
  }

  lemma {:induction false} AllWhitespaceSkipped(s: string)
    requires forall i :: 0 <= i < |s| ==> IsWhitespace(s[i])
    ensures SkipWhitespace(s) == []
    decreases |s|
  {
    if s != [] {
      AllWhitespaceSkipped(s[1..]);
    }
  }

  /** A closed listening channel ends run: no connection attempted after it is served. */
  lemma {:induction false} RunEndsAtClose(before: seq<Accept>, after: seq<Accept>, st: Store, f: Formats, now: int)
    ensures RunSpec(before + [ListenerClosed] + after, st, f, now) == RunSpec(before + [ListenerClosed], st, f, now)
    ensures RunSpec(before + [ListenerClosed] + after, st, f, now).closed
    decreases |before|
  {
    var xs := before + [ListenerClosed] + after;
    var ys := before + [ListenerClosed];
    if before == [] {
      assert xs[0] == ListenerClosed && ys[0] == ListenerClosed;
    } else {
      assert xs[0] == before[0] && ys[0] == before[0];
      assert xs[1..] == before[1..] + [ListenerClosed] + after;
      assert ys[1..] == before[1..] + [ListenerClosed];
      match before[0]
      case ListenerClosed =>
      case AcceptFailed =>
        RunEndsAtClose(before[1..], after, st, f, now);
      case Connection(lines) =>
        RunEndsAtClose(before[1..], after, st.(state := Serve(lines, st, f, now).state), f, now);
    }
  }
}
