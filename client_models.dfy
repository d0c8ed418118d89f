/**
 * The client's POI models. MapPoiModel (and the legacy MapPOIModel, the same class over the
 * legacy POI type) holds the POIs shown on the map; ServerPoiModel also keeps a queue of tasks
 * a worker runs against the server, one of which brings the local POIs in step with a reply.
 */
module ClientModels {
  import opened Wrappers
  import opened Lists
  import opened Listeners
  import opened Reports
  import opened PoiTypes
  import opened ModelSync

  /** removePoi after addPoi gives the same POIs back, and the very same list when the POI was new. */
  lemma RemoveUndoesAdd<P>(s: seq<P>, p: P)
    ensures multiset(RemoveFirst(s + [p], p)) == multiset(s)
    ensures p !in s ==> RemoveFirst(s + [p], p) == s
  {
    assert multiset(RemoveFirst(s + [p], p)) == multiset(s) by {
      assert multiset(s + [p]) == multiset(s) + multiset{p};
      AddThenTake(multiset(s), p);
    }
    if p !in s {
      RemoveNewLast(s, p);
    }
  }

  /** A POI that was not held, added and then removed, leaves the list as it was. */
  lemma RemoveNewLast<P>(s: seq<P>, p: P)
    requires p !in s
    ensures RemoveFirst(s + [p], p) == s
  {
    var t := s + [p];
    assert t == s + ([p] + []) && s + [] == s;
    RemoveFirstAfter(s, p, []);
  }

  /**
   * A list of POIs and its listeners. addPoi appends without any check and removePoi drops the
   * first equal POI; each fires one event to the listeners registered at the time.
   */
  class MapPoiModel<P(==)> {
    var pois: seq<P>
    var notices: seq<Notice<PoiEvent<P>>>
    const listeners: Registry

    constructor ()
      ensures pois == [] && notices == []
      ensures fresh(listeners) && listeners.members == []
    {
      pois := [];
      notices := [];
      listeners := new Registry();
    }

    /** getAllPoi hands out the collection itself; the updaters read and change it through the model. */
    method GetAllPoi() returns (all: seq<P>)
      ensures all == pois
    {
      all := pois;
    }

    /** addPoi: a null POI is rejected; otherwise it is appended, even when an equal one is held, and an added event goes out. */
    method AddPoi(poi: Option<P>) returns (accepted: bool)
      modifies this`pois, this`notices
      ensures accepted <==> poi.Some?
      ensures accepted ==> pois == old(pois) + [poi.value] && notices == old(notices) + [Notice(PoiAdded(poi.value), listeners.members)]
      ensures !accepted ==> pois == old(pois) && notices == old(notices)
    {
      if poi.None? {
        return false;
      }
      pois := pois + [poi.value];
      notices := notices + [Notice(PoiAdded(poi.value), listeners.members)];
      accepted := true;
    }

    /** removePoi: a null POI is rejected; otherwise the first equal POI goes, and a removed event goes out whether or not one was held. */
    method RemovePoi(poi: Option<P>) returns (accepted: bool)
      modifies this`pois, this`notices
      ensures accepted <==> poi.Some?
      ensures accepted ==> pois == RemoveFirst(old(pois), poi.value) && notices == old(notices) + [Notice(PoiRemoved(poi.value), listeners.members)]
      ensures !accepted ==> pois == old(pois) && notices == old(notices)
    {
      if poi.None? {
        return false;
      }
      pois := RemoveFirst(pois, poi.value);
      notices := notices + [Notice(PoiRemoved(poi.value), listeners.members)];
      accepted := true;
    }
  }

  // ServerPoiModel.

  /** The tasks the worker runs: SubmitTask, NotSeenTask and UpdateTask around a map position. */
  datatype Task = SubmitTask(poi: Poi) | NotSeenTask(poi: Poi) | UpdateTask(lat: real, lon: real)

  /**
   * How the server call of a task ends: it returns (with the POIs, for getPois), it throws an
   * IOException with a message, or the address cannot be resolved.
   */
  datatype Answer = Answered(pois: seq<Poi>) | IoFailure(message: string) | Unresolved

  /** The events of the communication listeners. */
  datatype CommunicationEvent =
    | PoiSubmitted(poi: Poi)
    | UnableToSubmitPoi(poi: Poi, error: string)
    | PoiDeclaredAsNotSeen(poi: Poi)
    | UnableToDeclarePoiAsNotSeen(poi: Poi, error: string)
    | PoisUpdated
    | UnableToUpdatePois(error: string)

  const UNRESOLVED := "Unable to resolve the server address"

  /** What the tasks change: the local POIs, the POI listeners' events and the communication listeners' events. */
  datatype ModelState = ModelState(pois: seq<Poi>, notices: seq<Notice<PoiEvent<Poi>>>, reports: seq<Notice<CommunicationEvent>>)

  /** SubmitTask and NotSeenTask catch only IOException: an unresolved address escapes run() and ends the worker. */
  predicate Escapes(t: Task, a: Answer) {
    !t.UpdateTask? && a.Unresolved?
  }

  /**
   * One task run: the model state after it, and whether its exception escapes. `poiTo` and
   * `commTo` are the POI and communication listeners registered at the time.
   */
  function Execute(s: ModelState, t: Task, a: Answer, poiTo: seq<Listener>, commTo: seq<Listener>): (r: (ModelState, bool))
    ensures r.1 <==> Escapes(t, a)
    ensures !t.UpdateTask? ==> r.0.pois == s.pois && r.0.notices == s.notices
    ensures t.UpdateTask? && a.IoFailure? ==> r.0 == s.(reports := s.reports + [Notice(UnableToUpdatePois(a.message), commTo)])
    ensures t.UpdateTask? && a.Unresolved? ==> r.0 == s.(reports := s.reports + [Notice(UnableToUpdatePois(UNRESOLVED), commTo)])
    ensures r.1 ==> r.0 == s
  {
    match t
    case SubmitTask(p) =>
      (match a
       case Answered(_) => (s.(reports := s.reports + [Notice(PoiSubmitted(p), commTo)]), false)
       case IoFailure(m) => (s.(reports := s.reports + [Notice(UnableToSubmitPoi(p, m), commTo)]), false)
       case Unresolved => (s, true))
    case NotSeenTask(p) =>
      (match a
       case Answered(_) => (s.(reports := s.reports + [Notice(PoiDeclaredAsNotSeen(p), commTo)]), false)
       case IoFailure(m) => (s.(reports := s.reports + [Notice(UnableToDeclarePoiAsNotSeen(p, m), commTo)]), false)
       case Unresolved => (s, true))
    case UpdateTask(_, _) =>
      (match a
       case Answered(fetched) =>
         (ModelState(RemoveThenAdd(s.pois, fetched), s.notices + Deliver(SyncEvents(s.pois, fetched), poiTo),
                     s.reports + [Notice(PoisUpdated, commTo)]), false)
       case IoFailure(m) => (s.(reports := s.reports + [Notice(UnableToUpdatePois(m), commTo)]), false)
       case Unresolved => (s.(reports := s.reports + [Notice(UnableToUpdatePois(UNRESOLVED), commTo)]), false))
  }

  /** The tasks run one after the other, in the order given, each by `step`. */
  function Replay(s: ModelState, ts: seq<Task>, answers: seq<Answer>, step: (ModelState, Task, Answer) -> ModelState): ModelState
    requires |ts| == |answers|
    decreases |ts|
  {
    if ts == [] then s
    else step(Replay(s, ts[..|ts| - 1], answers[..|ts| - 1], step), ts[|ts| - 1], answers[|ts| - 1])
  }

  /** One more task at the end of the queue runs after all the others. */
  lemma ReplaySnoc(s: ModelState, ts: seq<Task>, answers: seq<Answer>, t: Task, a: Answer, step: (ModelState, Task, Answer) -> ModelState)
    requires |ts| == |answers|
    ensures Replay(s, ts + [t], answers + [a], step) == step(Replay(s, ts, answers, step), t, a)
  {
    assert (ts + [t])[..|ts|] == ts;
    assert (answers + [a])[..|ts|] == answers;
  }

  /** The state after the next queued task is the replay of one more task. */
  lemma ReplayNext(s: ModelState, ts: seq<Task>, answers: seq<Answer>, ran: nat, before: ModelState, after: ModelState, step: (ModelState, Task, Answer) -> ModelState)
    requires ran < |ts| && ran < |answers|
    requires before == Replay(s, ts[..ran], answers[..ran], step) && after == step(before, ts[ran], answers[ran])
    ensures after == Replay(s, ts[..ran + 1], answers[..ran + 1], step)
  {
    ReplaySnoc(s, ts[..ran], answers[..ran], ts[ran], answers[ran], step);
    assert ts[..ran + 1] == ts[..ran] + [ts[ran]];
    assert answers[..ran + 1] == answers[..ran] + [answers[ran]];
  }

  /** The tasks before `n` and the one at `n` all ran without an escaping exception. */
  lemma CalmExtend(ts: seq<Task>, answers: seq<Answer>, n: nat)
    requires n < |ts| && n < |answers| && !Escapes(ts[n], answers[n])
    requires forall j :: 0 <= j < n ==> !Escapes(ts[j], answers[j])
    ensures forall j :: 0 <= j < n + 1 ==> !Escapes(ts[j], answers[j])
  {
  }

  /** One task run is one step of the worker, and its exception escapes exactly as Escapes says. */
  lemma WorkerStep(before: ModelState, after: ModelState, escaped: bool, t: Task, a: Answer, poiTo: seq<Listener>, commTo: seq<Listener>)
    requires (after, escaped) == Execute(before, t, a, poiTo, commTo)
    ensures after == Worker(poiTo, commTo)(before, t, a) && escaped == Escapes(t, a)
  {
  }

  /** The worker's step with the listeners registered at the time. */
  function Worker(poiTo: seq<Listener>, commTo: seq<Listener>): (ModelState, Task, Answer) -> ModelState {
    (s, t, a) => Execute(s, t, a, poiTo, commTo).0
  }

  /**
   * A successful UpdateTask leaves exactly the fetched POIs, fires removed events and then added
   * events and never an updated one, and tells the communication listeners once.
   */
  lemma UpdateTaskSyncs(s: ModelState, lat: real, lon: real, fetched: seq<Poi>, poiTo: seq<Listener>, commTo: seq<Listener>, x: Poi)
    ensures var (r, escaped) := Execute(s, UpdateTask(lat, lon), Answered(fetched), poiTo, commTo);
      !escaped
      && (x in r.pois <==> x in fetched)
      && r.reports == s.reports + [Notice(PoisUpdated, commTo)]
      && r.notices[..|s.notices|] == s.notices
      && forall i :: |s.notices| <= i < |r.notices| ==> !r.notices[i].event.PoiUpdated? && r.notices[i].to == poiTo
  {
    RemoveThenAddMembers(s.pois, fetched, x);
  }

  /** updatePoi's change to the list: the first equal POI takes the counters of `newPoi`. */
  function WithCounters(poi: Poi, newPoi: Poi): (r: Poi)
    ensures r.lat == poi.lat && r.lon == poi.lon && r.kind == poi.kind && r.date == poi.date
    ensures r.confirmations == newPoi.confirmations && r.refutations == newPoi.refutations
  {
    poi.(confirmations := newPoi.confirmations, refutations := newPoi.refutations)
  }

  /** updatePoi keeps every POI where it was with its place, type and date; only the counters of the POI updated change. */
  lemma UpdateKeepsPlaces(s: seq<Poi>, poi: Poi, newPoi: Poi)
    ensures var r := ReplaceFirst(s, poi, WithCounters(poi, newPoi));
      |r| == |s|
      && (forall i :: 0 <= i < |s| ==> r[i].lat == s[i].lat && r[i].lon == s[i].lon && r[i].kind == s[i].kind && r[i].date == s[i].date)
      && (poi in s ==> r[IndexOf(s, poi)] == WithCounters(poi, newPoi))
      && (forall i :: 0 <= i < |s| && i != IndexOf(s, poi) ==> r[i] == s[i])
  {
    if poi in s {
      ReplaceFirstAt(s, poi, WithCounters(poi, newPoi));
    } else {
      ReplaceFirstAbsent(s, poi, WithCounters(poi, newPoi));
    }
  }

  class ServerPoiModel {
    var pois: seq<Poi>
    var notices: seq<Notice<PoiEvent<Poi>>>
    var reports: seq<Notice<CommunicationEvent>>
    /** The LinkedBlockingQueue of tasks, head first. */
    var tasks: seq<Task>
    const poiListeners: Registry
    const communicationListeners: Registry

    function State(): ModelState
      reads this
    {
      ModelState(pois, notices, reports)
    }

    constructor ()
      ensures pois == [] && notices == [] && reports == [] && tasks == []
      ensures fresh(poiListeners) && fresh(communicationListeners)
      ensures poiListeners.members == [] && communicationListeners.members == []
    {
      pois := [];
      notices := [];
      reports := [];
      tasks := [];
      poiListeners := new Registry();
      communicationListeners := new Registry();
    }

    /** addPoi: no check for an equal POI; a null one is rejected. */
    method AddPoi(poi: Option<Poi>) returns (accepted: bool)
      modifies this`pois, this`notices
      ensures accepted <==> poi.Some?
      ensures accepted ==> pois == old(pois) + [poi.value] && notices == old(notices) + [Notice(PoiAdded(poi.value), poiListeners.members)]
      ensures !accepted ==> pois == old(pois) && notices == old(notices)
    {
      if poi.None? {
        return false;
      }
      pois := pois + [poi.value];
      notices := notices + [Notice(PoiAdded(poi.value), poiListeners.members)];
      accepted := true;
    }

    /** removePoi: the first equal POI goes; the removed event goes out in any case. */
    method RemovePoi(poi: Option<Poi>) returns (accepted: bool)
      modifies this`pois, this`notices
      ensures accepted <==> poi.Some?
      ensures accepted ==> pois == RemoveFirst(old(pois), poi.value) && notices == old(notices) + [Notice(PoiRemoved(poi.value), poiListeners.members)]
      ensures !accepted ==> pois == old(pois) && notices == old(notices)
    {
      if poi.None? {
        return false;
      }
      pois := RemoveFirst(pois, poi.value);
      notices := notices + [Notice(PoiRemoved(poi.value), poiListeners.members)];
      accepted := true;
    }

    /** updatePoi: the POI object takes the counters of `newPoi`; no POI is added or removed. */
    method UpdatePoi(poi: Poi, newPoi: Poi)
      modifies this`pois, this`notices
      ensures pois == ReplaceFirst(old(pois), poi, WithCounters(poi, newPoi))
      ensures notices == old(notices) + [Notice(PoiUpdated(WithCounters(poi, newPoi)), poiListeners.members)]
    {
      var updated := WithCounters(poi, newPoi);
      pois := ReplaceFirst(pois, poi, updated);
      notices := notices + [Notice(PoiUpdated(updated), poiListeners.members)];
    }

    /** update(coordinate): one UpdateTask joins the end of the queue. */
    method Update(lat: real, lon: real)
      modifies this`tasks
      ensures tasks == old(tasks) + [UpdateTask(lat, lon)]
    {
      tasks := tasks + [UpdateTask(lat, lon)];
    }

    /** submit: a null POI is rejected; otherwise one SubmitTask joins the end of the queue. */
    method Submit(poi: Option<Poi>) returns (accepted: bool)
      modifies this`tasks
      ensures accepted <==> poi.Some?
      ensures tasks == if accepted then old(tasks) + [SubmitTask(poi.value)] else old(tasks)
    {
      if poi.None? {
        return false;
      }
      tasks := tasks + [SubmitTask(poi.value)];
      accepted := true;
    }

    /** notSeen: a null POI is rejected; otherwise one NotSeenTask joins the end of the queue. */
    method NotSeen(poi: Option<Poi>) returns (accepted: bool)
      modifies this`tasks
      ensures accepted <==> poi.Some?
      ensures tasks == if accepted then old(tasks) + [NotSeenTask(poi.value)] else old(tasks)
    {
      if poi.None? {
        return false;
      }
      tasks := tasks + [NotSeenTask(poi.value)];
      accepted := true;
    }

    /** The removal loop of UpdateTask: each local POI the reply lacks is removed, in local order. */
    method RemoveStale(fetched: seq<Poi>)
      modifies this`pois, this`notices
      ensures pois == KeepIn(old(pois), fetched)
      ensures notices == old(notices) + Deliver(Removals(Dropped(old(pois), fetched)), poiListeners.members)
    {
      // The queue's iterator is weakly consistent: it visits every POI of the list as it was.
      var snapshot := pois;
      var i := 0;
      while i < |snapshot|
        invariant i <= |snapshot|
        invariant pois == KeepIn(snapshot[..i], fetched) + snapshot[i..]
        invariant notices == old(notices) + Deliver(Removals(Dropped(snapshot[..i], fetched)), poiListeners.members)
      {
        RemoveIfStale(snapshot, i, fetched, old(notices));
        i := i + 1;
      }
      assert snapshot[..i] == snapshot && snapshot[i..] == [];
      assert pois == KeepIn(snapshot, fetched) + [];
    }

    /** The add-or-update loop of UpdateTask: each fetched POI the list lacks is appended. */
    method AddMissing(fetched: seq<Poi>)
      modifies this`pois, this`notices
      ensures pois == AppendAbsent(old(pois), fetched)
      ensures notices == old(notices) + Deliver(Additions(pois[|old(pois)|..]), poiListeners.members)
    {
      var kept := pois;
      var j := 0;
      while j < |fetched|
        invariant j <= |fetched| && |kept| <= |pois|
        invariant AppendAbsent(pois, fetched[j..]) == AppendAbsent(kept, fetched)
        invariant notices == old(notices) + Deliver(Additions(pois[|kept|..]), poiListeners.members)
      {
        AddIfMissing(kept, fetched, j, old(notices));
        j := j + 1;
      }
      assert fetched[j..] == [];
    }

    /** One turn of the removal loop, at the snapshot's POI `i`. */
    method RemoveIfStale(snapshot: seq<Poi>, i: nat, fetched: seq<Poi>, ghost before: seq<Notice<PoiEvent<Poi>>>)
      requires i < |snapshot|
      requires pois == KeepIn(snapshot[..i], fetched) + snapshot[i..]
      requires notices == before + Deliver(Removals(Dropped(snapshot[..i], fetched)), poiListeners.members)
      modifies this`pois, this`notices
      ensures pois == KeepIn(snapshot[..i + 1], fetched) + snapshot[i + 1..]
      ensures notices == before + Deliver(Removals(Dropped(snapshot[..i + 1], fetched)), poiListeners.members)
    {
      var poi := snapshot[i];
      RemovalPass(snapshot, i, fetched);
      RemovalNoticesPass(before, snapshot, i, fetched, poiListeners.members);
      if poi !in fetched {
        var _ := RemovePoi(Some(poi));
      }
    }

    /** One turn of the add-or-update loop, at the fetched POI `j`. */
    method AddIfMissing(kept: seq<Poi>, fetched: seq<Poi>, j: nat, ghost before: seq<Notice<PoiEvent<Poi>>>)
      requires j < |fetched| && |kept| <= |pois|
      requires AppendAbsent(pois, fetched[j..]) == AppendAbsent(kept, fetched)
      requires notices == before + Deliver(Additions(pois[|kept|..]), poiListeners.members)
      modifies this`pois, this`notices
      ensures |kept| <= |pois| && AppendAbsent(pois, fetched[j + 1..]) == AppendAbsent(kept, fetched)
      ensures notices == before + Deliver(Additions(pois[|kept|..]), poiListeners.members)
    {
      var newPoi := fetched[j];
      var found := Contains(newPoi);
      AdditionPass(pois, fetched, j);
      AdditionNoticesPass(before, kept, pois, newPoi, poiListeners.members);
      if !found {
        var _ := AddPoi(Some(newPoi));
      }
    }

    /** The inner search of the add-or-update loop: whether a POI equal to `newPoi` is held. */
    method Contains(newPoi: Poi) returns (found: bool)
      ensures found <==> newPoi in pois
    {
      found := false;
      var k := 0;
      while k < |pois|
        invariant k <= |pois|
        invariant newPoi !in pois[..k]
      {
        if newPoi == pois[k] {
          if newPoi.confirmations != pois[k].confirmations || newPoi.refutations != pois[k].refutations {
            // equals compares the counters, so the update branch is never taken
            assert false;
          }
          found := true;
          break;
        }
        assert pois[..k + 1] == pois[..k] + [pois[k]];
        k := k + 1;
      }
      if !found {
        assert pois[..k] == pois;
      }
    }

    /** UpdateTask with a reply: the local POIs follow it, then the communication listeners hear of it. */
    method Sync(fetched: seq<Poi>)
      modifies this`pois, this`notices
      ensures pois == RemoveThenAdd(old(pois), fetched)
      ensures notices == old(notices) + Deliver(SyncEvents(old(pois), fetched), poiListeners.members)
    {
      ghost var before := notices;
      RemoveStale(fetched);
      ghost var mid := notices;
      AddMissing(fetched);
      SyncNotices(old(pois), fetched, before, mid, notices, poiListeners.members);
    }

    /** The run() method of one task. */
    method RunTask(t: Task, a: Answer) returns (escaped: bool)
      modifies this`pois, this`notices, this`reports
      ensures (State(), escaped) == Execute(old(State()), t, a, poiListeners.members, communicationListeners.members)
    {
      escaped := false;
      match t {
        case SubmitTask(p) =>
          match a {
            case Answered(_) => reports := reports + [Notice(PoiSubmitted(p), communicationListeners.members)];
            case IoFailure(m) => reports := reports + [Notice(UnableToSubmitPoi(p, m), communicationListeners.members)];
            case Unresolved => escaped := true;
          }
        case NotSeenTask(p) =>
          match a {
            case Answered(_) => reports := reports + [Notice(PoiDeclaredAsNotSeen(p), communicationListeners.members)];
            case IoFailure(m) => reports := reports + [Notice(UnableToDeclarePoiAsNotSeen(p, m), communicationListeners.members)];
            case Unresolved => escaped := true;
          }
        case UpdateTask(_, _) =>
          match a {
            case Answered(fetched) =>
              Sync(fetched);
              reports := reports + [Notice(PoisUpdated, communicationListeners.members)];
            case IoFailure(m) => reports := reports + [Notice(UnableToUpdatePois(m), communicationListeners.members)];
            case Unresolved => reports := reports + [Notice(UnableToUpdatePois(UNRESOLVED), communicationListeners.members)];
          }
      }
    }

    /**
     * The worker's run(): tasks are taken from the head of the queue and run in the order they
     * were queued, one answer each, until the queue or the answers run out or a task's exception
     * escapes.
     */
    method Run(answers: seq<Answer>) returns (ran: nat)
      modifies this`pois, this`notices, this`reports, this`tasks
      ensures ran <= |answers| && ran <= |old(tasks)|
      ensures tasks == old(tasks)[ran..]
      ensures State() == Replay(old(State()), old(tasks)[..ran], answers[..ran], Worker(poiListeners.members, communicationListeners.members))
      ensures forall j :: 0 <= j < ran - 1 ==> !Escapes(old(tasks)[j], answers[j])
      ensures ran < |answers| && ran < |old(tasks)| ==> 0 < ran && Escapes(old(tasks)[ran - 1], answers[ran - 1])
    {
      ghost var queued := tasks;
      ghost var start := State();
      ghost var step := Worker(poiListeners.members, communicationListeners.members);
      ran := 0;
      while ran < |answers| && tasks != []
        invariant ran <= |answers| && ran <= |queued|
        invariant tasks == queued[ran..]
        invariant State() == Replay(start, queued[..ran], answers[..ran], step)
        invariant forall j :: 0 <= j < ran ==> !Escapes(queued[j], answers[j])
      {
        var task := tasks[0];
        assert task == queued[ran];
        tasks := tasks[1..];
        ghost var before := State();
        var escaped := RunTask(task, answers[ran]);
        WorkerStep(before, State(), escaped, task, answers[ran], poiListeners.members, communicationListeners.members);
        ReplayNext(start, queued, answers, ran, before, State(), step);
        ghost var done := ran;
        ran := ran + 1;
        if escaped {
          return;
        }
        CalmExtend(queued, answers, done);
      }
    }
  }
}
