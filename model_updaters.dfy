/**
 * The updaters that bring a client's map model in step with the server: the current
 * MapPoiModelUpdater, fed by the server connection, and the legacy MapPOIModelUpdater, which
 * speaks the legacy text protocol on its own socket channel.
 */
module ModelUpdaters {
  import opened Wrappers
  import opened Lists
  import opened Listeners
  import opened PoiTypes
  import opened ModelSync
  import opened ClientModels
  import opened NetUtils
  import opened Text
  import opened LegacyProtocol

  // The two loops both updaters run against a model's live list.

  /**
   * Removes from the model every POI `keep` lacks. The loop visits the list as it was when the
   * loop began, whether through a snapshot or a weakly consistent iterator.
   */
  method RemoveAbsent<P(==)>(model: MapPoiModel<P>, keep: seq<P>)
    modifies model`pois, model`notices
    ensures model.pois == KeepIn(old(model.pois), keep)
    ensures model.notices == old(model.notices) + Deliver(Removals(Dropped(old(model.pois), keep)), model.listeners.members)
  {
    var snapshot := model.pois;
    var i := 0;
    while i < |snapshot|
      invariant i <= |snapshot|
      invariant model.pois == KeepIn(snapshot[..i], keep) + snapshot[i..]
      invariant model.notices == old(model.notices) + Deliver(Removals(Dropped(snapshot[..i], keep)), model.listeners.members)
    {
      RemoveIfAbsent(model, snapshot, i, keep, old(model.notices));
      i := i + 1;
    }
    assert snapshot[..i] == snapshot && snapshot[i..] == [];
    assert model.pois == KeepIn(snapshot, keep) + [];
  }

  /** Adds to the model each POI of `news` its live list does not hold yet, in order. */
  method AddAbsent<P(==)>(model: MapPoiModel<P>, news: seq<P>)
    modifies model`pois, model`notices
    ensures model.pois == AppendAbsent(old(model.pois), news)
    ensures model.notices == old(model.notices) + Deliver(Additions(model.pois[|old(model.pois)|..]), model.listeners.members)
  {
    var kept := model.pois;
    var j := 0;
    while j < |news|
      invariant j <= |news| && |kept| <= |model.pois|
      invariant AppendAbsent(model.pois, news[j..]) == AppendAbsent(kept, news)
      invariant model.notices == old(model.notices) + Deliver(Additions(model.pois[|kept|..]), model.listeners.members)
    {
      AddIfAbsent(model, kept, news, j, old(model.notices));
      j := j + 1;
    }
    assert news[j..] == [];
  }

  /** One turn of the removal loop, at the snapshot's POI `i`. */
  method RemoveIfAbsent<P(==)>(model: MapPoiModel<P>, snapshot: seq<P>, i: nat, keep: seq<P>, ghost before: seq<Notice<PoiEvent<P>>>)
    requires i < |snapshot|
    requires model.pois == KeepIn(snapshot[..i], keep) + snapshot[i..]
    requires model.notices == before + Deliver(Removals(Dropped(snapshot[..i], keep)), model.listeners.members)
    modifies model`pois, model`notices
    ensures model.pois == KeepIn(snapshot[..i + 1], keep) + snapshot[i + 1..]
    ensures model.notices == before + Deliver(Removals(Dropped(snapshot[..i + 1], keep)), model.listeners.members)
  {
    var poi := snapshot[i];
    RemovalPass(snapshot, i, keep);
    RemovalNoticesPass(before, snapshot, i, keep, model.listeners.members);
    if poi !in keep {
      var _ := model.RemovePoi(Some(poi));
    }
  }

  /** One turn of the adding loop, at the new POI `j`. */
  method AddIfAbsent<P(==)>(model: MapPoiModel<P>, kept: seq<P>, news: seq<P>, j: nat, ghost before: seq<Notice<PoiEvent<P>>>)
    requires j < |news| && |kept| <= |model.pois|
    requires AppendAbsent(model.pois, news[j..]) == AppendAbsent(kept, news)
    requires model.notices == before + Deliver(Additions(model.pois[|kept|..]), model.listeners.members)
    modifies model`pois, model`notices
    ensures |kept| <= |model.pois| && AppendAbsent(model.pois, news[j + 1..]) == AppendAbsent(kept, news)
    ensures model.notices == before + Deliver(Additions(model.pois[|kept|..]), model.listeners.members)
  {
    var poi := news[j];
    AdditionPass(model.pois, news, j);
    AdditionNoticesPass(before, kept, model.pois, poi, model.listeners.members);
    if poi !in model.pois {
      var _ := model.AddPoi(Some(poi));
    }
  }

  // The current updater.

  /** What the update listeners hear: a successful update, or a failed one with its message and its cause. */
  datatype UpdateEvent = Updated | UpdateFailed(message: string, cause: string)

  const UPDATE_FAILED := "Connection problem: Unable to update POIs"

  /**
   * MapPoiModelUpdater. The map position and the server connection are not modelled: an update
   * takes what the server's getPois answered for the current position.
   */
  class MapPoiModelUpdater {
    const model: MapPoiModel<Poi>
    const listeners: Registry
    var updates: seq<Notice<UpdateEvent>>

    constructor (model: MapPoiModel<Poi>)
      ensures this.model == model && fresh(listeners) && listeners.members == [] && updates == []
    {
      this.model := model;
      listeners := new Registry();
      updates := [];
    }

    /** The constructor's null check: no updater is made without a model. */
    static method Create(model: MapPoiModel?<Poi>) returns (u: MapPoiModelUpdater?)
      ensures u == null <==> model == null
      ensures u != null ==> fresh(u) && fresh(u.listeners) && u.model == model && u.listeners.members == [] && u.updates == []
    {
      if model == null {
        return null;
      }
      u := new MapPoiModelUpdater(model);
    }

    /**
     * update(): `fetched` is the answer of getPois, the POIs or the message of its IOException.
     * A failed fetch leaves the model alone, tells the listeners and is rethrown wrapped; a
     * successful one drops the stale POIs, adds the new ones and tells the listeners once.
     */
    method Update(fetched: Result<seq<Poi>, string>) returns (err: Option<string>)
      modifies model`pois, model`notices, this`updates
      ensures fetched.Failure? ==>
        err == Some(UPDATE_FAILED) && model.pois == old(model.pois) && model.notices == old(model.notices)
        && updates == old(updates) + [Notice(UpdateFailed(UPDATE_FAILED, fetched.error), listeners.members)]
      ensures fetched.Success? ==>
        err == None && model.pois == RemoveThenAdd(old(model.pois), fetched.value)
        && model.notices == old(model.notices) + Deliver(SyncEvents(old(model.pois), fetched.value), model.listeners.members)
        && updates == old(updates) + [Notice(Updated, listeners.members)]
    {
      if fetched.Failure? {
        updates := updates + [Notice(UpdateFailed(UPDATE_FAILED, fetched.error), listeners.members)];
        return Some(UPDATE_FAILED);
      }
      var newPois := fetched.value;
      ghost var before := model.notices;
      RemoveAbsent(model, newPois);
      ghost var mid := model.notices;
      AddAbsent(model, newPois);
      SyncNotices(old(model.pois), newPois, before, mid, model.notices, model.listeners.members);
      updates := updates + [Notice(Updated, listeners.members)];
      err := None;
    }
  }

  // The legacy updater.

  const NO_INFOS := "Server did not respond to the GET_INFO query"

  /**
   * What the legacy update reads from the server's reply: the token INFOS, then INFOS.handle's
   * events and the input it leaves.
   */
  function InfosReply(input: string, f: Formats): (r: Result<(seq<Event>, string), ReadError>)
    ensures r.Success? ==> HasNext(input) && NextToken(input).0 == "INFOS" && |r.value.1| < |input|
    ensures !HasNext(input) ==> r == Failure(IoError(NO_INFOS))
  {
    if !HasNext(input) || NextToken(input).0 != "INFOS" then Failure(IoError(NO_INFOS))
    else
      var rest := NextToken(input).1;
      var r := ReadInfos(rest, f);
      if r.Success? then Success((r.value.0, r.value.1)) else Failure(r.error)
  }

  /** The reply the legacy server writes for some events is read back by the legacy updater as exactly those events. */
  lemma InfosReplyRoundTrip(events: seq<Event>, f: Formats)
    requires ShowsTokens(f.doubles) && AllSendable(events, f)
    requires |events| <= 0x7FFF_FFFF
    ensures InfosReply(Transcript(Reply(events, f)), f) == Success((events, ""))
  {
    ReplyRoundTrip(events, f);
  }

  /** The events a legacy sync fires: additions first, then removals, in order. */
  function AddThenRemoveEvents<T(==)>(local: seq<T>, fetched: seq<T>): (r: seq<PoiEvent<T>>)
    ensures |r| == |AppendAbsent(local, fetched)| - |local| + |Dropped(AppendAbsent(local, fetched), fetched)|
  {
    var grown := AppendAbsent(local, fetched);
    Additions(grown[|local|..]) + Removals(Dropped(grown, fetched))
  }

  /**
   * The legacy sync, done correctly, settles: run again on the same reply it changes nothing and
   * fires no event.
   */
  lemma LegacySyncSettles<T>(local: seq<T>, fetched: seq<T>)
    ensures AddThenRemove(AddThenRemove(local, fetched), fetched) == AddThenRemove(local, fetched)
    ensures AddThenRemoveEvents(AddThenRemove(local, fetched), fetched) == []
  {
    var synced := AddThenRemove(local, fetched);
    EitherOrder(local, fetched);
    SyncIdempotent(local, fetched);
    EitherOrder(synced, fetched);
    forall x | x in fetched
      ensures x in synced
    {
      RemoveThenAddMembers(local, fetched, x);
    }
    AppendAbsentPresent(synced, fetched);
    assert |Removals(Dropped(synced, fetched))| == 0;
  }

  /** The reading half of the legacy update: a scanner on the reply, the INFOS token, then INFOS.handle. */
  method ReceiveInfos(incoming: string, f: Formats) returns (r: Result<seq<Event>, ReadError>)
    ensures var reply := InfosReply(incoming, f);
      (reply.Success? ==> r == Success(reply.value.0)) && (reply.Failure? ==> r == Failure(reply.error))
  {
    var scanner := new Scanner(incoming);
    var head := scanner.Next();
    if head != Some("INFOS") {
      return Failure(IoError(NO_INFOS));
    }
    r := HandleInfos(scanner, f);
  }

  /** The notices of the adding loop followed by those of the removing loop are the legacy sync's events. */
  lemma ResyncNotices<P>(local: seq<P>, news: seq<P>, before: seq<Notice<PoiEvent<P>>>, mid: seq<Notice<PoiEvent<P>>>, after: seq<Notice<PoiEvent<P>>>, to: seq<Listener>)
    requires mid == before + Deliver(Additions(AppendAbsent(local, news)[|local|..]), to)
    requires after == mid + Deliver(Removals(Dropped(AppendAbsent(local, news), news)), to)
    ensures after == before + Deliver(AddThenRemoveEvents(local, news), to)
  {
    var grown := AppendAbsent(local, news);
    DeliveredInTurn(before, Additions(grown[|local|..]), Removals(Dropped(grown, news)), to, mid, after);
  }

  /** The two loops of the legacy update, with the removal loop run over a snapshot of the list. */
  method Resync<P(==)>(model: MapPoiModel<P>, news: seq<P>)
    modifies model`pois, model`notices
    ensures model.pois == AddThenRemove(old(model.pois), news)
    ensures model.notices == old(model.notices) + Deliver(AddThenRemoveEvents(old(model.pois), news), model.listeners.members)
  {
    ghost var before := model.notices;
    AddAbsent(model, news);
    ghost var afterAdd := model.notices;
    RemoveAbsent(model, news);
    ResyncNotices(old(model.pois), news, before, afterAdd, model.notices, model.listeners.members);
  }

  /** Whether a channel is there and connected. */
  predicate Connected(c: Channel?)
    reads c
  {
    c != null && c.open
  }

  /**
   * MapPOIModelUpdater. It keeps its socket channel between updates when `keepAlive` is set; the
   * server address and the map position are not modelled.
   */
  class LegacyMapPoiModelUpdater {
    const model: MapPoiModel<Event>
    const keepAlive: bool
    var channel: Channel?

    constructor (model: MapPoiModel<Event>, keepAlive: bool)
      ensures this.model == model && this.keepAlive == keepAlive && channel == null
    {
      this.model := model;
      this.keepAlive := keepAlive;
      channel := null;
    }

    /** The finally block: the channel is closed unless it is kept alive. */
    method Release()
      requires channel != null
      modifies channel`open
      ensures keepAlive ==> channel.open == old(channel.open)
      ensures !keepAlive ==> !channel.open
    {
      if !keepAlive {
        channel.Close();
      }
    }

    /**
     * update() at the map position (lat, lon). `connectError` is the message of the IOException
     * connecting throws, if it does; `incoming` is what the server sends back. A channel is
     * opened only when none is connected; GET_INFO is sent with x the longitude and y the
     * latitude; the reply must start with INFOS; the POIs received that the model lacks are
     * added, then the model's POIs the reply lacks are removed.
     */
    method Update(lat: real, lon: real, connectError: Option<string>, incoming: string, f: Formats) returns (err: Option<ReadError>)
      modifies this`channel, channel, model`pois, model`notices
      ensures channel != null
      ensures old(Connected(channel)) ==> channel == old(channel)
      ensures !old(Connected(channel)) ==> fresh(channel)
      ensures var connected := old(Connected(channel)) || connectError.None?;
        channel.open == (connected && keepAlive)
        && (!connected ==>
              err == Some(IoError(connectError.value)) && channel.sent == []
              && model.pois == old(model.pois) && model.notices == old(model.notices))
        && (connected ==>
              channel.sent == (if old(Connected(channel)) then old(channel.sent) else []) + Terminated(GetInfoLine(lon, lat, f)))
      ensures var reply := InfosReply(incoming, f);
        (old(Connected(channel)) || connectError.None?) ==>
          (reply.Failure? ==>
             err == Some(reply.error) && model.pois == old(model.pois) && model.notices == old(model.notices))
          && (reply.Success? ==>
             err == None && model.pois == AddThenRemove(old(model.pois), reply.value.0)
             && model.notices == old(model.notices) + Deliver(AddThenRemoveEvents(old(model.pois), reply.value.0), model.listeners.members))
    {
      if channel == null || !channel.open {
        channel := new Channel();
        if connectError.Some? {
          // the connect failed: the new channel is not connected
          channel.Close();
          err := Some(IoError(connectError.value));
          Release();
          return;
        }
      }
      channel.WriteLine(GetInfoLine(lon, lat, f));
      var received := ReceiveInfos(incoming, f);
      if received.Failure? {
        err := Some(received.error);
        Release();
        return;
      }
      Resync(model, received.value);
      err := None;
      Release();
    }

    /**
     * The removal loop as the legacy update writes it: a for-each over the model's own
     * ArrayList, which the removals change under the iterator. It ends as SweepAsWritten says,
     * with the ConcurrentModificationException as `thrown`.
     */
    method RemoveAbsentAsWritten(keep: seq<Event>) returns (thrown: bool)
      modifies model`pois, model`notices
      ensures var e := SweepAsWritten(old(model.pois), 0, keep);
        model.pois == e.left && thrown == e.thrown
        && model.notices == old(model.notices) + Deliver(Removals(e.dropped), model.listeners.members)
    {
      ghost var s := model.pois;
      ghost var dropped: seq<Event> := [];
      var cursor := 0;
      var modified := false;
      thrown := false;
      while cursor != |model.pois|
        invariant !modified ==> cursor <= |s| && model.pois == s && dropped == []
        invariant !modified ==> SweepAsWritten(s, 0, keep) == SweepAsWritten(s, cursor, keep)
        invariant modified ==> SweepAsWritten(s, 0, keep) == SweepEnd(model.pois, dropped, cursor != |model.pois|)
        invariant model.notices == old(model.notices) + Deliver(Removals(dropped), model.listeners.members)
        invariant !thrown
        decreases if modified then 0 else 1, if modified || cursor > |model.pois| then 0 else |model.pois| - cursor
      {
        if modified {
          // next() checks the list's modification count first
          thrown := true;
          break;
        }
        var poi := model.pois[cursor];
        cursor := cursor + 1;
        if poi !in keep {
          var _ := model.RemovePoi(Some(poi));
          dropped := [poi];
          modified := true;
        }
      }
    }
  }
}
