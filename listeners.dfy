/**
 * Listener registration and notification, as every store and model of the sources does it:
 * a queue of listeners that rejects null, and events delivered to each registered listener.
 */
module Listeners {
  import opened Wrappers
  import opened Lists

  /** A registered listener object, known by its identity. */
  datatype Listener = Listener(id: nat)

  /** The events a POI collection fires, carrying the POI concerned. */
  datatype PoiEvent<P> = PoiAdded(poi: P) | PoiUpdated(poi: P) | PoiRemoved(poi: P)

  /** One firing: the event, and the listeners it was delivered to, in registration order. */
  datatype Notice<E> = Notice(event: E, to: seq<Listener>)

  /** A listener queue (ConcurrentLinkedQueue or Deque) with its add and remove operations. */
  class Registry {
    var members: seq<Listener>

    constructor ()
      ensures members == []
    {
      members := [];
    }

    /** addListener: Objects.requireNonNull rejects null (None) and nothing changes; otherwise the listener is appended. */
    method Add(listener: Option<Listener>) returns (accepted: bool)
      modifies this
      ensures accepted <==> listener.Some?
      ensures members == if accepted then old(members) + [listener.value] else old(members)
    {
      if listener.None? {
        return false;
      }
      members := members + [listener.value];
      accepted := true;
    }

    /** removeListener: null is rejected; otherwise the first registration of the listener is dropped. */
    method Remove(listener: Option<Listener>) returns (accepted: bool)
      modifies this
      ensures accepted <==> listener.Some?
      ensures members == if accepted then RemoveFirst(old(members), listener.value) else old(members)
    {
      if listener.None? {
        return false;
      }
      members := RemoveFirst(members, listener.value);
      accepted := true;
    }
  }
}
