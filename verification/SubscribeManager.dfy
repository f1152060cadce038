/** The data behind the two locks of the subscription ledger: what each critical section does to it. */
module SubscribeManager {
  import opened Common

  type Sessions = map<ClientId, set<EventId>>

  predicate Subscribed(ss: Sessions, c: ClientId, e: EventId) {
    c in ss && e in ss[c]
  }

  predicate AnySubscribes(ss: Sessions, e: EventId) {
    exists c :: c in ss && e in ss[c]
  }

  function Created(ss: Sessions, c: ClientId): Sessions {
    if c in ss then ss else ss[c := {}]
  }

  function Booked(ss: Sessions, c: ClientId, e: EventId): Sessions {
    if c in ss then ss[c := ss[c] + {e}] else ss[c := {e}]
  }

  function Unbooked(ss: Sessions, c: ClientId, e: EventId): Sessions {
    if c in ss then ss[c := ss[c] - {e}] else ss
  }

  function RolledBack(ss: Sessions, c: ClientId, e: EventId, created: bool): Sessions {
    if c in ss && created && ss[c] - {e} == {} then ss - {c} else Unbooked(ss, c, e)
  }

  function Rebooked(ss: Sessions, c: ClientId, e: EventId): Sessions {
    if c in ss then ss[c := ss[c] + {e}] else ss
  }

  function Tidied(ss: Sessions, c: ClientId, cleanup: bool): Sessions {
    if cleanup && c in ss && ss[c] == {} then ss - {c} else ss
  }

  datatype Booking = Refused | AlreadyBooked | NewlyBooked(created: bool)

  class AcquireDataSubscribeManager {
    var sessionsMap: Sessions
    /** The keys of `eventToListenner_`: the collectors this manager has running. */
    var eventToListener: set<EventId>

    constructor ()
      ensures sessionsMap == map[] && eventToListener == {}
    {
      sessionsMap, eventToListener := map[], {};
    }

    /** The locked section of `CreatClient`. */
    method CreateClient(c: ClientId) returns (ok: bool)
      modifies this`sessionsMap
      ensures ok == (c !in old(sessionsMap))
      ensures sessionsMap == Created(old(sessionsMap), c)
    {
      if c in sessionsMap {
        return false;
      }
      sessionsMap := sessionsMap[c := {}];
      return true;
    }

    /** The first locked section of `InsertSubscribeRecord`; only one of its two forms creates a missing session. */
    method BookInsert(c: ClientId, e: EventId, create: bool) returns (r: Booking)
      modifies this`sessionsMap
      ensures Subscribed(old(sessionsMap), c, e) ==> r == AlreadyBooked && sessionsMap == old(sessionsMap)
      ensures c !in old(sessionsMap) && !create ==> r == Refused && sessionsMap == old(sessionsMap)
      ensures !Subscribed(old(sessionsMap), c, e) && (c in old(sessionsMap) || create) ==>
                r == NewlyBooked(c !in old(sessionsMap)) && sessionsMap == Booked(old(sessionsMap), c, e)
    {
      if c !in sessionsMap && !create {
        return Refused;
      }
      if c in sessionsMap && e in sessionsMap[c] {
        return AlreadyBooked;
      }
      r := NewlyBooked(c !in sessionsMap);
      assert {} + {e} == {e};
      if c !in sessionsMap {
        sessionsMap := sessionsMap[c := {}];
      }
      sessionsMap := sessionsMap[c := sessionsMap[c] + {e}];
    }

    /** The rollback of `InsertSubscribeRecord` after a failed `SubscribeSc`. */
    method RollbackInsert(c: ClientId, e: EventId, created: bool)
      modifies this`sessionsMap
      ensures sessionsMap == RolledBack(old(sessionsMap), c, e, created)
    {
      if c in sessionsMap {
        sessionsMap := sessionsMap[c := sessionsMap[c] - {e}];
        if created && sessionsMap[c] == {} {
          sessionsMap := sessionsMap - {c};
        }
      }
    }

    /** The first locked section of `RemoveSubscribeRecordCore`. */
    method BookRemove(c: ClientId, e: EventId) returns (booked: bool)
      modifies this`sessionsMap
      ensures booked == Subscribed(old(sessionsMap), c, e)
      ensures sessionsMap == if booked then Unbooked(old(sessionsMap), c, e) else old(sessionsMap)
    {
      booked := c in sessionsMap && e in sessionsMap[c];
      if booked {
        sessionsMap := sessionsMap[c := sessionsMap[c] - {e}];
      }
    }

    /** What `RemoveSubscribeRecordCore` does when the collector could not be stopped. */
    method Reinsert(c: ClientId, e: EventId)
      modifies this`sessionsMap
      ensures sessionsMap == Rebooked(old(sessionsMap), c, e)
    {
      if c in sessionsMap {
        sessionsMap := sessionsMap[c := sessionsMap[c] + {e}];
      }
    }

    method Tidy(c: ClientId, cleanup: bool)
      modifies this`sessionsMap
      ensures sessionsMap == Tidied(old(sessionsMap), c, cleanup)
    {
      if c in sessionsMap && cleanup && sessionsMap[c] == {} {
        sessionsMap := sessionsMap - {c};
      }
    }

    /** The locked section of `RemoveSubscribeRecordOnRemoteDied` and of `DestoryClient`. */
    method TakeSession(c: ClientId) returns (events: set<EventId>)
      modifies this`sessionsMap
      ensures events == if c in old(sessionsMap) then old(sessionsMap)[c] else {}
      ensures sessionsMap == old(sessionsMap) - {c}
    {
      events := if c in sessionsMap then sessionsMap[c] else {};
      sessionsMap := sessionsMap - {c};
    }

    method IsAnySessionSubscribes(e: EventId) returns (found: bool)
      ensures found == AnySubscribes(sessionsMap, e)
    {
      var rest := sessionsMap.Keys;
      while rest != {}
        invariant rest <= sessionsMap.Keys
        invariant forall c :: c in sessionsMap && c !in rest ==> e !in sessionsMap[c]
      {
        var c :| c in rest;
        if e in sessionsMap[c] {
          return true;
        }
        rest := rest - {c};
      }
      found := false;
    }

    /** `SubscribeSc` for a non-sticky event of this service; `starts` is the answer of the collector framework. */
    method SubscribeSc(e: EventId, starts: bool) returns (ok: bool)
      modifies this`eventToListener
      ensures ok == (e in old(eventToListener) || starts)
      ensures eventToListener == if ok then old(eventToListener) + {e} else old(eventToListener)
    {
      if e in eventToListener {
        assert eventToListener + {e} == eventToListener;
        return true;
      }
      if !starts {
        return false;
      }
      eventToListener := eventToListener + {e};
      ok := true;
    }

    /** `UnSubscribeSc`; `stops` is the answer of the collector framework for a running collector. */
    method UnSubscribeSc(e: EventId, stops: bool) returns (ok: bool)
      modifies this`eventToListener
      ensures ok == (e in old(eventToListener) && stops)
      ensures eventToListener == if ok then old(eventToListener) - {e} else old(eventToListener)
    {
      if e !in eventToListener || !stops {
        return false;
      }
      eventToListener := eventToListener - {e};
      ok := true;
    }
  }
}
