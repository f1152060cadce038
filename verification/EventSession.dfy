/** One client's session on the server: what it subscribes to and the filters it has set, event by event. */
module EventSession {
  import opened Common

  datatype Mutes = Mutes(texts: set<string>)
  datatype Filter = Filter(eventId: EventId, isInclude: bool, kind: int, mutes: Mutes)

  datatype Session = Session(subEvents: set<EventId>, eventFilters: map<EventId, seq<Filter>>)

  /** How the outside answers one call: the permission check before it, and the collector framework or the filter plugin
      if it is asked. */
  datatype Answer = Answer(permission: Code, outside: Code)

  const OK := Answer(SUCCESS, SUCCESS)

  datatype Result = Result(session: Option<Session>, code: Code)

  function FiltersAt(s: Session, e: EventId): seq<Filter> {
    if e in s.eventFilters then s.eventFilters[e] else []
  }

  function WithFilter(s: Session, f: Filter): Session {
    s.(eventFilters := s.eventFilters[f.eventId := FiltersAt(s, f.eventId) + [f]])
  }

  /** Without the first occurrence of an element. */
  function Removed<T(==)>(xs: seq<T>, x: T): seq<T> {
    if xs == [] then [] else if xs[0] == x then xs[1..] else [xs[0]] + Removed(xs[1..], x)
  }

  function WithoutFilter(s: Session, f: Filter): Session {
    var rest := Removed(FiltersAt(s, f.eventId), f);
    s.(eventFilters := if rest == [] then s.eventFilters - {f.eventId} else s.eventFilters[f.eventId := rest])
  }

  function Subscribing(s: Option<Session>, e: EventId, a: Answer): Result {
    if a.permission != SUCCESS then Result(s, a.permission)
    else if s.None? then Result(s, BAD_PARAM)
    else if e in s.value.subEvents then Result(s, SUCCESS)
    else if a.outside != SUCCESS then Result(s, a.outside)
    else Result(Some(s.value.(subEvents := s.value.subEvents + {e})), SUCCESS)
  }

  function Unsubscribing(s: Option<Session>, e: EventId, a: Answer): Result {
    if a.permission != SUCCESS then Result(s, a.permission)
    else if s.None? || e !in s.value.subEvents then Result(s, SUCCESS)
    else if a.outside != SUCCESS then Result(s, a.outside)
    else Result(Some(s.value.(subEvents := s.value.subEvents - {e})), SUCCESS)
  }

  function AddingFilter(s: Option<Session>, f: Filter, a: Answer): Result {
    if a.permission != SUCCESS then Result(s, a.permission)
    else if s.None? || f in FiltersAt(s.value, f.eventId) then Result(s, BAD_PARAM)
    else if f.eventId in s.value.subEvents && a.outside != SUCCESS then Result(s, a.outside)
    else Result(Some(WithFilter(s.value, f)), SUCCESS)
  }

  function RemovingFilter(s: Option<Session>, f: Filter, a: Answer): Result {
    if a.permission != SUCCESS then Result(s, a.permission)
    else if s.None? || f !in FiltersAt(s.value, f.eventId) then Result(s, BAD_PARAM)
    else if f.eventId in s.value.subEvents && a.outside != SUCCESS then Result(s, a.outside)
    else Result(Some(WithoutFilter(s.value, f)), SUCCESS)
  }

  function Creating(s: Option<Session>, a: Answer): Result {
    if a.permission != SUCCESS then Result(s, a.permission)
    else if s.Some? then Result(s, BAD_PARAM)
    else Result(Some(Session({}, map[])), SUCCESS)
  }

  // ---------------------------------------------------------------- what a caller is told, and what has changed

  lemma CreatingTells(s: Option<Session>, a: Answer)
    ensures var r := Creating(s, a);
            && (r.code == SUCCESS <==> a.permission == SUCCESS && s.None?)
            && (r.code != SUCCESS ==>
                  r.session == s && r.code == if a.permission != SUCCESS then a.permission else BAD_PARAM)
            && (r.code == SUCCESS ==> r.session.Some? && r.session.value.subEvents == {} &&
                                      forall e :: FiltersAt(r.session.value, e) == [])
  {
  }

  /** A subscription succeeds exactly if it is permitted, there is a session, and the event is subscribed already or the
      framework agrees; then the event is subscribed and nothing else has changed. */
  lemma SubscribingTells(s: Option<Session>, e: EventId, a: Answer)
    ensures var r := Subscribing(s, e, a);
            && (r.code == SUCCESS <==>
                  a.permission == SUCCESS && s.Some? && (e in s.value.subEvents || a.outside == SUCCESS))
            && (r.code != SUCCESS ==>
                  r.session == s &&
                  r.code == if a.permission != SUCCESS then a.permission else if s.None? then BAD_PARAM else a.outside)
            && (r.code == SUCCESS ==>
                  r.session.Some? && r.session.value.eventFilters == s.value.eventFilters &&
                  forall x :: x in r.session.value.subEvents <==> x in s.value.subEvents || x == e)
  {
  }

  /** An unsubscription succeeds exactly if it is permitted, and the event is not subscribed or the framework agrees; then
      the event is not subscribed and nothing else has changed. */
  lemma UnsubscribingTells(s: Option<Session>, e: EventId, a: Answer)
    ensures var r := Unsubscribing(s, e, a);
            && (r.code == SUCCESS <==>
                  a.permission == SUCCESS && (s.None? || e !in s.value.subEvents || a.outside == SUCCESS))
            && (r.code != SUCCESS ==>
                  r.session == s && r.code == if a.permission != SUCCESS then a.permission else a.outside)
            && (r.code == SUCCESS ==>
                  if s.None? then r.session.None?
                  else r.session.Some? && r.session.value.eventFilters == s.value.eventFilters &&
                       forall x :: x in r.session.value.subEvents <==> x in s.value.subEvents && x != e)
  {
  }

  /** A filter is set exactly if that is permitted, there is a session without it, and the plugin agrees if the event is
      subscribed; then it is the last of its event and nothing else has changed. */
  lemma AddingTells(s: Option<Session>, f: Filter, a: Answer)
    ensures var r := AddingFilter(s, f, a);
            && (r.code == SUCCESS <==>
                  a.permission == SUCCESS && s.Some? && f !in FiltersAt(s.value, f.eventId) &&
                  (f.eventId in s.value.subEvents ==> a.outside == SUCCESS))
            && (r.code != SUCCESS ==>
                  r.session == s &&
                  r.code == if a.permission != SUCCESS then a.permission
                            else if s.None? || f in FiltersAt(s.value, f.eventId) then BAD_PARAM else a.outside)
            && (r.code == SUCCESS ==>
                  r.session.Some? && r.session.value.subEvents == s.value.subEvents &&
                  FiltersAt(r.session.value, f.eventId) == FiltersAt(s.value, f.eventId) + [f] &&
                  forall e :: e != f.eventId ==> FiltersAt(r.session.value, e) == FiltersAt(s.value, e))
  {
  }

  /** `ys` is `xs` without the first `x`. */
  ghost predicate WithoutFirst<T>(xs: seq<T>, x: T, ys: seq<T>) {
    exists i :: 0 <= i < |xs| && xs[i] == x && x !in xs[..i] && ys == xs[..i] + xs[i + 1..]
  }

  lemma CutsMove<T>(x0: T, ys: seq<T>, i: nat)
    requires i < |ys|
    ensures var xs := [x0] + ys;
            xs[i + 1] == ys[i] && xs[..i + 1] == [x0] + ys[..i] && xs[i + 2..] == ys[i + 1..]
  {
  }

  lemma {:induction false} FirstOf<T>(xs: seq<T>, x: T) returns (i: nat)
    requires x in xs
    ensures i < |xs| && xs[i] == x && x !in xs[..i]
    ensures Removed(xs, x) == xs[..i] + xs[i + 1..]
  {
    if xs[0] == x {
      i := 0;
    } else {
      var ys := xs[1..];
      var j := FirstOf(ys, x);
      assert xs == [xs[0]] + ys;
      CutsMove(xs[0], ys, j);
      i := j + 1;
      Regrouped([xs[0]], ys[..j], ys[j + 1..]);
    }
  }

  lemma RemovedIsWithoutFirst<T>(xs: seq<T>, x: T)
    requires x in xs
    ensures WithoutFirst(xs, x, Removed(xs, x))
  {
    var i := FirstOf(xs, x);
  }

  /** A filter is dropped exactly if that is permitted, there is a session with it, and the plugin agrees if the event is
      subscribed; then the first one equal to it is gone and nothing else has changed. */
  lemma RemovingTells(s: Option<Session>, f: Filter, a: Answer)
    ensures var r := RemovingFilter(s, f, a);
            && (r.code == SUCCESS <==>
                  a.permission == SUCCESS && s.Some? && f in FiltersAt(s.value, f.eventId) &&
                  (f.eventId in s.value.subEvents ==> a.outside == SUCCESS))
            && (r.code != SUCCESS ==>
                  r.session == s &&
                  r.code == if a.permission != SUCCESS then a.permission
                            else if s.None? || f !in FiltersAt(s.value, f.eventId) then BAD_PARAM else a.outside)
            && (r.code == SUCCESS ==>
                  r.session.Some? && r.session.value.subEvents == s.value.subEvents &&
                  WithoutFirst(FiltersAt(s.value, f.eventId), f, FiltersAt(r.session.value, f.eventId)) &&
                  forall e :: e != f.eventId ==> FiltersAt(r.session.value, e) == FiltersAt(s.value, e))
  {
    if s.Some? && f in FiltersAt(s.value, f.eventId) {
      RemovedIsWithoutFirst(FiltersAt(s.value, f.eventId), f);
    }
  }

  /** The server's side of one client. Steps that the source takes apart around an outside call are one here: nothing
      else runs in between. Interleaved calls are modelled in `SubscribeProtocol` and `FilterProtocol`. */
  class SessionServer {
    var session: Option<Session>

    constructor ()
      ensures session == None
    {
      session := None;
    }

    method CreatClient(a: Answer) returns (code: Code)
      modifies this
      ensures Result(session, code) == Creating(old(session), a)
    {
      if a.permission != SUCCESS {
        return a.permission;
      }
      if session.Some? {
        return BAD_PARAM;
      }
      session := Some(Session({}, map[]));
      return SUCCESS;
    }

    method InsertSubscribeRecord(e: EventId, a: Answer) returns (code: Code)
      modifies this
      ensures Result(session, code) == Subscribing(old(session), e, a)
    {
      if a.permission != SUCCESS {
        return a.permission;
      }
      if session.None? {
        return BAD_PARAM;
      }
      var s := session.value;
      if e in s.subEvents {
        return SUCCESS;
      }
      session := Some(s.(subEvents := s.subEvents + {e}));
      if a.outside != SUCCESS {
        session := Some(session.value.(subEvents := session.value.subEvents - {e}));
        assert s.subEvents + {e} - {e} == s.subEvents;
        return a.outside;
      }
      return SUCCESS;
    }

    method RemoveSubscribeRecord(e: EventId, a: Answer) returns (code: Code)
      modifies this
      ensures Result(session, code) == Unsubscribing(old(session), e, a)
    {
      if a.permission != SUCCESS {
        return a.permission;
      }
      if session.None? || e !in session.value.subEvents {
        return SUCCESS;
      }
      var s := session.value;
      session := Some(s.(subEvents := s.subEvents - {e}));
      if a.outside != SUCCESS {
        session := Some(session.value.(subEvents := session.value.subEvents + {e}));
        assert s.subEvents - {e} + {e} == s.subEvents;
        return a.outside;
      }
      return SUCCESS;
    }

    method InsertSubscribeMute(f: Filter, a: Answer) returns (code: Code)
      modifies this
      ensures Result(session, code) == AddingFilter(old(session), f, a)
    {
      if a.permission != SUCCESS {
        return a.permission;
      }
      if session.None? {
        return BAD_PARAM;
      }
      var s := session.value;
      if f.eventId in s.eventFilters && f in s.eventFilters[f.eventId] {
        return BAD_PARAM;
      }
      if f.eventId in s.subEvents && a.outside != SUCCESS {
        return a.outside;
      }
      ghost var before := s;
      if f.eventId !in s.eventFilters {
        s := s.(eventFilters := s.eventFilters[f.eventId := []]);
      }
      assert s.eventFilters[f.eventId := s.eventFilters[f.eventId] + [f]] == WithFilter(before, f).eventFilters;
      session := Some(s.(eventFilters := s.eventFilters[f.eventId := s.eventFilters[f.eventId] + [f]]));
      return SUCCESS;
    }

    method RemoveSubscribeMute(f: Filter, a: Answer) returns (code: Code)
      modifies this
      ensures Result(session, code) == RemovingFilter(old(session), f, a)
    {
      if a.permission != SUCCESS {
        return a.permission;
      }
      if session.None? {
        return BAD_PARAM;
      }
      var s := session.value;
      if f.eventId !in s.eventFilters || f !in s.eventFilters[f.eventId] {
        return BAD_PARAM;
      }
      if f.eventId in s.subEvents && a.outside != SUCCESS {
        return a.outside;
      }
      var rest := EraseFirst(s.eventFilters[f.eventId], f);
      session := Some(s.(eventFilters := s.eventFilters[f.eventId := rest]));
      if rest == [] {
        session := Some(s.(eventFilters := s.eventFilters - {f.eventId}));
      }
      return SUCCESS;
    }
  }

  method EraseFirst<T(==)>(xs: seq<T>, x: T) returns (rest: seq<T>)
    ensures rest == Removed(xs, x)
  {
    var i := 0;
    while i < |xs| && xs[i] != x
      invariant i <= |xs|
      invariant Removed(xs, x) == xs[..i] + Removed(xs[i..], x)
    {
      i := i + 1;
    }
    if i == |xs| {
      assert xs[..i] == xs && xs[i..] == [];
      return xs;
    }
    return xs[..i] + xs[i + 1..];
  }
}
