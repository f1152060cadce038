/** The client's mirror of its session, and how it rebuilds the session after the server has died. */
module EventClients {
  import opened Common
  import opened EventSession

  function FiltersFor(fs: seq<Filter>, e: EventId): seq<Filter> {
    if fs == [] then []
    else
      var rest := FiltersFor(fs[..|fs| - 1], e);
      if fs[|fs| - 1].eventId == e then rest + [fs[|fs| - 1]] else rest
  }

  datatype World = World(server: Option<Session>, subscribed: set<EventId>, filters: seq<Filter>)

  ghost predicate NoRepeats(fs: seq<Filter>) {
    forall i, j :: 0 <= i < j < |fs| ==> fs[i] != fs[j]
  }

  /** The session holds for each event the client's filters for it, in the client's order, and no empty list. */
  ghost predicate SameFilters(s: Session, fs: seq<Filter>) {
    && (forall e :: FiltersAt(s, e) == FiltersFor(fs, e))
    && (forall e :: e in s.eventFilters ==> s.eventFilters[e] != [])
  }

  ghost predicate Mirrors(w: World) {
    && w.server.Some?
    && w.subscribed == w.server.value.subEvents
    && SameFilters(w.server.value, w.filters)
    && NoRepeats(w.filters)
  }

  /** A client and its session after creation. */
  const FRESH := World(Some(Session({}, map[])), {}, [])

  // ---------------------------------------------------------------- the client's operations

  datatype Call =
    | Subscribe(e: EventId, a: Answer)
    | Unsubscribe(e: EventId, a: Answer)
    | AddFilter(f: Filter, a: Answer)
    | RemoveFilter(f: Filter, a: Answer)

  function Ask(s: Option<Session>, call: Call): Result {
    match call
    case Subscribe(e, a) => Subscribing(s, e, a)
    case Unsubscribe(e, a) => Unsubscribing(s, e, a)
    case AddFilter(f, a) => AddingFilter(s, f, a)
    case RemoveFilter(f, a) => RemovingFilter(s, f, a)
  }

  /** The client changes its own books only after the server has agreed. */
  function Next(w: World, call: Call): World {
    var r := Ask(w.server, call);
    if r.code != SUCCESS then w.(server := r.session)
    else
      match call
      case Subscribe(e, _) => World(r.session, w.subscribed + {e}, w.filters)
      case Unsubscribe(e, _) => World(r.session, w.subscribed - {e}, w.filters)
      case AddFilter(f, _) => World(r.session, w.subscribed, w.filters + [f])
      case RemoveFilter(f, _) => World(r.session, w.subscribed, Removed(w.filters, f))
  }

  function After(w: World, calls: seq<Call>): World {
    if calls == [] then w else Next(After(w, calls[..|calls| - 1]), calls[|calls| - 1])
  }

  lemma FiltersForSnoc(fs: seq<Filter>, f: Filter, e: EventId)
    ensures FiltersFor(fs + [f], e) == if f.eventId == e then FiltersFor(fs, e) + [f] else FiltersFor(fs, e)
  {
    assert (fs + [f])[..|fs|] == fs;
  }

  lemma {:induction false} FiltersForConcat(a: seq<Filter>, b: seq<Filter>, e: EventId)
    ensures FiltersFor(a + b, e) == FiltersFor(a, e) + FiltersFor(b, e)
  {
    if b == [] {
      assert a + b == a;
    } else {
      assert a + b == (a + b[..|b| - 1]) + [b[|b| - 1]];
      FiltersForConcat(a, b[..|b| - 1], e);
      FiltersForSnoc(a + b[..|b| - 1], b[|b| - 1], e);
    }
  }

  lemma {:induction false} FiltersForMembers(fs: seq<Filter>, e: EventId)
    ensures forall f :: f in FiltersFor(fs, e) <==> f in fs && f.eventId == e
  {
    if fs != [] {
      FiltersForMembers(fs[..|fs| - 1], e);
      assert fs == fs[..|fs| - 1] + [fs[|fs| - 1]];
    }
  }

  /** Removing a filter from the client's list removes it from its event's part and leaves the other parts. */
  lemma {:induction false} RemovedFilters(fs: seq<Filter>, f: Filter, e: EventId)
    ensures FiltersFor(Removed(fs, f), e) == if f.eventId == e then Removed(FiltersFor(fs, e), f) else FiltersFor(fs, e)
  {
    if fs != [] {
      var first, rest := fs[0], fs[1..];
      FiltersForCons(fs, e);
      if first != f {
        RemovedFilters(rest, f, e);
        var gone := Removed(fs, f);
        assert gone[0] == first && gone[1..] == Removed(rest, f);
        FiltersForCons(gone, e);
      }
    }
  }

  lemma FiltersForCons(fs: seq<Filter>, e: EventId)
    requires fs != []
    ensures FiltersFor(fs, e) == if fs[0].eventId == e then [fs[0]] + FiltersFor(fs[1..], e) else FiltersFor(fs[1..], e)
  {
    var first := [fs[0]];
    assert fs == first + fs[1..];
    FiltersForConcat(first, fs[1..], e);
    FiltersForSnoc([], fs[0], e);
    assert [] + [fs[0]] == first;
  }

  lemma {:induction false} RemovedMembers<T>(xs: seq<T>, x: T)
    ensures forall y :: y in Removed(xs, x) ==> y in xs
    ensures |Removed(xs, x)| <= |xs|
  {
    if xs != [] && xs[0] != x {
      RemovedMembers(xs[1..], x);
    }
  }

  lemma {:induction false} RemovedNoRepeats(fs: seq<Filter>, f: Filter)
    requires NoRepeats(fs)
    ensures NoRepeats(Removed(fs, f))
  {
    if fs != [] && fs[0] != f {
      RemovedNoRepeats(fs[1..], f);
      RemovedMembers(fs[1..], f);
      assert fs[0] !in fs[1..];
    }
  }

  lemma AddFilterMirrors(s: Session, fs: seq<Filter>, f: Filter)
    requires SameFilters(s, fs) && NoRepeats(fs) && f !in FiltersAt(s, f.eventId)
    ensures SameFilters(WithFilter(s, f), fs + [f]) && NoRepeats(fs + [f])
  {
    FiltersForMembers(fs, f.eventId);
    forall e
      ensures FiltersAt(WithFilter(s, f), e) == FiltersFor(fs + [f], e)
    {
      FiltersForSnoc(fs, f, e);
    }
  }

  lemma RemoveFilterMirrors(s: Session, fs: seq<Filter>, f: Filter)
    requires SameFilters(s, fs) && NoRepeats(fs)
    ensures SameFilters(WithoutFilter(s, f), Removed(fs, f)) && NoRepeats(Removed(fs, f))
  {
    RemovedNoRepeats(fs, f);
    forall e
      ensures FiltersAt(WithoutFilter(s, f), e) == FiltersFor(Removed(fs, f), e)
    {
      RemovedFilters(fs, f, e);
    }
  }

  lemma NextMirrors(w: World, call: Call)
    requires Mirrors(w)
    ensures Mirrors(Next(w, call))
  {
    var s := w.server.value;
    if Ask(w.server, call).code == SUCCESS {
      match call
      case Subscribe(e, _) =>
      case Unsubscribe(e, _) =>
      case AddFilter(f, _) => AddFilterMirrors(s, w.filters, f);
      case RemoveFilter(f, _) => RemoveFilterMirrors(s, w.filters, f);
    }
  }

  // ---------------------------------------------------------------- recovery

  /** The answers during one recovery: for each resubscription and for each filter, by its position. */
  datatype Replies = Replies(subscribe: EventId -> Answer, filter: nat -> Answer)

  predicate Resubscribed(replies: Replies, e: EventId) {
    replies.subscribe(e).permission == SUCCESS && replies.subscribe(e).outside == SUCCESS
  }

  /** One attempt to reconnect: whether the server is reached and watched again, and its answers from then on. */
  datatype Attempt = Attempt(reachable: bool, create: Answer, replies: Replies)

  const RECONNECT_ATTEMPTS := 9

  predicate Reaches(a: Attempt) {
    a.reachable && a.create.permission == SUCCESS
  }

  /** The filters of the list that the new session accepts. */
  function Accepted(fs: seq<Filter>, subEvents: set<EventId>, replies: Replies): seq<Filter> {
    if fs == [] then []
    else
      var n := |fs| - 1;
      var rest := Accepted(fs[..n], subEvents, replies);
      if FilterCode(fs[n], n, rest, subEvents, replies) == SUCCESS then rest + [fs[n]] else rest
  }

  function FilterCode(f: Filter, n: nat, accepted: seq<Filter>, subEvents: set<EventId>, replies: Replies): Code {
    if replies.filter(n).permission != SUCCESS then replies.filter(n).permission
    else if f in accepted then BAD_PARAM
    else if f.eventId in subEvents then replies.filter(n).outside
    else SUCCESS
  }

  /** The first phase of the replay: the events that could be subscribed again. */
  function Again(events: set<EventId>, replies: Replies): set<EventId> {
    set e | e in events && Resubscribed(replies, e)
  }

  /** What a replay leaves: the events that could be subscribed again and the accepted filters, in order. */
  ghost predicate Rebuilds(again: Session, events: set<EventId>, fs: seq<Filter>, replies: Replies) {
    again.subEvents == Again(events, replies) && SameFilters(again, Accepted(fs, again.subEvents, replies))
  }

  lemma NoneAgain(events: set<EventId>, replies: Replies)
    ensures Again(events - events, replies) == {}
  {
  }

  lemma OneMoreAgain(events: set<EventId>, left: set<EventId>, e: EventId, replies: Replies)
    requires e in left && left <= events
    ensures Again(events - (left - {e}), replies) ==
            if Resubscribed(replies, e) then Again(events - left, replies) + {e} else Again(events - left, replies)
    ensures e !in Again(events - left, replies)
  {
  }

  class EventSubscribeClient {
    const server: SessionServer
    var subscribedEventIds: set<EventId>
    var filters: seq<Filter>

    constructor (server: SessionServer)
      ensures this.server == server && subscribedEventIds == {} && filters == []
    {
      this.server := server;
      subscribedEventIds, filters := {}, [];
    }

    ghost function State(): World
      reads this, server
    {
      World(server.session, subscribedEventIds, filters)
    }

    method Subscribe(e: EventId, a: Answer) returns (code: Code)
      modifies this, server
      ensures State() == Next(old(State()), Call.Subscribe(e, a))
      ensures code == Subscribing(old(server.session), e, a).code
    {
      code := server.InsertSubscribeRecord(e, a);
      if code != SUCCESS {
        return;
      }
      subscribedEventIds := subscribedEventIds + {e};
    }

    method Unsubscribe(e: EventId, a: Answer) returns (code: Code)
      modifies this, server
      ensures State() == Next(old(State()), Call.Unsubscribe(e, a))
      ensures code == Unsubscribing(old(server.session), e, a).code
    {
      code := server.RemoveSubscribeRecord(e, a);
      if code != SUCCESS {
        return;
      }
      subscribedEventIds := subscribedEventIds - {e};
    }

    method AddFilter(f: Filter, a: Answer) returns (code: Code)
      modifies this, server
      ensures State() == Next(old(State()), Call.AddFilter(f, a))
      ensures code == AddingFilter(old(server.session), f, a).code
    {
      code := server.InsertSubscribeMute(f, a);
      if code != SUCCESS {
        return;
      }
      filters := filters + [f];
    }

    method RemoveFilter(f: Filter, a: Answer) returns (code: Code)
      modifies this, server
      ensures State() == Next(old(State()), Call.RemoveFilter(f, a))
      ensures code == RemovingFilter(old(server.session), f, a).code
    {
      code := server.RemoveSubscribeMute(f, a);
      if code != SUCCESS {
        return;
      }
      filters := EraseFirst(filters, f);
    }

    /** One attempt of `HandleDeath` that has reached the server: it makes a new session and replays the client's books,
        the events in any order and the filters in theirs; failures are passed over. */
    method Replay(events: set<EventId>, fs: seq<Filter>, create: Answer, replies: Replies) returns (created: bool)
      requires server.session == None
      modifies server
      ensures created <==> create.permission == SUCCESS
      ensures !created ==> server.session == None
      ensures created ==> server.session.Some? && Rebuilds(server.session.value, events, fs, replies)
    {
      var code := server.CreatClient(create);
      if code != SUCCESS {
        return false;
      }
      var left := events;
      NoneAgain(events, replies);
      while left != {}
        invariant left <= events
        invariant server.session == Some(Session(Again(events - left, replies), map[]))
      {
        ghost var some := Inhabited(left);
        var e :| e in left;
        var _ := server.InsertSubscribeRecord(e, replies.subscribe(e));
        OneMoreAgain(events, left, e, replies);
        left := left - {e};
      }
      assert events - left == events;
      ghost var subEvents := Again(events, replies);
      for i := 0 to |fs|
        invariant server.session.Some? && server.session.value.subEvents == subEvents
        invariant SameFilters(server.session.value, Accepted(fs[..i], subEvents, replies))
        invariant NoRepeats(Accepted(fs[..i], subEvents, replies))
      {
        assert fs[..i + 1][..i] == fs[..i];
        ghost var s, accepted := server.session.value, Accepted(fs[..i], subEvents, replies);
        FiltersForMembers(accepted, fs[i].eventId);
        if fs[i] !in accepted {
          AddFilterMirrors(s, accepted, fs[i]);
        }
        var _ := server.InsertSubscribeMute(fs[i], replies.filter(i));
      }
      assert fs[..|fs|] == fs;
      return true;
    }

    /** `HandleDeath`: attempt after attempt until one makes a session, then the replay of the books as they were when it
        started. If they mirrored the lost session, that session is rebuilt exactly if every call was answered with
        success. */
    method HandleDeath(attempts: nat -> Attempt, ghost lost: Session) returns (recovered: bool, ghost replies: Replies)
      requires server.session == None
      requires Mirrors(World(Some(lost), subscribedEventIds, filters))
      modifies server
      ensures recovered <==> exists i: nat :: i < RECONNECT_ATTEMPTS && Reaches(attempts(i))
      ensures recovered <==> server.session.Some?
      ensures recovered ==> Rebuilds(server.session.value, subscribedEventIds, filters, replies)
      ensures recovered ==>
                (server.session.value == lost <==>
                 AllAccepted(World(Some(lost), subscribedEventIds, filters), replies))
    {
      replies := attempts(0).replies;
      var events, fs := subscribedEventIds, filters;
      for i := 0 to RECONNECT_ATTEMPTS
        invariant server.session == None
        invariant forall j: nat :: j < i ==> !Reaches(attempts(j))
      {
        if !attempts(i).reachable {
          continue;
        }
        var created := Replay(events, fs, attempts(i).create, attempts(i).replies);
        if created {
          replies := attempts(i).replies;
          assert Reaches(attempts(i));
          RecoveryIsExact(World(Some(lost), events, fs), server.session.value, replies);
          return true, replies;
        }
      }
      return false, replies;
    }
  }

  /** A client exists once the server has made its session. */
  method CreatClient(server: SessionServer, a: Answer) returns (code: Code, client: EventSubscribeClient?)
    modifies server
    ensures code == Creating(old(server.session), a).code
    ensures code == SUCCESS ==> client != null && fresh(client) && client.server == server && client.State() == FRESH
    ensures code != SUCCESS ==> client == null && server.session == old(server.session)
  {
    code := server.CreatClient(a);
    client := null;
    if code == SUCCESS {
      client := new EventSubscribeClient(server);
    }
  }

  // ---------------------------------------------------------------- what recovery achieves

  predicate FiltersAccepted(fs: seq<Filter>, subEvents: set<EventId>, replies: Replies) {
    forall i :: 0 <= i < |fs| ==> FilterCode(fs[i], i, [], subEvents, replies) == SUCCESS
  }

  predicate AllAccepted(w: World, replies: Replies) {
    (forall e :: e in w.subscribed ==> Resubscribed(replies, e)) && FiltersAccepted(w.filters, w.subscribed, replies)
  }

  lemma {:induction false} AcceptedAll(fs: seq<Filter>, subEvents: set<EventId>, replies: Replies)
    requires NoRepeats(fs)
    ensures FiltersAccepted(fs, subEvents, replies) <==> Accepted(fs, subEvents, replies) == fs
    ensures |Accepted(fs, subEvents, replies)| <= |fs|
    ensures forall f :: f in Accepted(fs, subEvents, replies) ==> f in fs
  {
    if fs != [] {
      var n := |fs| - 1;
      AcceptedAll(fs[..n], subEvents, replies);
      assert fs == fs[..n] + [fs[n]];
      assert fs[n] !in fs[..n];
      if Accepted(fs, subEvents, replies) == fs {
        assert |Accepted(fs[..n], subEvents, replies)| == n;
        assert Accepted(fs, subEvents, replies)[..n] == Accepted(fs[..n], subEvents, replies);
      }
    }
  }

  lemma SessionsEqual(s: Session, t: Session, fs: seq<Filter>)
    requires SameFilters(s, fs) && SameFilters(t, fs) && s.subEvents == t.subEvents
    ensures s == t
  {
    forall e
      ensures e in s.eventFilters <==> e in t.eventFilters
    {
      assert FiltersAt(s, e) == FiltersAt(t, e);
    }
    forall e | e in s.eventFilters
      ensures s.eventFilters[e] == t.eventFilters[e]
    {
      assert FiltersAt(s, e) == FiltersAt(t, e);
    }
    assert s.eventFilters == t.eventFilters;
  }

  /** After a death in any run, the replay rebuilds exactly the session that was lost if and only if every call of it is
      answered with success. */
  lemma RecoveryIsExact(w: World, again: Session, replies: Replies)
    requires Mirrors(w) && Rebuilds(again, w.subscribed, w.filters, replies)
    ensures again == w.server.value <==> AllAccepted(w, replies)
  {
    var s := w.server.value;
    AcceptedAll(w.filters, again.subEvents, replies);
    if AllAccepted(w, replies) {
      assert again.subEvents == w.subscribed;
      SessionsEqual(again, s, w.filters);
    }
    if again == s {
      assert forall e :: e in w.subscribed ==> e in again.subEvents;
      SameListsSameMembers(Accepted(w.filters, again.subEvents, replies), w.filters, s);
      MembersAccepted(w.filters, again.subEvents, replies);
    }
  }

  lemma {:induction false} MembersAccepted(fs: seq<Filter>, subEvents: set<EventId>, replies: Replies)
    requires NoRepeats(fs) && forall f :: f in fs ==> f in Accepted(fs, subEvents, replies)
    ensures FiltersAccepted(fs, subEvents, replies)
  {
    if fs != [] {
      var n := |fs| - 1;
      var rest := Accepted(fs[..n], subEvents, replies);
      AcceptedAll(fs[..n], subEvents, replies);
      assert fs[n] in fs && fs[n] !in fs[..n];
      assert fs[n] !in rest;
      forall f | f in fs[..n]
        ensures f in rest
      {
        assert f in fs && f != fs[n];
        assert f in Accepted(fs, subEvents, replies);
      }
      MembersAccepted(fs[..n], subEvents, replies);
      assert FilterCode(fs[n], n, [], subEvents, replies) == SUCCESS;
      assert forall i :: 0 <= i < n ==> fs[..n][i] == fs[i];
    }
  }

  /** Accepted filters that make the same lists are all of them. */
  lemma SameListsSameMembers(accepted: seq<Filter>, fs: seq<Filter>, s: Session)
    requires SameFilters(s, accepted) && SameFilters(s, fs)
    ensures forall f :: f in fs ==> f in accepted
  {
    forall f | f in fs
      ensures f in accepted
    {
      FiltersForMembers(fs, f.eventId);
      FiltersForMembers(accepted, f.eventId);
      assert FiltersFor(fs, f.eventId) == FiltersAt(s, f.eventId) == FiltersFor(accepted, f.eventId);
    }
  }
}
