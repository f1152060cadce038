/** The subscribers of the collector service, event by event, on top of the counted collector table. */
module SubscriberTable {
  import opened Common
  import opened DataCollections

  const MAX_APP_SUBSCRIBE_COUNT := 100

  /** A subscriber object; two objects with the same fields differ in their handle. */
  datatype Subscriber = Subscriber(handle: nat, app: App, remote: nat, eventId: EventId)

  datatype App = App(name: string)

  type Table = map<EventId, set<Subscriber>>

  function At(t: Table, e: EventId): set<Subscriber> {
    if e in t then t[e] else {}
  }

  predicate HasRemote(ss: set<Subscriber>, remote: nat) {
    exists s :: s in ss && s.remote == remote
  }

  function OfApp(ss: set<Subscriber>, app: App): set<Subscriber> {
    set s | s in ss && s.app == app
  }

  /** Every subscriber stands under its own event, and no app has two of them there. */
  ghost predicate Valid(t: Table) {
    && (forall e, s :: e in t && s in t[e] ==> s.eventId == e)
    && (forall e, s, u :: e in t && s in t[e] && u in t[e] && s.app == u.app ==> s == u)
  }

  function EventIdsOf(t: Table, remote: nat): set<EventId> {
    set e | e in t && HasRemote(t[e], remote)
  }

  ghost predicate AtMostOneEach(t: Table, remote: nat) {
    forall e, s, u :: e in t && s in t[e] && u in t[e] && s.remote == remote && u.remote == remote ==> s == u
  }

  ghost predicate NoneLeft(t: Table, remote: nat) {
    forall e :: e in t ==> !HasRemote(t[e], remote)
  }

  /** The entry of `e` lost exactly one subscriber of the remote object, and is gone if that was its last one. */
  ghost predicate LostOne(t: Table, t1: Table, remote: nat, e: EventId) {
    e in t && exists s :: s in t[e] && s.remote == remote && At(t1, e) == t[e] - {s} && (e in t1 <==> t[e] != {s})
  }

  ghost predicate Untouched(t: Table, t1: Table, e: EventId) {
    (e in t <==> e in t1) && At(t, e) == At(t1, e)
  }

  // ---------------------------------------------------------------- the ledger below, one event at a time

  ghost predicate SameAt(l: Ledger, l1: Ledger, e: EventId) {
    && (e in l.loaders <==> e in l1.loaders)
    && (e in l.counts <==> e in l1.counts)
    && (e in l.counts ==> l.counts[e] == l1.counts[e])
  }

  function Repeated(l: Ledger, e: EventId, k: nat, fw: Framework): Ledger {
    if k == 0 then l else Unsubscribed(Repeated(l, e, k - 1, fw), [e], fw)
  }

  lemma UnsubscribedOne(l: Ledger, e: EventId, fw: Framework)
    ensures Unsubscribed(l, [e], fw).counts == if e in l.loaders then Dropped(l.counts, e) else l.counts
    ensures forall f :: f in Unsubscribed(l, [e], fw).loaders <==>
              f in l.loaders && !(f == e && !StillCounted(l.counts, e) && fw.alive(e))
  {
    assert [e][..0] == [];
    assert Uncounted(l.counts, l.loaders, [e][..0]) == l.counts;
    assert ToStop(l.counts, l.loaders, [e][..0]) == [];
  }

  /** Asking `k` times to stop collecting an event takes up to `k` counts away, and touches no other event. */
  lemma {:induction false} RepeatedIs(l: Ledger, e: EventId, k: nat, fw: Framework)
    requires AllAlive(fw) && e in l.loaders && e in l.counts && 1 <= l.counts[e] < UINT32_MODULUS
    ensures e in Repeated(l, e, k, fw).loaders <==> l.counts[e] > k
    ensures e in Repeated(l, e, k, fw).counts <==> l.counts[e] > k
    ensures l.counts[e] > k ==> Repeated(l, e, k, fw).counts[e] == l.counts[e] - k
  {
    if k > 0 {
      RepeatedIs(l, e, k - 1, fw);
      UnsubscribedOne(Repeated(l, e, k - 1, fw), e, fw);
    }
  }

  lemma {:induction false} RepeatedElsewhere(l: Ledger, e: EventId, k: nat, fw: Framework, f: EventId)
    requires f != e
    ensures SameAt(l, Repeated(l, e, k, fw), f)
  {
    if k > 0 {
      RepeatedElsewhere(l, e, k - 1, fw, f);
      UnsubscribedOne(Repeated(l, e, k - 1, fw), e, fw);
    }
  }

  /** Between one and `n` requests to stop collecting `e` were made. */
  ghost predicate Dismissed(l: Ledger, l1: Ledger, e: EventId, n: nat, fw: Framework) {
    exists k :: 1 <= k <= n && SameAt(Repeated(l, e, k, fw), l1, e)
  }

  // ---------------------------------------------------------------- the operations

  lemma {:induction false} LeastExists(es: set<EventId>) returns (least: EventId)
    requires es != {}
    ensures least in es && forall e :: e in es ==> least <= e
    decreases |es|
  {
    var e := Inhabited(es);
    var rest := es - {e};
    if rest == {} {
      assert forall f :: f in es ==> f in rest || f == e;
      return e;
    }
    var m := LeastExists(rest);
    assert forall f :: f in es ==> f in rest || f == e;
    least := if e <= m then e else m;
  }

  class SecurityCollectorSubscriberManager {
    var eventToSubscribers: Table
    const collection: DataCollection

    constructor (collection: DataCollection)
      ensures eventToSubscribers == map[] && this.collection == collection
    {
      eventToSubscribers := map[];
      this.collection := collection;
    }

    /** The count of an app as the source computes it: each event overwrites the count of the one before. */
    method GetAppSubscribeCount(app: App) returns (count: nat)
      ensures eventToSubscribers == map[] ==> count == 0
      ensures eventToSubscribers != map[] ==>
                exists last :: last in eventToSubscribers && (forall e :: e in eventToSubscribers ==> e <= last) &&
                               count == |OfApp(eventToSubscribers[last], app)|
      ensures Valid(eventToSubscribers) ==> count <= 1
    {
      count := 0;
      var left := eventToSubscribers.Keys;
      ghost var last := 0;
      while left != {}
        invariant left <= eventToSubscribers.Keys
        invariant left == eventToSubscribers.Keys ==> count == 0
        invariant left < eventToSubscribers.Keys ==>
                    last in eventToSubscribers && last !in left && count == |OfApp(eventToSubscribers[last], app)|
        invariant forall e, f :: e in eventToSubscribers && e !in left && f in left ==> e <= f
        invariant forall e :: e in eventToSubscribers && e !in left ==> e <= last
        invariant Valid(eventToSubscribers) ==> count <= 1
      {
        ghost var _ := LeastExists(left);
        var e :| e in left && forall f :: f in left ==> e <= f;
        count := |OfApp(eventToSubscribers[e], app)|;
        AtMostOneOfApp(eventToSubscribers, e, app);
        left, last := left - {e}, e;
      }
    }

    method FindEventIds(remote: nat) returns (ids: set<EventId>)
      ensures ids == EventIdsOf(eventToSubscribers, remote)
    {
      ids := {};
      var left := eventToSubscribers.Keys;
      while left != {}
        invariant left <= eventToSubscribers.Keys
        invariant ids == set e | e in EventIdsOf(eventToSubscribers, remote) && e !in left
      {
        ghost var some := Inhabited(left);
        var e :| e in left;
        if HasRemote(eventToSubscribers[e], remote) {
          ids := ids + {e};
        }
        left := left - {e};
      }
    }

    /** One subscriber of the remote object for each event that has any. */
    method FindSecurityCollectorSubscribers(remote: nat) returns (found: set<Subscriber>)
      requires Valid(eventToSubscribers)
      ensures OneEach(eventToSubscribers, remote, EventIdsOf(eventToSubscribers, remote), found)
    {
      found := {};
      var left := eventToSubscribers.Keys;
      ghost var seen := {};
      while left != {}
        invariant left <= eventToSubscribers.Keys
        invariant seen == set e | e in EventIdsOf(eventToSubscribers, remote) && e !in left
        invariant OneEach(eventToSubscribers, remote, seen, found)
      {
        ghost var some := Inhabited(left);
        var e :| e in left;
        if HasRemote(eventToSubscribers[e], remote) {
          var s :| s in eventToSubscribers[e] && s.remote == remote;
          FoundOneMore(eventToSubscribers, remote, seen, found, e, s);
          found := found + {s};
          seen := seen + {e};
        }
        left := left - {e};
      }
      assert seen == EventIdsOf(eventToSubscribers, remote);
    }

    /** Adds a subscriber if its app has none for the event yet and collecting can be started; in a valid table the cap
        on the subscriptions of an app never refuses anything. */
    method SubscribeCollector(subscriber: Option<Subscriber>, fw: Framework) returns (ok: bool)
      requires Valid(eventToSubscribers)
      modifies this`eventToSubscribers, collection
      ensures Valid(eventToSubscribers)
      ensures ok <==> subscriber.Some? && Welcome(old(eventToSubscribers), subscriber.value) &&
                      SubscribeCode(old(collection.State()), [subscriber.value.eventId], fw) == SUCCESS
      ensures subscriber.Some? ==>
                Subscribes(old(eventToSubscribers), old(collection.State()), eventToSubscribers, collection.State(),
                           subscriber.value, fw)
      ensures subscriber.None? ==>
                eventToSubscribers == old(eventToSubscribers) && collection.State() == old(collection.State())
    {
      if subscriber.None? {
        return false;
      }
      var s := subscriber.value;
      var count := GetAppSubscribeCount(s.app);
      if count >= MAX_APP_SUBSCRIBE_COUNT {
        return false;
      }
      if s.eventId !in eventToSubscribers {
        EmptyEntryIsValid(eventToSubscribers, s.eventId);
        eventToSubscribers := eventToSubscribers[s.eventId := {}];
      }
      if exists u :: u in eventToSubscribers[s.eventId] && u.app == s.app {
        return false;
      }
      var ret := collection.SubscribeCollectors([s.eventId], true, fw);
      if ret != SUCCESS {
        return false;
      }
      AddedIsValid(eventToSubscribers, s);
      eventToSubscribers := eventToSubscribers[s.eventId := eventToSubscribers[s.eventId] + {s}];
      return true;
    }

    /** The inner loop of the removal: every found subscriber is taken out of the set of this one event, and whenever
        that set is empty afterwards the collector is asked to stop and the entry is erased. */
    method RemoveFrom(e: EventId, found: set<Subscriber>, ghost own: Subscriber, fw: Framework)
      requires e in eventToSubscribers && own in found && own in eventToSubscribers[e]
      requires forall s :: s in found && s in eventToSubscribers[e] ==> s == own
      modifies this`eventToSubscribers, collection
      ensures eventToSubscribers == Without(old(eventToSubscribers), e, own)
      ensures old(eventToSubscribers)[e] != {own} ==> collection.State() == old(collection.State())
      ensures old(eventToSubscribers)[e] == {own} ==>
                exists k :: 1 <= k <= |found| && collection.State() == Repeated(old(collection.State()), e, k, fw)
    {
      var left := found;
      ghost var k := 0;
      ghost var t0, l0 := eventToSubscribers, collection.State();
      while left != {}
        invariant left <= found
        invariant eventToSubscribers == if own in left then t0 else Without(t0, e, own)
        invariant own in left || t0[e] != {own} ==> k == 0
        invariant own !in left && t0[e] == {own} ==> 1 <= k
        invariant k <= |found| - |left|
        invariant collection.State() == Repeated(l0, e, k, fw)
      {
        var s :| s in left;
        EraseIs(t0, e, own, s);
        var rest := At(eventToSubscribers, e) - {s};
        eventToSubscribers := eventToSubscribers[e := rest];
        if rest == {} {
          var _ := collection.UnsubscribeCollectors([e], fw);
          k := k + 1;
          eventToSubscribers := eventToSubscribers - {e};
        }
        left := left - {s};
      }
    }

    /** One turn of the outer loop of the removal, for the event `e`; the events of `done` are behind it. */
    method RemoveEvent(remote: nat, e: EventId, ghost t0: Table, ghost l0: Ledger, ghost ids: set<EventId>,
                       ghost done: set<EventId>, fw: Framework)
      requires Valid(eventToSubscribers) && ids == EventIdsOf(t0, remote) && done <= ids && e in ids - done
      requires RemovedOn(t0, eventToSubscribers, remote, done)
      requires FollowedOn(t0, eventToSubscribers, l0, collection.State(), done, |ids|, fw)
      modifies this`eventToSubscribers, collection
      ensures Valid(eventToSubscribers)
      ensures RemovedOn(t0, eventToSubscribers, remote, done + {e})
      ensures FollowedOn(t0, eventToSubscribers, l0, collection.State(), done + {e}, |ids|, fw)
    {
      var found := FindSecurityCollectorSubscribers(remote);
      FoundAmong(t0, eventToSubscribers, remote, ids, done, found, e);
      ghost var own :| own in found && own.eventId == e;
      ghost var t1, l1 := eventToSubscribers, collection.State();
      RemoveFrom(e, found, own, fw);
      RemovalStep(t0, t1, eventToSubscribers, remote, done, e, own);
      LedgerStep(t0, t1, eventToSubscribers, l0, l1, collection.State(), remote, done, e, own, |found|, |ids|, fw);
    }

    /** The outer loop of the removal, in the order of the event ids. */
    method RemoveEvents(remote: nat, ids: set<EventId>, fw: Framework) returns (ok: bool, ghost done: set<EventId>)
      requires Valid(eventToSubscribers) && ids == EventIdsOf(eventToSubscribers, remote)
      modifies this`eventToSubscribers, collection
      ensures Valid(eventToSubscribers)
      ensures ok <==> -1 !in ids
      ensures done == if ok then ids else Under(ids, -1)
      ensures RemovedOn(old(eventToSubscribers), eventToSubscribers, remote, done)
      ensures FollowedOn(old(eventToSubscribers), eventToSubscribers, old(collection.State()), collection.State(), done,
                         |ids|, fw)
    {
      ghost var t0, l0 := eventToSubscribers, collection.State();
      var left := ids;
      done := {};
      while left != {}
        invariant left <= ids && done == ids - left && -1 !in done
        invariant AllBefore(done, left)
        invariant Valid(eventToSubscribers)
        invariant RemovedOn(t0, eventToSubscribers, remote, done)
        invariant FollowedOn(t0, eventToSubscribers, l0, collection.State(), done, |ids|, fw)
      {
        ghost var _ := LeastExists(left);
        var e :| e in left && forall f :: f in left ==> e <= f;
        if e == -1 {
          UpTo(ids, left, e);
          return false, done;
        }
        RemoveEvent(remote, e, t0, l0, ids, done, fw);
        OneLess(ids, left, e);
        left, done := left - {e}, done + {e};
      }
      return true, done;
    }

    /** Removes a remote object: each of its events loses exactly one of its subscribers, and an event whose last
        subscriber goes is dismissed at least once and at most once per event of the object. An event numbered -1 ends
        the removal, after the events below it. */
    method UnsubscribeCollector(remote: nat, fw: Framework) returns (ok: bool)
      requires Valid(eventToSubscribers)
      modifies this`eventToSubscribers, collection
      ensures Valid(eventToSubscribers)
      ensures var ids := EventIdsOf(old(eventToSubscribers), remote);
              ok <==> ids != {} && -1 !in ids
      ensures EventIdsOf(old(eventToSubscribers), remote) == {} ==>
                eventToSubscribers == old(eventToSubscribers) && collection.State() == old(collection.State())
      ensures Unsubscribes(old(eventToSubscribers), old(collection.State()), eventToSubscribers, collection.State(),
                           remote, fw)
    {
      var ids := FindEventIds(remote);
      if ids == {} {
        return false;
      }
      ghost var done;
      ok, done := RemoveEvents(remote, ids, fw);
    }
  }

  function Under(es: set<EventId>, bound: EventId): set<EventId> {
    set e | e in es && e < bound
  }

  lemma UpTo(ids: set<EventId>, left: set<EventId>, e: EventId)
    requires e in left && left <= ids && forall f :: f in left ==> e <= f
    requires AllBefore(ids - left, left)
    ensures ids - left == Under(ids, e)
  {
  }

  ghost predicate AllBefore(es: set<EventId>, fs: set<EventId>) {
    forall e, f :: e in es && f in fs ==> e < f
  }

  lemma OneLess(ids: set<EventId>, left: set<EventId>, e: EventId)
    requires e in left && left <= ids && AllBefore(ids - left, left) && forall f :: f in left ==> e <= f
    ensures ids - (left - {e}) == (ids - left) + {e}
    ensures AllBefore((ids - left) + {e}, left - {e})
  {
  }

  function Without(t: Table, e: EventId, s: Subscriber): Table
    requires e in t
  {
    if t[e] == {s} then t - {e} else t[e := t[e] - {s}]
  }

  function Erased(t: Table, e: EventId, s: Subscriber): Table {
    if At(t, e) - {s} == {} then t[e := {}] - {e} else t[e := At(t, e) - {s}]
  }

  /** Erasing a subscriber from the set of `e`, before or after the one that belongs there is erased. */
  lemma EraseIs(t: Table, e: EventId, own: Subscriber, s: Subscriber)
    requires e in t && own in t[e] && (s in t[e] ==> s == own)
    ensures Erased(t, e, s) == if s == own then Without(t, e, own) else t
    ensures s != own ==> Erased(Without(t, e, own), e, s) == Without(t, e, own)
    ensures At(t, e) - {s} == {} <==> s == own && t[e] == {own}
    ensures s != own ==> (At(Without(t, e, own), e) - {s} == {} <==> t[e] == {own})
  {
    if s != own {
      assert t[e] - {s} == t[e] && own in t[e] - {s};
      assert t[e] - {own} - {s} == t[e] - {own};
      assert t[e] - {own} == {} ==> t[e] == {own};
      if t[e] != {own} {
        assert t[e := t[e] - {own}][e := t[e] - {own}] == t[e := t[e] - {own}];
      } else {
        assert (t - {e})[e := {}] - {e} == t - {e};
      }
      assert t[e := t[e]] == t;
    } else if t[e] == {own} {
      assert t[e := {}] - {e} == t - {e};
    } else {
      assert t[e] - {own} != {};
    }
  }

  predicate Welcome(t: Table, s: Subscriber) {
    forall u :: u in At(t, s.eventId) ==> u.app != s.app
  }

  ghost predicate OneEach(t: Table, remote: nat, es: set<EventId>, found: set<Subscriber>) {
    && (forall s :: s in found ==> s.remote == remote && s.eventId in es && s in At(t, s.eventId))
    && (forall e :: e in es ==> exists s :: s in found && s.eventId == e)
    && (forall s, u :: s in found && u in found && s.eventId == u.eventId ==> s == u)
  }

  lemma FoundOneMore(t: Table, remote: nat, es: set<EventId>, found: set<Subscriber>, e: EventId, s: Subscriber)
    requires OneEach(t, remote, es, found) && e !in es
    requires s.remote == remote && s.eventId == e && s in At(t, e)
    ensures OneEach(t, remote, es + {e}, found + {s})
  {
    forall f | f in es + {e}
      ensures exists u :: u in found + {s} && u.eventId == f
    {
      if f == e {
        assert s in found + {s};
      } else {
        var u :| u in found && u.eventId == f;
        assert u in found + {s};
      }
    }
  }

  lemma {:induction false} NoMoreThanEvents(t: Table, remote: nat, es: set<EventId>, found: set<Subscriber>)
    requires OneEach(t, remote, es, found)
    ensures |found| <= |es|
    decreases |found|
  {
    if found != {} {
      var s :| s in found;
      var rest := found - {s};
      forall e | e in es - {s.eventId}
        ensures exists u :: u in rest && u.eventId == e
      {
        var u :| u in found && u.eventId == e;
        assert u in rest;
      }
      NoMoreThanEvents(t, remote, es - {s.eventId}, rest);
    }
  }

  /** The events of a set have lost one subscriber of the remote object each; the others are as before. */
  ghost predicate RemovedOn(t: Table, t1: Table, remote: nat, es: set<EventId>) {
    && (forall e :: e in es ==> LostOne(t, t1, remote, e))
    && (forall e :: e !in es ==> Untouched(t, t1, e))
  }

  ghost predicate Removed(t: Table, t1: Table, remote: nat) {
    RemovedOn(t, t1, remote, EventIdsOf(t, remote))
  }

  /** Below, an event is dismissed if it lost its last subscriber and left alone otherwise. */
  ghost predicate Followed(t: Table, t1: Table, l: Ledger, l1: Ledger, e: EventId, n: nat, fw: Framework) {
    if e in t && e !in t1 then Dismissed(l, l1, e, n, fw) else SameAt(l, l1, e)
  }

  ghost predicate FollowedOn(t: Table, t1: Table, l: Ledger, l1: Ledger, es: set<EventId>, n: nat, fw: Framework) {
    && (forall e :: e in es ==> Followed(t, t1, l, l1, e, n, fw))
    && (forall e :: e !in es ==> SameAt(l, l1, e))
  }

  /** The effect of one subscription: a welcome subscriber whose collector starts is added to its event, nothing else
      in the table changes, and below only a welcome subscriber is counted. */
  ghost predicate Subscribes(t: Table, l: Ledger, t1: Table, l1: Ledger, s: Subscriber, fw: Framework) {
    var added := Welcome(t, s) && SubscribeCode(l, [s.eventId], fw) == SUCCESS;
    && (forall f :: At(t1, f) == At(t, f) + (if added && f == s.eventId then {s} else {}))
    && l1 == (if Welcome(t, s) then Subscribed(l, [s.eventId], fw) else l)
  }

  /** The events that a removal gets to: all of them, or those before an event numbered -1. */
  function Reach(ids: set<EventId>): set<EventId> {
    if -1 in ids then Under(ids, -1) else ids
  }

  /** The effect of removing a remote object. */
  ghost predicate Unsubscribes(t: Table, l: Ledger, t1: Table, l1: Ledger, remote: nat, fw: Framework) {
    var ids := EventIdsOf(t, remote);
    RemovedOn(t, t1, remote, Reach(ids)) && FollowedOn(t, t1, l, l1, Reach(ids), |ids|, fw)
  }

  lemma EmptyEntryIsValid(t: Table, e: EventId)
    requires Valid(t) && e !in t
    ensures Valid(t[e := {}])
  {
  }

  lemma AddedIsValid(t: Table, s: Subscriber)
    requires Valid(t) && s.eventId in t && Welcome(t, s)
    ensures Valid(t[s.eventId := t[s.eventId] + {s}])
  {
    var t1 := t[s.eventId := t[s.eventId] + {s}];
    forall e, u: Subscriber | e in t1 && u in t1[e]
      ensures u.eventId == e
    {
      assert u in At(t, e) || u == s;
    }
    forall e, u: Subscriber, v: Subscriber | e in t1 && u in t1[e] && v in t1[e] && u.app == v.app
      ensures u == v
    {
      assert (u in At(t, e) || u == s) && (v in At(t, e) || v == s);
    }
  }

  lemma AtMostOneOfApp(t: Table, e: EventId, app: App)
    requires e in t
    ensures Valid(t) ==> |OfApp(t[e], app)| <= 1
  {
    var ss := OfApp(t[e], app);
    if Valid(t) && ss != {} {
      var s :| s in ss;
      assert ss == {s};
    }
  }

  /** What is found in the middle of a removal: the event at hand still has a subscriber of the remote object, and no
      more are found than the object had events. */
  lemma FoundAmong(t0: Table, t: Table, remote: nat, ids: set<EventId>, done: set<EventId>, found: set<Subscriber>,
                   e: EventId)
    requires ids == EventIdsOf(t0, remote) && done <= ids && e in ids - done && RemovedOn(t0, t, remote, done)
    requires OneEach(t, remote, EventIdsOf(t, remote), found)
    ensures exists s :: s in found && s.eventId == e
    ensures |found| <= |ids|
  {
    assert Untouched(t0, t, e) && e in EventIdsOf(t, remote);
    forall f | f in EventIdsOf(t, remote)
      ensures f in ids
    {
      assert f !in ids ==> Untouched(t0, t, f);
    }
    SubsetSize(EventIdsOf(t, remote), ids);
    NoMoreThanEvents(t, remote, EventIdsOf(t, remote), found);
  }

  lemma RemovalStep(t0: Table, t1: Table, t2: Table, remote: nat, done: set<EventId>, e: EventId, own: Subscriber)
    requires Valid(t1) && e in t1 && own in t1[e] && own.remote == remote && t2 == Without(t1, e, own)
    requires RemovedOn(t0, t1, remote, done) && e !in done
    ensures Valid(t2) && RemovedOn(t0, t2, remote, done + {e})
  {
    assert Untouched(t0, t1, e);
    assert own in t0[e] && At(t2, e) == t0[e] - {own} && LostOne(t0, t2, remote, e);
    forall f | f != e
      ensures f in done ==> LostOne(t0, t2, remote, f)
      ensures f !in done ==> Untouched(t0, t2, f)
    {
      assert Untouched(t1, t2, f);
      if f in done {
        assert LostOne(t0, t1, remote, f);
        var s :| s in t0[f] && s.remote == remote && At(t1, f) == t0[f] - {s} && (f in t1 <==> t0[f] != {s});
        assert At(t2, f) == t0[f] - {s};
      } else {
        assert Untouched(t0, t1, f);
      }
    }
  }

  lemma LedgerStep(t0: Table, t1: Table, t2: Table, l0: Ledger, l1: Ledger, l2: Ledger, remote: nat,
                   done: set<EventId>, e: EventId, own: Subscriber, m: nat, n: nat, fw: Framework)
    requires e in t1 && own in t1[e] && t2 == Without(t1, e, own) && e !in done && m <= n
    requires RemovedOn(t0, t1, remote, done) && FollowedOn(t0, t1, l0, l1, done, n, fw)
    requires t1[e] != {own} ==> l2 == l1
    requires t1[e] == {own} ==> exists k :: 1 <= k <= m && l2 == Repeated(l1, e, k, fw)
    ensures FollowedOn(t0, t2, l0, l2, done + {e}, n, fw)
  {
    assert Untouched(t0, t1, e) && SameAt(l0, l1, e);
    forall f | f != e
      ensures SameAt(l1, l2, f)
    {
      if t1[e] == {own} {
        var k :| 1 <= k <= m && l2 == Repeated(l1, e, k, fw);
        RepeatedElsewhere(l1, e, k, fw, f);
      }
    }
    if t1[e] == {own} {
      var k :| 1 <= k <= m && l2 == Repeated(l1, e, k, fw);
      RepeatedSame(l0, l1, e, k, fw);
    }
    assert Followed(t0, t2, l0, l2, e, n, fw);
    forall f | f !in done + {e}
      ensures SameAt(l0, l2, f)
    {
      assert SameAt(l0, l1, f) && SameAt(l1, l2, f);
    }
    forall f | f in done
      ensures Followed(t0, t2, l0, l2, f, n, fw)
    {
      FollowedStays(t0, t1, t2, l0, l1, l2, f, n, fw);
    }
  }

  lemma FollowedStays(t0: Table, t1: Table, t2: Table, l0: Ledger, l1: Ledger, l2: Ledger, f: EventId, n: nat,
                      fw: Framework)
    requires Followed(t0, t1, l0, l1, f, n, fw) && (f in t1 <==> f in t2) && SameAt(l1, l2, f)
    ensures Followed(t0, t2, l0, l2, f, n, fw)
  {
    if f in t0 && f !in t1 {
      var k :| 1 <= k <= n && SameAt(Repeated(l0, f, k, fw), l1, f);
      assert SameAt(Repeated(l0, f, k, fw), l2, f);
    }
  }

  lemma {:induction false} RepeatedSame(l: Ledger, l1: Ledger, e: EventId, k: nat, fw: Framework)
    requires SameAt(l, l1, e)
    ensures SameAt(Repeated(l, e, k, fw), Repeated(l1, e, k, fw), e)
  {
    if k > 0 {
      RepeatedSame(l, l1, e, k - 1, fw);
      UnsubscribedOne(Repeated(l, e, k - 1, fw), e, fw);
      UnsubscribedOne(Repeated(l1, e, k - 1, fw), e, fw);
    }
  }

  // ---------------------------------------------------------------- what a removal achieves

  /** After the removal of a remote object nothing of it is left exactly when no event had two subscribers of it. */
  lemma RemovedCompletely(t: Table, t1: Table, remote: nat)
    requires Removed(t, t1, remote)
    ensures NoneLeft(t1, remote) <==> AtMostOneEach(t, remote)
  {
    if AtMostOneEach(t, remote) {
      forall e | e in t1
        ensures !HasRemote(t1[e], remote)
      {
        if e in EventIdsOf(t, remote) {
          assert LostOne(t, t1, remote, e);
        } else {
          assert Untouched(t, t1, e);
        }
      }
    } else {
      var e, s, u :| e in t && s in t[e] && u in t[e] && s.remote == remote && u.remote == remote && s != u;
      assert e in EventIdsOf(t, remote) && LostOne(t, t1, remote, e);
      var x :| x in t[e] && At(t1, e) == t[e] - {x} && (e in t1 <==> t[e] != {x});
      var y := if x == s then u else s;
      assert y in At(t1, e) && e in t1 && HasRemote(t1[e], remote);
    }
  }

  /** The subscribers of other remote objects stay. */
  lemma OthersStay(t: Table, t1: Table, remote: nat, e: EventId, s: Subscriber)
    requires Removed(t, t1, remote) && s.remote != remote
    ensures s in At(t, e) <==> s in At(t1, e)
  {
    if e in EventIdsOf(t, remote) {
      assert LostOne(t, t1, remote, e);
    } else {
      assert Untouched(t, t1, e);
    }
  }
}
