/** When the subscriber table and the collectors below it agree: over every run of one app, but not with two. */
module SubscriberAgreement {
  import opened Common
  import opened DataCollections
  import opened SubscriberTable

  /** Subscribed events and loaded collectors are the same, and every collector serves one subscription. */
  ghost predicate Exact(t: Table, l: Ledger) {
    && (forall e :: e in l.loaders <==> At(t, e) != {})
    && (forall e :: e in l.counts <==> At(t, e) != {})
    && (forall e :: e in l.counts ==> l.counts[e] == 1)
  }

  ghost predicate OneApp(t: Table, app: App) {
    forall e, s :: e in t && s in t[e] ==> s.app == app
  }

  lemma SubscribedOne(l: Ledger, e: EventId, fw: Framework)
    requires e !in l.loaders && e !in l.counts
    ensures SubscribeCode(l, [e], fw) == StartCode(fw, 0)
    ensures forall f :: f in Subscribed(l, [e], fw).loaders <==> f in l.loaders || (f == e && StartCode(fw, 0) == SUCCESS)
    ensures Subscribed(l, [e], fw).counts == l.counts[e := 1]
  {
    var ids := [e];
    assert ids[..0] == [] && ids[..1] == ids && ids[0] == e;
    assert Counted(l.counts, ids) == Bumped(Counted(l.counts, ids[..0]), e);
    if StartCode(fw, 0) == SUCCESS {
      assert FirstFailure(l.loaders, ids, fw, 0) == 1;
      LoadingKeys(l.loaders, ids, fw);
    } else {
      assert Fails(l.loaders, ids, 0, fw);
      assert FirstFailure(l.loaders, ids, fw, 0) == 0;
      assert Loading(l.loaders, ids[..0], fw) == l.loaders && NewlyLoaded(l.loaders, ids[..0]) == [];
    }
  }

  lemma NobodyThere(t: Table, s: Subscriber)
    requires OneApp(t, s.app) && Welcome(t, s)
    ensures At(t, s.eventId) == {}
  {
    assert forall u :: u in At(t, s.eventId) ==> u.app == s.app;
  }

  lemma StartedKeepsExact(t: Table, t1: Table, l: Ledger, l1: Ledger, s: Subscriber)
    requires Exact(t, l) && At(t, s.eventId) == {}
    requires forall f :: At(t1, f) == if f == s.eventId then {s} else At(t, f)
    requires forall f :: f in l1.loaders <==> f in l.loaders || f == s.eventId
    requires l1.counts == l.counts[s.eventId := 1]
    ensures Exact(t1, l1)
  {
  }

  /** With one app, a welcome subscription keeps table and collectors in agreement exactly when it starts its
      collector; a failed one leaves a count behind. */
  lemma SubscribeKeepsExactIffStarted(t: Table, t1: Table, l: Ledger, l1: Ledger, s: Subscriber, fw: Framework)
    requires Exact(t, l) && OneApp(t, s.app) && Welcome(t, s) && Subscribes(t, l, t1, l1, s, fw)
    ensures Exact(t1, l1) <==> StartCode(fw, 0) == SUCCESS
  {
    NobodyThere(t, s);
    SubscribedOne(l, s.eventId, fw);
    if StartCode(fw, 0) == SUCCESS {
      StartedKeepsExact(t, t1, l, l1, s);
    } else {
      assert At(t1, s.eventId) == {};
    }
  }

  /** And removals keep the agreement on whatever events they get to, repeated dismissals included. */
  lemma RemovalKeepsExact(t: Table, t1: Table, l: Ledger, l1: Ledger, remote: nat, es: set<EventId>, n: nat,
                          fw: Framework)
    requires Exact(t, l) && AllAlive(fw)
    requires RemovedOn(t, t1, remote, es) && FollowedOn(t, t1, l, l1, es, n, fw)
    ensures Exact(t1, l1)
  {
    forall e
      ensures (e in l1.loaders <==> At(t1, e) != {}) && (e in l1.counts <==> At(t1, e) != {})
      ensures e in l1.counts ==> l1.counts[e] == 1
    {
      RemovalKeepsExactAt(t, t1, l, l1, remote, es, n, fw, e);
    }
  }

  lemma RemovalKeepsExactAt(t: Table, t1: Table, l: Ledger, l1: Ledger, remote: nat, es: set<EventId>, n: nat,
                            fw: Framework, e: EventId)
    requires Exact(t, l) && AllAlive(fw)
    requires RemovedOn(t, t1, remote, es) && FollowedOn(t, t1, l, l1, es, n, fw)
    ensures (e in l1.loaders <==> At(t1, e) != {}) && (e in l1.counts <==> At(t1, e) != {})
    ensures e in l1.counts ==> l1.counts[e] == 1
  {
    if e in es {
      assert LostOne(t, t1, remote, e) && Followed(t, t1, l, l1, e, n, fw);
      if e !in t1 {
        var k :| 1 <= k <= n && SameAt(Repeated(l, e, k, fw), l1, e);
        RepeatedIs(l, e, k, fw);
      }
    } else {
      assert Untouched(t, t1, e);
    }
  }

  // ---------------------------------------------------------------- every run of one app

  datatype State = State(table: Table, ledger: Ledger)

  const INIT := State(map[], Ledger(map[], map[]))

  datatype Operation =
    | Subscribe(s: Subscriber, fw: Framework)
    | Unsubscribe(remote: nat, fw: Framework)

  /** What the methods of the manager ensure of one operation. */
  ghost predicate Step(x: State, op: Operation, y: State) {
    match op
    case Subscribe(s, fw) => Subscribes(x.table, x.ledger, y.table, y.ledger, s, fw)
    case Unsubscribe(remote, fw) => Unsubscribes(x.table, x.ledger, y.table, y.ledger, remote, fw)
  }

  ghost predicate Run(states: seq<State>, ops: seq<Operation>) {
    && |states| == |ops| + 1 && states[0] == INIT
    && forall i :: 0 <= i < |ops| ==> Step(states[i], ops[i], states[i + 1])
  }

  /** Subscriptions come from one app and start their collectors; libraries keep handing out their collectors. */
  ghost predicate Regular(op: Operation, app: App) {
    match op
    case Subscribe(s, fw) => s.app == app && StartCode(fw, 0) == SUCCESS
    case Unsubscribe(_, fw) => AllAlive(fw)
  }

  ghost predicate Agreed(x: State, app: App) {
    Valid(x.table) && OneApp(x.table, app) && Exact(x.table, x.ledger)
  }

  lemma SmallerStaysValid(t: Table, t1: Table, app: App)
    requires Valid(t) && OneApp(t, app) && forall e :: At(t1, e) <= At(t, e)
    ensures Valid(t1) && OneApp(t1, app)
  {
    forall e, s: Subscriber | e in t1 && s in t1[e]
      ensures s.eventId == e && s.app == app && s in At(t, e)
    {
      assert s in At(t1, e);
    }
  }

  lemma AddedStaysValid(t: Table, t1: Table, s: Subscriber)
    requires Valid(t) && OneApp(t, s.app) && At(t, s.eventId) == {}
    requires forall f :: At(t1, f) == if f == s.eventId then {s} else At(t, f)
    ensures Valid(t1) && OneApp(t1, s.app)
  {
    forall e, u: Subscriber | e in t1 && u in t1[e]
      ensures u.eventId == e && u.app == s.app && (u in At(t, e) || u == s)
    {
      assert u in At(t1, e);
    }
  }

  lemma SubscriptionAgrees(x: State, y: State, s: Subscriber, fw: Framework)
    requires Agreed(x, s.app) && Step(x, Subscribe(s, fw), y) && StartCode(fw, 0) == SUCCESS
    ensures Agreed(y, s.app)
  {
    if Welcome(x.table, s) {
      NobodyThere(x.table, s);
      SubscribedOne(x.ledger, s.eventId, fw);
      AddedStaysValid(x.table, y.table, s);
      SubscribeKeepsExactIffStarted(x.table, y.table, x.ledger, y.ledger, s, fw);
    } else {
      assert forall f :: At(y.table, f) == At(x.table, f);
      SmallerStaysValid(x.table, y.table, s.app);
    }
  }

  lemma RemovalAgrees(x: State, y: State, remote: nat, fw: Framework, app: App)
    requires Agreed(x, app) && Step(x, Unsubscribe(remote, fw), y) && AllAlive(fw)
    ensures Agreed(y, app)
  {
    var ids := EventIdsOf(x.table, remote);
    forall e
      ensures At(y.table, e) <= At(x.table, e)
    {
      if e in Reach(ids) {
        assert LostOne(x.table, y.table, remote, e);
      } else {
        assert Untouched(x.table, y.table, e);
      }
    }
    SmallerStaysValid(x.table, y.table, app);
    RemovalKeepsExact(x.table, y.table, x.ledger, y.ledger, remote, Reach(ids), |ids|, fw);
  }

  /** Over every run of subscriptions of one app that start and of removals, those cut short included: the subscribed
      events are exactly the loaded collectors, and each of them has count 1. */
  lemma {:induction false} OneAppRunsAgree(states: seq<State>, ops: seq<Operation>, app: App)
    requires Run(states, ops) && forall i :: 0 <= i < |ops| ==> Regular(ops[i], app)
    ensures Agreed(states[|ops|], app)
  {
    if ops != [] {
      var n := |ops| - 1;
      OneAppRunsAgree(states[..n + 1], ops[..n], app);
      assert Step(states[n], ops[n], states[n + 1]) && Regular(ops[n], app);
      match ops[n]
      case Subscribe(s, fw) => SubscriptionAgrees(states[n], states[n + 1], s, fw);
      case Unsubscribe(remote, fw) => RemovalAgrees(states[n], states[n + 1], remote, fw, app);
    }
  }

  // ---------------------------------------------------------------- two apps

  lemma OnlyEvent(t: Table, e: EventId, s: Subscriber)
    requires s in At(t, e) && forall f :: f != e ==> At(t, f) == {}
    ensures EventIdsOf(t, s.remote) == {e}
  {
    assert HasRemote(t[e], s.remote);
    forall f | f in t && f != e
      ensures !HasRemote(t[f], s.remote)
    {
      assert At(t, f) == {};
    }
  }

  method TwoAppsSubscribe(m: SecurityCollectorSubscriberManager, a: Subscriber, b: Subscriber, fw: Framework)
    requires m.eventToSubscribers == map[] && m.collection.State() == Ledger(map[], map[])
    requires a.eventId == b.eventId && a.app != b.app && StartCode(fw, 0) == SUCCESS
    modifies m`eventToSubscribers, m.collection
    ensures Valid(m.eventToSubscribers)
    ensures forall f :: At(m.eventToSubscribers, f) == if f == a.eventId then {a, b} else {}
    ensures a.eventId in m.collection.loaders && Count(m.collection.counts, a.eventId) == 2
  {
    ghost var t0, l0 := m.eventToSubscribers, m.collection.State();
    var _ := m.SubscribeCollector(Some(a), fw);
    ghost var t1, l1 := m.eventToSubscribers, m.collection.State();
    FirstSubscription(t0, l0, t1, l1, a, fw);
    var _ := m.SubscribeCollector(Some(b), fw);
    SecondSubscription(t1, l1, m.eventToSubscribers, m.collection.State(), a, b, fw);
  }

  lemma FirstSubscription(t: Table, l: Ledger, t1: Table, l1: Ledger, a: Subscriber, fw: Framework)
    requires t == map[] && l == Ledger(map[], map[]) && StartCode(fw, 0) == SUCCESS
    requires Subscribes(t, l, t1, l1, a, fw)
    ensures forall f :: At(t1, f) == if f == a.eventId then {a} else {}
    ensures a.eventId in l1.loaders && a.eventId in l1.counts && l1.counts[a.eventId] == 1
  {
    SubscribedOne(l, a.eventId, fw);
  }

  lemma SecondSubscription(t: Table, l: Ledger, t1: Table, l1: Ledger, a: Subscriber, b: Subscriber, fw: Framework)
    requires forall f :: At(t, f) == if f == a.eventId then {a} else {}
    requires a.eventId == b.eventId && a.app != b.app && Subscribes(t, l, t1, l1, b, fw)
    requires a.eventId in l.loaders && a.eventId in l.counts && l.counts[a.eventId] == 1
    ensures forall f :: At(t1, f) == if f == a.eventId then {a, b} else {}
    ensures a.eventId in l1.loaders && Count(l1.counts, a.eventId) == 2
  {
    SubscribedAgain(l, a.eventId, fw);
    assert Welcome(t, b);
  }

  /** A remote object that is the last subscriber of its only event dismisses it once. */
  method LastOneLeaves(m: SecurityCollectorSubscriberManager, s: Subscriber, fw: Framework)
    requires Valid(m.eventToSubscribers) && s.eventId != -1 && AllAlive(fw)
    requires forall f :: At(m.eventToSubscribers, f) == if f == s.eventId then {s} else {}
    requires s.eventId in m.collection.loaders && 1 <= Count(m.collection.counts, s.eventId) < UINT32_MODULUS
    modifies m`eventToSubscribers, m.collection
    ensures forall f :: At(m.eventToSubscribers, f) == {}
    ensures s.eventId in m.collection.loaders <==> old(Count(m.collection.counts, s.eventId)) > 1
  {
    ghost var t0, l0 := m.eventToSubscribers, m.collection.State();
    OnlyEvent(t0, s.eventId, s);
    var _ := m.UnsubscribeCollector(s.remote, fw);
    ghost var t1, l1 := m.eventToSubscribers, m.collection.State();
    assert LostOne(t0, t1, s.remote, s.eventId) && Followed(t0, t1, l0, l1, s.eventId, 1, fw);
    forall f | f != s.eventId
      ensures At(t1, f) == {}
    {
      assert Untouched(t0, t1, f);
    }
    RepeatedIs(l0, s.eventId, 1, fw);
  }

  /** Two apps subscribe to one event and both leave: nobody is subscribed, and the collector runs on. */
  method TwoAppsLeaveTheCollectorRunning(m: SecurityCollectorSubscriberManager, e: EventId, fw: Framework)
    requires m.eventToSubscribers == map[] && m.collection.State() == Ledger(map[], map[]) && e != -1
    requires AllAlive(fw) && StartCode(fw, 0) == SUCCESS
    modifies m`eventToSubscribers, m.collection
    ensures forall f :: At(m.eventToSubscribers, f) == {}
    ensures e in m.collection.loaders
  {
    var a, b := Subscriber(1, App("a"), 1, e), Subscriber(2, App("b"), 2, e);
    TwoAppsSubscribe(m, a, b, fw);
    ghost var t0, l0 := m.eventToSubscribers, m.collection.State();
    assert a in At(t0, e);
    OnlyEvent(t0, e, a);
    var _ := m.UnsubscribeCollector(1, fw);
    ghost var t1 := m.eventToSubscribers;
    assert LostOne(t0, t1, 1, e) && e in t1 && At(t1, e) == {b};
    assert Followed(t0, t1, l0, m.collection.State(), e, 1, fw);
    forall f | f != e
      ensures At(t1, f) == {}
    {
      assert Untouched(t0, t1, f);
    }
    LastOneLeaves(m, b, fw);
  }

  lemma SubscribedAgain(l: Ledger, e: EventId, fw: Framework)
    requires e in l.loaders && e in l.counts && l.counts[e] + 1 < UINT32_MODULUS
    ensures SubscribeCode(l, [e], fw) == SUCCESS
    ensures Subscribed(l, [e], fw) == Ledger(l.loaders, l.counts[e := l.counts[e] + 1])
  {
    var ids := [e];
    assert ids[..0] == [] && ids[0] == e;
    assert FirstFailure(l.loaders, ids, fw, 0) == 1;
    assert Loading(l.loaders, ids[..0], fw) == l.loaders;
    assert Counted(l.counts, ids) == Bumped(Counted(l.counts, ids[..0]), e);
  }
}
