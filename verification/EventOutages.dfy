/** Whole runs of a client: calls with any outcome, deaths of the server, and recoveries that other calls may overtake. */
module EventOutages {
  import opened Common
  import opened EventSession
  import opened EventClients

  // ---------------------------------------------------------------- calls while the server is away

  /** One of the calls unsubscribes the event and is permitted. */
  predicate UnsubscribedBy(calls: seq<Call>, e: EventId) {
    exists i :: 0 <= i < |calls| && Unsubscribes(calls[i], e)
  }

  predicate Unsubscribes(call: Call, e: EventId) {
    call.Unsubscribe? && call.e == e && call.a.permission == SUCCESS
  }

  lemma UnsubscribedByOneMore(calls: seq<Call>, e: EventId)
    requires calls != []
    ensures UnsubscribedBy(calls, e) <==>
            UnsubscribedBy(calls[..|calls| - 1], e) || Unsubscribes(calls[|calls| - 1], e)
  {
    var n := |calls| - 1;
    assert forall i :: 0 <= i < n ==> calls[..n][i] == calls[i];
  }

  /** While there is no session nothing can be added and no filter changes, but a permitted unsubscription counts as
      done. */
  lemma {:induction false} CallsWithoutServer(w: World, calls: seq<Call>)
    requires w.server == None
    ensures After(w, calls).server == None && After(w, calls).filters == w.filters
    ensures forall e :: e in After(w, calls).subscribed <==> e in w.subscribed && !UnsubscribedBy(calls, e)
  {
    if calls != [] {
      CallsWithoutServer(w, calls[..|calls| - 1]);
      forall e
        ensures e in After(w, calls).subscribed <==> e in w.subscribed && !UnsubscribedBy(calls, e)
      {
        UnsubscribedByOneMore(calls, e);
      }
    }
  }

  // ---------------------------------------------------------------- one outage

  /** The client's books when the recovery takes its snapshot, and when its replay is done. */
  function AtSnapshot(w: World, before: seq<Call>): World {
    After(w.(server := None), before)
  }

  function AtReplay(w: World, before: seq<Call>, during: seq<Call>): World {
    After(AtSnapshot(w, before), during)
  }

  /** The replay restores what the client still wants: an event of the snapshot is subscribed again exactly if it has not
      been unsubscribed in the meantime, and every filter is accepted. */
  ghost predicate Restores(snapshot: World, during: seq<Call>, replies: Replies) {
    && (forall e :: e in snapshot.subscribed ==> (Resubscribed(replies, e) <==> !UnsubscribedBy(during, e)))
    && FiltersAccepted(snapshot.filters, Again(snapshot.subscribed, replies), replies)
  }

  lemma BooksAgree(events: set<EventId>, during: seq<Call>, replies: Replies, wanted: set<EventId>)
    requires forall e :: e in wanted <==> e in events && !UnsubscribedBy(during, e)
    ensures wanted == Again(events, replies) <==>
            forall e :: e in events ==> (Resubscribed(replies, e) <==> !UnsubscribedBy(during, e))
  {
    if forall e :: e in events ==> (Resubscribed(replies, e) <==> !UnsubscribedBy(during, e)) {
      assert forall e :: e in wanted <==> e in Again(events, replies);
    } else {
      var e :| e in events && (Resubscribed(replies, e) <==> UnsubscribedBy(during, e));
      assert e in wanted <==> e !in Again(events, replies);
    }
  }

  /** After an outage the client mirrors the rebuilt session exactly if the replay restores what the client still wants,
      whatever was called before the snapshot and between it and the replay. */
  lemma OutageMirrorsExactly(w: World, before: seq<Call>, during: seq<Call>, replies: Replies, again: Session)
    requires Mirrors(w)
    requires var snapshot := AtSnapshot(w, before); Rebuilds(again, snapshot.subscribed, snapshot.filters, replies)
    ensures Mirrors(AtReplay(w, before, during).(server := Some(again))) <==>
            Restores(AtSnapshot(w, before), during, replies)
  {
    var snapshot, after := AtSnapshot(w, before), AtReplay(w, before, during);
    var accepted := Accepted(w.filters, again.subEvents, replies);
    CallsWithoutServer(w.(server := None), before);
    CallsWithoutServer(snapshot, during);
    AcceptedAll(w.filters, again.subEvents, replies);
    BooksAgree(snapshot.subscribed, during, replies, after.subscribed);
    if SameFilters(again, w.filters) {
      SameListsSameMembers(accepted, w.filters, again);
      MembersAccepted(w.filters, again.subEvents, replies);
    }
  }

  /** With every call of the replay answered with success: the rebuilt session agrees with the client exactly if no event
      of the snapshot was unsubscribed between the snapshot and the replay. */
  lemma UnsubscriptionDuringRecoveryIsLost(w: World, before: seq<Call>, during: seq<Call>, replies: Replies,
                                           again: Session)
    requires Mirrors(w) && AllAccepted(AtSnapshot(w, before), replies)
    requires var snapshot := AtSnapshot(w, before); Rebuilds(again, snapshot.subscribed, snapshot.filters, replies)
    ensures Mirrors(AtReplay(w, before, during).(server := Some(again))) <==>
            forall i :: 0 <= i < |during| ==>
              !(during[i].Unsubscribe? && during[i].a.permission == SUCCESS &&
                during[i].e in AtSnapshot(w, before).subscribed)
  {
    var snapshot := AtSnapshot(w, before);
    OutageMirrorsExactly(w, before, during, replies, again);
    assert Again(snapshot.subscribed, replies) == snapshot.subscribed;
    if i :| 0 <= i < |during| && during[i].Unsubscribe? && during[i].a.permission == SUCCESS &&
            during[i].e in snapshot.subscribed {
      assert Unsubscribes(during[i], during[i].e) && UnsubscribedBy(during, during[i].e);
    }
  }

  /** Such a run exists for every subscribed event: the client no longer wants it, the rebuilt session has it. */
  lemma OneUnsubscriptionIsEnough(w: World, e: EventId, replies: Replies, again: Session)
    requires Mirrors(w) && e in w.subscribed && AllAccepted(w, replies)
    requires Rebuilds(again, w.subscribed, w.filters, replies)
    ensures var after := AtReplay(w, [], [Unsubscribe(e, OK)]).(server := Some(again));
            e !in after.subscribed && e in again.subEvents && !Mirrors(after)
  {
    var during := [Unsubscribe(e, OK)];
    assert AtSnapshot(w, []) == w.(server := None);
    CallsWithoutServer(w.(server := None), during);
    assert Unsubscribes(during[0], e);
  }

  // ---------------------------------------------------------------- whole runs

  datatype Step =
    | Do(call: Call)
    | Outage(before: seq<Call>, during: seq<Call>, replies: Replies, again: Session)

  /** A call, or a death of the server with the recovery that follows; `again` is the session it rebuilds. */
  ghost predicate Steps(x: World, step: Step, y: World) {
    match step
    case Do(call) => y == Next(x, call)
    case Outage(before, during, replies, again) =>
      var snapshot := AtSnapshot(x, before);
      Rebuilds(again, snapshot.subscribed, snapshot.filters, replies) &&
      y == AtReplay(x, before, during).(server := Some(again))
  }

  ghost predicate Run(worlds: seq<World>, steps: seq<Step>) {
    && |worlds| == |steps| + 1 && worlds[0] == FRESH
    && forall i :: 0 <= i < |steps| ==> Steps(worlds[i], steps[i], worlds[i + 1])
  }

  ghost predicate OutagesRestore(worlds: seq<World>, steps: seq<Step>)
    requires |worlds| == |steps| + 1
  {
    forall i :: 0 <= i < |steps| && steps[i].Outage? ==>
      Restores(AtSnapshot(worlds[i], steps[i].before), steps[i].during, steps[i].replies)
  }

  lemma FreshMirrors()
    ensures Mirrors(FRESH)
  {
    assert forall e :: FiltersFor(FRESH.filters, e) == [];
  }

  /** Over every run from the creation of a client, with any outcomes of its calls and any number of outages whose
      replays restore what the client wants, its books are those of its session. */
  lemma {:induction false} MirrorInEveryRun(worlds: seq<World>, steps: seq<Step>)
    requires Run(worlds, steps) && OutagesRestore(worlds, steps)
    ensures Mirrors(worlds[|steps|])
  {
    if steps == [] {
      FreshMirrors();
    } else {
      var n := |steps| - 1;
      MirrorInEveryRun(worlds[..n + 1], steps[..n]);
      assert Steps(worlds[n], steps[n], worlds[n + 1]);
      match steps[n]
      case Do(call) => NextMirrors(worlds[n], call);
      case Outage(before, during, replies, again) => OutageMirrorsExactly(worlds[n], before, during, replies, again);
    }
  }

  /** The first outage whose replay does not restore what the client wants ends the agreement. */
  lemma FirstBadOutageBreaks(worlds: seq<World>, steps: seq<Step>, n: nat)
    requires Run(worlds, steps) && n < |steps| && OutagesRestore(worlds[..n + 1], steps[..n])
    ensures Mirrors(worlds[n + 1]) <==>
            (steps[n].Outage? ==> Restores(AtSnapshot(worlds[n], steps[n].before), steps[n].during, steps[n].replies))
  {
    MirrorInEveryRun(worlds[..n + 1], steps[..n]);
    assert Steps(worlds[n], steps[n], worlds[n + 1]);
    match steps[n]
    case Do(call) => NextMirrors(worlds[n], call);
    case Outage(before, during, replies, again) => OutageMirrorsExactly(worlds[n], before, during, replies, again);
  }
}
