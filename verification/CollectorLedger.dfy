/** What the subscription counts of the collector table mean over whole runs: which collectors run, and what a failed
    subscription leaves behind. */
module CollectorLedger {
  import opened Common
  import opened DataCollections

  ghost predicate Fits(counts: Counts) {
    forall e :: e in counts ==> counts[e] < UINT32_MODULUS
  }

  lemma TimesSnoc(ids: seq<EventId>, e: EventId)
    requires ids != []
    ensures multiset(ids)[e] == multiset(ids[..|ids| - 1])[e] + if ids[|ids| - 1] == e then 1 else 0
  {
    assert ids == ids[..|ids| - 1] + [ids[|ids| - 1]];
  }

  /** Counting a list adds its occurrences, as far as 32 bits can tell. */
  lemma {:induction false} CountedIs(counts: Counts, ids: seq<EventId>, e: EventId)
    requires Fits(counts)
    ensures Fits(Counted(counts, ids))
    ensures e in Counted(counts, ids) <==> e in counts || e in ids
    ensures Count(Counted(counts, ids), e) == (Count(counts, e) + multiset(ids)[e]) % UINT32_MODULUS
  {
    if ids != [] {
      var n := |ids| - 1;
      CountedIs(counts, ids[..n], e);
      TimesSnoc(ids, e);
      assert ids == ids[..n] + [ids[n]];
      var before := Counted(counts, ids[..n]);
      if ids[n] == e {
        AddOne(Count(counts, e) + multiset(ids[..n])[e]);
      }
    }
  }

  lemma AddOne(x: nat)
    ensures (x % UINT32_MODULUS + 1) % UINT32_MODULUS == (x + 1) % UINT32_MODULUS
  {
  }

  /** Giving back a list without repeats takes one count from each loaded event of it. */
  lemma {:induction false} UncountedIs(counts: Counts, loaders: Loaders, ids: seq<EventId>, e: EventId)
    requires Distinct(ids)
    ensures e in ids && e in loaders ==>
              (e in Uncounted(counts, loaders, ids) <==> StillCounted(counts, e)) &&
              (StillCounted(counts, e) ==>
                Uncounted(counts, loaders, ids)[e] == (counts[e] - 1) % UINT32_MODULUS)
    ensures !(e in ids && e in loaders) ==>
              (e in Uncounted(counts, loaders, ids) <==> e in counts) &&
              Count(Uncounted(counts, loaders, ids), e) == Count(counts, e)
    ensures e in ToStop(counts, loaders, ids) <==> e in ids && e in loaders && !StillCounted(counts, e)
  {
    if e !in ids || e !in loaders {
      UncountedElsewhere(counts, loaders, ids, e);
    } else {
      var n := |ids| - 1;
      if ids[n] == e {
        assert e !in ids[..n];
        UncountedElsewhere(counts, loaders, ids[..n], e);
      } else {
        UncountedIs(counts, loaders, ids[..n], e);
      }
    }
  }

  // ---------------------------------------------------------------- what a failed subscription does

  lemma {:induction false} ToStopIsPart(counts: Counts, loaders: Loaders, ids: seq<EventId>)
    ensures forall e :: e in ToStop(counts, loaders, ids) ==> e in ids
  {
    if ids != [] {
      ToStopIsPart(counts, loaders, ids[..|ids| - 1]);
    }
  }

  /** Whatever the list and whatever fails, a subscription never takes away a collector that ran before it. */
  lemma SubscribeKeepsRunning(l: Ledger, ids: seq<EventId>, fw: Framework, e: EventId)
    requires e in l.loaders
    ensures e in Subscribed(l, ids, fw).loaders && Subscribed(l, ids, fw).loaders[e] == l.loaders[e]
  {
    var i := FirstFailure(l.loaders, ids, fw, 0);
    if i < |ids| {
      LoadingKeys(l.loaders, ids[..i], fw);
      NewlyLoadedIs(l.loaders, ids[..i]);
      ToStopIsPart(Counted(l.counts, ids[..i + 1]), Loading(l.loaders, ids[..i], fw), NewlyLoaded(l.loaders, ids[..i]));
    } else {
      LoadingKeys(l.loaders, ids, fw);
    }
  }

  /** After a failed subscription exactly these collectors run beside those of before: the ones it has loaded, if their
      count says that somebody else needs them, or if their library no longer hands them out. */
  lemma FailedSubscribeLoaders(l: Ledger, ids: seq<EventId>, i: nat, fw: Framework, e: EventId)
    requires i < |ids| && e !in l.loaders
    ensures e in FailedAt(l, ids, i, fw).loaders <==>
            e in ids[..i] && (StillCounted(Counted(l.counts, ids[..i + 1]), e) || !fw.alive(e))
  {
    LoadingKeys(l.loaders, ids[..i], fw);
    NewlyLoadedIs(l.loaders, ids[..i]);
    UncountedIs(Counted(l.counts, ids[..i + 1]), Loading(l.loaders, ids[..i], fw), NewlyLoaded(l.loaders, ids[..i]), e);
  }

  // ---------------------------------------------------------------- runs

  datatype Call =
    | Subscribe(ids: seq<EventId>, api: bool, fw: Framework)
    | Unsubscribe(ids: seq<EventId>, fw: Framework)

  /** The table together with what a bookkeeper would know: `live` holds each event once per subscription that succeeded
      and was not taken back, `leaked` the counts that failed subscriptions have not given back. */
  datatype History = History(ledger: Ledger, live: multiset<EventId>, leaked: multiset<EventId>)

  const INIT := History(Ledger(map[], map[]), multiset{}, multiset{})

  /** Lists have no repeats and only what is subscribed is unsubscribed. */
  ghost predicate Admissible(h: History, call: Call) {
    Distinct(call.ids) && (call.Unsubscribe? ==> forall e :: e in call.ids ==> e in h.live)
  }

  /** The counts that a subscription failing at position `i` keeps. */
  function Leak(l: Ledger, ids: seq<EventId>, i: nat): multiset<EventId>
    requires i < |ids|
  {
    multiset(ids[..i + 1]) - multiset(NewlyLoaded(l.loaders, ids[..i]))
  }

  function Next(h: History, call: Call): History {
    match call
    case Unsubscribe(ids, fw) =>
      History(Unsubscribed(h.ledger, ids, fw), h.live - multiset(ids), h.leaked)
    case Subscribe(ids, api, fw) =>
      if ids == [] || !api then h
      else
        var i := FirstFailure(h.ledger.loaders, ids, fw, 0);
        if i < |ids| then History(Subscribed(h.ledger, ids, fw), h.live, h.leaked + Leak(h.ledger, ids, i))
        else History(Subscribed(h.ledger, ids, fw), h.live + multiset(ids), h.leaked)
  }

  function After(calls: seq<Call>): History {
    if calls == [] then INIT else Next(After(calls[..|calls| - 1]), calls[|calls| - 1])
  }

  ghost predicate AllAdmissible(calls: seq<Call>) {
    calls == [] ||
    (AllAdmissible(calls[..|calls| - 1]) && Admissible(After(calls[..|calls| - 1]), calls[|calls| - 1]))
  }

  /** What holds of every event between two calls. */
  predicate AccountedFor(h: History, e: EventId) {
    && Count(h.ledger.counts, e) == h.live[e] + h.leaked[e]
    && (e in h.ledger.counts ==> h.ledger.counts[e] >= 1)
    && (e in h.live ==> e in h.ledger.loaders)
  }

  ghost predicate Accounted(h: History, bound: nat) {
    && (forall e :: AccountedFor(h, e))
    && (forall e :: e in h.ledger.counts ==> h.ledger.counts[e] <= bound)
  }

  lemma {:induction false} DistinctTimes(ids: seq<EventId>, e: EventId)
    requires Distinct(ids)
    ensures multiset(ids)[e] == if e in ids then 1 else 0
  {
    if ids != [] {
      var n := |ids| - 1;
      DistinctTimes(ids[..n], e);
      TimesSnoc(ids, e);
      assert ids == ids[..n] + [ids[n]];
    }
  }

  /** Below the wrap-around, a list without repeats adds one to the count of each of its events. */
  lemma CountedSmall(counts: Counts, ids: seq<EventId>, e: EventId)
    requires Fits(counts) && Distinct(ids) && Count(counts, e) + 1 < UINT32_MODULUS
    ensures e in Counted(counts, ids) <==> e in counts || e in ids
    ensures Count(Counted(counts, ids), e) == Count(counts, e) + if e in ids then 1 else 0
  {
    CountedIs(counts, ids, e);
    DistinctTimes(ids, e);
  }

  lemma SuccessAccounts(h: History, ids: seq<EventId>, fw: Framework, bound: nat, e: EventId)
    requires Accounted(h, bound) && bound + 1 < UINT32_MODULUS && Distinct(ids)
    requires FirstFailure(h.ledger.loaders, ids, fw, 0) == |ids| > 0
    ensures AccountedFor(Next(h, Subscribe(ids, true, fw)), e)
    ensures Count(Next(h, Subscribe(ids, true, fw)).ledger.counts, e) <= bound + 1
  {
    assert AccountedFor(h, e);
    CountedSmall(h.ledger.counts, ids, e);
    DistinctTimes(ids, e);
    LoadingKeys(h.ledger.loaders, ids, fw);
  }

  /** Giving back a list of loaded, counted events, when no count is about to wrap. */
  lemma GivingBack(l: Ledger, ids: seq<EventId>, fw: Framework, e: EventId)
    requires Distinct(ids)
    requires e in l.counts ==> 1 <= l.counts[e] < UINT32_MODULUS
    requires e in ids ==> e in l.loaders && e in l.counts
    ensures var after := Unsubscribed(l, ids, fw);
            && Count(after.counts, e) == Count(l.counts, e) - (if e in ids then 1 else 0)
            && (e in after.counts ==> after.counts[e] >= 1)
            && (e in after.loaders <==>
                  e in l.loaders && !(e in ids && Count(l.counts, e) == 1 && fw.alive(e)))
  {
    UncountedIs(l.counts, l.loaders, ids, e);
  }

  /** What a subscription failing at `i` does to one event, when no count wraps. */
  lemma FailureAt(l: Ledger, ids: seq<EventId>, i: nat, fw: Framework, e: EventId)
    requires i < |ids| && Distinct(ids) && Fits(l.counts)
    requires Count(l.counts, e) + 1 < UINT32_MODULUS && (e in l.counts ==> l.counts[e] >= 1)
    ensures var after := FailedAt(l, ids, i, fw);
            && Count(after.counts, e) ==
               Count(l.counts, e) + (if e in ids[..i + 1] then 1 else 0)
               - (if e in ids[..i] && e !in l.loaders then 1 else 0)
            && (e in after.counts ==> after.counts[e] >= 1)
            && (e in after.loaders <==> e in l.loaders || (e in ids[..i] && (e in l.counts || !fw.alive(e))))
  {
    var p, own := ids[..i + 1], NewlyLoaded(l.loaders, ids[..i]);
    var mid := Ledger(Loading(l.loaders, ids[..i], fw), Counted(l.counts, p));
    assert e in p <==> e in ids[..i] || e == ids[i];
    CountedSmall(l.counts, p, e);
    LoadingKeys(l.loaders, ids[..i], fw);
    NewlyLoadedIs(l.loaders, ids[..i]);
    GivingBack(mid, own, fw, e);
  }

  lemma LeakAt(l: Ledger, ids: seq<EventId>, i: nat, e: EventId)
    requires i < |ids| && Distinct(ids)
    ensures Leak(l, ids, i)[e] ==
            (if e in ids[..i + 1] then 1 else 0) - (if e in ids[..i] && e !in l.loaders then 1 else 0)
  {
    var p := ids[..i + 1];
    assert p == ids[..i] + [ids[i]];
    NewlyLoadedIs(l.loaders, ids[..i]);
    DistinctTimes(p, e);
    DistinctTimes(NewlyLoaded(l.loaders, ids[..i]), e);
  }

  lemma FailureIs(h: History, ids: seq<EventId>, fw: Framework)
    requires FirstFailure(h.ledger.loaders, ids, fw, 0) < |ids|
    ensures var i := FirstFailure(h.ledger.loaders, ids, fw, 0);
            Next(h, Subscribe(ids, true, fw)) ==
            History(FailedAt(h.ledger, ids, i, fw), h.live, h.leaked + Leak(h.ledger, ids, i))
  {
  }

  lemma FailureAccounts(h: History, ids: seq<EventId>, fw: Framework, bound: nat, e: EventId)
    requires Accounted(h, bound) && bound + 1 < UINT32_MODULUS && Distinct(ids)
    requires FirstFailure(h.ledger.loaders, ids, fw, 0) < |ids|
    ensures AccountedFor(Next(h, Subscribe(ids, true, fw)), e)
    ensures Count(Next(h, Subscribe(ids, true, fw)).ledger.counts, e) <= bound + 1
  {
    var i := FirstFailure(h.ledger.loaders, ids, fw, 0);
    FailureIs(h, ids, fw);
    assert AccountedFor(h, e);
    FailureAt(h.ledger, ids, i, fw, e);
    LeakAt(h.ledger, ids, i, e);
  }

  lemma UnsubscribeAccounts(h: History, ids: seq<EventId>, fw: Framework, bound: nat, e: EventId)
    requires Accounted(h, bound) && bound < UINT32_MODULUS && Admissible(h, Unsubscribe(ids, fw))
    ensures AccountedFor(Next(h, Unsubscribe(ids, fw)), e)
    ensures Count(Next(h, Unsubscribe(ids, fw)).ledger.counts, e) <= bound
  {
    assert AccountedFor(h, e);
    UncountedIs(h.ledger.counts, h.ledger.loaders, ids, e);
    DistinctTimes(ids, e);
  }

  lemma NextAccounted(h: History, call: Call, bound: nat)
    requires Accounted(h, bound) && bound + 1 < UINT32_MODULUS && Admissible(h, call)
    ensures Accounted(Next(h, call), bound + 1)
  {
    var h1 := Next(h, call);
    forall e
      ensures AccountedFor(h1, e) && Count(h1.ledger.counts, e) <= bound + 1
    {
      assert AccountedFor(h, e);
      match call
      case Unsubscribe(ids, fw) => UnsubscribeAccounts(h, ids, fw, bound, e);
      case Subscribe(ids, api, fw) =>
        if ids != [] && api {
          if FirstFailure(h.ledger.loaders, ids, fw, 0) < |ids| {
            FailureAccounts(h, ids, fw, bound, e);
          } else {
            SuccessAccounts(h, ids, fw, bound, e);
          }
        }
    }
    assert forall e :: e in h1.ledger.counts ==> Count(h1.ledger.counts, e) <= bound + 1;
  }

  /** Over every run of fewer than 2^32 calls, failing ones included: each count is exactly the live subscriptions plus
      the counts leaked by failures, no stored count is zero (so no decrement wraps), and whatever is subscribed runs. */
  lemma {:induction false} EveryRunIsAccounted(calls: seq<Call>)
    requires AllAdmissible(calls) && |calls| < UINT32_MODULUS
    ensures Accounted(After(calls), |calls|)
  {
    if calls == [] {
      assert forall e :: AccountedFor(INIT, e);
    } else {
      var n := |calls| - 1;
      EveryRunIsAccounted(calls[..n]);
      NextAccounted(After(calls[..n]), calls[n], n);
    }
  }

  ghost predicate FailureFree(calls: seq<Call>) {
    calls == [] || (FailureFree(calls[..|calls| - 1]) && !FailsWithin(After(calls[..|calls| - 1]), calls[|calls| - 1]))
  }

  predicate FailsWithin(h: History, call: Call) {
    call.Subscribe? && call.ids != [] && call.api &&
    FirstFailure(h.ledger.loaders, call.ids, call.fw, 0) < |call.ids|
  }

  /** Every failed subscription leaks: at least the count of the event it failed on. */
  lemma {:induction false} LeaksExactlyOnFailure(calls: seq<Call>)
    requires AllAdmissible(calls)
    ensures After(calls).leaked == multiset{} <==> FailureFree(calls)
  {
    if calls != [] {
      var n := |calls| - 1;
      var h, call := After(calls[..n]), calls[n];
      LeaksExactlyOnFailure(calls[..n]);
      NextLeaksOnFailure(h, call);
    }
  }

  lemma NextLeaksOnFailure(h: History, call: Call)
    requires Admissible(h, call)
    ensures Next(h, call).leaked == multiset{} <==> h.leaked == multiset{} && !FailsWithin(h, call)
  {
    if FailsWithin(h, call) {
      var i := FirstFailure(h.ledger.loaders, call.ids, call.fw, 0);
      LeakAt(h.ledger, call.ids, i, call.ids[i]);
      assert call.ids[i] in call.ids[..i + 1];
      assert call.ids[i] in Leak(h.ledger, call.ids, i);
      assert call.ids[i] in Next(h, call).leaked;
    }
  }

  /** All libraries of the run keep handing out their collectors. */
  ghost predicate LibrariesAlive(calls: seq<Call>) {
    forall i :: 0 <= i < |calls| ==> AllAlive(calls[i].fw)
  }

  ghost predicate LoadedIsCounted(h: History) {
    forall e :: e in h.ledger.loaders ==> e in h.ledger.counts
  }

  lemma NextLoadedIsCounted(h: History, call: Call, bound: nat, e: EventId)
    requires Accounted(h, bound) && bound + 1 < UINT32_MODULUS && Admissible(h, call) && LoadedIsCounted(h)
    requires AllAlive(call.fw) && e in Next(h, call).ledger.loaders
    ensures e in Next(h, call).ledger.counts
  {
    assert AccountedFor(h, e);
    match call
    case Unsubscribe(ids, fw) =>
      UncountedIs(h.ledger.counts, h.ledger.loaders, ids, e);
    case Subscribe(ids, api, fw) =>
      if ids != [] && api {
        var i := FirstFailure(h.ledger.loaders, ids, fw, 0);
        if i < |ids| {
          FailureAt(h.ledger, ids, i, fw, e);
        } else {
          CountedSmall(h.ledger.counts, ids, e);
          LoadingKeys(h.ledger.loaders, ids, fw);
        }
      }
  }

  /** With libraries that stay alive nothing runs uncounted. */
  lemma {:induction false} LiveLibrariesAreCounted(calls: seq<Call>)
    requires AllAdmissible(calls) && |calls| < UINT32_MODULUS && LibrariesAlive(calls)
    ensures LoadedIsCounted(After(calls))
  {
    if calls != [] {
      var n := |calls| - 1;
      LiveLibrariesAreCounted(calls[..n]);
      EveryRunIsAccounted(calls[..n]);
      forall e | e in After(calls).ledger.loaders
        ensures e in After(calls).ledger.counts
      {
        NextLoadedIsCounted(After(calls[..n]), calls[n], n, e);
      }
    }
  }

  /** In a run without failed subscriptions a count is the number of live subscriptions, and, as long as libraries keep
      handing out their collectors, a collector is loaded exactly while there is one. */
  lemma FailureFreeRunsAreExact(calls: seq<Call>, e: EventId)
    requires AllAdmissible(calls) && |calls| < UINT32_MODULUS && FailureFree(calls)
    ensures Count(After(calls).ledger.counts, e) == After(calls).live[e]
    ensures LibrariesAlive(calls) ==> (e in After(calls).ledger.loaders <==> e in After(calls).live)
  {
    EveryRunIsAccounted(calls);
    LeaksExactlyOnFailure(calls);
    assert AccountedFor(After(calls), e);
    if LibrariesAlive(calls) {
      LiveLibrariesAreCounted(calls);
    }
  }

  // ---------------------------------------------------------------- loaded exactly while subscribed

  /** A collector is loaded exactly while somebody subscribes to its event. */
  ghost predicate Coincide(h: History) {
    forall e :: e in h.ledger.loaders <==> e in h.live
  }

  /** Nothing keeps the collector of `e` when its last subscription goes: no leaked count, no library that does not hand
      it out any more. */
  predicate Releasable(h: History, e: EventId, fw: Framework) {
    e !in h.leaked && fw.alive(e)
  }

  /** If the call takes the last subscription of `e` away, or has to take back that it loaded `e`, the collector can go. */
  predicate ReleasesAt(h: History, call: Call, e: EventId) {
    match call
    case Unsubscribe(ids, fw) => e in ids && h.live[e] == 1 ==> Releasable(h, e, fw)
    case Subscribe(ids, _, fw) =>
      FailsWithin(h, call) && e in ids[..FirstFailure(h.ledger.loaders, ids, fw, 0)] && e !in h.ledger.loaders ==>
        Releasable(h, e, fw)
  }

  ghost predicate Releases(h: History, call: Call) {
    forall e :: ReleasesAt(h, call, e)
  }

  /** The last subscription of an event takes its collector with it exactly if no count of it has leaked and its library
      still hands it out. */
  lemma LastSubscriptionStopsExactly(h: History, e: EventId, fw: Framework, bound: nat)
    requires Accounted(h, bound) && bound < UINT32_MODULUS && h.live[e] == 1
    ensures Admissible(h, Unsubscribe([e], fw)) && e !in Next(h, Unsubscribe([e], fw)).live
    ensures e in Next(h, Unsubscribe([e], fw)).ledger.loaders <==> e in h.leaked || !fw.alive(e)
  {
    assert AccountedFor(h, e);
    GivingBack(h.ledger, [e], fw, e);
  }

  lemma RemovalCoincidesAt(h: History, ids: seq<EventId>, fw: Framework, bound: nat, e: EventId)
    requires Accounted(h, bound) && bound + 1 < UINT32_MODULUS && Admissible(h, Unsubscribe(ids, fw)) && Coincide(h)
    ensures var h1 := Next(h, Unsubscribe(ids, fw));
            (e in h1.ledger.loaders <==> e in h1.live) <==> ReleasesAt(h, Unsubscribe(ids, fw), e)
  {
    assert AccountedFor(h, e);
    GivingBack(h.ledger, ids, fw, e);
    DistinctTimes(ids, e);
  }

  lemma FailureCoincidesAt(h: History, ids: seq<EventId>, fw: Framework, bound: nat, e: EventId)
    requires Accounted(h, bound) && bound + 1 < UINT32_MODULUS && Distinct(ids) && Coincide(h)
    requires FailsWithin(h, Subscribe(ids, true, fw))
    ensures var h1 := Next(h, Subscribe(ids, true, fw));
            (e in h1.ledger.loaders <==> e in h1.live) <==> ReleasesAt(h, Subscribe(ids, true, fw), e)
  {
    assert AccountedFor(h, e);
    FailureAt(h.ledger, ids, FirstFailure(h.ledger.loaders, ids, fw, 0), fw, e);
  }

  /** From a history in which loading and subscribing coincide, a call keeps it so exactly if it releases what it has to
      stop, whatever has failed and leaked before. */
  lemma StepCoincidesExactly(h: History, call: Call, bound: nat)
    requires Accounted(h, bound) && bound + 1 < UINT32_MODULUS && Admissible(h, call) && Coincide(h)
    ensures Coincide(Next(h, call)) <==> Releases(h, call)
  {
    var h1 := Next(h, call);
    forall e
      ensures (e in h1.ledger.loaders <==> e in h1.live) <==> ReleasesAt(h, call, e)
    {
      match call
      case Unsubscribe(ids, fw) => RemovalCoincidesAt(h, ids, fw, bound, e);
      case Subscribe(ids, api, fw) =>
        if FailsWithin(h, call) {
          FailureCoincidesAt(h, ids, fw, bound, e);
        } else {
          LoadingKeys(h.ledger.loaders, ids, fw);
        }
    }
  }

  ghost predicate AlwaysCoincide(calls: seq<Call>) {
    Coincide(After(calls)) && (calls == [] || AlwaysCoincide(calls[..|calls| - 1]))
  }

  ghost predicate AllRelease(calls: seq<Call>) {
    calls == [] || (AllRelease(calls[..|calls| - 1]) && Releases(After(calls[..|calls| - 1]), calls[|calls| - 1]))
  }

  /** Over every run of fewer than 2^32 calls, failing ones included: a collector is loaded exactly while somebody
      subscribes to it, after each call, if and only if each call releases what it has to stop. */
  lemma {:induction false} RunCoincidesExactly(calls: seq<Call>)
    requires AllAdmissible(calls) && |calls| < UINT32_MODULUS
    ensures AlwaysCoincide(calls) <==> AllRelease(calls)
  {
    if calls != [] {
      var n := |calls| - 1;
      RunCoincidesExactly(calls[..n]);
      EveryRunIsAccounted(calls[..n]);
      if AlwaysCoincide(calls[..n]) {
        CoincidesNow(calls[..n]);
        StepCoincidesExactly(After(calls[..n]), calls[n], n);
      }
    }
  }

  lemma CoincidesNow(calls: seq<Call>)
    requires AlwaysCoincide(calls)
    ensures Coincide(After(calls))
  {
  }

  /** A running collector with a leaked count is never stopped again, whatever is unsubscribed later. */
  lemma {:induction false} LeakedCollectorNeverStops(calls: seq<Call>, more: seq<Call>, e: EventId)
    requires AllAdmissible(calls + more) && |calls + more| < UINT32_MODULUS
    requires e in After(calls).leaked && e in After(calls).ledger.loaders
    ensures e in After(calls + more).leaked && e in After(calls + more).ledger.loaders
  {
    if more == [] {
      assert calls + more == calls;
    } else {
      var n, all := |calls + more| - 1, calls + more;
      assert all[..n] == calls + more[..|more| - 1];
      LeakedCollectorNeverStops(calls, more[..|more| - 1], e);
      EveryRunIsAccounted(all[..n]);
      LeakedStays(After(all[..n]), all[n], n, e);
    }
  }

  lemma LeakedStays(h: History, call: Call, bound: nat, e: EventId)
    requires Accounted(h, bound) && bound + 1 < UINT32_MODULUS && Admissible(h, call)
    requires e in h.leaked && e in h.ledger.loaders
    ensures e in Next(h, call).leaked && e in Next(h, call).ledger.loaders
  {
    assert AccountedFor(h, e);
    match call
    case Unsubscribe(ids, fw) =>
      UncountedIs(h.ledger.counts, h.ledger.loaders, ids, e);
      if e in ids {
        assert e in h.live;
      }
    case Subscribe(ids, api, fw) =>
      SubscribeKeepsRunning(h.ledger, ids, fw, e);
  }

  /** Such a run exists for every event: one failed subscription, then one that succeeds and is taken back. */
  lemma CollectorOutlivesItsSubscribers(e: EventId, good: Framework, bad: Framework)
    requires StartCode(good, 0) == SUCCESS && StartCode(bad, 0) != SUCCESS
    ensures var calls := [Subscribe([e], true, bad), Subscribe([e], true, good), Unsubscribe([e], good)];
            && AllAdmissible(calls)
            && After(calls).live == multiset{}
            && e in After(calls).ledger.loaders
            && Count(After(calls).ledger.counts, e) == 1
  {
    var c0, c1, c2 := Subscribe([e], true, bad), Subscribe([e], true, good), Unsubscribe([e], good);
    assert [c0, c1, c2][..2] == [c0, c1] && [c0, c1][..1] == [c0] && [c0][..0] == [];
    FirstCallLeaks(e, bad);
    var h0 := Next(INIT, c0);
    assert After([]) == INIT && After([c0]) == h0;
    SecondCallSucceeds(h0, e, good);
    var h1 := Next(h0, c1);
    assert After([c0, c1]) == h1;
    assert AllAdmissible([]) && AllAdmissible([c0]) && AllAdmissible([c0, c1]);
    GivingBack(h1.ledger, [e], good, e);
  }

  lemma FirstCallLeaks(e: EventId, bad: Framework)
    requires StartCode(bad, 0) != SUCCESS
    ensures Next(INIT, Subscribe([e], true, bad)) == History(Ledger(map[], map[e := 1]), multiset{}, multiset{e})
  {
    var ids := [e];
    assert ids[..0] == [] && ids[..1] == [e];
    assert Fails(map[], ids, 0, bad);
    assert FirstFailure(map[], ids, bad, 0) == 0;
    assert Counted(map[], ids) == Bumped(Counted(map[], ids[..0]), e);
    var h := Next(INIT, Subscribe(ids, true, bad));
    assert h.leaked == multiset(ids[..1]);
    assert h.ledger.loaders == map[];
    assert h.ledger.counts == map[e := 1];
  }

  lemma SecondCallSucceeds(h: History, e: EventId, good: Framework)
    requires h == History(Ledger(map[], map[e := 1]), multiset{}, multiset{e}) && StartCode(good, 0) == SUCCESS
    ensures Next(h, Subscribe([e], true, good)) ==
            History(Ledger(map[e := good.lib(0)], map[e := 2]), multiset{e}, multiset{e})
  {
    var ids := [e];
    assert ids[..0] == [];
    assert FirstFailure(h.ledger.loaders, ids, good, 0) == 1;
    assert Loading(h.ledger.loaders, ids, good) == map[e := good.lib(0)];
    assert Counted(h.ledger.counts, ids) == Bumped(Counted(h.ledger.counts, ids[..0]), e);
    assert Next(h, Subscribe(ids, true, good)).live == multiset{e};
  }

  // ---------------------------------------------------------------- the bound on the number of calls

  function Repeated(call: Call, n: nat): seq<Call> {
    seq(n, _ => call)
  }

  lemma CountOneMore(h: History, e: EventId, good: Framework)
    requires Fits(h.ledger.counts) && StartCode(good, 0) == SUCCESS
    ensures var h1 := Next(h, Subscribe([e], true, good));
            && Fits(h1.ledger.counts) && h1.live[e] == h.live[e] + 1
            && Count(h1.ledger.counts, e) == (Count(h.ledger.counts, e) + 1) % UINT32_MODULUS
  {
    assert FirstFailure(h.ledger.loaders, [e], good, 0) == 1;
    CountedIs(h.ledger.counts, [e], e);
    assert multiset([e])[e] == 1;
  }

  lemma WrapsOneMore(h: History, e: EventId, good: Framework, n: nat)
    requires Fits(h.ledger.counts) && StartCode(good, 0) == SUCCESS
    requires n > 0 && h.live[e] == n - 1 && Count(h.ledger.counts, e) == (n - 1) % UINT32_MODULUS
    ensures var h1 := Next(h, Subscribe([e], true, good));
            h1.live[e] == n && Count(h1.ledger.counts, e) == n % UINT32_MODULUS && Fits(h1.ledger.counts)
  {
    CountOneMore(h, e, good);
    AddOne(n - 1);
  }

  lemma RepeatedOneMore(call: Call, n: nat)
    requires n > 0
    ensures After(Repeated(call, n)) == Next(After(Repeated(call, n - 1)), call)
  {
    assert Repeated(call, n)[..n - 1] == Repeated(call, n - 1);
  }

  /** With 2^32 subscriptions to one event the count has wrapped to zero while all of them are live. */
  lemma {:induction false} CountWraps(e: EventId, good: Framework, n: nat)
    requires StartCode(good, 0) == SUCCESS
    ensures var h := After(Repeated(Subscribe([e], true, good), n));
            h.live[e] == n && Count(h.ledger.counts, e) == n % UINT32_MODULUS && Fits(h.ledger.counts)
  {
    var call := Subscribe([e], true, good);
    if n == 0 {
      assert Repeated(call, 0) == [];
    } else {
      CountWraps(e, good, n - 1);
      WrapsOneMore(After(Repeated(call, n - 1)), e, good, n);
      RepeatedOneMore(call, n);
    }
  }
}
