/** The collector table of the collector service: which collectors are loaded, how many subscriptions each one serves,
    and how a call that fails half-way takes back what it did. */
module DataCollections {
  import opened Common

  /** `eventIdToLoaderMap_`, with each loader named by the path of its library. */
  type Loaders = map<EventId, string>

  /** `eventIdToSubscribeCount_`: 32-bit unsigned numbers, which wrap around. */
  type Counts = map<EventId, nat>

  /** What the outside answers during one call. For the id at a position of the list: the code of the configuration
      lookup, the library found and the code of loading and starting the collector. For a loaded event: whether the
      library still hands out its collector, and the code of stopping it. */
  datatype Framework = Framework(
    path: nat -> Code, lib: nat -> string, load: nat -> Code, alive: EventId -> bool, stop: EventId -> Code)

  ghost predicate AllAlive(fw: Framework) {
    forall e :: fw.alive(e)
  }

  function Count(counts: Counts, e: EventId): nat {
    if e in counts then counts[e] else 0
  }

  // ---------------------------------------------------------------- loading a list

  function StartCode(fw: Framework, i: nat): Code {
    if fw.path(i) != SUCCESS then fw.path(i) else fw.load(i)
  }

  predicate Fails(loaders: Loaders, ids: seq<EventId>, i: nat, fw: Framework)
    requires i < |ids|
  {
    ids[i] !in loaders && ids[i] !in ids[..i] && StartCode(fw, i) != SUCCESS
  }

  /** The first position whose collector cannot be started, or the length of the list. */
  function FirstFailure(loaders: Loaders, ids: seq<EventId>, fw: Framework, from: nat): (r: nat)
    requires from <= |ids|
    ensures from <= r <= |ids|
    ensures r < |ids| ==> Fails(loaders, ids, r, fw)
    ensures forall j :: from <= j < r ==> !Fails(loaders, ids, j, fw)
    decreases |ids| - from
  {
    if from == |ids| || Fails(loaders, ids, from, fw) then from else FirstFailure(loaders, ids, fw, from + 1)
  }

  /** The loaders after every id of the list has been started that was not running yet. */
  function Loading(loaders: Loaders, ids: seq<EventId>, fw: Framework): Loaders {
    if ids == [] then loaders
    else
      var n := |ids| - 1;
      var before := Loading(loaders, ids[..n], fw);
      if ids[n] in before then before else before[ids[n] := fw.lib(n)]
  }

  function NewlyLoaded(loaders: Loaders, ids: seq<EventId>): seq<EventId> {
    if ids == [] then []
    else
      var n := |ids| - 1;
      var before := NewlyLoaded(loaders, ids[..n]);
      if ids[n] in loaders || ids[n] in ids[..n] then before else before + [ids[n]]
  }

  // ---------------------------------------------------------------- counting

  function Bumped(counts: Counts, e: EventId): Counts {
    counts[e := if e in counts then (counts[e] + 1) % UINT32_MODULUS else 1]
  }

  function Counted(counts: Counts, ids: seq<EventId>): Counts {
    if ids == [] then counts else Bumped(Counted(counts, ids[..|ids| - 1]), ids[|ids| - 1])
  }

  predicate StillCounted(counts: Counts, e: EventId) {
    e in counts && (counts[e] - 1) % UINT32_MODULUS > 0
  }

  function Dropped(counts: Counts, e: EventId): Counts {
    if StillCounted(counts, e) then counts[e := (counts[e] - 1) % UINT32_MODULUS] else counts - {e}
  }

  function Uncounted(counts: Counts, loaders: Loaders, ids: seq<EventId>): Counts {
    if ids == [] then counts
    else
      var n := |ids| - 1;
      var before := Uncounted(counts, loaders, ids[..n]);
      if ids[n] in loaders then Dropped(before, ids[n]) else before
  }

  function ToStop(counts: Counts, loaders: Loaders, ids: seq<EventId>): seq<EventId> {
    if ids == [] then []
    else
      var n := |ids| - 1;
      var before := ToStop(counts, loaders, ids[..n]);
      if ids[n] in loaders && !StillCounted(Uncounted(counts, loaders, ids[..n]), ids[n]) then before + [ids[n]]
      else before
  }

  // ---------------------------------------------------------------- stopping a list

  function Unloaded(loaders: Loaders, ids: seq<EventId>, fw: Framework): Loaders {
    loaders - (set e | e in ids && fw.alive(e))
  }

  /** The code of stopping a list: that of the last id that could not be stopped. */
  function StopCode(loaders: Loaders, ids: seq<EventId>, fw: Framework): Code {
    if ids == [] then SUCCESS
    else
      var n := |ids| - 1;
      if ids[n] !in Unloaded(loaders, ids[..n], fw) || !fw.alive(ids[n]) then FAILED
      else if fw.stop(ids[n]) != SUCCESS then fw.stop(ids[n])
      else StopCode(loaders, ids[..n], fw)
  }

  /** Every loaded collector of the list is named once, is handed out and agrees to stop. */
  predicate StopsCleanly(loaders: Loaders, ids: seq<EventId>, fw: Framework) {
    && (forall e :: e in ids && e in loaders ==> fw.alive(e) && fw.stop(e) == SUCCESS)
    && (forall i, j :: 0 <= i < j < |ids| && ids[j] in loaders ==> ids[i] != ids[j])
  }

  lemma StopsCleanlySnoc(loaders: Loaders, ids: seq<EventId>, e: EventId, fw: Framework)
    ensures StopsCleanly(loaders, ids + [e], fw) <==>
            StopsCleanly(loaders, ids, fw) &&
            (e in loaders ==> e !in ids && fw.alive(e) && fw.stop(e) == SUCCESS)
  {
    var more := ids + [e];
    assert more[|ids|] == e;
    assert forall i :: 0 <= i < |ids| ==> more[i] == ids[i];
  }

  lemma {:induction false} StopCodeTells(loaders: Loaders, ids: seq<EventId>, fw: Framework)
    requires forall e :: e in ids ==> e in loaders
    ensures StopCode(loaders, ids, fw) == SUCCESS <==> StopsCleanly(loaders, ids, fw)
  {
    if ids != [] {
      var n := |ids| - 1;
      StopCodeTells(loaders, ids[..n], fw);
      StopsCleanlySnoc(loaders, ids[..n], ids[n], fw);
      assert ids == ids[..n] + [ids[n]];
    }
  }

  /** Starting a list up to position `i` and stopping again what it has loaded. */
  function UnrolledAt(loaders: Loaders, ids: seq<EventId>, i: nat, fw: Framework): Loaders
    requires i <= |ids|
  {
    Unloaded(Loading(loaders, ids[..i], fw), NewlyLoaded(loaders, ids[..i]), fw)
  }

  // ---------------------------------------------------------------- whole calls

  datatype Ledger = Ledger(loaders: Loaders, counts: Counts)

  function Unsubscribed(l: Ledger, ids: seq<EventId>, fw: Framework): Ledger {
    Ledger(Unloaded(l.loaders, ToStop(l.counts, l.loaders, ids), fw), Uncounted(l.counts, l.loaders, ids))
  }

  function UnsubscribeCode(l: Ledger, ids: seq<EventId>, fw: Framework): Code {
    StopCode(l.loaders, ToStop(l.counts, l.loaders, ids), fw)
  }

  /** A subscription that fails at position `i` has counted that position and all before it, and gives back one count
      of each collector it has loaded itself. */
  function FailedAt(l: Ledger, ids: seq<EventId>, i: nat, fw: Framework): Ledger
    requires i < |ids|
  {
    Unsubscribed(Ledger(Loading(l.loaders, ids[..i], fw), Counted(l.counts, ids[..i + 1])),
                 NewlyLoaded(l.loaders, ids[..i]), fw)
  }

  function Subscribed(l: Ledger, ids: seq<EventId>, fw: Framework): Ledger {
    var i := FirstFailure(l.loaders, ids, fw, 0);
    if i < |ids| then FailedAt(l, ids, i, fw)
    else Ledger(Loading(l.loaders, ids, fw), Counted(l.counts, ids))
  }

  function SubscribeCode(l: Ledger, ids: seq<EventId>, fw: Framework): Code {
    var i := FirstFailure(l.loaders, ids, fw, 0);
    if i < |ids| then StartCode(fw, i) else SUCCESS
  }

  // ---------------------------------------------------------------- the codes, said of the events themselves

  /** Every position of the list is running already or starts. */
  predicate AllStart(loaders: Loaders, ids: seq<EventId>, fw: Framework) {
    forall i :: 0 <= i < |ids| ==>
      ids[i] in loaders || ids[i] in ids[..i] || (fw.path(i) == SUCCESS && fw.load(i) == SUCCESS)
  }

  /** A subscription succeeds exactly if every position starts; otherwise it returns what the lookup of the library or, if
      that went well, the loading has answered at the first position that does not. */
  lemma SubscribeCodeTells(l: Ledger, ids: seq<EventId>, fw: Framework)
    ensures SubscribeCode(l, ids, fw) == SUCCESS <==> AllStart(l.loaders, ids, fw)
    ensures var i := FirstFailure(l.loaders, ids, fw, 0);
            && (i == |ids| <==> AllStart(l.loaders, ids, fw))
            && AllStart(l.loaders, ids[..i], fw)
            && (i < |ids| ==>
                  ids[i] !in l.loaders && ids[i] !in ids[..i] &&
                  SubscribeCode(l, ids, fw) == if fw.path(i) != SUCCESS then fw.path(i) else fw.load(i))
  {
    var i := FirstFailure(l.loaders, ids, fw, 0);
    assert forall j :: 0 <= j < i ==> !Fails(l.loaders, ids, j, fw) && ids[..i][..j] == ids[..j];
    assert i < |ids| ==> Fails(l.loaders, ids, i, fw);
  }

  /** The loader of an event is that of the first position that names it. */
  lemma {:induction false} LoadedLibraryIs(loaders: Loaders, ids: seq<EventId>, i: nat, fw: Framework)
    requires i < |ids| && ids[i] !in loaders && ids[i] !in ids[..i]
    ensures ids[i] in Loading(loaders, ids, fw) && Loading(loaders, ids, fw)[ids[i]] == fw.lib(i)
  {
    var n := |ids| - 1;
    LoadingKeys(loaders, ids[..n], fw);
    if i < n {
      assert ids[..n][..i] == ids[..i];
      LoadedLibraryIs(loaders, ids[..n], i, fw);
    }
  }

  /** An event that is not in the list, or not loaded, keeps its count. */
  lemma {:induction false} UncountedElsewhere(counts: Counts, loaders: Loaders, ids: seq<EventId>, e: EventId)
    requires e !in ids || e !in loaders
    ensures e in Uncounted(counts, loaders, ids) <==> e in counts
    ensures e in counts ==> Uncounted(counts, loaders, ids)[e] == counts[e]
    ensures e !in ToStop(counts, loaders, ids)
  {
    if ids != [] {
      UncountedElsewhere(counts, loaders, ids[..|ids| - 1], e);
    }
  }

  /** Taking a subscription of the event away leaves none. */
  predicate LosesLast(l: Ledger, e: EventId) {
    e in l.loaders && !(e in l.counts && (l.counts[e] - 1) % UINT32_MODULUS > 0)
  }

  /** The library no longer hands out the collector, or the collector does not stop. */
  predicate Refuses(fw: Framework, e: EventId) {
    !fw.alive(e) || fw.stop(e) != SUCCESS
  }

  /** The last event of the list that loses its last subscription and refuses to stop. */
  predicate LastRefusal(l: Ledger, ids: seq<EventId>, fw: Framework, i: nat)
    requires i < |ids|
  {
    LosesLast(l, ids[i]) && Refuses(fw, ids[i]) &&
    forall j :: i < j < |ids| && LosesLast(l, ids[j]) ==> !Refuses(fw, ids[j])
  }

  lemma {:induction false} ToStopIs(l: Ledger, ids: seq<EventId>)
    requires Distinct(ids)
    ensures forall e :: e in ToStop(l.counts, l.loaders, ids) <==> e in ids && LosesLast(l, e)
  {
    if ids != [] {
      var n := |ids| - 1;
      ToStopIs(l, ids[..n]);
      assert ids == ids[..n] + [ids[n]];
      UncountedElsewhere(l.counts, l.loaders, ids[..n], ids[n]);
    }
  }

  lemma UnsubscribeCodeSnoc(l: Ledger, ids: seq<EventId>, e: EventId, fw: Framework)
    requires Distinct(ids + [e])
    ensures UnsubscribeCode(l, ids + [e], fw) ==
            if LosesLast(l, e) && Refuses(fw, e) then (if fw.alive(e) then fw.stop(e) else FAILED)
            else UnsubscribeCode(l, ids, fw)
  {
    var more := ids + [e];
    assert more[..|ids|] == ids && e !in ids by {
      assert more[|ids|] == e && forall i :: 0 <= i < |ids| ==> more[i] == ids[i];
    }
    UncountedElsewhere(l.counts, l.loaders, ids, e);
    ToStopIs(l, ids);
    var before := ToStop(l.counts, l.loaders, ids);
    assert (before + [e])[..|before|] == before;
  }

  /** An unsubscription succeeds exactly if every loaded event of the list that loses its last subscription is handed out
      and stops; otherwise it returns the answer of the last one that does not. */
  lemma {:induction false} UnsubscribeCodeTells(l: Ledger, ids: seq<EventId>, fw: Framework)
    requires Distinct(ids)
    ensures UnsubscribeCode(l, ids, fw) == SUCCESS <==>
            forall e :: e in ids && LosesLast(l, e) ==> fw.alive(e) && fw.stop(e) == SUCCESS
    ensures forall i :: 0 <= i < |ids| && LastRefusal(l, ids, fw, i) ==>
              UnsubscribeCode(l, ids, fw) == if fw.alive(ids[i]) then fw.stop(ids[i]) else FAILED
  {
    if ids != [] {
      var n := |ids| - 1;
      var front, e := ids[..n], ids[n];
      assert ids == front + [e];
      UnsubscribeCodeTells(l, front, fw);
      UnsubscribeCodeSnoc(l, front, e, fw);
      forall i | 0 <= i < n && LastRefusal(l, ids, fw, i)
        ensures LastRefusal(l, front, fw, i) && !(LosesLast(l, e) && Refuses(fw, e))
      {
        assert forall j :: i < j < n ==> front[j] == ids[j];
      }
    }
  }

  lemma UnsubscribeCodeOfDistinct(l: Ledger, ids: seq<EventId>, fw: Framework)
    ensures Distinct(ids) ==>
              (UnsubscribeCode(l, ids, fw) == SUCCESS <==>
                forall e :: e in ids && LosesLast(l, e) ==> fw.alive(e) && fw.stop(e) == SUCCESS)
  {
    if Distinct(ids) {
      UnsubscribeCodeTells(l, ids, fw);
    }
  }

  lemma {:induction false} LoadingKeys(loaders: Loaders, ids: seq<EventId>, fw: Framework)
    ensures Loading(loaders, ids, fw).Keys == loaders.Keys + (set e | e in ids)
    ensures forall e :: e in loaders ==> Loading(loaders, ids, fw)[e] == loaders[e]
  {
    if ids != [] {
      var n := |ids| - 1;
      LoadingKeys(loaders, ids[..n], fw);
      assert ids == ids[..n] + [ids[n]];
    }
  }

  lemma {:induction false} NewlyLoadedIs(loaders: Loaders, ids: seq<EventId>)
    ensures forall e :: e in NewlyLoaded(loaders, ids) <==> e in ids && e !in loaders
    ensures Distinct(NewlyLoaded(loaders, ids))
  {
    if ids != [] {
      var n := |ids| - 1;
      NewlyLoadedIs(loaders, ids[..n]);
      assert ids == ids[..n] + [ids[n]];
    }
  }

  /** One more position of the list, started or already running. */
  lemma NextPosition(l: Ledger, ids: seq<EventId>, i: nat, fw: Framework)
    requires i < |ids|
    ensures ids[i] in Loading(l.loaders, ids[..i], fw) <==> ids[i] in l.loaders || ids[i] in ids[..i]
    ensures var before := Loading(l.loaders, ids[..i], fw);
            Loading(l.loaders, ids[..i + 1], fw) == if ids[i] in before then before else before[ids[i] := fw.lib(i)]
    ensures var before := Loading(l.loaders, ids[..i], fw);
            NewlyLoaded(l.loaders, ids[..i + 1]) ==
            NewlyLoaded(l.loaders, ids[..i]) + if ids[i] in before then [] else [ids[i]]
    ensures Counted(l.counts, ids[..i + 1]) == Bumped(Counted(l.counts, ids[..i]), ids[i])
  {
    assert ids[..i + 1][..i] == ids[..i];
    LoadingKeys(l.loaders, ids[..i], fw);
  }

  class DataCollection {
    var loaders: Loaders
    var counts: Counts

    constructor ()
      ensures loaders == map[] && counts == map[]
    {
      loaders, counts := map[], map[];
    }

    ghost function State(): Ledger
      reads this
    {
      Ledger(loaders, counts)
    }

    method IncrementSubscribeCount(e: EventId)
      modifies this`counts
      ensures counts == Bumped(old(counts), e)
    {
      if e !in counts {
        counts := counts[e := 1];
      } else {
        counts := counts[e := (counts[e] + 1) % UINT32_MODULUS];
      }
    }

    method DecrementSubscribeCount(e: EventId) returns (others: bool)
      modifies this`counts
      ensures others == StillCounted(old(counts), e)
      ensures counts == Dropped(old(counts), e)
    {
      if e !in counts {
        assert counts - {e} == counts;
        return false;
      }
      var curCount := (counts[e] - 1) % UINT32_MODULUS;
      if curCount > 0 {
        counts := counts[e := curCount];
        return true;
      }
      counts := counts - {e};
      return false;
    }

    /** The second phase of stopping: each collector of the list is stopped and its loader dropped, whatever the
        collector answers; it stays only if the library no longer hands out the collector. */
    method StopListed(toStop: seq<EventId>, fw: Framework) returns (ret: Code)
      modifies this`loaders
      ensures loaders == Unloaded(old(loaders), toStop, fw)
      ensures ret == StopCode(old(loaders), toStop, fw)
    {
      ret := SUCCESS;
      for i := 0 to |toStop|
        invariant loaders == Unloaded(old(loaders), toStop[..i], fw)
        invariant ret == StopCode(old(loaders), toStop[..i], fw)
      {
        var e := toStop[i];
        assert toStop[..i + 1][..i] == toStop[..i];
        assert toStop[..i + 1] == toStop[..i] + [e];
        if e !in loaders || !fw.alive(e) {
          ret := FAILED;
        } else {
          var result := fw.stop(e);
          if result != SUCCESS {
            ret := result;
          }
          loaders := loaders - {e};
        }
      }
      Whole(toStop);
    }

    method StopCollectors(ids: seq<EventId>, fw: Framework) returns (ok: bool)
      modifies this`loaders
      ensures loaders == Unloaded(old(loaders), ids, fw)
      ensures ok <==> StopsCleanly(old(loaders), ids, fw)
    {
      var toStop: seq<EventId> := [];
      for i := 0 to |ids|
        invariant forall e :: e in toStop <==> e in ids[..i] && e in loaders
        invariant StopsCleanly(loaders, toStop, fw) <==> StopsCleanly(loaders, ids[..i], fw)
        invariant loaders == old(loaders)
      {
        StopsCleanlySnoc(loaders, ids[..i], ids[i], fw);
        assert ids[..i + 1] == ids[..i] + [ids[i]];
        if ids[i] in loaders {
          StopsCleanlySnoc(loaders, toStop, ids[i], fw);
          toStop := toStop + [ids[i]];
        }
      }
      Whole(ids);
      StopCodeTells(old(loaders), toStop, fw);
      OnlyLoadedMatter(old(loaders), toStop, ids, fw);
      var ret := StopListed(toStop, fw);
      ok := ret == SUCCESS;
    }

    method StartCollectors(ids: seq<EventId>, api: bool, fw: Framework) returns (ok: bool)
      modifies this`loaders
      ensures ok <==> ids != [] && api && FirstFailure(old(loaders), ids, fw, 0) == |ids|
      ensures ok ==> loaders == Loading(old(loaders), ids, fw)
      ensures ok ==> loaders.Keys == old(loaders).Keys + (set e | e in ids)
      ensures !ok && ids != [] && api ==>
                loaders == UnrolledAt(old(loaders), ids, FirstFailure(old(loaders), ids, fw, 0), fw)
      ensures !ok ==>
                (loaders == old(loaders) <==>
                  ids == [] || !api ||
                  forall e :: e in ids[..FirstFailure(old(loaders), ids, fw, 0)] && e !in old(loaders) ==> fw.alive(e))
    {
      if ids == [] || !api {
        return false;
      }
      var loaded: seq<EventId> := [];
      for i := 0 to |ids|
        invariant loaders == Loading(old(loaders), ids[..i], fw)
        invariant loaded == NewlyLoaded(old(loaders), ids[..i])
        invariant FirstFailure(old(loaders), ids, fw, 0) == FirstFailure(old(loaders), ids, fw, i)
      {
        NextPosition(old(State()), ids, i, fw);
        if ids[i] in loaders {
          continue;
        }
        var ret := fw.path(i);
        if ret == SUCCESS {
          ret := fw.load(i);
        }
        if ret != SUCCESS {
          var _ := StopCollectors(loaded, fw);
          UnloadingNewRestoresExactly(old(loaders), ids[..i], fw);
          return false;
        }
        loaders := loaders[ids[i] := fw.lib(i)];
        loaded := loaded + [ids[i]];
      }
      Whole(ids);
      LoadingKeys(old(loaders), ids, fw);
      return true;
    }

    method UnsubscribeCollectors(ids: seq<EventId>, fw: Framework) returns (ret: Code)
      modifies this
      ensures State() == Unsubscribed(old(State()), ids, fw)
      ensures ret == UnsubscribeCode(old(State()), ids, fw)
      ensures Distinct(ids) ==>
                (ret == SUCCESS <==>
                  forall e :: e in ids && LosesLast(old(State()), e) ==> fw.alive(e) && fw.stop(e) == SUCCESS)
    {
      var toStop: seq<EventId> := [];
      for i := 0 to |ids|
        invariant loaders == old(loaders)
        invariant counts == Uncounted(old(counts), loaders, ids[..i])
        invariant toStop == ToStop(old(counts), loaders, ids[..i])
      {
        assert ids[..i + 1][..i] == ids[..i];
        if ids[i] in loaders {
          var others := DecrementSubscribeCount(ids[i]);
          if !others {
            toStop := toStop + [ids[i]];
          }
        }
      }
      Whole(ids);
      UnsubscribeCodeOfDistinct(old(State()), ids, fw);
      ret := StopListed(toStop, fw);
    }

    /** `SubscribeCollectors`, and `SubscribeCollectorsBySticky` but for its binding of the new listener to collectors
        that run already, which changes neither map. */
    method SubscribeCollectors(ids: seq<EventId>, api: bool, fw: Framework) returns (ret: Code)
      modifies this
      ensures ids == [] || !api ==> ret == BAD_PARAM && State() == old(State())
      ensures ids != [] && api ==> ret == SubscribeCode(old(State()), ids, fw)
      ensures ids != [] && api ==> (ret == SUCCESS <==> AllStart(old(loaders), ids, fw))
      ensures ids != [] && api ==> State() == Subscribed(old(State()), ids, fw)
    {
      if ids == [] || !api {
        return BAD_PARAM;
      }
      var loaded: seq<EventId> := [];
      for i := 0 to |ids|
        invariant loaders == Loading(old(loaders), ids[..i], fw)
        invariant counts == Counted(old(counts), ids[..i])
        invariant loaded == NewlyLoaded(old(loaders), ids[..i])
        invariant FirstFailure(old(loaders), ids, fw, 0) == FirstFailure(old(loaders), ids, fw, i)
      {
        SubscribeCodeTells(old(State()), ids, fw);
        NextPosition(old(State()), ids, i, fw);
        IncrementSubscribeCount(ids[i]);
        if ids[i] in loaders {
          continue;
        }
        ret := fw.path(i);
        if ret == SUCCESS {
          ret := fw.load(i);
        }
        if ret != SUCCESS {
          var _ := UnsubscribeCollectors(loaded, fw);
          return;
        }
        loaders := loaders[ids[i] := fw.lib(i)];
        loaded := loaded + [ids[i]];
      }
      Whole(ids);
      SubscribeCodeTells(old(State()), ids, fw);
      return SUCCESS;
    }
  }

  lemma OnlyLoadedMatter(loaders: Loaders, present: seq<EventId>, ids: seq<EventId>, fw: Framework)
    requires forall e :: e in present <==> e in ids && e in loaders
    ensures Unloaded(loaders, present, fw) == Unloaded(loaders, ids, fw)
  {
    var some, all := Unloaded(loaders, present, fw), Unloaded(loaders, ids, fw);
    assert forall e :: e in some <==> e in all;
  }

  /** Stopping what a list has newly loaded gives back the loaders from before the list exactly if the libraries still
      hand out what was loaded. */
  lemma UnloadingNewRestoresExactly(loaders: Loaders, ids: seq<EventId>, fw: Framework)
    ensures Unloaded(Loading(loaders, ids, fw), NewlyLoaded(loaders, ids), fw) == loaders <==>
            forall e :: e in ids && e !in loaders ==> fw.alive(e)
  {
    LoadingKeys(loaders, ids, fw);
    NewlyLoadedIs(loaders, ids);
    var after := Unloaded(Loading(loaders, ids, fw), NewlyLoaded(loaders, ids), fw);
    assert forall e :: e in after <==> e in loaders || (e in ids && !fw.alive(e));
    if forall e :: e in ids && e !in loaders ==> fw.alive(e) {
      assert after.Keys == loaders.Keys;
    }
  }
}
