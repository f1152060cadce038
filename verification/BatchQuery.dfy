/** The batch query of the collector service: rulers are grouped by the library of their collector and each group is
    queried at once. */
module BatchQuery {
  import opened Common

  datatype Ruler = Ruler(eventId: EventId, version: string, param: string, beginTime: string, endTime: string)
  datatype Event = Event(eventId: EventId, version: string, content: string, timestamp: string)
  datatype Path = Path(text: string)
  datatype Answer = Answer(code: Code, events: seq<Event>)

  /** The configured library of an event, whether a library loads, whether it hands out its collector, and what that
      collector answers to a ruler. */
  datatype Libraries = Libraries(
    path: EventId -> Option<Path>, loads: Path -> bool, alive: Path -> bool, query: (Path, Ruler) -> Answer)

  // ---------------------------------------------------------------- one ruler at a time

  datatype Outcome = Answered(events: seq<Event>) | Reported | Dropped

  /** What becomes of one ruler. Only a library that does not load leaves no trace of it. */
  function One(libs: Libraries, r: Ruler): Outcome {
    match libs.path(r.eventId)
    case None => Reported
    case Some(so) =>
      if !libs.loads(so) then Dropped
      else if !libs.alive(so) || libs.query(so, r).code != 0 then Reported
      else Answered(libs.query(so, r).events)
  }

  /** The answers to one ruler after the other. */
  function EventsOf(libs: Libraries, rs: seq<Ruler>): seq<Event> {
    if rs == [] then []
    else EventsOf(libs, rs[..|rs| - 1]) + Gained(libs, rs[|rs| - 1])
  }

  function FailedOf(libs: Libraries, rs: seq<Ruler>): seq<EventId> {
    if rs == [] then []
    else FailedOf(libs, rs[..|rs| - 1]) + Missed(libs, rs[|rs| - 1])
  }

  function Gained(libs: Libraries, r: Ruler): seq<Event> {
    if One(libs, r).Answered? then One(libs, r).events else []
  }

  function Missed(libs: Libraries, r: Ruler): seq<EventId> {
    if One(libs, r).Reported? then [r.eventId] else []
  }

  // ---------------------------------------------------------------- counting occurrences

  function Times<T(==)>(s: seq<T>, x: T): nat {
    if s == [] then 0 else Times(s[..|s| - 1], x) + if s[|s| - 1] == x then 1 else 0
  }

  lemma {:induction false} TimesConcat<T>(a: seq<T>, b: seq<T>, x: T)
    ensures Times(a + b, x) == Times(a, x) + Times(b, x)
  {
    if b == [] {
      assert a + b == a;
    } else {
      assert (a + b)[..|a + b| - 1] == a + b[..|b| - 1];
      TimesConcat(a, b[..|b| - 1], x);
    }
  }

  lemma {:induction false} TimesIsMultiplicity<T>(s: seq<T>, x: T)
    ensures multiset(s)[x] == Times(s, x)
  {
    if s != [] {
      TimesIsMultiplicity(s[..|s| - 1], x);
      assert s == s[..|s| - 1] + [s[|s| - 1]];
    }
  }

  lemma SameTimes<T(!new)>(s: seq<T>, t: seq<T>)
    requires forall x :: Times(s, x) == Times(t, x)
    ensures multiset(s) == multiset(t)
  {
    forall x
      ensures multiset(s)[x] == multiset(t)[x]
    {
      TimesIsMultiplicity(s, x);
      TimesIsMultiplicity(t, x);
    }
  }

  function EventTimes(libs: Libraries, rs: seq<Ruler>, x: Event): nat {
    if rs == [] then 0 else EventTimes(libs, rs[..|rs| - 1], x) + Times(Gained(libs, rs[|rs| - 1]), x)
  }

  function MissTimes(libs: Libraries, rs: seq<Ruler>, e: EventId): nat {
    if rs == [] then 0 else MissTimes(libs, rs[..|rs| - 1], e) + Times(Missed(libs, rs[|rs| - 1]), e)
  }

  lemma {:induction false} EventTimesIs(libs: Libraries, rs: seq<Ruler>, x: Event)
    ensures Times(EventsOf(libs, rs), x) == EventTimes(libs, rs, x)
  {
    if rs != [] {
      EventTimesIs(libs, rs[..|rs| - 1], x);
      TimesConcat(EventsOf(libs, rs[..|rs| - 1]), Gained(libs, rs[|rs| - 1]), x);
    }
  }

  lemma {:induction false} MissTimesIs(libs: Libraries, rs: seq<Ruler>, e: EventId)
    ensures Times(FailedOf(libs, rs), e) == MissTimes(libs, rs, e)
  {
    if rs != [] {
      MissTimesIs(libs, rs[..|rs| - 1], e);
      TimesConcat(FailedOf(libs, rs[..|rs| - 1]), Missed(libs, rs[|rs| - 1]), e);
    }
  }

  // ---------------------------------------------------------------- groups

  predicate Within(libs: Libraries, r: Ruler, paths: set<Path>) {
    libs.path(r.eventId).Some? && libs.path(r.eventId).value in paths
  }

  function Selected(libs: Libraries, rs: seq<Ruler>, paths: set<Path>): seq<Ruler> {
    if rs == [] then []
    else
      var rest := Selected(libs, rs[..|rs| - 1], paths);
      if Within(libs, rs[|rs| - 1], paths) then rest + [rs[|rs| - 1]] else rest
  }

  function Unconfigured(libs: Libraries, rs: seq<Ruler>): seq<Ruler> {
    if rs == [] then []
    else
      var rest := Unconfigured(libs, rs[..|rs| - 1]);
      if libs.path(rs[|rs| - 1].eventId).None? then rest + [rs[|rs| - 1]] else rest
  }

  lemma TimesSnoc(libs: Libraries, rs: seq<Ruler>, r: Ruler, x: Event, e: EventId)
    ensures EventTimes(libs, rs + [r], x) == EventTimes(libs, rs, x) + Times(Gained(libs, r), x)
    ensures MissTimes(libs, rs + [r], e) == MissTimes(libs, rs, e) + Times(Missed(libs, r), e)
  {
    assert (rs + [r])[..|rs|] == rs;
  }

  lemma SelectedGrows(libs: Libraries, rs: seq<Ruler>, paths: set<Path>, x: Event, e: EventId)
    requires rs != []
    ensures var rest, r := rs[..|rs| - 1], rs[|rs| - 1];
            && EventTimes(libs, Selected(libs, rs, paths), x) ==
               EventTimes(libs, Selected(libs, rest, paths), x) +
               (if Within(libs, r, paths) then Times(Gained(libs, r), x) else 0)
            && MissTimes(libs, Selected(libs, rs, paths), e) ==
               MissTimes(libs, Selected(libs, rest, paths), e) +
               (if Within(libs, r, paths) then Times(Missed(libs, r), e) else 0)
  {
    TimesSnoc(libs, Selected(libs, rs[..|rs| - 1], paths), rs[|rs| - 1], x, e);
  }

  /** One more library adds exactly the outcomes of its own rulers. */
  lemma {:induction false} SelectedSplits(libs: Libraries, rs: seq<Ruler>, done: set<Path>, so: Path, x: Event,
                                          e: EventId)
    requires so !in done
    ensures EventTimes(libs, Selected(libs, rs, done + {so}), x) ==
            EventTimes(libs, Selected(libs, rs, done), x) + EventTimes(libs, Selected(libs, rs, {so}), x)
    ensures MissTimes(libs, Selected(libs, rs, done + {so}), e) ==
            MissTimes(libs, Selected(libs, rs, done), e) + MissTimes(libs, Selected(libs, rs, {so}), e)
  {
    if rs != [] {
      SelectedSplits(libs, rs[..|rs| - 1], done, so, x, e);
      SelectedGrows(libs, rs, done + {so}, x, e);
      SelectedGrows(libs, rs, done, x, e);
      SelectedGrows(libs, rs, {so}, x, e);
    }
  }

  ghost predicate Covers(libs: Libraries, rs: seq<Ruler>, paths: set<Path>) {
    forall r :: r in rs && libs.path(r.eventId).Some? ==> libs.path(r.eventId).value in paths
  }

  lemma CoversPrefix(libs: Libraries, rs: seq<Ruler>, paths: set<Path>)
    requires Covers(libs, rs, paths) && rs != []
    ensures Covers(libs, rs[..|rs| - 1], paths)
    ensures Within(libs, rs[|rs| - 1], paths) <==> libs.path(rs[|rs| - 1].eventId).Some?
  {
    assert rs[|rs| - 1] in rs;
  }

  lemma UnconfiguredGrows(libs: Libraries, rs: seq<Ruler>, e: EventId)
    requires rs != []
    ensures var rest, r := rs[..|rs| - 1], rs[|rs| - 1];
            MissTimes(libs, Unconfigured(libs, rs), e) ==
            MissTimes(libs, Unconfigured(libs, rest), e) +
            (if libs.path(r.eventId).None? then Times(Missed(libs, r), e) else 0)
  {
    TimesSnoc(libs, Unconfigured(libs, rs[..|rs| - 1]), rs[|rs| - 1], Event(0, "", "", ""), e);
  }

  /** Configured and unconfigured rulers together are all of them. */
  lemma {:induction false} SelectedCovers(libs: Libraries, rs: seq<Ruler>, paths: set<Path>, x: Event, e: EventId)
    requires Covers(libs, rs, paths)
    ensures EventTimes(libs, rs, x) == EventTimes(libs, Selected(libs, rs, paths), x)
    ensures MissTimes(libs, rs, e) ==
            MissTimes(libs, Selected(libs, rs, paths), e) + MissTimes(libs, Unconfigured(libs, rs), e)
  {
    if rs != [] {
      CoversPrefix(libs, rs, paths);
      SelectedCovers(libs, rs[..|rs| - 1], paths, x, e);
      SelectedGrows(libs, rs, paths, x, e);
      UnconfiguredGrows(libs, rs, e);
    }
  }

  /** A group whose library does not load contributes nothing; one whose collector is missing only failures. */
  lemma {:induction false} SameFate(libs: Libraries, rs: seq<Ruler>, so: Path, x: Event, e: EventId)
    requires !libs.loads(so) || !libs.alive(so)
    requires forall r :: r in rs ==> libs.path(r.eventId) == Some(so)
    ensures EventTimes(libs, rs, x) == 0
    ensures MissTimes(libs, rs, e) == if libs.loads(so) then Times(Ids(rs), e) else 0
  {
    if rs != [] {
      SameFate(libs, rs[..|rs| - 1], so, x, e);
      TimesConcat(Ids(rs[..|rs| - 1]), [rs[|rs| - 1].eventId], e);
      assert rs[|rs| - 1] in rs;
    }
  }

  lemma {:induction false} SelectedAreWithin(libs: Libraries, rs: seq<Ruler>, paths: set<Path>)
    ensures forall r :: r in Selected(libs, rs, paths) ==> r in rs && Within(libs, r, paths)
  {
    if rs != [] {
      SelectedAreWithin(libs, rs[..|rs| - 1], paths);
    }
  }

  function Ids(rs: seq<Ruler>): seq<EventId> {
    if rs == [] then [] else Ids(rs[..|rs| - 1]) + [rs[|rs| - 1].eventId]
  }

  lemma {:induction false} NoneSelected(libs: Libraries, rs: seq<Ruler>)
    ensures Selected(libs, rs, {}) == []
  {
    if rs != [] {
      NoneSelected(libs, rs[..|rs| - 1]);
    }
  }

  // ---------------------------------------------------------------- the operations

  lemma OutcomesSnoc(libs: Libraries, rs: seq<Ruler>, i: nat)
    requires i < |rs|
    ensures EventsOf(libs, rs[..i + 1]) == EventsOf(libs, rs[..i]) + Gained(libs, rs[i])
    ensures FailedOf(libs, rs[..i + 1]) == FailedOf(libs, rs[..i]) + Missed(libs, rs[i])
  {
    assert rs[..i + 1][..i] == rs[..i];
  }

  lemma OfThisLibrary(libs: Libraries, so: Path, r: Ruler)
    requires libs.loads(so) && libs.alive(so) && libs.path(r.eventId) == Some(so)
    ensures Gained(libs, r) == if libs.query(so, r).code == 0 then libs.query(so, r).events else []
    ensures Missed(libs, r) == if libs.query(so, r).code == 0 then [] else [r.eventId]
  {
  }

  /** The default `BatchQuery` of a collector, which answers in the order of the rulers. */
  method Batch(libs: Libraries, so: Path, rs: seq<Ruler>, events0: seq<Event>, failed0: seq<EventId>)
      returns (events: seq<Event>, failed: seq<EventId>)
    requires libs.loads(so) && libs.alive(so)
    requires forall r :: r in rs ==> libs.path(r.eventId) == Some(so)
    ensures events == events0 + EventsOf(libs, rs)
    ensures failed == failed0 + FailedOf(libs, rs)
  {
    events, failed := events0, failed0;
    for i := 0 to |rs|
      invariant events == events0 + EventsOf(libs, rs[..i])
      invariant failed == failed0 + FailedOf(libs, rs[..i])
    {
      OutcomesSnoc(libs, rs, i);
      Regrouped(events0, EventsOf(libs, rs[..i]), Gained(libs, rs[i]));
      Regrouped(failed0, FailedOf(libs, rs[..i]), Missed(libs, rs[i]));
      OfThisLibrary(libs, so, rs[i]);
      var answer := libs.query(so, rs[i]);
      if answer.code != 0 {
        failed := failed + [rs[i].eventId];
      } else {
        events := events + answer.events;
      }
    }
    Whole(rs);
  }

  ghost predicate Adds(libs: Libraries, rs: seq<Ruler>, events0: seq<Event>, failed0: seq<EventId>,
                       events: seq<Event>, failed: seq<EventId>) {
    && (forall x :: Times(events, x) == Times(events0, x) + EventTimes(libs, rs, x))
    && (forall e :: Times(failed, e) == Times(failed0, e) + MissTimes(libs, rs, e))
  }

  lemma AppendedAdds(libs: Libraries, rs: seq<Ruler>, events0: seq<Event>, failed0: seq<EventId>)
    ensures Adds(libs, rs, events0, failed0, events0 + EventsOf(libs, rs), failed0 + FailedOf(libs, rs))
  {
    forall x ensures Times(events0 + EventsOf(libs, rs), x) == Times(events0, x) + EventTimes(libs, rs, x) {
      TimesConcat(events0, EventsOf(libs, rs), x);
      EventTimesIs(libs, rs, x);
    }
    forall e ensures Times(failed0 + FailedOf(libs, rs), e) == Times(failed0, e) + MissTimes(libs, rs, e) {
      TimesConcat(failed0, FailedOf(libs, rs), e);
      MissTimesIs(libs, rs, e);
    }
  }

  lemma LostGroupAdds(libs: Libraries, rs: seq<Ruler>, so: Path, events0: seq<Event>, failed0: seq<EventId>)
    requires !libs.loads(so) || !libs.alive(so)
    requires forall r :: r in rs ==> libs.path(r.eventId) == Some(so)
    ensures Adds(libs, rs, events0, failed0, events0, if libs.loads(so) then failed0 + Ids(rs) else failed0)
  {
    forall x ensures EventTimes(libs, rs, x) == 0 {
      SameFate(libs, rs, so, x, 0);
    }
    forall e ensures MissTimes(libs, rs, e) == if libs.loads(so) then Times(Ids(rs), e) else 0 {
      SameFate(libs, rs, so, Event(0, "", "", ""), e);
    }
    forall e ensures Times(failed0 + Ids(rs), e) == Times(failed0, e) + Times(Ids(rs), e) {
      TimesConcat(failed0, Ids(rs), e);
    }
  }

  method LoadAndQueryBySoPath(libs: Libraries, so: Path, rs: seq<Ruler>, events0: seq<Event>, failed0: seq<EventId>)
      returns (ret: Code, events: seq<Event>, failed: seq<EventId>)
    requires forall r :: r in rs ==> libs.path(r.eventId) == Some(so)
    ensures Adds(libs, rs, events0, failed0, events, failed)
    ensures ret == SUCCESS <==> libs.loads(so) && libs.alive(so)
  {
    events, failed := events0, failed0;
    if !libs.loads(so) {
      LostGroupAdds(libs, rs, so, events0, failed0);
      return FAILED, events, failed;
    }
    if !libs.alive(so) {
      for i := 0 to |rs|
        invariant failed == failed0 + Ids(rs[..i])
      {
        assert rs[..i + 1][..i] == rs[..i];
        failed := failed + [rs[i].eventId];
      }
      Whole(rs);
      LostGroupAdds(libs, rs, so, events0, failed0);
      return FAILED, events, failed;
    }
    events, failed := Batch(libs, so, rs, events, failed);
    AppendedAdds(libs, rs, events0, failed0);
    return SUCCESS, events, failed;
  }

  ghost predicate Grouped(libs: Libraries, rs: seq<Ruler>, groups: map<Path, seq<Ruler>>) {
    && Covers(libs, rs, groups.Keys)
    && (forall so :: so in groups ==> groups[so] == Selected(libs, rs, {so}))
    && (forall so :: so !in groups ==> Selected(libs, rs, {so}) == [])
  }

  /** What the first loop of the batch has made of some rulers. */
  ghost predicate Sorted(libs: Libraries, rs: seq<Ruler>, groups: map<Path, seq<Ruler>>, failed0: seq<EventId>,
                         failed: seq<EventId>) {
    Grouped(libs, rs, groups) && failed == failed0 + Ids(Unconfigured(libs, rs))
  }

  lemma SnocUnconfigured(libs: Libraries, rs: seq<Ruler>, i: nat, groups: map<Path, seq<Ruler>>, failed0: seq<EventId>,
                         failed: seq<EventId>)
    requires i < |rs| && Sorted(libs, rs[..i], groups, failed0, failed) && libs.path(rs[i].eventId).None?
    ensures Sorted(libs, rs[..i + 1], groups, failed0, failed + [rs[i].eventId])
  {
    OneMore(rs, i);
    var rest := Unconfigured(libs, rs[..i]);
    assert (rest + [rs[i]])[..|rest|] == rest;
  }

  lemma SnocConfigured(libs: Libraries, rs: seq<Ruler>, i: nat, so: Path, groups: map<Path, seq<Ruler>>,
                       failed0: seq<EventId>, failed: seq<EventId>)
    requires i < |rs| && Sorted(libs, rs[..i], groups, failed0, failed) && libs.path(rs[i].eventId) == Some(so)
    ensures Sorted(libs, rs[..i + 1], groups[so := (if so in groups then groups[so] else []) + [rs[i]]], failed0, failed)
  {
    OneMore(rs, i);
    forall other
      ensures Selected(libs, rs[..i + 1], {other}) ==
              if other == so then Selected(libs, rs[..i], {other}) + [rs[i]] else Selected(libs, rs[..i], {other})
    {
    }
  }

  /** The first loop of the batch: rulers go to the group of their library, those without a library to the failures. */
  method Group(libs: Libraries, rulers: seq<Ruler>, failed0: seq<EventId>)
      returns (groups: map<Path, seq<Ruler>>, failed: seq<EventId>)
    ensures Sorted(libs, rulers, groups, failed0, failed)
  {
    groups, failed := map[], failed0;
    for i := 0 to |rulers|
      invariant Sorted(libs, rulers[..i], groups, failed0, failed)
    {
      var e := rulers[i].eventId;
      match libs.path(e)
      case None =>
        SnocUnconfigured(libs, rulers, i, groups, failed0, failed);
        failed := failed + [e];
      case Some(so) =>
        SnocConfigured(libs, rulers, i, so, groups, failed0, failed);
        groups := groups[so := (if so in groups then groups[so] else []) + [rulers[i]]];
    }
    Whole(rulers);
  }

  lemma {:induction false} UnconfiguredAreMissed(libs: Libraries, rs: seq<Ruler>)
    ensures FailedOf(libs, Unconfigured(libs, rs)) == Ids(Unconfigured(libs, rs))
    ensures EventsOf(libs, Unconfigured(libs, rs)) == []
  {
    if rs != [] {
      var rest, r := Unconfigured(libs, rs[..|rs| - 1]), rs[|rs| - 1];
      UnconfiguredAreMissed(libs, rs[..|rs| - 1]);
      assert (rest + [r])[..|rest|] == rest;
    }
  }

  lemma DoneAdds(libs: Libraries, rs: seq<Ruler>, done: set<Path>, so: Path,
                 events0: seq<Event>, failed0: seq<EventId>, events1: seq<Event>, failed1: seq<EventId>,
                 events: seq<Event>, failed: seq<EventId>)
    requires so !in done
    requires Adds(libs, Selected(libs, rs, done), events0, failed0, events1, failed1)
    requires Adds(libs, Selected(libs, rs, {so}), events1, failed1, events, failed)
    ensures Adds(libs, Selected(libs, rs, done + {so}), events0, failed0, events, failed)
  {
    forall x ensures Times(events, x) == Times(events0, x) + EventTimes(libs, Selected(libs, rs, done + {so}), x) {
      SelectedSplits(libs, rs, done, so, x, 0);
    }
    forall e ensures Times(failed, e) == Times(failed0, e) + MissTimes(libs, Selected(libs, rs, done + {so}), e) {
      SelectedSplits(libs, rs, done, so, Event(0, "", "", ""), e);
    }
  }

  lemma AllDone(libs: Libraries, rs: seq<Ruler>, paths: set<Path>, events0: seq<Event>, failed0: seq<EventId>,
                events: seq<Event>, failed: seq<EventId>)
    requires Covers(libs, rs, paths)
    requires Adds(libs, Selected(libs, rs, paths), events0, failed0 + Ids(Unconfigured(libs, rs)), events, failed)
    ensures multiset(events) == multiset(events0 + EventsOf(libs, rs))
    ensures multiset(failed) == multiset(failed0 + FailedOf(libs, rs))
  {
    AppendedAdds(libs, rs, events0, failed0);
    forall x ensures Times(events, x) == Times(events0 + EventsOf(libs, rs), x) {
      SelectedCovers(libs, rs, paths, x, 0);
    }
    var none := Ids(Unconfigured(libs, rs));
    forall e ensures Times(failed, e) == Times(failed0 + FailedOf(libs, rs), e) {
      SelectedCovers(libs, rs, paths, Event(0, "", "", ""), e);
      TimesConcat(failed0, none, e);
      UnconfiguredAreMissed(libs, rs);
      MissTimesIs(libs, Unconfigured(libs, rs), e);
    }
    SameTimes(events, events0 + EventsOf(libs, rs));
    SameTimes(failed, failed0 + FailedOf(libs, rs));
  }

  /** The second loop: the groups are queried in an arbitrary order. */
  method QueryGroups(libs: Libraries, ghost rulers: seq<Ruler>, groups: map<Path, seq<Ruler>>, events0: seq<Event>,
                     failed0: seq<EventId>)
      returns (events: seq<Event>, failed: seq<EventId>)
    requires Grouped(libs, rulers, groups)
    ensures Adds(libs, Selected(libs, rulers, groups.Keys), events0, failed0, events, failed)
  {
    events, failed := events0, failed0;
    var left := groups.Keys;
    ghost var done := {};
    NoneSelected(libs, rulers);
    while left != {}
      invariant left !! done && left + done == groups.Keys
      invariant Adds(libs, Selected(libs, rulers, done), events0, failed0, events, failed)
    {
      var so :| so in left;
      SelectedAreWithin(libs, rulers, {so});
      var _, es, fs := LoadAndQueryBySoPath(libs, so, groups[so], events, failed);
      DoneAdds(libs, rulers, done, so, events0, failed0, events, failed, es, fs);
      events, failed := es, fs;
      left, done := left - {so}, done + {so};
    }
    assert done == groups.Keys;
  }

  /** Whatever order the groups are taken in, the events and the failed ids are those of asking one ruler at a time. */
  method QuerySecurityEventBatch(libs: Libraries, rulers: seq<Ruler>, events0: seq<Event>, failed0: seq<EventId>)
      returns (ret: Code, events: seq<Event>, failed: seq<EventId>)
    ensures ret == (if rulers == [] then FAILED else SUCCESS)
    ensures multiset(events) == multiset(events0 + EventsOf(libs, rulers))
    ensures multiset(failed) == multiset(failed0 + FailedOf(libs, rulers))
  {
    if rulers == [] {
      assert events0 + [] == events0 && failed0 + [] == failed0;
      return FAILED, events0, failed0;
    }
    var groups, failed1 := Group(libs, rulers, failed0);
    events, failed := QueryGroups(libs, rulers, groups, events0, failed1);
    AllDone(libs, rulers, groups.Keys, events0, failed0, events, failed);
    return SUCCESS, events, failed;
  }

  // ---------------------------------------------------------------- what is lost

  function AnsweredCount(libs: Libraries, rs: seq<Ruler>): nat {
    if rs == [] then 0
    else AnsweredCount(libs, rs[..|rs| - 1]) + if One(libs, rs[|rs| - 1]).Answered? then 1 else 0
  }

  /** Every ruler is answered or reported as failed, exactly if no configured library of theirs fails to load. */
  lemma {:induction false} NothingIsDroppedIffLibrariesLoad(libs: Libraries, rs: seq<Ruler>)
    ensures AnsweredCount(libs, rs) + |FailedOf(libs, rs)| <= |rs|
    ensures AnsweredCount(libs, rs) + |FailedOf(libs, rs)| == |rs| <==>
            forall r :: r in rs && libs.path(r.eventId).Some? ==> libs.loads(libs.path(r.eventId).value)
  {
    if rs != [] {
      var rest, r := rs[..|rs| - 1], rs[|rs| - 1];
      assert rs == rest + [r];
      NothingIsDroppedIffLibrariesLoad(libs, rest);
      assert One(libs, r).Dropped? <==> libs.path(r.eventId).Some? && !libs.loads(libs.path(r.eventId).value);
      assert r in rs;
    }
  }
}
