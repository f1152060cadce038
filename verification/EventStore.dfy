/** Inserting events under a quota: what the table holds after any batch. */
module EventStore {
  import opened Common
  import opened SqlConditions
  import opened EventTable

  const NOT_FOUND := 10

  /** The configured source, the quota (32 bits, unsigned) and whether the event goes to the risk table. */
  datatype Config = Config(source: nat, storageRomNums: nat, inRiskTable: bool)

  type Configs = int -> Option<Config>

  predicate Stores(configs: Configs, source: nat, e: int) {
    configs(e).Some? && configs(e).value.source == source && configs(e).value.inRiskTable
  }

  /** Eviction is attempted and not refused. */
  predicate MakesRoom(count: nat, e: int, quota: nat) {
    count >= quota && e >= 0 && count + 1 - quota <= INT32_MAX
  }

  ghost predicate Trimmed(rows: Rows, kept: Rows, e: int, quota: nat) {
    var count := |Of(rows, e)|;
    if MakesRoom(count, e, quota) then Evicted(rows, kept, e, count + 1 - quota) else kept == rows
  }

  /** The effect of one event of a batch. */
  ghost predicate Stepped(rows: Rows, rows1: Rows, event: Event, configs: Configs, source: nat) {
    if !Stores(configs, source, event.eventId) then rows1 == rows
    else
      exists kept, id: nat :: Put(rows, kept, id, rows1, event, configs(event.eventId).value.storageRomNums)
  }

  ghost predicate Put(rows: Rows, kept: Rows, id: nat, rows1: Rows, event: Event, quota: nat) {
    Trimmed(rows, kept, event.eventId, quota) && rows1 == kept + [Stored(id, event)] && AllBelow(rows, id)
  }

  ghost predicate AllBelow(rows: Rows, id: nat) {
    forall r :: r in rows ==> r.id < id
  }

  /** The tables between the events of a batch, the first and the last one included. */
  ghost predicate Trace(tables: seq<Rows>, events: seq<Event>, configs: Configs, source: nat) {
    && |tables| == |events| + 1
    && forall i :: 0 <= i < |events| ==> Stepped(tables[i], tables[i + 1], events[i], configs, source)
  }

  /** The code of a batch is that of its last event that is unknown or stored; a later event hides an earlier failure. */
  function ReturnCode(events: seq<Event>, configs: Configs, source: nat): int {
    if events == [] then SUCCESS
    else
      var e := events[|events| - 1].eventId;
      if configs(e).None? then NOT_FOUND
      else if Stores(configs, source, e) then SUCCESS
      else ReturnCode(events[..|events| - 1], configs, source)
  }

  /** Some event is unknown, and no event after it is stored. */
  ghost predicate EndsUnknown(events: seq<Event>, configs: Configs, source: nat) {
    exists i :: 0 <= i < |events| && UnknownFrom(events, configs, source, i)
  }

  ghost predicate UnknownFrom(events: seq<Event>, configs: Configs, source: nat, i: nat)
    requires i < |events|
  {
    configs(events[i].eventId).None? && forall j :: i < j < |events| ==> !Stores(configs, source, events[j].eventId)
  }

  /** A batch reports NOT_FOUND exactly if an unknown event of it is followed by no stored one; otherwise it reports
      success. */
  lemma {:induction false} NotFoundExactly(events: seq<Event>, configs: Configs, source: nat)
    ensures ReturnCode(events, configs, source) == if EndsUnknown(events, configs, source) then NOT_FOUND else SUCCESS
  {
    if events != [] {
      var n := |events| - 1;
      var front := events[..n];
      NotFoundExactly(front, configs, source);
      if configs(events[n].eventId).None? {
        assert UnknownFrom(events, configs, source, n);
      } else if Stores(configs, source, events[n].eventId) {
        assert forall i :: 0 <= i < n ==> !UnknownFrom(events, configs, source, i);
      } else {
        assert forall i :: 0 <= i < n ==>
                 (UnknownFrom(front, configs, source, i) <==> UnknownFrom(events, configs, source, i));
      }
    }
  }

  /** So a batch with unknown events hides them exactly if each of them is followed by a stored event. */
  lemma UnknownIsHiddenExactly(events: seq<Event>, configs: Configs, source: nat)
    requires exists i :: 0 <= i < |events| && configs(events[i].eventId).None?
    ensures ReturnCode(events, configs, source) == SUCCESS <==>
            forall i :: 0 <= i < |events| && configs(events[i].eventId).None? ==>
              exists j :: i < j < |events| && Stores(configs, source, events[j].eventId)
  {
    NotFoundExactly(events, configs, source);
    if forall i :: 0 <= i < |events| && configs(events[i].eventId).None? ==>
         exists j :: i < j < |events| && Stores(configs, source, events[j].eventId) {
      assert forall i :: 0 <= i < |events| ==> !UnknownFrom(events, configs, source, i);
    } else {
      var i :| 0 <= i < |events| && configs(events[i].eventId).None? &&
               forall j :: i < j < |events| ==> !Stores(configs, source, events[j].eventId);
      assert UnknownFrom(events, configs, source, i);
    }
  }

  /** The shortest such batch: an unknown event and then a stored one. */
  lemma HiddenNotFound(configs: Configs, source: nat, unknown: Event, stored: Event)
    requires configs(unknown.eventId).None? && Stores(configs, source, stored.eventId)
    ensures ReturnCode([unknown], configs, source) == NOT_FOUND
    ensures ReturnCode([unknown, stored], configs, source) == SUCCESS
  {
    assert [unknown, stored][..1] == [unknown];
  }

  // ---------------------------------------------------------------- eviction

  lemma {:induction false} WithoutIsPart(rows: Rows, ids: set<nat>)
    ensures forall r :: r in Without(rows, ids) <==> r in rows && r.id !in ids
    ensures Valid(rows) ==> Valid(Without(rows, ids))
  {
    if rows != [] {
      var rest, last := rows[..|rows| - 1], rows[|rows| - 1];
      WithoutIsPart(rest, ids);
      assert rows == rest + [last];
      if Valid(rows) {
        assert forall r :: r in rest ==> r.id < last.id;
      }
    }
  }

  lemma {:induction false} WithoutOf(rows: Rows, ids: set<nat>, f: int)
    ensures Of(Without(rows, ids), f) == Without(Of(rows, f), ids)
  {
    if rows != [] {
      var rest, last := rows[..|rows| - 1], rows[|rows| - 1];
      WithoutOf(rest, ids, f);
      OfSnoc(Without(rest, ids), last, f);
      WithoutSnoc(Of(rest, f), last, ids);
    }
  }

  lemma OfSnoc(rows: Rows, r: Stored, e: int)
    ensures Of(rows + [r], e) == if r.event.eventId == e then Of(rows, e) + [r] else Of(rows, e)
  {
    assert (rows + [r])[..|rows|] == rows;
  }

  lemma WithoutSnoc(rows: Rows, r: Stored, ids: set<nat>)
    ensures Without(rows + [r], ids) == if r.id in ids then Without(rows, ids) else Without(rows, ids) + [r]
  {
    assert (rows + [r])[..|rows|] == rows;
  }

  lemma {:induction false} WithoutOthers(rows: Rows, ids: set<nat>)
    requires forall r :: r in rows ==> r.id !in ids
    ensures Without(rows, ids) == rows
  {
    if rows != [] {
      var rest, last := rows[..|rows| - 1], rows[|rows| - 1];
      WithoutOthers(rest, ids);
      assert last in rows;
      assert rows == rest + [last];
    }
  }

  /** Eviction touches no other event. */
  lemma EvictedElsewhere(rows: Rows, rows1: Rows, e: int, limit: nat, f: int)
    requires Valid(rows) && Evicted(rows, rows1, e, limit) && f != e
    ensures Of(rows1, f) == Of(rows, f)
  {
    var ids :| AreOldest(Of(rows, e), limit, ids) && rows1 == Without(rows, ids);
    OfIsPart(rows, e);
    OfIsPart(rows, f);
    WithoutOf(rows, ids, f);
    forall r | r in Of(rows, f)
      ensures r.id !in ids
    {
      if r.id in ids {
        var s :| s in Of(rows, e) && s.id == r.id;
        SameId(rows, r, s);
      }
    }
    WithoutOthers(Of(rows, f), ids);
  }

  lemma SameId(rows: Rows, r: Stored, s: Stored)
    requires Valid(rows) && r in rows && s in rows && r.id == s.id
    ensures r == s
  {
  }

  lemma {:induction false} PrefixIds(rows: Rows, k: nat)
    requires Valid(rows) && k <= |rows|
    ensures |IdsOf(rows[..k])| == k
  {
    if k == 0 {
      assert IdsOf(rows[..0]) == {};
    } else {
      PrefixIds(rows, k - 1);
      assert rows[..k] == rows[..k - 1] + [rows[k - 1]];
      assert IdsOf(rows[..k]) == IdsOf(rows[..k - 1]) + {rows[k - 1].id};
      assert rows[k - 1].id !in IdsOf(rows[..k - 1]);
    }
  }

  /** How many rows an eviction leaves. */
  lemma {:induction false} WithoutCount(rows: Rows, ids: set<nat>)
    requires Valid(rows) && ids <= IdsOf(rows)
    ensures |Without(rows, ids)| == |rows| - |ids|
  {
    if rows == [] {
      assert ids == {};
    } else {
      var rest, last := rows[..|rows| - 1], rows[|rows| - 1];
      assert rows == rest + [last];
      assert IdsOf(rows) == IdsOf(rest) + {last.id};
      WithoutCount(rest, ids - {last.id});
      WithoutIrrelevant(rest, ids, last.id);
    }
  }

  lemma {:induction false} WithoutIrrelevant(rows: Rows, ids: set<nat>, id: nat)
    requires forall r :: r in rows ==> r.id != id
    ensures Without(rows, ids) == Without(rows, ids - {id})
  {
    if rows != [] {
      var rest, last := rows[..|rows| - 1], rows[|rows| - 1];
      assert last in rows;
      WithoutIrrelevant(rest, ids, id);
    }
  }

  lemma EvictedCount(rows: Rows, rows1: Rows, e: int, limit: nat)
    requires Valid(rows) && Evicted(rows, rows1, e, limit)
    ensures Valid(rows1) && forall r :: r in rows1 ==> r in rows
    ensures |Of(rows1, e)| == if limit < |Of(rows, e)| then |Of(rows, e)| - limit else 0
  {
    var ids :| AreOldest(Of(rows, e), limit, ids) && rows1 == Without(rows, ids);
    OfIsPart(rows, e);
    WithoutIsPart(rows, ids);
    WithoutOf(rows, ids, e);
    WithoutCount(Of(rows, e), ids);
  }

  ghost predicate Increasing(events: seq<Event>) {
    forall i, j :: 0 <= i < j < |events| ==> events[i].date < events[j].date
  }

  function Events(rows: Rows): seq<Event> {
    seq(|rows|, i requires 0 <= i < |rows| => rows[i].event)
  }

  /** With strictly increasing dates, the rows before a victim are victims, and those before a survivor are all that
      can be victims. */
  lemma VictimsAreAPrefix(rows: Rows, k: nat, ids: set<nat>, i: nat)
    requires Valid(rows) && Increasing(Events(rows)) && AreOldest(rows, k, ids) && i < |rows|
    ensures rows[i].id in ids ==> IdsOf(rows[..i + 1]) <= ids
    ensures rows[i].id !in ids ==> ids <= IdsOf(rows[..i])
  {
    forall j | 0 <= j < |rows|
      ensures rows[i].id in ids && j <= i ==> rows[j].id in ids
      ensures rows[i].id !in ids && rows[j].id in ids ==> j < i
    {
      assert rows[j] in rows && rows[i] in rows;
      assert Events(rows)[j].date == rows[j].event.date && Events(rows)[i].date == rows[i].event.date;
    }
    forall id | rows[i].id !in ids && id in ids
      ensures id in IdsOf(rows[..i])
    {
      var r :| r in rows && r.id == id;
      var j :| 0 <= j < |rows| && rows[j] == r;
      assert rows[..i][j] == r;
    }
  }

  /** With strictly increasing dates, the oldest rows are the first ones. */
  lemma OldestAreFirst(rows: Rows, k: nat, ids: set<nat>, i: nat)
    requires Valid(rows) && Increasing(Events(rows)) && k <= |rows| && AreOldest(rows, k, ids) && i < |rows|
    ensures rows[i].id in ids <==> i < k
  {
    VictimsAreAPrefix(rows, k, ids, i);
    if rows[i].id in ids {
      PrefixIds(rows, i + 1);
      SubsetSize(IdsOf(rows[..i + 1]), ids);
    } else {
      PrefixIds(rows, i);
      SubsetSize(ids, IdsOf(rows[..i]));
    }
  }

  lemma {:induction false} WithoutFirst(rows: Rows, k: nat, ids: set<nat>)
    requires k <= |rows| && forall i :: 0 <= i < |rows| ==> (rows[i].id in ids <==> i < k)
    ensures Without(rows, ids) == rows[k..]
  {
    if rows != [] {
      var rest, last := rows[..|rows| - 1], rows[|rows| - 1];
      if k == |rows| {
        WithoutFirst(rest, k - 1, ids);
      } else {
        WithoutFirst(rest, k, ids);
        assert rows[k..] == rest[k..] + [last];
      }
    }
  }

  lemma EvictedFirst(rows: Rows, rows1: Rows, e: int, k: nat)
    requires Valid(rows) && Evicted(rows, rows1, e, k) && Increasing(Events(Of(rows, e))) && k <= |Of(rows, e)|
    ensures Of(rows1, e) == Of(rows, e)[k..]
  {
    var ids :| AreOldest(Of(rows, e), k, ids) && rows1 == Without(rows, ids);
    OfIsPart(rows, e);
    forall i | 0 <= i < |Of(rows, e)|
      ensures Of(rows, e)[i].id in ids <==> i < k
    {
      OldestAreFirst(Of(rows, e), k, ids, i);
    }
    WithoutFirst(Of(rows, e), k, ids);
    WithoutOf(rows, ids, e);
  }

  // ---------------------------------------------------------------- one event

  function AtLeastOne(quota: nat): nat {
    if quota == 0 then 1 else quota
  }

  lemma TrimmedLaws(rows: Rows, kept: Rows, e: int, quota: nat)
    requires Valid(rows) && Trimmed(rows, kept, e, quota)
    ensures Valid(kept) && forall r :: r in kept ==> r in rows
    ensures var count := |Of(rows, e)|;
            |Of(kept, e)| == if MakesRoom(count, e, quota) then AtLeastOne(quota) - 1 else count
    ensures forall f :: f != e ==> Of(kept, f) == Of(rows, f)
  {
    var count := |Of(rows, e)|;
    if MakesRoom(count, e, quota) {
      EvictedCount(rows, kept, e, count + 1 - quota);
      forall f | f != e
        ensures Of(kept, f) == Of(rows, f)
      {
        EvictedElsewhere(rows, kept, e, count + 1 - quota, f);
      }
    }
  }

  lemma PutLaws(rows: Rows, kept: Rows, id: nat, rows1: Rows, event: Event, quota: nat, f: int)
    requires Valid(rows) && Put(rows, kept, id, rows1, event, quota)
    ensures Valid(rows1)
    ensures Of(rows1, f) == if f == event.eventId then Of(kept, f) + [Stored(id, event)] else Of(rows, f)
  {
    TrimmedLaws(rows, kept, event.eventId, quota);
    OfSnoc(kept, Stored(id, event), f);
    assert forall i :: 0 <= i < |kept| ==> kept[i] in kept;
  }

  /** An event leaves the rows of all others alone, and its own if it is not to be stored. */
  lemma StepElsewhere(rows: Rows, rows1: Rows, event: Event, configs: Configs, source: nat, f: int)
    requires Valid(rows) && Stepped(rows, rows1, event, configs, source)
    ensures Valid(rows1)
    ensures f != event.eventId || !Stores(configs, source, f) ==> Of(rows1, f) == Of(rows, f)
  {
    if Stores(configs, source, event.eventId) {
      var kept, id: nat :| Put(rows, kept, id, rows1, event, configs(event.eventId).value.storageRomNums);
      PutLaws(rows, kept, id, rows1, event, configs(event.eventId).value.storageRomNums, f);
    }
  }

  /** Storing an event puts it last and holds the quota (at least one row) exactly if there was room or the eviction was
      not refused: for a negative event id there is no limit at all. */
  lemma StepLaws(rows: Rows, rows1: Rows, event: Event, configs: Configs, source: nat)
    requires Valid(rows) && Stepped(rows, rows1, event, configs, source) && Stores(configs, source, event.eventId)
    ensures var e := event.eventId;
            var quota, count, after := configs(e).value.storageRomNums, |Of(rows, e)|, Of(rows1, e);
            && after != [] && after[|after| - 1].event == event
            && |after| == (if MakesRoom(count, e, quota) then AtLeastOne(quota) else count + 1)
            && (|after| <= AtLeastOne(quota) <==> count < AtLeastOne(quota) || MakesRoom(count, e, quota))
  {
    var quota := configs(event.eventId).value.storageRomNums;
    var kept, id: nat :| Put(rows, kept, id, rows1, event, quota);
    PutLaws(rows, kept, id, rows1, event, quota, event.eventId);
    TrimmedLaws(rows, kept, event.eventId, quota);
  }

  /** The same in the terms of the configuration: an event that is unknown, of another source or of another table changes
      nothing; any other one is stored last, and the rows of its event are then as many as before and one more, or the
      quota if that was reached, if the id is not negative and the surplus fits 32 bits. */
  lemma StepTells(rows: Rows, rows1: Rows, event: Event, configs: Configs, source: nat)
    requires Valid(rows) && Stepped(rows, rows1, event, configs, source)
    ensures configs(event.eventId).None? ==> rows1 == rows
    ensures forall c :: configs(event.eventId) == Some(c) && (c.source != source || !c.inRiskTable) ==> rows1 == rows
    ensures forall c :: configs(event.eventId) == Some(c) && c.source == source && c.inRiskTable ==>
              var before, after := Of(rows, event.eventId), Of(rows1, event.eventId);
              && after != [] && after[|after| - 1].event == event
              && |after| == if |before| >= c.storageRomNums && event.eventId >= 0 &&
                               |before| + 1 - c.storageRomNums <= 0x7FFF_FFFF
                            then (if c.storageRomNums == 0 then 1 else c.storageRomNums) else |before| + 1
  {
    if Stores(configs, source, event.eventId) {
      StepLaws(rows, rows1, event, configs, source);
    }
  }

  function Last<T>(s: seq<T>, n: nat): seq<T> {
    if |s| <= n then s else s[|s| - n..]
  }

  /** With dates that only grow, storing an event drops the front of its queue. */
  lemma StepIsQueue(rows: Rows, rows1: Rows, event: Event, configs: Configs, source: nat)
    requires Valid(rows) && Stepped(rows, rows1, event, configs, source) && Stores(configs, source, event.eventId)
    requires var e := event.eventId;
             var quota := configs(e).value.storageRomNums; e >= 0 && 1 <= quota && |Of(rows, e)| <= quota
    requires Increasing(Events(Of(rows, event.eventId)))
    ensures var e := event.eventId;
            Events(Of(rows1, e)) == Last(Events(Of(rows, e)) + [event], configs(e).value.storageRomNums)
  {
    var e, quota := event.eventId, configs(event.eventId).value.storageRomNums;
    var kept, id: nat :| Put(rows, kept, id, rows1, event, quota);
    PutLaws(rows, kept, id, rows1, event, quota, e);
    KeptIsQueue(rows, kept, e, quota);
    EventsSnoc(Of(kept, e), Stored(id, event));
  }

  lemma KeptIsQueue(rows: Rows, kept: Rows, e: int, quota: nat)
    requires Valid(rows) && Trimmed(rows, kept, e, quota) && e >= 0 && 1 <= quota && |Of(rows, e)| <= quota
    requires Increasing(Events(Of(rows, e)))
    ensures Events(Of(kept, e)) == if |Of(rows, e)| == quota then Events(Of(rows, e))[1..] else Events(Of(rows, e))
  {
    if |Of(rows, e)| == quota {
      EvictedFirst(rows, kept, e, 1);
    }
  }

  lemma EventsSnoc(rows: Rows, r: Stored)
    ensures Events(rows + [r]) == Events(rows) + [r.event]
  {
  }

  // ---------------------------------------------------------------- batches

  function Inserts(events: seq<Event>, e: int): seq<Event> {
    if events == [] then []
    else
      var rest := Inserts(events[..|events| - 1], e);
      if events[|events| - 1].eventId == e then rest + [events[|events| - 1]] else rest
  }

  /** What a batch may do to the rows of one event, given the inserts of it that the batch stored. */
  ghost predicate Settled(before: Rows, inserts: seq<Event>, after: Rows, e: int, quota: nat) {
    if inserts == [] then after == before
    else
      && after != [] && after[|after| - 1].event == inserts[|inserts| - 1]
      && (e >= 0 && |before| + 1 - quota <= INT32_MAX ==> |after| <= AtLeastOne(quota))
  }

  lemma SettledStep(before: Rows, inserts: seq<Event>, mid: Rows, after: Rows, event: Event, quota: nat)
    requires Settled(before, inserts, mid, event.eventId, quota)
    requires after != [] && after[|after| - 1].event == event
    requires |after| == if MakesRoom(|mid|, event.eventId, quota) then AtLeastOne(quota) else |mid| + 1
    ensures Settled(before, inserts + [event], after, event.eventId, quota)
  {
  }

  /** After any batch on any table: every event that the batch stored has at most its quota of rows (and at least one is
      allowed), its latest row is the latest one inserted; events that the batch did not store are untouched. */
  lemma {:induction false} BatchLaws(tables: seq<Rows>, events: seq<Event>, configs: Configs, source: nat, e: int)
    requires Trace(tables, events, configs, source) && Valid(tables[0])
    ensures Valid(tables[|events|])
    ensures !Stores(configs, source, e) ==> Of(tables[|events|], e) == Of(tables[0], e)
    ensures Stores(configs, source, e) ==>
              Settled(Of(tables[0], e), Inserts(events, e), Of(tables[|events|], e), e, configs(e).value.storageRomNums)
  {
    if events != [] {
      var n := |events| - 1;
      BatchLaws(tables[..n + 1], events[..n], configs, source, e);
      StepElsewhere(tables[n], tables[n + 1], events[n], configs, source, e);
      if events[n].eventId == e && Stores(configs, source, e) {
        StepLaws(tables[n], tables[n + 1], events[n], configs, source);
        SettledStep(Of(tables[0], e), Inserts(events[..n], e), Of(tables[n], e), Of(tables[n + 1], e), events[n],
                    configs(e).value.storageRomNums);
      }
    }
  }

  lemma LastOfLast<T>(s: seq<T>, x: T, n: nat)
    requires n >= 1
    ensures Last(Last(s, n) + [x], n) == Last(s + [x], n)
  {
  }

  lemma IncreasingPrefix(s: seq<Event>, t: seq<Event>)
    requires s <= t && Increasing(t)
    ensures Increasing(s)
  {
    assert forall i :: 0 <= i < |s| ==> s[i] == t[i];
  }

  /** A batch continues the queue of an event: what is left of earlier inserts and of its own are the latest of both. */
  lemma {:induction false} BatchContinuesQueue(tables: seq<Rows>, events: seq<Event>, configs: Configs, source: nat,
                                               e: int, earlier: seq<Event>)
    requires Trace(tables, events, configs, source) && Valid(tables[0])
    requires Stores(configs, source, e) && e >= 0 && configs(e).value.storageRomNums >= 1
    requires Events(Of(tables[0], e)) == Last(earlier, configs(e).value.storageRomNums)
    requires Increasing(earlier + Inserts(events, e))
    ensures Events(Of(tables[|events|], e)) == Last(earlier + Inserts(events, e), configs(e).value.storageRomNums)
  {
    if events == [] {
      assert earlier + [] == earlier;
    } else {
      var n, quota := |events| - 1, configs(e).value.storageRomNums;
      var before := earlier + Inserts(events[..n], e);
      if events[n].eventId == e {
        assert earlier + Inserts(events, e) == before + [events[n]];
      }
      IncreasingPrefix(before, earlier + Inserts(events, e));
      BatchContinuesQueue(tables[..n + 1], events[..n], configs, source, e, earlier);
      BatchLaws(tables[..n + 1], events[..n], configs, source, e);
      if events[n].eventId == e {
        QueueStep(tables[n], tables[n + 1], events[n], configs, source, before);
      } else {
        StepElsewhere(tables[n], tables[n + 1], events[n], configs, source, e);
      }
    }
  }

  lemma QueueStep(rows: Rows, rows1: Rows, event: Event, configs: Configs, source: nat, before: seq<Event>)
    requires Valid(rows) && Stepped(rows, rows1, event, configs, source) && Stores(configs, source, event.eventId)
    requires var e := event.eventId;
             var quota := configs(e).value.storageRomNums;
             e >= 0 && quota >= 1 && Events(Of(rows, e)) == Last(before, quota)
    requires Increasing(before)
    ensures Events(Of(rows1, event.eventId)) == Last(before + [event], configs(event.eventId).value.storageRomNums)
  {
    var e := event.eventId;
    assert |Of(rows, e)| == |Events(Of(rows, e))|;
    LastIncreases(before, configs(e).value.storageRomNums);
    StepIsQueue(rows, rows1, event, configs, source);
    LastOfLast(before, event, configs(e).value.storageRomNums);
  }

  lemma LastIncreases(s: seq<Event>, n: nat)
    requires Increasing(s)
    ensures Increasing(Last(s, n))
  {
    var last := Last(s, n);
    var k := |s| - |last|;
    forall i, j | 0 <= i < j < |last|
      ensures last[i].date < last[j].date
    {
      assert last[i] == s[k + i] && last[j] == s[k + j];
    }
  }

  // ---------------------------------------------------------------- any number of batches

  /** One call of `InsertEvent`. */
  datatype Batch = Batch(source: nat, events: seq<Event>)

  ghost predicate Performed(rows: Rows, batch: Batch, rows1: Rows, configs: Configs) {
    exists tables :: Trace(tables, batch.events, configs, batch.source) && tables[0] == rows &&
                     tables[|batch.events|] == rows1
  }

  /** The tables between the calls. */
  ghost predicate AllPerformed(tables: seq<Rows>, batches: seq<Batch>, configs: Configs) {
    |tables| == |batches| + 1 &&
    forall i :: 0 <= i < |batches| ==> Performed(tables[i], batches[i], tables[i + 1], configs)
  }

  /** The inserts of an event that the batches store, in order; batches of another source store none. */
  function AllInserts(batches: seq<Batch>, configs: Configs, e: int): seq<Event> {
    if batches == [] then []
    else
      var rest, last := AllInserts(batches[..|batches| - 1], configs, e), batches[|batches| - 1];
      if Stores(configs, last.source, e) then rest + Inserts(last.events, e) else rest
  }

  /** First in, first out: with strictly increasing dates, from an empty start, over any sequence of batches of any
      sources and whatever else they insert, the rows of an event are exactly its latest inserts, as many as the quota
      allows. */
  lemma {:induction false} BatchesAreQueue(tables: seq<Rows>, batches: seq<Batch>, configs: Configs, e: int)
    requires AllPerformed(tables, batches, configs) && Valid(tables[0])
    requires configs(e).Some? && e >= 0 && configs(e).value.storageRomNums >= 1
    requires Of(tables[0], e) == [] && Increasing(AllInserts(batches, configs, e))
    ensures Valid(tables[|batches|])
    ensures Events(Of(tables[|batches|], e)) == Last(AllInserts(batches, configs, e), configs(e).value.storageRomNums)
  {
    if batches != [] {
      var n := |batches| - 1;
      var batch := batches[n];
      IncreasingPrefix(AllInserts(batches[..n], configs, e), AllInserts(batches, configs, e));
      BatchesAreQueue(tables[..n + 1], batches[..n], configs, e);
      assert Performed(tables[n], batch, tables[n + 1], configs);
      var trace :| Trace(trace, batch.events, configs, batch.source) && trace[0] == tables[n] &&
                   trace[|batch.events|] == tables[n + 1];
      BatchLaws(trace, batch.events, configs, batch.source, e);
      if Stores(configs, batch.source, e) {
        BatchContinuesQueue(trace, batch.events, configs, batch.source, e, AllInserts(batches[..n], configs, e));
      }
    }
  }

  // ---------------------------------------------------------------- the operation

  class DatabaseManager {
    const helper: RiskEventRdbHelper
    const configs: Configs

    constructor (helper: RiskEventRdbHelper, configs: Configs)
      ensures this.helper == helper && this.configs == configs
    {
      this.helper := helper;
      this.configs := configs;
    }

    method InsertEvent(source: nat, events: seq<Event>) returns (ret: int, ghost tables: seq<Rows>)
      requires helper.Healthy() && NumbersCompare(helper.db)
      modifies helper
      ensures helper.Healthy()
      ensures Trace(tables, events, configs, source) && Performed(tables[0], Batch(source, events), helper.rows, configs)
      ensures tables[0] == old(helper.rows) && tables[|events|] == helper.rows
      ensures ret == if EndsUnknown(events, configs, source) then NOT_FOUND else SUCCESS
    {
      ret := SUCCESS;
      tables := [helper.rows];
      for i := 0 to |events|
        invariant helper.Healthy()
        invariant Trace(tables, events[..i], configs, source)
        invariant tables[0] == old(helper.rows) && tables[i] == helper.rows
        invariant ret == ReturnCode(events[..i], configs, source)
      {
        var event := events[i];
        OneMore(events, i);
        var config := configs(event.eventId);
        if config.None? {
          ret := NOT_FOUND;
        } else if config.value.source == source && config.value.inRiskTable {
          StoreOne(source, event);
          ret := SUCCESS;
        }
        tables := tables + [helper.rows];
      }
      Whole(events);
      NotFoundExactly(events, configs, source);
    }

    method StoreOne(source: nat, event: Event)
      requires helper.Healthy() && NumbersCompare(helper.db) && Stores(configs, source, event.eventId)
      modifies helper
      ensures helper.Healthy()
      ensures Stepped(old(helper.rows), helper.rows, event, configs, source)
    {
      var count := Trim(event.eventId, configs(event.eventId).value.storageRomNums);
      ghost var kept, id := helper.rows, helper.nextId;
      var _ := helper.InsertEvent(event);
      assert Put(old(helper.rows), kept, id, helper.rows, event, configs(event.eventId).value.storageRomNums);
    }

    /** The quota check of the insertion. */
    method Trim(e: int, quota: nat) returns (count: nat)
      requires helper.Healthy() && NumbersCompare(helper.db)
      modifies helper
      ensures helper.Healthy() && helper.nextId == old(helper.nextId)
      ensures AllBelow(old(helper.rows), helper.nextId)
      ensures Trimmed(old(helper.rows), helper.rows, e, quota)
    {
      count := helper.CountEventByEventId(e);
      if count >= quota {
        var _ := helper.DeleteOldEventByEventId(e, count + 1 - quota);
        if MakesRoom(count, e, quota) {
          EvictedCount(old(helper.rows), helper.rows, e, count + 1 - quota);
        }
      }
    }
  }
}
