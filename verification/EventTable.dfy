/** The table of risk events and the helper that counts and evicts its rows through built query text. */
module EventTable {
  import opened Common
  import opened Text
  import opened SqlText
  import opened SqlConditions
  import opened SqlMeaning

  const INT32_MAX := 0x7FFF_FFFF

  const ID := "id"
  const EVENT_ID := "event_id"

  /** The columns that matter here; dates stand for their rank in the order of the date texts. */
  datatype Event = Event(eventId: int, date: int, content: string)
  datatype Stored = Stored(id: nat, event: Event)

  type Rows = seq<Stored>

  /** The columns that the conditions here name. */
  function RowOf(r: Stored): Row {
    map["id" := Int64(r.id), "event_id" := Int64(r.event.eventId)]
  }

  /** Comparing an integer column with text reads the text as a number. */
  ghost predicate NumbersCompare(db: Comparisons) {
    forall n: int, m: int {:trigger IntToString(m), Int64(n)} :: db.equal(Int64(n), Str(IntToString(m))) <==> n == m
  }

  /** Row ids grow along the table. */
  ghost predicate Valid(rows: Rows) {
    forall i, j :: 0 <= i < j < |rows| ==> rows[i].id < rows[j].id
  }

  function Of(rows: Rows, e: int): Rows {
    if rows == [] then []
    else
      var rest := Of(rows[..|rows| - 1], e);
      if rows[|rows| - 1].event.eventId == e then rest + [rows[|rows| - 1]] else rest
  }

  function Without(rows: Rows, ids: set<nat>): Rows {
    if rows == [] then []
    else
      var rest := Without(rows[..|rows| - 1], ids);
      if rows[|rows| - 1].id in ids then rest else rest + [rows[|rows| - 1]]
  }

  function IdsOf(rows: Rows): set<nat> {
    set r | r in rows :: r.id
  }

  /** `ids` are as many of the candidates as there are, up to the limit, and none is younger than one left out. */
  ghost predicate AreOldest(candidates: Rows, limit: nat, ids: set<nat>) {
    && ids <= IdsOf(candidates)
    && |ids| == (if limit < |candidates| then limit else |candidates|)
    && (forall r, s :: r in candidates && s in candidates && r.id in ids && s.id !in ids ==>
          r.event.date <= s.event.date)
  }

  ghost predicate Evicted(rows: Rows, rows1: Rows, e: int, limit: nat) {
    exists ids: set<nat> :: AreOldest(Of(rows, e), limit, ids) && rows1 == Without(rows, ids)
  }

  // ---------------------------------------------------------------- what the query texts select

  function Chosen(db: Comparisons, rows: Rows, text: string, b: Bindings): Rows {
    if rows == [] then []
    else
      var rest := Chosen(db, rows[..|rows| - 1], text, b);
      if Selects(db, text, RowOf(rows[|rows| - 1]), b) == Some(true) then rest + [rows[|rows| - 1]] else rest
  }

  lemma ContainsLetter(s: string)
    requires Contains(s, "_IN")
    ensures exists j :: 0 <= j < |s| && s[j] == 'I'
  {
    var i :| 0 <= i <= |s| && "_IN" <= s[i..];
    assert s[i..][1] == 'I' && s[i..][1] == s[i + 1];
  }

  lemma EventIdKey()
    ensures OperatorOf(EVENT_ID) == Equal && FieldOf(EVENT_ID) == EVENT_ID && InIsSuffixOnly(EVENT_ID)
    ensures IsName(EVENT_ID)
  {
    LastLetters(EVENT_ID);
    if Contains(EVENT_ID, "_IN") {
      ContainsLetter(EVENT_ID);
    }
  }

  lemma OneCondition(db: Comparisons, key: string, v: Value, keys: seq<string>, bindKeys: seq<string>, row: Row)
    requires IsName(FieldOf(key)) && InIsSuffixOnly(key)
    requires var cs: Conditions := map[key := v]; Enumerates(keys, cs) && Enumerates(bindKeys, cs)
    ensures var cs: Conditions := map[key := v];
            Selects(db, WhereText(cs, keys), row, Bound(cs, bindKeys)) == Some(Meets(db, row, key, v))
  {
    var cs: Conditions := map[key := v];
    TextMeansConditions(db, cs, keys, bindKeys, row);
    assert key in cs && cs[key] == v;
  }

  lemma ByEventId(db: Comparisons, e: int, keys: seq<string>, bindKeys: seq<string>, r: Stored)
    requires NumbersCompare(db)
    requires var cs: Conditions := map[EVENT_ID := Str(IntToString(e))]; Enumerates(keys, cs) && Enumerates(bindKeys, cs)
    ensures var cs: Conditions := map[EVENT_ID := Str(IntToString(e))];
            Selects(db, WhereText(cs, keys), RowOf(r), Bound(cs, bindKeys)) == Some(r.event.eventId == e)
  {
    var v := Str(IntToString(e));
    EventIdKey();
    OneCondition(db, EVENT_ID, v, keys, bindKeys, RowOf(r));
    EventIdColumn(r);
    assert db.equal(Int64(r.event.eventId), v) <==> r.event.eventId == e;
  }

  lemma EventIdColumn(r: Stored)
    ensures ValueIn(RowOf(r), EVENT_ID) == Int64(r.event.eventId)
    ensures ValueIn(RowOf(r), ID) == Int64(r.id)
  {
    assert "id" != "event_id";
  }

  lemma {:induction false} ChosenByEventId(db: Comparisons, rows: Rows, e: int, keys: seq<string>,
                                           bindKeys: seq<string>)
    requires NumbersCompare(db)
    requires var cs: Conditions := map[EVENT_ID := Str(IntToString(e))]; Enumerates(keys, cs) && Enumerates(bindKeys, cs)
    ensures var cs: Conditions := map[EVENT_ID := Str(IntToString(e))];
            Chosen(db, rows, WhereText(cs, keys), Bound(cs, bindKeys)) == Of(rows, e)
  {
    if rows != [] {
      ChosenByEventId(db, rows[..|rows| - 1], e, keys, bindKeys);
      ByEventId(db, e, keys, bindKeys, rows[|rows| - 1]);
    }
  }

  function Numerals(ids: seq<nat>): seq<string> {
    seq(|ids|, i requires 0 <= i < |ids| => IntToString(ids[i]))
  }

  lemma NumeralIsItem(n: int)
    ensures Free(IntToString(n), ',') && IntToString(n) != ""
  {
  }

  lemma NumeralsSplit(ids: seq<nat>)
    ensures Lines(Joined(Numerals(ids), ","), ',') == Numerals(ids)
  {
    forall i | 0 <= i < |ids|
      ensures Free(Numerals(ids)[i], ',') && Numerals(ids)[i] != ""
    {
      NumeralIsItem(ids[i]);
    }
    SplitUndoesJoinExactly(Numerals(ids), ',');
  }

  function ById(ids: seq<nat>): Conditions {
    map["id_IN" := Str(Joined(Numerals(ids), ","))]
  }

  lemma IdKey()
    ensures OperatorOf("id_IN") == In && FieldOf("id_IN") == ID && InIsSuffixOnly("id_IN") && IsName(ID)
  {
    assert "id_IN"[2..] == "_IN";
    assert "id_IN"[..2] == "id";
  }

  lemma ByIds(db: Comparisons, ids: seq<nat>, keys: seq<string>, bindKeys: seq<string>, r: Stored)
    requires NumbersCompare(db) && Enumerates(keys, ById(ids)) && Enumerates(bindKeys, ById(ids))
    ensures Selects(db, WhereText(ById(ids), keys), RowOf(r), Bound(ById(ids), bindKeys)) == Some(r.id in ids)
  {
    var v := Str(Joined(Numerals(ids), ","));
    IdKey();
    OneCondition(db, "id_IN", v, keys, bindKeys, RowOf(r));
    EventIdColumn(r);
    NumeralsSplit(ids);
    MeetsIds(db, ids, r.id);
  }

  lemma MeetsIds(db: Comparisons, ids: seq<nat>, id: nat)
    requires NumbersCompare(db)
    ensures (exists i :: 0 <= i < |Numerals(ids)| && Holds(db.equal, Int64(id), Str(Numerals(ids)[i]))) <==> id in ids
  {
    assert forall i :: 0 <= i < |ids| ==> Numerals(ids)[i] == IntToString(ids[i]);
    assert forall i :: 0 <= i < |ids| ==> (Holds(db.equal, Int64(id), Str(Numerals(ids)[i])) <==> id == ids[i]);
  }

  /** Deleting what an `id_IN` text selects keeps the other rows. */
  function Deleted(db: Comparisons, rows: Rows, text: string, b: Bindings): Rows {
    if rows == [] then []
    else
      var rest := Deleted(db, rows[..|rows| - 1], text, b);
      if Selects(db, text, RowOf(rows[|rows| - 1]), b) == Some(true) then rest else rest + [rows[|rows| - 1]]
  }

  lemma {:induction false} DeletedByIds(db: Comparisons, rows: Rows, ids: seq<nat>, keys: seq<string>,
                                        bindKeys: seq<string>)
    requires NumbersCompare(db) && Enumerates(keys, ById(ids)) && Enumerates(bindKeys, ById(ids))
    ensures Deleted(db, rows, WhereText(ById(ids), keys), Bound(ById(ids), bindKeys)) ==
            Without(rows, Elements(ids))
  {
    if rows != [] {
      DeletedByIds(db, rows[..|rows| - 1], ids, keys, bindKeys);
      ByIds(db, ids, keys, bindKeys, rows[|rows| - 1]);
    }
  }

  lemma {:induction false} OfIsPart(rows: Rows, e: int)
    ensures forall r :: r in Of(rows, e) <==> r in rows && r.event.eventId == e
    ensures Valid(rows) ==> Valid(Of(rows, e))
  {
    if rows != [] {
      var rest, last := rows[..|rows| - 1], rows[|rows| - 1];
      OfIsPart(rest, e);
      assert rows == rest + [last];
      if Valid(rows) {
        assert forall r :: r in rest ==> r.id < last.id;
      }
    }
  }

  // ---------------------------------------------------------------- the helper

  class RiskEventRdbHelper {
    var rows: Rows
    var nextId: nat
    const db: Comparisons

    constructor (db: Comparisons)
      ensures rows == [] && this.db == db && Healthy()
    {
      rows, nextId := [], 1;
      this.db := db;
    }

    /** Row ids grow along the table and the next one is above them all. */
    ghost predicate Healthy()
      reads this
    {
      Valid(rows) && forall r :: r in rows ==> r.id < nextId
    }

    method EventCondition(e: int) returns (conditions: GenericValues)
      ensures fresh(conditions) && conditions.map_ == map[EVENT_ID := Str(IntToString(e))]
    {
      conditions := new GenericValues();
      conditions.Put(EVENT_ID, Str(IntToString(e)));
    }

    method CountEventByEventId(e: int) returns (count: nat)
      requires NumbersCompare(db)
      ensures count == |Of(rows, e)|
    {
      var conditions := EventCondition(e);
      var text, keys := BuildWhereClause(conditions);
      var stmt, bindKeys := PrepareBoundStateStmt(text, conditions);
      ChosenByEventId(db, rows, e, keys, bindKeys);
      count := |Chosen(db, rows, stmt.sql, stmt.bindings)|;
    }

    /** The rows of an event, oldest first and ties in any order, up to a limit. */
    method QueryOldest(e: int, limit: nat) returns (ids: seq<nat>)
      requires NumbersCompare(db) && Valid(rows)
      ensures AreOldest(Of(rows, e), limit, Elements(ids))
    {
      var conditions := EventCondition(e);
      var text, keys := BuildWhereClause(conditions);
      var stmt, bindKeys := PrepareBoundStateStmt(text, conditions);
      ChosenByEventId(db, rows, e, keys, bindKeys);
      var left := Chosen(db, rows, stmt.sql, stmt.bindings);
      OfIsPart(rows, e);
      ids := PickOldest(left, limit);
    }

    method Delete(conditions: GenericValues) returns (ret: int, ghost text: string, ghost b: Bindings,
                                                      ghost keys: seq<string>, ghost bindKeys: seq<string>)
      modifies this`rows
      ensures Enumerates(keys, conditions.map_) && Enumerates(bindKeys, conditions.map_)
      ensures text == WhereText(conditions.map_, keys) && b == Bound(conditions.map_, bindKeys)
      ensures rows == Deleted(db, old(rows), text, b) && ret == SUCCESS
    {
      var where, ks := BuildWhereClause(conditions);
      var stmt, bks := PrepareBoundStateStmt(where, conditions);
      text, b, keys, bindKeys := where, stmt.bindings, ks, bks;
      rows := Deleted(db, rows, stmt.sql, stmt.bindings);
      ret := SUCCESS;
    }

    /** Evicts the oldest rows of an event; refuses senseless counts, counts beyond 32 bits and negative event ids. */
    method DeleteOldEventByEventId(e: int, count: int) returns (ret: int)
      requires NumbersCompare(db) && Valid(rows)
      modifies this`rows
      ensures ret == (if count <= 0 || e < 0 || count > INT32_MAX then BAD_PARAM else SUCCESS)
      ensures ret == BAD_PARAM ==> rows == old(rows)
      ensures ret == SUCCESS ==> Evicted(old(rows), rows, e, count)
    {
      if count <= 0 || e < 0 {
        return BAD_PARAM;
      }
      if count > INT32_MAX {
        return BAD_PARAM;
      }
      var ids := QueryOldest(e, count);
      ghost var gone := Elements(ids);
      if ids == [] {
        assert gone == {};
        WithoutNone(rows);
        return SUCCESS;
      }
      var primaryKeys: seq<string> := [];
      for i := 0 to |ids|
        invariant primaryKeys == Numerals(ids[..i])
      {
        assert ids[..i + 1] == ids[..i] + [ids[i]];
        primaryKeys := primaryKeys + [IntToString(ids[i])];
      }
      assert ids[..|ids|] == ids;
      var joined := Join(primaryKeys, ",");
      var conditions := new GenericValues();
      conditions.Put(ID + "_IN", Str(joined));
      assert ID + "_IN" == "id_IN";
      assert conditions.map_ == ById(ids);
      ghost var before := rows;
      var code, _, _, keys, bindKeys := Delete(conditions);
      DeletedByIds(db, before, ids, keys, bindKeys);
      ret := code;
    }

    /** `INTEGER PRIMARY KEY AUTOINCREMENT`: a new row gets an id above all that were given out before. */
    method InsertEvent(event: Event) returns (ret: int)
      requires Healthy()
      modifies this`rows, this`nextId
      ensures rows == old(rows) + [Stored(old(nextId), event)] && Healthy() && ret == SUCCESS
    {
      rows := rows + [Stored(nextId, event)];
      nextId := nextId + 1;
      ret := SUCCESS;
    }
  }

  lemma {:induction false} WithoutNone(rows: Rows)
    ensures Without(rows, {}) == rows
  {
    if rows != [] {
      WithoutNone(rows[..|rows| - 1]);
      assert rows == rows[..|rows| - 1] + [rows[|rows| - 1]];
    }
  }

  /** The position of a row with the least date. */
  method LeastDate(rows: Rows) returns (k: nat)
    requires rows != []
    ensures k < |rows| && forall r :: r in rows ==> rows[k].event.date <= r.event.date
  {
    k := 0;
    for i := 1 to |rows|
      invariant k < |rows|
      invariant forall j :: 0 <= j < i ==> rows[k].event.date <= rows[j].event.date
    {
      if rows[i].event.date < rows[k].event.date {
        k := i;
      }
    }
  }

  method PickOldest(candidates: Rows, limit: nat) returns (ids: seq<nat>)
    requires Valid(candidates)
    ensures AreOldest(candidates, limit, Elements(ids))
  {
    ids := [];
    var left := candidates;
    ghost var gone: set<nat> := {};
    while |ids| < limit && left != []
      invariant Valid(left) && |ids| + |left| == |candidates| && |ids| <= limit
      invariant gone == Elements(ids) && |gone| == |ids| && gone <= IdsOf(candidates)
      invariant forall r :: r in left <==> r in candidates && r.id !in gone
      invariant forall r, s :: r in candidates && r.id in gone && s in left ==> r.event.date <= s.event.date
      decreases |left|
    {
      var k := LeastDate(left);
      ghost var r := left[k];
      TakeOut(candidates, left, gone, k);
      ids := ids + [left[k].id];
      gone := gone + {r.id};
      left := left[..k] + left[k + 1..];
    }
    assert forall s :: s in candidates && s.id !in gone ==> s in left;
    assert AreOldest(candidates, limit, gone);
  }

  lemma TakeOut(candidates: Rows, left: Rows, gone: set<nat>, k: nat)
    requires Valid(candidates) && Valid(left) && k < |left|
    requires forall r :: r in left <==> r in candidates && r.id !in gone
    ensures Valid(left[..k] + left[k + 1..])
    ensures forall r :: r in left[..k] + left[k + 1..] <==> r in candidates && r.id !in gone + {left[k].id}
    ensures left[k] in candidates && left[k].id !in gone
  {
    var rest := left[..k] + left[k + 1..];
    assert left == left[..k] + [left[k]] + left[k + 1..];
    assert left[k] in left;
    assert forall r :: r in left <==> r in rest || r == left[k];
    assert forall r :: r in rest ==> r.id != left[k].id;
    assert forall r :: r in left && r.id == left[k].id ==> r == left[k];
  }
}
