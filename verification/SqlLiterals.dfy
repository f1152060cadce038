/** What single conditions mean, said with the suffixes, the operators and the split items themselves. */
module SqlLiterals {
  import opened Common
  import opened Text
  import opened SqlText
  import opened SqlConditions
  import opened SqlMeaning
  import opened SqlExactness

  /** The text built for one condition, and whether it selects a row under its bindings. */
  function TextOf(key: string, v: Value): string {
    WhereText(map[key := v], [key])
  }

  function Answer(db: Comparisons, key: string, v: Value, row: Row): Option<bool> {
    Selects(db, TextOf(key, v), row, Bound(map[key := v], [key]))
  }

  /** The row has a value in the field, and the comparison with `v` holds. */
  predicate Compares(compare: (Value, Value) -> bool, row: Row, field: string, v: Value) {
    field in row && !row[field].Null? && !v.Null? && compare(row[field], v)
  }

  predicate ComparesAny(compare: (Value, Value) -> bool, row: Row, field: string, items: seq<string>) {
    field in row && !row[field].Null? && exists i :: 0 <= i < |items| && compare(row[field], Str(items[i]))
  }

  lemma OnlyOwnItems(key: string, v: Value)
    ensures forall l: string, i: nat :: !Carries(map[key := v], l, i, key)
  {
    assert forall i: nat :: |ItemName(key, i)| > |key|;
  }

  lemma AnswerIsMeets(db: Comparisons, key: string, v: Value, row: Row)
    requires IsName(FieldOf(key))
    ensures Answer(db, key, v, row) ==
            if Contains(key, "_IN") && !EndsWith(key, "_IN") then Some(false) else Some(Meets(db, row, key, v))
  {
    var cs := map[key := v];
    assert Enumerates([key], cs);
    if InIsSuffixOnly(key) {
      TextMeansConditions(db, cs, [key], [key], row);
      assert MeetsAll(db, row, cs) <==> Meets(db, row, key, cs[key]);
    } else {
      OnlyOwnItems(key, v);
      UnboundSelectsNothing(db, cs, [key], [key], row, key);
    }
  }

  lemma TextOfOneKey(key: string, v: Value)
    ensures TextOf(key, v) == Clause(key, v)
  {
    assert [key][..0] == [] && Clauses(map[key := v], [key]) == [Clause(key, v)];
  }

  function Comparison(db: Comparisons, op: Operator): (Value, Value) -> bool {
    match op
    case Equal => db.equal
    case In => db.equal
    case AtLeast => db.atLeast
    case Below => db.below
    case Like => db.like
  }

  lemma KeyOf(f: string, op: Operator)
    requires op == Equal ==> HasNoSuffix(f)
    ensures OperatorOf(f + Suffix(op)) == op && FieldOf(f + Suffix(op)) == f
  {
    if op == Equal {
      assert f + "" == f;
    }
    KeysAreRead(f + Suffix(op), f, op);
  }

  lemma Spaced(f: string, word: string, key: string)
    ensures f + " " + word + " " + (":" + key) == f + (" " + word + " :") + key
  {
  }

  lemma PlainText(f: string, op: Operator, key: string, v: Value)
    requires op != In && OperatorOf(key) == op && FieldOf(key) == f
    ensures TextOf(key, v) == f + (" " + OperatorText(op) + " :") + key
  {
    TextOfOneKey(key, v);
    Spaced(f, OperatorText(op), key);
  }

  /** Text and meaning of a plain condition, for its key and the middle of its text. */
  lemma Plain(db: Comparisons, f: string, op: Operator, key: string, middle: string, v: Value, row: Row)
    requires IsName(f) && op != In && (op == Equal ==> HasNoSuffix(f))
    requires key == f + Suffix(op) && middle == " " + OperatorText(op) + " :"
    ensures TextOf(key, v) == f + middle + key
    ensures Answer(db, key, v, row) == Some(!Contains(key, "_IN") && Compares(Comparison(db, op), row, f, v))
  {
    KeyOf(f, op);
    PlainText(f, op, key, v);
    AnswerIsMeets(db, key, v, row);
  }

  /** `f_GE`: the field is at least the value. A field with `_IN` in its name selects nothing, here and below. */
  lemma AtLeastIs(db: Comparisons, f: string, v: Value, row: Row)
    requires IsName(f)
    ensures TextOf(f + "_GE", v) == f + " >= :" + (f + "_GE")
    ensures Answer(db, f + "_GE", v, row) == Some(!Contains(f + "_GE", "_IN") && Compares(db.atLeast, row, f, v))
  {
    assert " >= :" == " " + ">=" + " :";
    Plain(db, f, AtLeast, f + "_GE", " >= :", v, row);
  }

  /** `f_LT`: the field is below the value. */
  lemma BelowIs(db: Comparisons, f: string, v: Value, row: Row)
    requires IsName(f)
    ensures TextOf(f + "_LT", v) == f + " < :" + (f + "_LT")
    ensures Answer(db, f + "_LT", v, row) == Some(!Contains(f + "_LT", "_IN") && Compares(db.below, row, f, v))
  {
    assert " < :" == " " + "<" + " :";
    Plain(db, f, Below, f + "_LT", " < :", v, row);
  }

  /** `f_LIKE`: the field is like the value. */
  lemma LikeIs(db: Comparisons, f: string, v: Value, row: Row)
    requires IsName(f)
    ensures TextOf(f + "_LIKE", v) == f + " LIKE :" + (f + "_LIKE")
    ensures Answer(db, f + "_LIKE", v, row) == Some(!Contains(f + "_LIKE", "_IN") && Compares(db.like, row, f, v))
  {
    assert " LIKE :" == " " + "LIKE" + " :";
    Plain(db, f, Like, f + "_LIKE", " LIKE :", v, row);
  }

  /** A field that ends in no suffix equals the value. */
  lemma EqualIs(db: Comparisons, f: string, v: Value, row: Row)
    requires IsName(f)
    requires !EndsWith(f, "_IN") && !EndsWith(f, "_GE") && !EndsWith(f, "_LT") && !EndsWith(f, "_LIKE")
    ensures TextOf(f, v) == f + " = :" + f
    ensures Answer(db, f, v, row) == Some(!Contains(f, "_IN") && Compares(db.equal, row, f, v))
  {
    assert f == f + "" && " = :" == " " + "=" + " :";
    Plain(db, f, Equal, f, " = :", v, row);
  }

  /** `f_IN`: the field equals one of the items between the commas of the value; a value that is no text has none. */
  lemma InIs(db: Comparisons, f: string, v: Value, row: Row)
    requires IsName(f)
    ensures Answer(db, f + "_IN", v, row) ==
            Some(v.Str? && ComparesAny(db.equal, row, f, Lines(if v.Str? then v.s else "", ',')))
  {
    KeyOf(f, In);
    AnswerIsMeets(db, f + "_IN", v, row);
    if v.Str? {
      InMeets(db, row, f + "_IN", f, v.s);
    } else {
      assert Items(v) == Lines("", ',') == [];
    }
  }

  // ---------------------------------------------------------------- the query for events in a time range

  function RangeConditions(ids: string, begin: string, end: string): Conditions {
    map["event_id_IN" := Str(ids), "date_GE" := Str(begin), "date_LT" := Str(end)]
  }

  lemma RangeKeys()
    ensures OperatorOf("event_id_IN") == In && FieldOf("event_id_IN") == "event_id"
    ensures OperatorOf("date_GE") == AtLeast && FieldOf("date_GE") == "date"
    ensures OperatorOf("date_LT") == Below && FieldOf("date_LT") == "date"
    ensures IsName("event_id") && IsName("date")
  {
    assert "event_id_IN" == "event_id" + Suffix(In) && "date_GE" == "date" + Suffix(AtLeast);
    assert "date_LT" == "date" + Suffix(Below);
    KeyOf("event_id", In);
    KeyOf("date", AtLeast);
    KeyOf("date", Below);
  }

  lemma NoLetterI(key: string)
    requires forall i :: 0 <= i < |key| ==> key[i] != 'I'
    ensures !Contains(key, "_IN")
  {
    assert forall i :: 0 <= i <= |key| && "_IN" <= key[i..] ==> key[i..][1] == "_IN"[1] == 'I' && key[i..][1] == key[i + 1];
  }

  /** What holds of each condition of a map of three. */
  lemma AllOfThree(p: (string, Value) -> bool, a: string, x: Value, b: string, y: Value, c: string, z: Value)
    requires a != b && b != c && a != c
    ensures var cs := map[a := x, b := y, c := z];
            (forall k :: k in cs ==> p(k, cs[k])) <==> p(a, x) && p(b, y) && p(c, z)
  {
    var cs := map[a := x, b := y, c := z];
    assert a in cs && b in cs && c in cs && cs[a] == x && cs[b] == y && cs[c] == z;
    assert forall k :: k in cs ==> k == a || k == b || k == c;
  }

  function MeetsBy(db: Comparisons, row: Row): (string, Value) -> bool {
    (k, v) => Meets(db, row, k, v)
  }

  predicate GoodKey(k: string) {
    IsName(FieldOf(k)) && InIsSuffixOnly(k)
  }

  lemma KeysOfThree(a: string, x: Value, b: string, y: Value, c: string, z: Value)
    ensures forall k :: k in map[a := x, b := y, c := z] ==> k == a || k == b || k == c
  {
  }

  lemma GoodConditions(cs: Conditions, a: string, b: string, c: string)
    requires forall k :: k in cs ==> k == a || k == b || k == c
    requires GoodKey(a) && GoodKey(b) && GoodKey(c)
    ensures WellFormed(cs) && SuffixesOnly(cs)
  {
    forall k | k in cs
      ensures GoodKey(k)
    {
      assert k == a || k == b || k == c;
    }
    assert forall k :: k in cs ==> GoodKey(k);
  }

  lemma MeetsAllBy(db: Comparisons, row: Row, cs: Conditions)
    ensures MeetsAll(db, row, cs) <==> forall k :: k in cs ==> MeetsBy(db, row)(k, cs[k])
  {
  }

  lemma PlainMeets(db: Comparisons, row: Row, key: string, f: string, op: Operator, v: Value)
    requires OperatorOf(key) == op != In && FieldOf(key) == f
    ensures Meets(db, row, key, v) <==> Compares(Comparison(db, op), row, f, v)
  {
    assert ValueIn(row, f) == if f in row then row[f] else Null;
    match op
    case Equal =>
    case AtLeast =>
    case Below =>
    case Like =>
  }

  lemma InMeets(db: Comparisons, row: Row, key: string, f: string, s: string)
    requires OperatorOf(key) == In && FieldOf(key) == f
    ensures Meets(db, row, key, Str(s)) <==> ComparesAny(db.equal, row, f, Lines(s, ','))
  {
    var items, x := Lines(s, ','), ValueIn(row, f);
    assert Items(Str(s)) == items;
    if Meets(db, row, key, Str(s)) {
      var i :| 0 <= i < |items| && Holds(db.equal, x, Str(items[i]));
      assert db.equal(row[f], Str(items[i]));
    }
    if ComparesAny(db.equal, row, f, items) {
      var i :| 0 <= i < |items| && db.equal(row[f], Str(items[i]));
      assert Holds(db.equal, x, Str(items[i]));
    }
  }

  /** Keys `a`, `b` and `c` stand for `f_IN`, `g_GE` and `g_LT`. */
  predicate RangeNames(a: string, b: string, c: string, f: string, g: string) {
    && OperatorOf(a) == In && FieldOf(a) == f && IsName(f)
    && OperatorOf(b) == AtLeast && FieldOf(b) == g && OperatorOf(c) == Below && FieldOf(c) == g && IsName(g)
    && GoodKey(a) && GoodKey(b) && GoodKey(c)
  }

  lemma RangeIsGood(a: string, b: string, c: string, f: string, g: string, x: Value, y: Value, z: Value)
    requires RangeNames(a, b, c, f, g)
    ensures WellFormed(map[a := x, b := y, c := z]) && SuffixesOnly(map[a := x, b := y, c := z])
  {
    KeysOfThree(a, x, b, y, c, z);
    GoodConditions(map[a := x, b := y, c := z], a, b, c);
  }

  lemma RangeMeets(db: Comparisons, row: Row, a: string, b: string, c: string, f: string, g: string, ids: string,
                   y: Value, z: Value)
    requires RangeNames(a, b, c, f, g)
    ensures MeetsAll(db, row, map[a := Str(ids), b := y, c := z]) <==>
            ComparesAny(db.equal, row, f, Lines(ids, ',')) &&
            Compares(db.atLeast, row, g, y) && Compares(db.below, row, g, z)
  {
    MeetsAllBy(db, row, map[a := Str(ids), b := y, c := z]);
    AllOfThree(MeetsBy(db, row), a, Str(ids), b, y, c, z);
    InMeets(db, row, a, f, ids);
    PlainMeets(db, row, b, g, AtLeast, y);
    PlainMeets(db, row, c, g, Below, z);
  }

  lemma RangeSelects(db: Comparisons, row: Row, a: string, b: string, c: string, f: string, g: string, ids: string,
                     y: Value, z: Value, keys: seq<string>, bindKeys: seq<string>)
    requires RangeNames(a, b, c, f, g)
    requires var cs := map[a := Str(ids), b := y, c := z]; Enumerates(keys, cs) && Enumerates(bindKeys, cs)
    ensures var cs := map[a := Str(ids), b := y, c := z];
            Selects(db, WhereText(cs, keys), row, Bound(cs, bindKeys)) ==
            Some(ComparesAny(db.equal, row, f, Lines(ids, ',')) &&
                 Compares(db.atLeast, row, g, y) && Compares(db.below, row, g, z))
  {
    RangeIsGood(a, b, c, f, g, Str(ids), y, z);
    TextMeansConditions(db, map[a := Str(ids), b := y, c := z], keys, bindKeys, row);
    RangeMeets(db, row, a, b, c, f, g, ids, y, z);
  }

  lemma RangeNamesHold()
    ensures RangeNames("event_id_IN", "date_GE", "date_LT", "event_id", "date")
  {
    RangeKeys();
    NoLetterI("date_GE");
    NoLetterI("date_LT");
  }

  /** The query by event ids and time selects exactly the rows of these events from the begin time on and before the end
      time, in whatever order its conditions are taken. */
  lemma RangeQuery(db: Comparisons, ids: string, begin: string, end: string, keys: seq<string>, bindKeys: seq<string>,
                   row: Row)
    requires var cs := RangeConditions(ids, begin, end); Enumerates(keys, cs) && Enumerates(bindKeys, cs)
    ensures var cs := RangeConditions(ids, begin, end);
            Selects(db, WhereText(cs, keys), row, Bound(cs, bindKeys)) ==
            Some(ComparesAny(db.equal, row, "event_id", Lines(ids, ',')) &&
                 Compares(db.atLeast, row, "date", Str(begin)) && Compares(db.below, row, "date", Str(end)))
  {
    RangeNamesHold();
    RangeSelects(db, row, "event_id_IN", "date_GE", "date_LT", "event_id", "date", ids, Str(begin), Str(end), keys,
                 bindKeys);
  }
}
