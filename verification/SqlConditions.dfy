/** Condition maps, the clause text built from them, and what that text means to a database. */
module SqlConditions {
  import opened Common
  import opened Text
  import opened SqlText

  datatype Value = Null | Int(i: int) | Int64(n: int) | Str(s: string)

  function GetString(v: Value): string {
    if v.Str? then v.s else ""
  }

  type Conditions = map<string, Value>

  // ---------------------------------------------------------------- what a condition key says

  datatype Operator = Equal | In | AtLeast | Below | Like

  function Suffix(op: Operator): string {
    match op
    case Equal => ""
    case In => "_IN"
    case AtLeast => "_GE"
    case Below => "_LT"
    case Like => "_LIKE"
  }

  predicate EndsWith(s: string, suffix: string) {
    |suffix| <= |s| && s[|s| - |suffix|..] == suffix
  }

  function OperatorOf(key: string): (op: Operator)
    ensures EndsWith(key, Suffix(op))
  {
    if EndsWith(key, "_IN") then In
    else if EndsWith(key, "_GE") then AtLeast
    else if EndsWith(key, "_LT") then Below
    else if EndsWith(key, "_LIKE") then Like
    else Equal
  }

  function FieldOf(key: string): string {
    key[..|key| - |Suffix(OperatorOf(key))|]
  }

  /** A key is a field followed by the suffix of an operator, or a field that ends in no such suffix. */
  lemma KeysAreRead(key: string, field: string, op: Operator)
    ensures OperatorOf(key) == op && FieldOf(key) == field <==>
            key == field + Suffix(op) && (op == Equal ==> HasNoSuffix(key))
  {
    assert key == FieldOf(key) + Suffix(OperatorOf(key));
    if key == field + Suffix(op) && (op == Equal ==> HasNoSuffix(key)) {
      assert EndsWith(key, Suffix(op));
      LastLetters(key);
      assert key[..|field|] == field;
    }
  }

  predicate HasNoSuffix(key: string) {
    !EndsWith(key, "_IN") && !EndsWith(key, "_GE") && !EndsWith(key, "_LT") && !EndsWith(key, "_LIKE")
  }

  /** The suffixes exclude each other. */
  lemma LastLetters(key: string)
    ensures EndsWith(key, "_IN") ==> key[|key| - 1] == 'N'
    ensures EndsWith(key, "_GE") ==> key[|key| - 1] == 'E' && key[|key| - 2] == 'G'
    ensures EndsWith(key, "_LT") ==> key[|key| - 1] == 'T'
    ensures EndsWith(key, "_LIKE") ==> key[|key| - 1] == 'E' && key[|key| - 2] == 'K'
  {
    if EndsWith(key, "_IN") {
      assert key[|key| - 3..][2] == 'N';
    } else if EndsWith(key, "_GE") {
      assert key[|key| - 3..][2] == 'E' && key[|key| - 3..][1] == 'G';
    } else if EndsWith(key, "_LT") {
      assert key[|key| - 3..][2] == 'T';
    }
    if EndsWith(key, "_LIKE") {
      assert key[|key| - 5..][4] == 'E' && key[|key| - 5..][3] == 'K';
    }
  }

  // ---------------------------------------------------------------- the text

  function Items(v: Value): seq<string> {
    Lines(GetString(v), ',')
  }

  /** The name of the parameter for one item of an IN condition. */
  function ItemName(key: string, i: nat): string {
    key + "_" + NatToString(i)
  }

  function ItemNames(key: string, n: nat): seq<string> {
    seq(n, i requires 0 <= i < n => ItemName(key, i))
  }

  function Marked(names: seq<string>): seq<string> {
    seq(|names|, i requires 0 <= i < |names| => ":" + names[i])
  }

  function OperatorText(op: Operator): string {
    match op
    case Equal => "="
    case In => "IN"
    case AtLeast => ">="
    case Below => "<"
    case Like => "LIKE"
  }

  function Operand(key: string, v: Value): string {
    if OperatorOf(key) == In then "(" + Joined(Marked(ItemNames(key, |Items(v)|)), ",") + ")" else ":" + key
  }

  function Clause(key: string, v: Value): string {
    FieldOf(key) + " " + OperatorText(OperatorOf(key)) + " " + Operand(key, v)
  }

  function Clauses(cs: Conditions, keys: seq<string>): seq<string>
    requires forall k :: k in keys ==> k in cs
  {
    if keys == [] then [] else Clauses(cs, keys[..|keys| - 1]) + [Clause(keys[|keys| - 1], cs[keys[|keys| - 1]])]
  }

  function WhereText(cs: Conditions, keys: seq<string>): string
    requires forall k :: k in keys ==> k in cs
  {
    Joined(Clauses(cs, keys), " AND ")
  }

  // ---------------------------------------------------------------- the bindings

  type Bindings = map<string, Value>

  predicate Contains(s: string, part: string) {
    exists i :: 0 <= i <= |s| && part <= s[i..]
  }

  function BindOne(b: Bindings, name: string, v: Value): Bindings {
    if v.Null? then b else b[name := v]
  }

  function BindItems(b: Bindings, key: string, items: seq<string>): Bindings {
    if items == [] then b
    else
      var n := |items| - 1;
      BindOne(BindItems(b, key, items[..n]), ItemName(key, n), Str(items[n]))
  }

  function BindKey(b: Bindings, key: string, v: Value): Bindings {
    if Contains(key, "_IN") then BindItems(b, key, Items(v)) else BindOne(b, key, v)
  }

  function Bound(cs: Conditions, keys: seq<string>): Bindings
    requires forall k :: k in keys ==> k in cs
  {
    if keys == [] then map[]
    else
      var n := |keys| - 1;
      BindKey(Bound(cs, keys[..n]), keys[n], cs[keys[n]])
  }

  // ---------------------------------------------------------------- the classes of the source

  ghost predicate Enumerates(keys: seq<string>, cs: Conditions) {
    Distinct(keys) && forall k :: k in keys <==> k in cs
  }

  class GenericValues {
    var map_: Conditions

    constructor ()
      ensures map_ == map[]
    {
      map_ := map[];
    }

    /** The first value put under a key stays. */
    method Put(key: string, v: Value)
      modifies this
      ensures key in old(map_) ==> map_ == old(map_)
      ensures key !in old(map_) ==> map_ == old(map_)[key := v]
    {
      if key !in map_ {
        map_ := map_[key := v];
      }
    }

    method Remove(key: string)
      modifies this
      ensures map_ == old(map_) - {key}
    {
      if key in map_ {
        map_ := map_ - {key};
      } else {
        assert map_ - {key} == map_;
      }
    }

    function Get(key: string): Value
      reads this
    {
      if key in map_ then map_[key] else Null
    }

    /** The keys in the order of the map, which is left open here. */
    method GetAllKeys() returns (keys: seq<string>)
      ensures Enumerates(keys, map_)
    {
      keys := [];
      var left := map_.Keys;
      while left != {}
        invariant left <= map_.Keys && Distinct(keys)
        invariant forall k :: k in keys <==> k in map_ && k !in left
      {
        var k :| k in left;
        keys := keys + [k];
        left := left - {k};
      }
    }
  }

  class Statement {
    const sql: string
    var bindings: Bindings

    constructor (sql: string)
      ensures this.sql == sql && bindings == map[]
    {
      this.sql := sql;
      bindings := map[];
    }

    /** A value for a named parameter; one that the text does not mention changes nothing there. */
    method Bind(name: string, v: Value)
      modifies this`bindings
      ensures bindings == BindOne(old(bindings), name, v)
    {
      if !v.Null? {
        bindings := bindings[name := v];
      }
    }
  }

  method BuildInPlaceholders(key: string, values: string) returns (text: string)
    ensures text == Joined(Marked(ItemNames(key, |Lines(values, ',')|)), ",")
  {
    var items := Split(values, ',');
    var placeholders: seq<string> := [];
    for i := 0 to |items|
      invariant placeholders == Marked(ItemNames(key, i))
    {
      placeholders := placeholders + [":" + key + "_" + NatToString(i)];
      assert ":" + key + "_" + NatToString(i) == ":" + ItemName(key, i);
    }
    text := Join(placeholders, ",");
  }

  const OPS: seq<Operator> := [In, AtLeast, Below, Like]

  /** The inner loop of `BuildWhereClause`: the first suffix of the list that fits. */
  method FindOperator(key: string) returns (op: Operator, field: string)
    ensures op == OperatorOf(key) && field == FieldOf(key)
  {
    op, field := Equal, key;
    for i := 0 to |OPS|
      invariant op == Equal && field == key
      invariant forall j :: 0 <= j < i ==> !EndsWith(key, Suffix(OPS[j]))
    {
      if EndsWith(key, Suffix(OPS[i])) {
        assert OPS[0] == In && OPS[1] == AtLeast && OPS[2] == Below && OPS[3] == Like;
        return OPS[i], key[..|key| - |Suffix(OPS[i])|];
      }
    }
    assert OPS[0] == In && OPS[1] == AtLeast && OPS[2] == Below && OPS[3] == Like;
  }

  /** The body of the loop of `BuildWhereClause`. */
  method BuildClause(key: string, value: Value) returns (clause: string)
    ensures clause == Clause(key, value)
  {
    var op, field := FindOperator(key);
    match op {
      case Equal =>
        assert key == field + "";
        clause := key + " = :" + key;
        assert clause == field + " " + "=" + " " + (":" + key);
      case In =>
        var placeholders := BuildInPlaceholders(key, GetString(value));
        clause := field + " IN (" + placeholders + ")";
        assert clause == field + " " + "IN" + " " + ("(" + placeholders + ")");
      case AtLeast =>
        clause := field + " >= :" + key;
        assert clause == field + " " + ">=" + " " + (":" + key);
      case Below =>
        clause := field + " < :" + key;
        assert clause == field + " " + "<" + " " + (":" + key);
      case Like =>
        clause := field + " LIKE :" + key;
        assert clause == field + " " + "LIKE" + " " + (":" + key);
    }
  }

  /** The clause text of a map, its keys taken in some order. */
  ghost predicate IsClauseText(text: string, cs: Conditions) {
    exists keys :: Enumerates(keys, cs) && text == WhereText(cs, keys)
  }

  method BuildWhereClause(conditions: GenericValues) returns (text: string, ghost keys: seq<string>)
    ensures IsClauseText(text, conditions.map_)
    ensures Enumerates(keys, conditions.map_)
    ensures text == WhereText(conditions.map_, keys)
  {
    var clauses: seq<string> := [];
    var all := conditions.GetAllKeys();
    keys := all;
    for i := 0 to |all|
      invariant clauses == Clauses(conditions.map_, all[..i])
    {
      OneMore(all, i);
      var clause := BuildClause(all[i], conditions.Get(all[i]));
      clauses := clauses + [clause];
    }
    assert all[..|all|] == all;
    if clauses == [] {
      return "", keys;
    }
    text := Join(clauses, " AND ");
  }

  method PrepareBoundStateStmt(sql: string, conditions: GenericValues) returns (stmt: Statement, ghost keys: seq<string>)
    ensures fresh(stmt) && stmt.sql == sql
    ensures Enumerates(keys, conditions.map_)
    ensures stmt.bindings == Bound(conditions.map_, keys)
  {
    stmt := new Statement(sql);
    var all := conditions.GetAllKeys();
    keys := all;
    for n := 0 to |all|
      invariant stmt.bindings == Bound(conditions.map_, all[..n])
    {
      var key := all[n];
      assert key in all && Enumerates(all, conditions.map_);
      assert all[..n + 1][..n] == all[..n];
      var value := conditions.Get(key);
      ghost var before := stmt.bindings;
      if Contains(key, "_IN") {
        var items := Split(GetString(value), ',');
        for i := 0 to |items|
          invariant stmt.bindings == BindItems(before, key, items[..i])
        {
          assert items[..i + 1][..i] == items[..i];
          stmt.Bind(key + "_" + NatToString(i), Str(items[i]));
        }
        assert items[..|items|] == items;
      } else {
        stmt.Bind(key, value);
      }
    }
    assert all[..|all|] == all;
  }
}
