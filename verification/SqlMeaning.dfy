/** A reader of clause text that knows nothing of condition maps, and the proof that what it makes of the built text is
    what the condition map says. */
module SqlMeaning {
  import opened Common
  import opened Text
  import opened SqlText
  import opened SqlConditions

  type Row = map<string, Value>

  /** How a database compares two values; nothing is known about it. */
  datatype Comparisons = Comparisons(
    equal: (Value, Value) -> bool, atLeast: (Value, Value) -> bool, below: (Value, Value) -> bool,
    like: (Value, Value) -> bool)

  // ---------------------------------------------------------------- reading text

  predicate IsWordChar(c: char) {
    'a' <= c <= 'z' || 'A' <= c <= 'Z' || '0' <= c <= '9' || c == '_'
  }

  predicate IsName(s: string) {
    s != [] && forall i :: 0 <= i < |s| ==> IsWordChar(s[i])
  }

  predicate IsParameter(s: string) {
    s != [] && s[0] == ':' && IsName(s[1..])
  }

  function ValueIn(m: map<string, Value>, name: string): Value {
    if name in m then m[name] else Null
  }

  /** A comparison with NULL is never true. */
  predicate Holds(compare: (Value, Value) -> bool, a: Value, b: Value) {
    !a.Null? && !b.Null? && compare(a, b)
  }

  /** The names in a parenthesised list of parameters. */
  function ListOf(s: string): Option<seq<string>> {
    if |s| < 2 || s[0] != '(' || s[|s| - 1] != ')' then None
    else if s == "()" then Some([])
    else
      var ps := Pieces(s[1..|s| - 1], ',');
      if forall i :: 0 <= i < |ps| ==> IsParameter(ps[i])
      then Some(seq(|ps|, i requires 0 <= i < |ps| => ps[i][1..])) else None
  }

  function CompareBy(db: Comparisons, word: string): Option<(Value, Value) -> bool> {
    if word == "=" then Some(db.equal)
    else if word == ">=" then Some(db.atLeast)
    else if word == "<" then Some(db.below)
    else if word == "LIKE" then Some(db.like)
    else None
  }

  function ReadCondition(db: Comparisons, field: string, word: string, operand: string, row: Row, b: Bindings)
      : Option<bool> {
    if !IsName(field) then None
    else if word == "IN" then
      match ListOf(operand)
      case None => None
      case Some(names) =>
        Some(exists i :: 0 <= i < |names| && Holds(db.equal, ValueIn(row, field), ValueIn(b, names[i])))
    else if !IsParameter(operand) || CompareBy(db, word).None? then None
    else Some(Holds(CompareBy(db, word).value, ValueIn(row, field), ValueIn(b, operand[1..])))
  }

  /** Conditions of three words each with AND between them. */
  function ReadWords(db: Comparisons, words: seq<string>, row: Row, b: Bindings): Option<bool> {
    if |words| < 3 then None
    else
      var first := ReadCondition(db, words[0], words[1], words[2], row, b);
      if |words| == 3 then first
      else if words[3] != "AND" then None
      else
        match (first, ReadWords(db, words[4..], row, b))
        case (Some(x), Some(y)) => Some(x && y)
        case _ => None
  }

  /** Whether a statement with this clause text and these bindings selects a row; no text selects every row, and `None`
      is a syntax error. */
  function Selects(db: Comparisons, text: string, row: Row, b: Bindings): Option<bool> {
    if text == "" then Some(true) else ReadWords(db, Pieces(text, ' '), row, b)
  }

  // ---------------------------------------------------------------- what a condition map says

  predicate Meets(db: Comparisons, row: Row, key: string, v: Value) {
    var x := ValueIn(row, FieldOf(key));
    match OperatorOf(key)
    case In => exists i :: 0 <= i < |Items(v)| && Holds(db.equal, x, Str(Items(v)[i]))
    case Equal => Holds(db.equal, x, v)
    case AtLeast => Holds(db.atLeast, x, v)
    case Below => Holds(db.below, x, v)
    case Like => Holds(db.like, x, v)
  }

  predicate MeetsAll(db: Comparisons, row: Row, cs: Conditions) {
    forall k :: k in cs ==> Meets(db, row, k, cs[k])
  }

  /** `_IN` occurs in the key only if the key ends in it. */
  predicate InIsSuffixOnly(key: string) {
    Contains(key, "_IN") ==> EndsWith(key, "_IN")
  }

  ghost predicate WellFormed(cs: Conditions) {
    forall k :: k in cs ==> IsName(FieldOf(k))
  }

  ghost predicate SuffixesOnly(cs: Conditions) {
    forall k :: k in cs ==> InIsSuffixOnly(k)
  }

  // ---------------------------------------------------------------- the words of the built text

  lemma NamesAreFree(s: string, d: char)
    requires (forall i :: 0 <= i < |s| ==> IsWordChar(s[i])) && !IsWordChar(d)
    ensures Free(s, d)
  {
  }

  lemma KeyIsName(key: string)
    requires IsName(FieldOf(key))
    ensures IsName(key)
  {
    assert key == FieldOf(key) + Suffix(OperatorOf(key));
  }

  lemma ItemNameIsName(key: string, i: nat)
    requires IsName(key)
    ensures IsName(ItemName(key, i))
  {
    var digits := NatToString(i);
    assert forall j :: 0 <= j < |digits| ==> IsDigit(digits[j]);
  }

  lemma {:induction false} JoinedFree(xs: seq<string>, sep: string, d: char)
    requires AllFree(xs, d) && Free(sep, d)
    ensures Free(Joined(xs, sep), d)
  {
    if |xs| > 1 {
      JoinedFree(xs[1..], sep, d);
    }
  }

  lemma MarkedItems(key: string, n: nat)
    requires IsName(key)
    ensures forall i :: 0 <= i < n ==> IsParameter(Marked(ItemNames(key, n))[i])
    ensures AllFree(Marked(ItemNames(key, n)), ' ') && AllFree(Marked(ItemNames(key, n)), ',')
  {
    forall i | 0 <= i < n
      ensures IsParameter(Marked(ItemNames(key, n))[i])
      ensures Free(Marked(ItemNames(key, n))[i], ' ') && Free(Marked(ItemNames(key, n))[i], ',')
    {
      var p := Marked(ItemNames(key, n))[i];
      assert p == ":" + ItemName(key, i) && p[1..] == ItemName(key, i);
      ItemNameIsName(key, i);
    }
  }

  lemma OperandIsWord(key: string, v: Value)
    requires IsName(key)
    ensures Free(Operand(key, v), ' ')
  {
    if OperatorOf(key) == In {
      MarkedItems(key, |Items(v)|);
      JoinedFree(Marked(ItemNames(key, |Items(v)|)), ",", ' ');
    }
  }

  function Words(key: string, v: Value): seq<string> {
    [FieldOf(key), OperatorText(OperatorOf(key)), Operand(key, v)]
  }

  lemma ThreeWords(field: string, word: string, operand: string)
    requires ' ' !in field && ' ' !in word && ' ' !in operand
    ensures Pieces(field + " " + word + " " + operand, ' ') == [field, word, operand]
  {
    PieceAlone(field, ' ');
    PieceAlone(word, ' ');
    PieceAlone(operand, ' ');
    PiecesConcat(field, ' ', word);
    PiecesConcat(field + " " + word, ' ', operand);
  }

  lemma ClauseWords(key: string, v: Value)
    requires IsName(FieldOf(key))
    ensures Pieces(Clause(key, v), ' ') == Words(key, v)
  {
    KeyIsName(key);
    NamesAreFree(FieldOf(key), ' ');
    OperandIsWord(key, v);
    ThreeWords(FieldOf(key), OperatorText(OperatorOf(key)), Operand(key, v));
  }

  function AllWords(cs: Conditions, keys: seq<string>): seq<string>
    requires forall k :: k in keys ==> k in cs
  {
    if keys == [] then []
    else if |keys| == 1 then Words(keys[0], cs[keys[0]])
    else Words(keys[0], cs[keys[0]]) + ["AND"] + AllWords(cs, keys[1..])
  }

  lemma {:induction false} ClausesCons(cs: Conditions, keys: seq<string>)
    requires keys != [] && forall k :: k in keys ==> k in cs
    ensures Clauses(cs, keys) == [Clause(keys[0], cs[keys[0]])] + Clauses(cs, keys[1..])
  {
    if |keys| > 1 {
      var n := |keys| - 1;
      var middle := Middle(keys);
      ClausesCons(cs, keys[..n]);
      Around(Clause(keys[0], cs[keys[0]]), Clauses(cs, middle), Clause(keys[n], cs[keys[n]]));
    }
  }

  lemma {:induction false} ClausesLength(cs: Conditions, keys: seq<string>)
    requires forall k :: k in keys ==> k in cs
    ensures |Clauses(cs, keys)| == |keys|
  {
    if keys != [] {
      ClausesLength(cs, keys[..|keys| - 1]);
    }
  }

  lemma JoinedCons(first: string, rest: seq<string>, d: string)
    requires rest != []
    ensures Joined([first] + rest, d) == first + d + Joined(rest, d)
  {
    assert ([first] + rest)[1..] == rest;
  }

  lemma TextCons(cs: Conditions, keys: seq<string>)
    requires |keys| > 1 && forall k :: k in keys ==> k in cs
    ensures WhereText(cs, keys) == Clause(keys[0], cs[keys[0]]) + " AND " + WhereText(cs, keys[1..])
  {
    ClausesCons(cs, keys);
    ClausesLength(cs, keys[1..]);
    JoinedCons(Clause(keys[0], cs[keys[0]]), Clauses(cs, keys[1..]), " AND ");
  }

  lemma TextOfOne(cs: Conditions, key: string)
    requires key in cs
    ensures WhereText(cs, [key]) == Clause(key, cs[key])
  {
    ClausesCons(cs, [key]);
  }

  lemma WordSeparates(a: string, word: string, b: string, d: char)
    requires Free(word, d)
    ensures Pieces(a + [d] + (word + [d] + b), d) == Pieces(a, d) + [word] + Pieces(b, d)
  {
    PiecesConcat(a, d, word + [d] + b);
    PiecesConcat(word, d, b);
    PieceAlone(word, d);
    Regrouped(Pieces(a, d), [word], Pieces(b, d));
  }

  lemma AndBetween(a: string, b: string)
    ensures a + " AND " + b == a + [' '] + ("AND" + [' '] + b)
  {
  }

  lemma AndSeparates(a: string, b: string)
    ensures Pieces(a + " AND " + b, ' ') == Pieces(a, ' ') + ["AND"] + Pieces(b, ' ')
  {
    AndBetween(a, b);
    WordSeparates(a, "AND", b, ' ');
  }

  lemma {:induction false} TextWords(cs: Conditions, keys: seq<string>)
    requires keys != [] && (forall k :: k in keys ==> k in cs && IsName(FieldOf(k)))
    ensures Pieces(WhereText(cs, keys), ' ') == AllWords(cs, keys)
  {
    ClauseWords(keys[0], cs[keys[0]]);
    if |keys| == 1 {
      TextOfOne(cs, keys[0]);
      assert keys == [keys[0]];
    } else {
      TextWords(cs, keys[1..]);
      TextCons(cs, keys);
      AndSeparates(Clause(keys[0], cs[keys[0]]), WhereText(cs, keys[1..]));
    }
  }

  lemma ListOfMarked(names: seq<string>)
    requires AllFree(Marked(names), ',') && forall i :: 0 <= i < |names| ==> IsParameter(Marked(names)[i])
    ensures ListOf("(" + Joined(Marked(names), ",") + ")") == Some(names)
  {
    var ps := Marked(names);
    var s := "(" + Joined(ps, ",") + ")";
    assert s[1..|s| - 1] == Joined(ps, ",");
    if names != [] {
      PiecesOfJoined(ps, ',');
      JoinedNotEmpty(ps);
      assert seq(|ps|, i requires 0 <= i < |ps| => ps[i][1..]) == names;
    }
  }

  lemma ListOfOperand(key: string, v: Value)
    requires IsName(key) && OperatorOf(key) == In
    ensures ListOf(Operand(key, v)) == Some(ItemNames(key, |Items(v)|))
  {
    MarkedItems(key, |Items(v)|);
    ListOfMarked(ItemNames(key, |Items(v)|));
  }

  lemma JoinedNotEmpty(ps: seq<string>)
    requires ps != [] && ps[0] != ""
    ensures Joined(ps, ",") != ""
  {
  }

  // ---------------------------------------------------------------- the bindings

  /** The names that binding one key assigns. */
  predicate Assigns(key: string, v: Value, name: string) {
    if Contains(key, "_IN") then exists i :: 0 <= i < |Items(v)| && name == ItemName(key, i)
    else name == key
  }

  lemma {:induction false} BindItemsIs(b: Bindings, key: string, items: seq<string>, name: string)
    ensures forall i :: 0 <= i < |items| && name == ItemName(key, i) ==>
              ValueIn(BindItems(b, key, items), name) == Str(items[i])
    ensures (forall i :: 0 <= i < |items| ==> name != ItemName(key, i)) ==>
              ValueIn(BindItems(b, key, items), name) == ValueIn(b, name)
  {
    if items != [] {
      var n := |items| - 1;
      BindItemsIs(b, key, items[..n], name);
      forall i | 0 <= i < |items| && name == ItemName(key, i)
        ensures ValueIn(BindItems(b, key, items), name) == Str(items[i])
      {
        if name == ItemName(key, n) {
          SameItem(key, i, n);
        }
      }
    }
  }

  lemma {:induction false} BindItemsNames(b: Bindings, key: string, items: seq<string>, name: string)
    ensures name in BindItems(b, key, items) <==>
            name in b || exists i :: 0 <= i < |items| && name == ItemName(key, i)
  {
    if items != [] {
      BindItemsNames(b, key, items[..|items| - 1], name);
    }
  }

  lemma SameItem(key: string, i: nat, j: nat)
    requires ItemName(key, i) == ItemName(key, j)
    ensures i == j
  {
    SeqnumKeyInjective(key, i, key, j);
  }

  lemma BindKeyFrame(b: Bindings, key: string, v: Value, name: string)
    requires !Assigns(key, v, name)
    ensures ValueIn(BindKey(b, key, v), name) == ValueIn(b, name)
  {
    if Contains(key, "_IN") {
      BindItemsIs(b, key, Items(v), name);
    }
  }

  lemma ContainsInPrefix(s: string, t: string, part: string)
    requires Contains(s, part)
    ensures Contains(s + t, part)
  {
    var i :| 0 <= i <= |s| && part <= s[i..];
    assert (s + t)[i..] == s[i..] + t;
  }

  lemma EndsMeansContains(s: string, part: string)
    requires EndsWith(s, part)
    ensures Contains(s, part)
  {
    assert part <= s[|s| - |part|..];
  }

  lemma ItemNameContains(key: string, i: nat)
    requires Contains(key, "_IN")
    ensures Contains(ItemName(key, i), "_IN")
  {
    ContainsInPrefix(key, "_" + NatToString(i), "_IN");
    assert ItemName(key, i) == key + ("_" + NatToString(i));
  }

  /** Names never collide: two keys assign no name in common, whatever the keys are. */
  lemma NamesNeverCollide(key: string, v: Value, other: string, w: Value, name: string)
    requires key != other
    ensures !(Assigns(key, v, name) && Assigns(other, w, name))
  {
    if Assigns(key, v, name) && Assigns(other, w, name) {
      if Contains(key, "_IN") && Contains(other, "_IN") {
        var i :| 0 <= i < |Items(v)| && name == ItemName(key, i);
        var j :| 0 <= j < |Items(w)| && name == ItemName(other, j);
        SeqnumKeyInjective(key, i, other, j);
      } else if Contains(key, "_IN") {
        var i :| 0 <= i < |Items(v)| && name == ItemName(key, i);
        ItemNameContains(key, i);
      } else if Contains(other, "_IN") {
        var j :| 0 <= j < |Items(w)| && name == ItemName(other, j);
        ItemNameContains(other, j);
      }
    }
  }

  /** Every key finds its own value under the names that its clause mentions. */
  lemma {:induction false} BoundValues(cs: Conditions, keys: seq<string>, key: string, name: string)
    requires Distinct(keys) && key in keys && forall k :: k in keys ==> k in cs
    requires Assigns(key, cs[key], name)
    ensures !Contains(key, "_IN") ==> ValueIn(Bound(cs, keys), name) == cs[key]
    ensures forall i :: Contains(key, "_IN") && 0 <= i < |Items(cs[key])| && name == ItemName(key, i) ==>
              ValueIn(Bound(cs, keys), name) == Str(Items(cs[key])[i])
  {
    var n := |keys| - 1;
    var last, before := keys[n], Bound(cs, keys[..n]);
    if last == key {
      if Contains(key, "_IN") {
        BindItemsIs(before, key, Items(cs[key]), name);
      } else {
        NotAssignedYet(cs, keys[..n], key, name);
      }
    } else {
      BoundValues(cs, keys[..n], key, name);
      NamesNeverCollide(key, cs[key], last, cs[last], name);
      BindKeyFrame(before, last, cs[last], name);
    }
  }

  /** Names that no key assigns stay unbound. */
  lemma {:induction false} UnassignedIsNull(cs: Conditions, keys: seq<string>, name: string)
    requires forall k :: k in keys ==> k in cs
    requires forall k :: k in keys ==> !Assigns(k, cs[k], name)
    ensures ValueIn(Bound(cs, keys), name) == Null
  {
    if keys != [] {
      var n := |keys| - 1;
      UnassignedIsNull(cs, keys[..n], name);
      BindKeyFrame(Bound(cs, keys[..n]), keys[n], cs[keys[n]], name);
    }
  }

  lemma NotAssignedYet(cs: Conditions, keys: seq<string>, key: string, name: string)
    requires key !in keys && key in cs && forall k :: k in keys ==> k in cs
    requires Assigns(key, cs[key], name)
    ensures ValueIn(Bound(cs, keys), name) == Null
  {
    forall k | k in keys
      ensures !Assigns(k, cs[k], name)
    {
      NamesNeverCollide(key, cs[key], k, cs[k], name);
    }
    UnassignedIsNull(cs, keys, name);
  }

  /** The bound names are those that some key assigns a value. */
  lemma {:induction false} BoundNames(cs: Conditions, keys: seq<string>, name: string)
    requires forall k :: k in keys ==> k in cs
    ensures name in Bound(cs, keys) <==>
            exists k :: k in keys && Assigns(k, cs[k], name) && (cs[k].Null? ==> Contains(k, "_IN"))
  {
    if keys != [] {
      var n := |keys| - 1;
      BoundNames(cs, keys[..n], name);
      assert keys == keys[..n] + [keys[n]];
      if Contains(keys[n], "_IN") {
        BindItemsNames(Bound(cs, keys[..n]), keys[n], Items(cs[keys[n]]), name);
      }
    }
  }

  // ---------------------------------------------------------------- reading the built text

  /** The condition built for a key reads as true. */
  predicate IsRead(db: Comparisons, key: string, v: Value, row: Row, b: Bindings) {
    ReadCondition(db, FieldOf(key), OperatorText(OperatorOf(key)), Operand(key, v), row, b) == Some(true)
  }

  /** What the condition built for an IN key reads as. */
  lemma ListReads(db: Comparisons, key: string, v: Value, row: Row, b: Bindings)
    requires IsName(FieldOf(key)) && OperatorOf(key) == In
    ensures ReadCondition(db, FieldOf(key), "IN", Operand(key, v), row, b) ==
            Some(exists i :: 0 <= i < |Items(v)| &&
                   Holds(db.equal, ValueIn(row, FieldOf(key)), ValueIn(b, ItemName(key, i))))
  {
    KeyIsName(key);
    ListOfOperand(key, v);
    var names := ItemNames(key, |Items(v)|);
    assert forall i :: 0 <= i < |names| ==> names[i] == ItemName(key, i);
  }

  /** What the condition built for another key reads as. */
  lemma PlainReads(db: Comparisons, key: string, v: Value, row: Row, b: Bindings)
    requires IsName(FieldOf(key)) && OperatorOf(key) != In
    ensures CompareBy(db, OperatorText(OperatorOf(key))).Some?
    ensures ReadCondition(db, FieldOf(key), OperatorText(OperatorOf(key)), Operand(key, v), row, b) ==
            Some(Holds(CompareBy(db, OperatorText(OperatorOf(key))).value, ValueIn(row, FieldOf(key)), ValueIn(b, key)))
  {
    PlainOperand(key, v);
  }

  lemma PlainOperand(key: string, v: Value)
    requires IsName(FieldOf(key)) && OperatorOf(key) != In
    ensures IsParameter(Operand(key, v)) && Operand(key, v)[1..] == key
  {
    KeyIsName(key);
    assert Operand(key, v)[1..] == key;
  }

  lemma ConditionReads(db: Comparisons, key: string, v: Value, row: Row, b: Bindings)
    requires IsName(FieldOf(key))
    ensures ReadCondition(db, FieldOf(key), OperatorText(OperatorOf(key)), Operand(key, v), row, b) ==
            Some(IsRead(db, key, v, row, b))
    ensures OperatorOf(key) != In && ValueIn(b, key) == Null ==> !IsRead(db, key, v, row, b)
  {
    if OperatorOf(key) == In {
      ListReads(db, key, v, row, b);
    } else {
      PlainReads(db, key, v, row, b);
    }
  }

  /** `b` gives the names that the clause of `key` mentions the values of its condition. */
  ghost predicate Serves(b: Bindings, key: string, v: Value) {
    if OperatorOf(key) == In then
      forall i :: 0 <= i < |Items(v)| ==> ValueIn(b, ItemName(key, i)) == Str(Items(v)[i])
    else ValueIn(b, key) == v
  }

  lemma ServedMeansMet(db: Comparisons, key: string, v: Value, row: Row, b: Bindings)
    requires IsName(FieldOf(key)) && Serves(b, key, v)
    ensures IsRead(db, key, v, row, b) <==> Meets(db, row, key, v)
  {
    if OperatorOf(key) == In {
      ListReads(db, key, v, row, b);
    } else {
      PlainReads(db, key, v, row, b);
    }
  }

  lemma ReadOne(db: Comparisons, cond: seq<string>, row: Row, b: Bindings, x: bool)
    requires |cond| == 3 && ReadCondition(db, cond[0], cond[1], cond[2], row, b) == Some(x)
    ensures ReadWords(db, cond, row, b) == Some(x)
  {
  }

  lemma ReadCons(db: Comparisons, cond: seq<string>, rest: seq<string>, row: Row, b: Bindings, x: bool, y: bool)
    requires |cond| == 3 && ReadCondition(db, cond[0], cond[1], cond[2], row, b) == Some(x)
    requires ReadWords(db, rest, row, b) == Some(y)
    ensures ReadWords(db, cond + ["AND"] + rest, row, b) == Some(x && y)
  {
    assert (cond + ["AND"] + rest)[4..] == rest;
  }

  ghost predicate AllRead(db: Comparisons, cs: Conditions, keys: seq<string>, row: Row, b: Bindings)
    requires forall k :: k in keys ==> k in cs
  {
    forall k :: k in keys ==> IsRead(db, k, cs[k], row, b)
  }

  lemma AllReadCons(db: Comparisons, cs: Conditions, key: string, rest: seq<string>, row: Row, b: Bindings)
    requires key in cs && forall k :: k in rest ==> k in cs
    ensures AllRead(db, cs, [key] + rest, row, b) <==> IsRead(db, key, cs[key], row, b) && AllRead(db, cs, rest, row, b)
  {
    assert key in [key] + rest;
    assert forall k :: k in rest ==> k in [key] + rest;
  }

  lemma {:induction false} WordsRead(db: Comparisons, cs: Conditions, keys: seq<string>, row: Row, b: Bindings)
    requires keys != [] && forall k :: k in keys ==> k in cs && IsName(FieldOf(k))
    ensures ReadWords(db, AllWords(cs, keys), row, b) == Some(AllRead(db, cs, keys, row, b))
  {
    var first, rest := keys[0], keys[1..];
    assert keys == [first] + rest;
    ConditionReads(db, first, cs[first], row, b);
    AllReadCons(db, cs, first, rest, row, b);
    if rest == [] {
      ReadOne(db, Words(first, cs[first]), row, b, IsRead(db, first, cs[first], row, b));
    } else {
      WordsRead(db, cs, rest, row, b);
      ReadCons(db, Words(first, cs[first]), AllWords(cs, rest), row, b,
               IsRead(db, first, cs[first], row, b), AllRead(db, cs, rest, row, b));
    }
  }

  lemma TextNotEmpty(cs: Conditions, keys: seq<string>)
    requires keys != [] && forall k :: k in keys ==> k in cs
    ensures WhereText(cs, keys) != ""
  {
    assert " " <= Clause(keys[0], cs[keys[0]])[|FieldOf(keys[0])|..];
    if |keys| == 1 {
      TextOfOne(cs, keys[0]);
      assert keys == [keys[0]];
    } else {
      TextCons(cs, keys);
    }
  }

  /** The built text is never a syntax error, and selects a row when each of its conditions reads as true. */
  lemma TextReads(db: Comparisons, cs: Conditions, keys: seq<string>, row: Row, b: Bindings)
    requires Enumerates(keys, cs) && WellFormed(cs)
    ensures Selects(db, WhereText(cs, keys), row, b) == Some(forall k :: k in cs ==> IsRead(db, k, cs[k], row, b))
  {
    if keys == [] {
      assert forall k :: k !in cs;
    } else {
      TextWords(cs, keys);
      WordsRead(db, cs, keys, row, b);
      TextNotEmpty(cs, keys);
    }
  }

  // ---------------------------------------------------------------- the translation keeps the meaning

  lemma BindingsServe(cs: Conditions, keys: seq<string>, key: string)
    requires Enumerates(keys, cs) && key in cs && InIsSuffixOnly(key)
    ensures Serves(Bound(cs, keys), key, cs[key])
  {
    if OperatorOf(key) == In {
      EndsMeansContains(key, "_IN");
      forall i | 0 <= i < |Items(cs[key])|
        ensures ValueIn(Bound(cs, keys), ItemName(key, i)) == Str(Items(cs[key])[i])
      {
        BoundValues(cs, keys, key, ItemName(key, i));
      }
    } else {
      assert !Contains(key, "_IN");
      BoundValues(cs, keys, key, key);
    }
  }

  /** The translation keeps the meaning: whatever the database makes of =, >=, < and LIKE, and in whatever orders the
      keys are taken for the text and for the bindings, the built clause reads without error and selects exactly the
      rows that meet every condition of the map. */
  lemma TextMeansConditions(db: Comparisons, cs: Conditions, keys: seq<string>, bindKeys: seq<string>, row: Row)
    requires Enumerates(keys, cs) && Enumerates(bindKeys, cs) && WellFormed(cs) && SuffixesOnly(cs)
    ensures Selects(db, WhereText(cs, keys), row, Bound(cs, bindKeys)) == Some(MeetsAll(db, row, cs))
  {
    var b := Bound(cs, bindKeys);
    TextReads(db, cs, keys, row, b);
    forall k | k in cs
      ensures IsRead(db, k, cs[k], row, b) <==> Meets(db, row, k, cs[k])
    {
      BindingsServe(cs, bindKeys, k);
      ServedMeansMet(db, k, cs[k], row, b);
    }
  }

  // ---------------------------------------------------------------- placeholders and bindings

  /** The parameters that a clause text mentions. */
  function Mentioned(words: seq<string>): set<string> {
    if |words| < 3 then {}
    else
      (if IsParameter(words[2]) then {words[2][1..]}
       else if ListOf(words[2]).Some? then set n | n in ListOf(words[2]).value else {}) +
      (if |words| > 3 then Mentioned(words[4..]) else {})
  }

  lemma MentionedByClause(key: string, v: Value, name: string)
    requires IsName(FieldOf(key))
    ensures name in Mentioned(Words(key, v)) <==>
            if OperatorOf(key) == In then exists i :: 0 <= i < |Items(v)| && name == ItemName(key, i) else name == key
  {
    KeyIsName(key);
    if OperatorOf(key) == In {
      MentionedByList(key, v, name);
    } else {
      assert Operand(key, v)[1..] == key;
    }
  }

  lemma MentionedByList(key: string, v: Value, name: string)
    requires IsName(key) && OperatorOf(key) == In
    ensures name in Mentioned(Words(key, v)) <==> exists i :: 0 <= i < |Items(v)| && name == ItemName(key, i)
  {
    ListOfOperand(key, v);
    var names := ItemNames(key, |Items(v)|);
    assert forall i :: 0 <= i < |names| ==> names[i] == ItemName(key, i);
    assert !IsParameter(Operand(key, v));
  }

  lemma MentionedCons(cond: seq<string>, rest: seq<string>)
    requires |cond| == 3
    ensures Mentioned(cond + ["AND"] + rest) == Mentioned(cond) + Mentioned(rest)
  {
    var words := cond + ["AND"] + rest;
    assert words[4..] == rest && words[2] == cond[2];
  }

  lemma {:induction false} MentionedByAll(cs: Conditions, keys: seq<string>, name: string)
    requires forall k :: k in keys ==> k in cs && IsName(FieldOf(k))
    ensures name in Mentioned(AllWords(cs, keys)) <==> exists k :: k in keys && name in Mentioned(Words(k, cs[k]))
  {
    if keys != [] {
      assert keys == [keys[0]] + keys[1..];
      if |keys| > 1 {
        MentionedByAll(cs, keys[1..], name);
        MentionedCons(Words(keys[0], cs[keys[0]]), AllWords(cs, keys[1..]));
      }
    }
  }

  /** The clause mentions exactly the parameters that are bound, when plain conditions have values. */
  lemma PlaceholdersAreBindings(cs: Conditions, keys: seq<string>, bindKeys: seq<string>)
    requires Enumerates(keys, cs) && Enumerates(bindKeys, cs) && WellFormed(cs) && SuffixesOnly(cs)
    requires forall k :: k in cs && cs[k].Null? ==> OperatorOf(k) == In
    ensures Mentioned(Pieces(WhereText(cs, keys), ' ')) == Bound(cs, bindKeys).Keys
  {
    forall name
      ensures name in Mentioned(Pieces(WhereText(cs, keys), ' ')) <==> name in Bound(cs, bindKeys)
    {
      PlaceholderIsBinding(cs, keys, bindKeys, name);
    }
  }

  lemma PlaceholderIsBinding(cs: Conditions, keys: seq<string>, bindKeys: seq<string>, name: string)
    requires Enumerates(keys, cs) && Enumerates(bindKeys, cs) && WellFormed(cs) && SuffixesOnly(cs)
    requires forall k :: k in cs && cs[k].Null? ==> OperatorOf(k) == In
    ensures name in Mentioned(Pieces(WhereText(cs, keys), ' ')) <==> name in Bound(cs, bindKeys)
  {
    BoundNames(cs, bindKeys, name);
    forall k | k in cs
      ensures name in Mentioned(Words(k, cs[k])) <==>
              Assigns(k, cs[k], name) && (cs[k].Null? ==> Contains(k, "_IN"))
    {
      MentionedByClause(k, cs[k], name);
      if OperatorOf(k) == In {
        EndsMeansContains(k, "_IN");
      }
      assert InIsSuffixOnly(k);
    }
    if keys != [] {
      TextWords(cs, keys);
      MentionedByAll(cs, keys, name);
    } else {
      assert forall k :: k !in cs;
    }
  }
}
