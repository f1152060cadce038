/** What the built text means when `_IN` stands elsewhere than at the end of a key, and exactly when that is still what the
    condition map says. */
module SqlExactness {
  import opened Common
  import opened Text
  import opened SqlText
  import opened SqlConditions
  import opened SqlMeaning

  // ---------------------------------------------------------------- what a misplaced key is bound to

  /** The item `i` of key `l` is bound under the name `k`. */
  predicate Carries(cs: Conditions, l: string, i: nat, k: string) {
    l in cs && Contains(l, "_IN") && i < |Items(cs[l])| && ItemName(l, i) == k
  }

  /** The value that other keys give a name by accident; NULL if none does. */
  ghost function Carried(cs: Conditions, k: string): Value {
    if exists l: string, i: nat :: Carries(cs, l, i, k) then
      var l: string, i: nat :| Carries(cs, l, i, k);
      Str(Items(cs[l])[i])
    else Null
  }

  lemma SameItem(cs: Conditions, l: string, i: nat, m: string, j: nat, k: string)
    requires Carries(cs, l, i, k) && Carries(cs, m, j, k)
    ensures l == m && i == j
  {
    assert SeqnumKey(l, i) == k && SeqnumKey(m, j) == k;
    SeqnumKeyInjective(l, i, m, j);
  }

  lemma CarriedIs(cs: Conditions, l: string, i: nat, k: string)
    requires Carries(cs, l, i, k)
    ensures Carried(cs, k) == Str(Items(cs[l])[i])
  {
    var m: string, j: nat :| Carries(cs, m, j, k) && Carried(cs, k) == Str(Items(cs[m])[j]);
    SameItem(cs, l, i, m, j, k);
  }

  /** A key with `_IN` inside gets a plain placeholder but is bound like a list, so all that its placeholder can be bound
      to is the item of another key. */
  lemma MisplacedIsBound(cs: Conditions, keys: seq<string>, k: string)
    requires Enumerates(keys, cs) && k in cs && !InIsSuffixOnly(k)
    ensures ValueIn(Bound(cs, keys), k) == Carried(cs, k)
  {
    if l: string, i: nat :| Carries(cs, l, i, k) {
      CarriedIs(cs, l, i, k);
      BoundValues(cs, keys, l, k);
    } else {
      forall l | l in keys
        ensures !Assigns(l, cs[l], k)
      {
        if Assigns(l, cs[l], k) {
          AssignedIsCarried(cs, l, k);
        }
      }
      UnassignedIsNull(cs, keys, k);
    }
  }

  lemma AssignedIsCarried(cs: Conditions, l: string, k: string)
    requires l in cs && Assigns(l, cs[l], k) && Contains(k, "_IN")
    ensures exists i: nat :: Carries(cs, l, i, k)
  {
    var i :| 0 <= i < |Items(cs[l])| && k == ItemName(l, i);
    assert Carries(cs, l, i, k);
  }

  /** The conditions that the text and its bindings really state. */
  ghost function Effective(cs: Conditions): Conditions {
    map k | k in cs :: if InIsSuffixOnly(k) then cs[k] else Carried(cs, k)
  }

  lemma MisplacedIsPlain(k: string)
    requires !InIsSuffixOnly(k)
    ensures OperatorOf(k) != In
  {
  }

  /** For every well-formed map the text under its bindings selects exactly the rows that meet the effective
      conditions. */
  lemma TextMeansEffective(db: Comparisons, cs: Conditions, keys: seq<string>, bindKeys: seq<string>, row: Row)
    requires Enumerates(keys, cs) && Enumerates(bindKeys, cs) && WellFormed(cs)
    ensures Selects(db, WhereText(cs, keys), row, Bound(cs, bindKeys)) == Some(MeetsAll(db, row, Effective(cs)))
  {
    var b, eff := Bound(cs, bindKeys), Effective(cs);
    TextReads(db, cs, keys, row, b);
    forall k | k in cs
      ensures IsRead(db, k, cs[k], row, b) <==> Meets(db, row, k, eff[k])
    {
      if InIsSuffixOnly(k) {
        BindingsServe(cs, bindKeys, k);
        ServedMeansMet(db, k, cs[k], row, b);
      } else {
        MisplacedIsPlain(k);
        MisplacedIsBound(cs, bindKeys, k);
        ServedMeansMet(db, k, eff[k], row, b);
      }
    }
  }

  lemma UncarriedIsNeverMet(db: Comparisons, cs: Conditions, row: Row, k: string)
    requires k in cs && !InIsSuffixOnly(k) && Carried(cs, k) == Null
    ensures !MeetsAll(db, row, Effective(cs))
  {
    MisplacedIsPlain(k);
    assert !Meets(db, row, k, Effective(cs)[k]);
  }

  /** So a misplaced key whose name no item bears makes the query select nothing. */
  lemma UnboundSelectsNothing(db: Comparisons, cs: Conditions, keys: seq<string>, bindKeys: seq<string>, row: Row,
                              k: string)
    requires Enumerates(keys, cs) && Enumerates(bindKeys, cs) && WellFormed(cs)
    requires k in cs && !InIsSuffixOnly(k) && !exists l: string, i: nat :: Carries(cs, l, i, k)
    ensures Selects(db, WhereText(cs, keys), row, Bound(cs, bindKeys)) == Some(false)
  {
    UncarriedIsNeverMet(db, cs, row, k);
    TextMeansEffective(db, cs, keys, bindKeys, row);
  }

  // ---------------------------------------------------------------- when two maps of the same keys mean the same

  /** No row can meet such a condition. */
  predicate NeverMet(key: string, v: Value) {
    if OperatorOf(key) == In then Items(v) == [] else v.Null?
  }

  ghost predicate Impossible(cs: Conditions) {
    exists k :: k in cs && NeverMet(k, cs[k])
  }

  lemma ImpossibleIsNeverMet(cs: Conditions, db: Comparisons, row: Row)
    requires Impossible(cs)
    ensures !MeetsAll(db, row, cs)
  {
    var k :| k in cs && NeverMet(k, cs[k]);
    assert !Meets(db, row, k, cs[k]);
  }

  function Except(x0: Value, y0: Value): (Value, Value) -> bool {
    (x, y) => !(x == x0 && y == y0)
  }

  function Always(): (Value, Value) -> bool {
    (x, y) => true
  }

  /** A database that finds everything true but one comparison of the operator. */
  function AllBut(op: Operator, x0: Value, y0: Value): Comparisons {
    match op
    case Equal => Comparisons(Except(x0, y0), Always(), Always(), Always())
    case In => Comparisons(Except(x0, y0), Always(), Always(), Always())
    case AtLeast => Comparisons(Always(), Except(x0, y0), Always(), Always())
    case Below => Comparisons(Always(), Always(), Except(x0, y0), Always())
    case Like => Comparisons(Always(), Always(), Always(), Except(x0, y0))
  }

  /** A row that holds in each field the name of the field. */
  function NamedRow(cs: Conditions): Row {
    var fields := set k | k in cs :: FieldOf(k);
    map f | f in fields :: Str(f)
  }

  /** The condition does not hang on the field holding `y0`. */
  predicate Avoids(key: string, v: Value, field: string, op: Operator, y0: Value) {
    FieldOf(key) == field ==>
      if OperatorOf(key) == In then op == Equal ==> exists i :: 0 <= i < |Items(v)| && Str(Items(v)[i]) != y0
      else OperatorOf(key) == op ==> v != y0
  }

  lemma AvoidingIsMet(cs: Conditions, rowOf: Conditions, key: string, field: string, op: Operator, y0: Value)
    requires cs.Keys == rowOf.Keys && key in cs && !NeverMet(key, cs[key]) && op != In
    requires Avoids(key, cs[key], field, op, y0)
    ensures Meets(AllBut(op, Str(field), y0), NamedRow(rowOf), key, cs[key])
  {
    var x := Str(FieldOf(key));
    assert ValueIn(NamedRow(rowOf), FieldOf(key)) == x;
    if OperatorOf(key) == In {
      var i := if FieldOf(key) == field && op == Equal
        then var i :| 0 <= i < |Items(cs[key])| && Str(Items(cs[key])[i]) != y0; i else 0;
      assert Holds(AllBut(op, Str(field), y0).equal, x, Str(Items(cs[key])[i]));
    }
  }

  lemma AllAvoidingAreMet(cs: Conditions, rowOf: Conditions, field: string, op: Operator, y0: Value)
    requires cs.Keys == rowOf.Keys && !Impossible(cs) && op != In
    requires forall k :: k in cs ==> Avoids(k, cs[k], field, op, y0)
    ensures MeetsAll(AllBut(op, Str(field), y0), NamedRow(rowOf), cs)
  {
    forall k | k in cs
      ensures Meets(AllBut(op, Str(field), y0), NamedRow(rowOf), k, cs[k])
    {
      assert !NeverMet(k, cs[k]);
      AvoidingIsMet(cs, rowOf, k, field, op, y0);
    }
  }

  lemma HittingIsNotMet(cs: Conditions, rowOf: Conditions, key: string)
    requires cs.Keys == rowOf.Keys && key in cs && OperatorOf(key) != In
    ensures !MeetsAll(AllBut(OperatorOf(key), Str(FieldOf(key)), cs[key]), NamedRow(rowOf), cs)
  {
    assert ValueIn(NamedRow(rowOf), FieldOf(key)) == Str(FieldOf(key));
    assert !Meets(AllBut(OperatorOf(key), Str(FieldOf(key)), cs[key]), NamedRow(rowOf), key, cs[key]);
  }

  /** A field and an operator make one key. */
  lemma OneKeyEach(j: string, k: string)
    requires FieldOf(j) == FieldOf(k) && OperatorOf(j) == OperatorOf(k)
    ensures j == k
  {
    assert j == FieldOf(j) + Suffix(OperatorOf(j));
    assert k == FieldOf(k) + Suffix(OperatorOf(k));
  }

  /** Every item of the field's own list is `y0`. */
  ghost predicate ListSaysOnly(cs: Conditions, field: string, y0: Value) {
    exists j :: j in cs && FieldOf(j) == field && OperatorOf(j) == In && OnlyItem(cs[j], y0)
  }

  predicate OnlyItem(v: Value, y0: Value) {
    forall i :: 0 <= i < |Items(v)| ==> Str(Items(v)[i]) == y0
  }

  lemma OthersAvoid(cs: Conditions, k: string, y0: Value)
    requires k in cs && OperatorOf(k) != In && cs[k] != y0
    requires OperatorOf(k) == Equal ==> !ListSaysOnly(cs, FieldOf(k), y0)
    ensures forall j :: j in cs ==> Avoids(j, cs[j], FieldOf(k), OperatorOf(k), y0)
  {
    forall j | j in cs
      ensures Avoids(j, cs[j], FieldOf(k), OperatorOf(k), y0)
    {
      if FieldOf(j) == FieldOf(k) && OperatorOf(j) == OperatorOf(k) {
        OneKeyEach(j, k);
      } else if FieldOf(j) == FieldOf(k) && OperatorOf(j) == In && OperatorOf(k) == Equal {
        assert !OnlyItem(cs[j], y0);
      }
    }
  }

  /** Two maps that differ in the value of one plain condition, and agree on the lists, are told apart by some database and
      row, if both can be met. */
  lemma DifferentValuesTellApart(cs: Conditions, ds: Conditions, k: string) returns (db: Comparisons, row: Row)
    requires cs.Keys == ds.Keys && !Impossible(cs) && !Impossible(ds)
    requires k in cs && OperatorOf(k) != In && cs[k] != ds[k]
    requires forall j :: j in cs && OperatorOf(j) == In ==> cs[j] == ds[j]
    ensures MeetsAll(db, row, cs) != MeetsAll(db, row, ds)
  {
    row := NamedRow(cs);
    if OperatorOf(k) == Equal && ListSaysOnly(cs, FieldOf(k), ds[k]) {
      db := AllBut(OperatorOf(k), Str(FieldOf(k)), cs[k]);
      HittingIsNotMet(cs, cs, k);
      ListSaysOneThing(cs, ds, FieldOf(k), ds[k], cs[k]);
      OthersAvoid(ds, k, cs[k]);
      AllAvoidingAreMet(ds, cs, FieldOf(k), OperatorOf(k), cs[k]);
    } else {
      db := AllBut(OperatorOf(k), Str(FieldOf(k)), ds[k]);
      HittingIsNotMet(ds, cs, k);
      OthersAvoid(cs, k, ds[k]);
      AllAvoidingAreMet(cs, cs, FieldOf(k), OperatorOf(k), ds[k]);
    }
  }

  lemma ListSaysOneThing(cs: Conditions, ds: Conditions, field: string, y: Value, z: Value)
    requires cs.Keys == ds.Keys && !Impossible(cs) && y != z && ListSaysOnly(cs, field, y)
    requires forall j :: j in cs && OperatorOf(j) == In ==> cs[j] == ds[j]
    ensures !ListSaysOnly(ds, field, z)
  {
    var i :| i in cs && FieldOf(i) == field && OperatorOf(i) == In && OnlyItem(cs[i], y);
    forall j | j in ds && FieldOf(j) == field && OperatorOf(j) == In
      ensures !OnlyItem(ds[j], z)
    {
      OneKeyEach(i, j);
      assert !NeverMet(i, cs[i]);
      assert Str(Items(cs[i])[0]) == y;
    }
  }

  lemma PossibleIsMet(cs: Conditions)
    requires !Impossible(cs)
    ensures MeetsAll(Comparisons(Always(), Always(), Always(), Always()), NamedRow(cs), cs)
  {
    var db := Comparisons(Always(), Always(), Always(), Always());
    forall k | k in cs
      ensures Meets(db, NamedRow(cs), k, cs[k])
    {
      assert ValueIn(NamedRow(cs), FieldOf(k)) == Str(FieldOf(k)) && !NeverMet(k, cs[k]);
      if OperatorOf(k) == In {
        assert Holds(db.equal, Str(FieldOf(k)), Str(Items(cs[k])[0]));
      }
    }
  }

  // ---------------------------------------------------------------- the exact condition

  /** For this database and row the text under its bindings answers as the map does. */
  ghost predicate AnswersAlike(db: Comparisons, row: Row, cs: Conditions, keys: seq<string>, bindKeys: seq<string>)
    requires Enumerates(keys, cs) && Enumerates(bindKeys, cs)
  {
    Selects(db, WhereText(cs, keys), row, Bound(cs, bindKeys)) == Some(MeetsAll(db, row, cs))
  }

  ghost predicate KeepsMeaning(cs: Conditions, keys: seq<string>, bindKeys: seq<string>)
    requires Enumerates(keys, cs) && Enumerates(bindKeys, cs)
  {
    forall db, row :: AnswersAlike(db, row, cs, keys, bindKeys)
  }

  /** Every key with `_IN` elsewhere than at its end is bound to its own value, by the item of another key. */
  ghost predicate CarriedRight(cs: Conditions) {
    forall k :: k in cs && !InIsSuffixOnly(k) ==> Carried(cs, k) == cs[k]
  }

  lemma CarriedRightIsItself(cs: Conditions)
    requires CarriedRight(cs)
    ensures Effective(cs) == cs
  {
  }

  lemma ListsStay(cs: Conditions)
    ensures forall j :: j in cs && OperatorOf(j) == In ==> cs[j] == Effective(cs)[j]
  {
    forall j | j in cs && OperatorOf(j) == In
      ensures cs[j] == Effective(cs)[j]
    {
      if !InIsSuffixOnly(j) {
        MisplacedIsPlain(j);
      }
    }
  }

  /** A wrongly bound key shows in some database and row. */
  lemma WrongValueIsSeen(cs: Conditions) returns (db: Comparisons, row: Row)
    requires !CarriedRight(cs) && !(Impossible(cs) && Impossible(Effective(cs)))
    ensures MeetsAll(db, row, cs) != MeetsAll(db, row, Effective(cs))
  {
    var eff := Effective(cs);
    db := Comparisons(Always(), Always(), Always(), Always());
    if Impossible(cs) {
      row := NamedRow(eff);
      PossibleIsMet(eff);
      ImpossibleIsNeverMet(cs, db, row);
    } else if Impossible(eff) {
      row := NamedRow(cs);
      PossibleIsMet(cs);
      ImpossibleIsNeverMet(eff, db, row);
    } else {
      var k :| k in cs && !InIsSuffixOnly(k) && Carried(cs, k) != cs[k];
      MisplacedIsPlain(k);
      ListsStay(cs);
      db, row := DifferentValuesTellApart(cs, eff, k);
    }
  }

  lemma HarmlessIsNotSeen(cs: Conditions, db: Comparisons, row: Row)
    requires CarriedRight(cs) || (Impossible(cs) && Impossible(Effective(cs)))
    ensures MeetsAll(db, row, cs) == MeetsAll(db, row, Effective(cs))
  {
    if CarriedRight(cs) {
      CarriedRightIsItself(cs);
    } else {
      ImpossibleIsNeverMet(cs, db, row);
      ImpossibleIsNeverMet(Effective(cs), db, row);
    }
  }

  lemma AlikeMeansEffective(db: Comparisons, row: Row, cs: Conditions, keys: seq<string>, bindKeys: seq<string>)
    requires Enumerates(keys, cs) && Enumerates(bindKeys, cs) && WellFormed(cs)
    ensures AnswersAlike(db, row, cs, keys, bindKeys) <==> (MeetsAll(db, row, cs) == MeetsAll(db, row, Effective(cs)))
  {
    TextMeansEffective(db, cs, keys, bindKeys, row);
  }

  /** The translation keeps the meaning of a map exactly when `_IN` stands elsewhere than at the end of a key only where
      the key is bound to its own value by accident, or when neither the map nor what is read can be met by any row. */
  lemma KeepsMeaningExactly(cs: Conditions, keys: seq<string>, bindKeys: seq<string>)
    requires Enumerates(keys, cs) && Enumerates(bindKeys, cs) && WellFormed(cs)
    ensures KeepsMeaning(cs, keys, bindKeys) <==> CarriedRight(cs) || (Impossible(cs) && Impossible(Effective(cs)))
  {
    if CarriedRight(cs) || (Impossible(cs) && Impossible(Effective(cs))) {
      forall db, row
        ensures AnswersAlike(db, row, cs, keys, bindKeys)
      {
        HarmlessIsNotSeen(cs, db, row);
        AlikeMeansEffective(db, row, cs, keys, bindKeys);
      }
    } else {
      var db, row := WrongValueIsSeen(cs);
      AlikeMeansEffective(db, row, cs, keys, bindKeys);
    }
  }
}
