/** Names that several components share, an optional value, and facts about sequences and sets that loops rely on. */
module Common {

  type EventId = int
  type ClientId = string
  type ThreadId = nat

  /** Return codes. */
  type Code = int

  const SUCCESS: Code := 0
  const FAILED: Code := 1
  const BAD_PARAM: Code := 6

  /** 32-bit unsigned numbers wrap around. */
  const UINT32_MODULUS := 0x1_0000_0000

  datatype Option<T> = None | Some(value: T)

  predicate Distinct<T(==)>(s: seq<T>) {
    forall i, j :: 0 <= i < j < |s| ==> s[i] != s[j]
  }

  /** `n` consecutive numbers. */
  function From(first: nat, n: nat): seq<nat> {
    seq(n, i requires 0 <= i < n => first + i)
  }

  function Elements(xs: seq<nat>): set<nat> {
    set x | x in xs
  }

  lemma Whole<T>(s: seq<T>)
    ensures s[..|s|] == s
  {
  }

  lemma OneMore<T>(s: seq<T>, i: nat)
    requires i < |s|
    ensures s[..i + 1] == s[..i] + [s[i]] && s[..i + 1][..i] == s[..i]
  {
  }

  lemma Regrouped<T>(a: seq<T>, b: seq<T>, c: seq<T>)
    ensures a + (b + c) == (a + b) + c
  {
  }

  lemma Around<T>(first: T, middle: seq<T>, last: T)
    ensures ([first] + middle) + [last] == [first] + (middle + [last])
  {
  }

  /** A sequence of at least two elements, with its ends cut off. */
  lemma Middle<T>(s: seq<T>) returns (middle: seq<T>)
    requires |s| > 1
    ensures var n := |s| - 1;
            && middle == s[..n][1..] == s[1..][..n - 1]
            && s[..n][0] == s[0] && s[1..][n - 1] == s[n]
  {
    middle := s[1..|s| - 1];
  }

  lemma Inhabited<T>(s: set<T>) returns (x: T)
    requires s != {}
    ensures x in s
  {
    x :| x in s;
  }

  lemma {:induction false} SubsetSize<T>(a: set<T>, b: set<T>)
    requires a <= b
    ensures |a| <= |b|
  {
    if a != {} {
      var x :| x in a;
      SubsetSize(a - {x}, b - {x});
    }
  }
}
