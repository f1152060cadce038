/** Splitting and joining text, as the query builder of the event store does it. */
module SqlText {

  predicate Free(s: string, d: char) {
    forall i :: 0 <= i < |s| ==> s[i] != d
  }

  predicate AllFree(xs: seq<string>, d: char) {
    forall i :: 0 <= i < |xs| ==> Free(xs[i], d)
  }

  function IndexOf(s: string, d: char): (i: nat)
    ensures i <= |s| && Free(s[..i], d)
    ensures i < |s| ==> s[i] == d
  {
    if s == [] || s[0] == d then 0
    else
      var r := IndexOf(s[1..], d);
      assert s[..r + 1] == [s[0]] + s[1..][..r];
      r + 1
  }

  lemma IndexOfFree(s: string, d: char)
    requires Free(s, d)
    ensures IndexOf(s, d) == |s|
  {
  }

  lemma {:induction false} IndexOfAfter(a: string, d: char, b: string)
    requires Free(a, d)
    ensures IndexOf(a + [d] + b, d) == |a|
  {
    if a != [] {
      assert (a + [d] + b)[1..] == a[1..] + [d] + b;
      IndexOfAfter(a[1..], d, b);
    }
  }

  /** All pieces between the delimiters, empty ones included. */
  function Pieces(s: string, d: char): (xs: seq<string>)
    ensures xs != [] && AllFree(xs, d)
    decreases |s|
  {
    var i := IndexOf(s, d);
    if i == |s| then
      assert s[..i] == s;
      [s]
    else [s[..i]] + Pieces(s[i + 1..], d)
  }

  /** What a loop over `std::getline` collects: nothing from the empty text, and no empty piece at the end. */
  function Lines(s: string, d: char): (xs: seq<string>)
    ensures AllFree(xs, d)
    decreases |s|
  {
    if s == [] then []
    else
      var i := IndexOf(s, d);
      if i == |s| then
        assert s[..i] == s;
        [s]
      else [s[..i]] + Lines(s[i + 1..], d)
  }

  function Joined(xs: seq<string>, d: string): string {
    if xs == [] then ""
    else if |xs| == 1 then xs[0]
    else xs[0] + d + Joined(xs[1..], d)
  }

  /** Getline drops exactly one empty piece at the end. */
  lemma {:induction false} LinesArePieces(s: string, d: char)
    ensures var ps := Pieces(s, d);
            Lines(s, d) == if ps[|ps| - 1] == "" then ps[..|ps| - 1] else ps
    decreases |s|
  {
    var i := IndexOf(s, d);
    if i < |s| {
      LinesArePieces(s[i + 1..], d);
      var rest := Pieces(s[i + 1..], d);
      assert ([s[..i]] + rest)[..|rest|] == [s[..i]] + rest[..|rest| - 1];
    }
  }

  lemma {:induction false} JoinedSnoc(xs: seq<string>, x: string, d: string)
    requires xs != []
    ensures Joined(xs + [x], d) == Joined(xs, d) + d + x
  {
    assert (xs + [x])[1..] == xs[1..] + [x];
    if |xs| > 1 {
      JoinedSnoc(xs[1..], x, d);
    }
  }

  lemma CutAtFirst(a: string, d: char, rest: string)
    requires Free(a, d)
    ensures Pieces(a + [d] + rest, d) == [a] + Pieces(rest, d)
    ensures Lines(a + [d] + rest, d) == [a] + Lines(rest, d)
  {
    var s := a + [d] + rest;
    IndexOfAfter(a, d, rest);
    assert s[..|a|] == a && s[|a| + 1..] == rest;
  }

  lemma Reassociated(a: string, i: nat, d: char, b: string)
    requires i < |a| && a[i] == d
    ensures a + [d] + b == a[..i] + [d] + (a[i + 1..] + [d] + b)
  {
  }

  lemma PiecesOfFirst(a: string, i: nat, d: char, b: string)
    requires i == IndexOf(a, d) < |a|
    ensures Pieces(a + [d] + b, d) == [a[..i]] + Pieces(a[i + 1..] + [d] + b, d)
  {
    Reassociated(a, i, d, b);
    CutAtFirst(a[..i], d, a[i + 1..] + [d] + b);
  }

  /** Text put together at a delimiter comes apart there. */
  lemma {:induction false} PiecesConcat(a: string, d: char, b: string)
    ensures Pieces(a + [d] + b, d) == Pieces(a, d) + Pieces(b, d)
    decreases |a|
  {
    var i := IndexOf(a, d);
    if i == |a| {
      assert a[..i] == a;
      CutAtFirst(a, d, b);
    } else {
      PiecesConcat(a[i + 1..], d, b);
      PiecesOfFirst(a, i, d, b);
    }
  }

  lemma PieceAlone(s: string, d: char)
    requires Free(s, d)
    ensures Pieces(s, d) == [s]
  {
    IndexOfFree(s, d);
  }

  /** Joining pieces without the delimiter and taking them apart again gives them back. */
  lemma {:induction false} PiecesOfJoined(xs: seq<string>, d: char)
    requires xs != [] && AllFree(xs, d)
    ensures Pieces(Joined(xs, [d]), d) == xs
  {
    if |xs| == 1 {
      PieceAlone(xs[0], d);
    } else {
      PiecesOfJoined(xs[1..], d);
      PieceAlone(xs[0], d);
      PiecesConcat(xs[0], d, Joined(xs[1..], [d]));
    }
  }

  /** `Split` undoes `Join` exactly for items that are free of the delimiter and do not end in an empty one. */
  lemma SplitUndoesJoinExactly(xs: seq<string>, d: char)
    ensures Lines(Joined(xs, [d]), d) == xs <==> AllFree(xs, d) && (xs == [] || xs[|xs| - 1] != "")
  {
    if xs != [] && AllFree(xs, d) {
      PiecesOfJoined(xs, d);
      LinesArePieces(Joined(xs, [d]), d);
    } else if Lines(Joined(xs, [d]), d) == xs {
      assert AllFree(xs, d);
    }
  }

  /** Items and joined text determine each other the other way round as well: joining the pieces gives the text. */
  lemma {:induction false} JoinUndoesPieces(s: string, d: char)
    ensures Joined(Pieces(s, d), [d]) == s
    decreases |s|
  {
    var i := IndexOf(s, d);
    if i < |s| {
      JoinUndoesPieces(s[i + 1..], d);
      assert ([s[..i]] + Pieces(s[i + 1..], d))[1..] == Pieces(s[i + 1..], d);
      assert s == s[..i] + [d] + s[i + 1..];
    } else {
      assert s[..i] == s;
    }
  }

  // ---------------------------------------------------------------- the loops

  lemma LineEnds(s: string, pos: nat, end: nat, d: char)
    requires pos <= end < |s| && s[end] == d && Free(s[pos..end], d)
    ensures Lines(s[pos..], d) == [s[pos..end]] + Lines(s[end + 1..], d)
  {
    assert s[pos..] == s[pos..end] + [d] + s[end + 1..];
    CutAtFirst(s[pos..end], d, s[end + 1..]);
  }

  lemma LastLine(s: string, pos: nat, d: char)
    requires pos < |s| && Free(s[pos..|s|], d)
    ensures Lines(s[pos..], d) == [s[pos..|s|]] + Lines(s[|s|..], d)
  {
    assert s[pos..] == s[pos..|s|] && s[|s|..] == [];
    IndexOfFree(s[pos..], d);
  }

  lemma FreeOneMore(s: string, pos: nat, end: nat, d: char)
    requires pos <= end < |s| && s[end] != d && Free(s[pos..end], d)
    ensures s[pos..end + 1] == s[pos..end] + [s[end]] && Free(s[pos..end + 1], d)
  {
  }

  /** One `std::getline` from a position that is not the end. */
  method GetLine(s: string, pos: nat, delimiter: char) returns (token: string, next: nat)
    requires pos < |s|
    ensures pos < next <= |s|
    ensures Lines(s[pos..], delimiter) == [token] + Lines(s[next..], delimiter)
  {
    token := "";
    var end := pos;
    while end < |s| && s[end] != delimiter
      invariant pos <= end <= |s|
      invariant token == s[pos..end] && Free(token, delimiter)
    {
      FreeOneMore(s, pos, end, delimiter);
      token := token + [s[end]];
      end := end + 1;
    }
    if end < |s| {
      LineEnds(s, pos, end, delimiter);
      next := end + 1;
    } else {
      LastLine(s, pos, delimiter);
      next := end;
    }
  }

  method Split(s: string, delimiter: char) returns (tokens: seq<string>)
    ensures tokens == Lines(s, delimiter)
  {
    tokens := [];
    var pos := 0;
    assert s[0..] == s;
    while pos < |s|
      invariant pos <= |s|
      invariant Lines(s, delimiter) == tokens + Lines(s[pos..], delimiter)
    {
      var token, next := GetLine(s, pos, delimiter);
      tokens := tokens + [token];
      pos := next;
    }
    assert s[pos..] == [];
  }

  method Join(items: seq<string>, delimiter: string) returns (result: string)
    ensures result == Joined(items, delimiter)
  {
    if items == [] {
      return "";
    }
    result := "";
    var isFirst := true;
    for i := 0 to |items|
      invariant isFirst <==> i == 0
      invariant result == Joined(items[..i], delimiter)
    {
      assert items[..i + 1] == items[..i] + [items[i]];
      if !isFirst {
        JoinedSnoc(items[..i], items[i], delimiter);
        result := result + delimiter;
      }
      result := result + items[i];
      isFirst := false;
    }
    assert items[..|items|] == items;
  }
}
