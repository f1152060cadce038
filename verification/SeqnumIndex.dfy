/** The routing index: sixteen locked shards that together behave as one map from seqnum keys. */
module SeqnumIndexes {
  import opened Common
  import opened Text

  const SEQNUM_SHARD_COUNT: nat := 16

  class SeqnumIndex<Ctx> {
    /** `std::hash`: nothing is known about it. */
    const hash: string -> nat
    const shards: array<map<string, Ctx>>

    function ShardOf(key: string): (i: nat)
      ensures i < SEQNUM_SHARD_COUNT
    {
      hash(key) % SEQNUM_SHARD_COUNT
    }

    ghost predicate Valid()
      reads shards
    {
      && shards.Length == SEQNUM_SHARD_COUNT
      && forall i, k :: 0 <= i < SEQNUM_SHARD_COUNT && k in shards[i] ==> ShardOf(k) == i
    }

    ghost function AllKeys(): set<string>
      requires Valid()
      reads shards
    {
      set i, k | 0 <= i < SEQNUM_SHARD_COUNT && k in shards[i] :: k
    }

    /** The one map that the shards stand for. */
    ghost function View(): (m: map<string, Ctx>)
      requires Valid()
      reads shards
      ensures forall k :: k in m <==> k in shards[ShardOf(k)]
      ensures forall k :: k in m ==> m[k] == shards[ShardOf(k)][k]
    {
      map k | k in AllKeys() :: shards[ShardOf(k)][k]
    }

    constructor (hash: string -> nat)
      ensures Valid() && View() == map[] && fresh(shards) && this.hash == hash
    {
      this.hash := hash;
      shards := new map<string, Ctx>[SEQNUM_SHARD_COUNT](_ => map[]);
    }

    method Register(client: string, seqnum: int, ctx: Ctx)
      requires Valid()
      modifies shards
      ensures Valid() && View() == old(View())[SeqnumKey(client, seqnum) := ctx]
    {
      var key := SeqnumKey(client, seqnum);
      var i := ShardOf(key);
      shards[i] := shards[i][key := ctx];
    }

    method FindRoutingContext(client: string, seqnum: int) returns (r: Option<Ctx>)
      requires Valid()
      ensures var key := SeqnumKey(client, seqnum);
              r == if key in View() then Some(View()[key]) else None
    {
      var key := SeqnumKey(client, seqnum);
      var i := ShardOf(key);
      if key in shards[i] {
        r := Some(shards[i][key]);
      } else {
        r := None;
      }
    }

    method Erase(client: string, seqnum: int)
      requires Valid()
      modifies shards
      ensures Valid() && View() == old(View()) - {SeqnumKey(client, seqnum)}
    {
      var key := SeqnumKey(client, seqnum);
      var i := ShardOf(key);
      shards[i] := shards[i] - {key};
    }

    /** The cleanup loop of `WaitForCompletion`. */
    method EraseAll(clients: seq<string>, seqnums: seq<int>)
      requires Valid() && |clients| == |seqnums|
      modifies shards
      ensures Valid() && View() == old(View()) - IssuedKeys(clients, seqnums, |clients|)
    {
      ghost var was := View();
      for j := 0 to |clients|
        invariant Valid() && View() == was - IssuedKeys(clients, seqnums, j)
      {
        Erase(clients[j], seqnums[j]);
        MinusOneMore(was, IssuedKeys(clients, seqnums, j), SeqnumKey(clients[j], seqnums[j]));
      }
    }
  }

  function IssuedKeys(clients: seq<string>, seqnums: seq<int>, n: nat): set<string>
    requires n <= |clients| == |seqnums|
  {
    if n == 0 then {} else IssuedKeys(clients, seqnums, n - 1) + {SeqnumKey(clients[n - 1], seqnums[n - 1])}
  }

  lemma {:induction false} IssuedKeysAre(clients: seq<string>, seqnums: seq<int>, n: nat, c: string, m: int)
    requires n <= |clients| == |seqnums|
    ensures SeqnumKey(c, m) in IssuedKeys(clients, seqnums, n) <==>
            exists i :: 0 <= i < n && clients[i] == c && seqnums[i] == m
  {
    if n > 0 {
      IssuedKeysAre(clients, seqnums, n - 1, c, m);
      if SeqnumKey(c, m) == SeqnumKey(clients[n - 1], seqnums[n - 1]) {
        SeqnumKeyInjective(c, m, clients[n - 1], seqnums[n - 1]);
      }
    }
  }

  lemma MinusOneMore<K, V>(m: map<K, V>, a: set<K>, k: K)
    ensures m - a - {k} == m - (a + {k})
  {
  }

  /** The cleanup removes the pairs a request issued and no other pair, although it works on the rendered keys. */
  lemma CleanupIsExact<V>(m: map<string, V>, clients: seq<string>, seqnums: seq<int>, c: string, n: int)
    requires |clients| == |seqnums|
    ensures SeqnumKey(c, n) in m - IssuedKeys(clients, seqnums, |clients|) <==>
            SeqnumKey(c, n) in m && !exists i :: 0 <= i < |clients| && clients[i] == c && seqnums[i] == n
  {
    IssuedKeysAre(clients, seqnums, |clients|, c, n);
  }
}
