/** The per-request context that merges the clients' answers into one strategy. */
module RoutingContexts {
  import opened Common

  datatype Strategy = ALLOW | DENY | TIMEOUT

  /** What a context holds between two critical sections of its lock. `promiseSets` counts the
      `set_value` calls on every client's promise, `published` lists those on the result promise. */
  datatype Context = Context(
    sentClientCount: nat,
    defaultDenyCount: nat,
    results: map<ClientId, Strategy>,
    defaults: map<ClientId, Strategy>,
    promises: set<ClientId>,
    satisfied: set<ClientId>,
    completed: bool,
    resultSatisfied: bool,
    merged: Strategy,
    promiseSets: multiset<ClientId>,
    published: seq<Strategy>)

  const EMPTY := Context(0, 0, map[], map[], {}, {}, false, false, ALLOW, multiset{}, [])

  /** What one client's silence is recorded as. */
  function TimeoutMark(default: Strategy): Strategy {
    if default == DENY then DENY else TIMEOUT
  }

  function Minus1(n: nat): nat {
    if n > 0 then n - 1 else 0
  }

  function Publish(x: Context): Context {
    if x.resultSatisfied then x else x.(resultSatisfied := true, published := x.published + [x.merged])
  }

  function Registered(x: Context, c: ClientId, default: Strategy): Context {
    x.(sentClientCount := x.sentClientCount + 1,
       defaultDenyCount := x.defaultDenyCount + (if default == DENY then 1 else 0),
       defaults := x.defaults[c := default],
       promises := x.promises + {c})
  }

  /** Wakes the promise of `c` unless it has been set before. */
  function SatisfiedFor(x: Context, c: ClientId): Context {
    if c in x.promises && c !in x.satisfied
    then x.(satisfied := x.satisfied + {c}, promiseSets := x.promiseSets + multiset{c})
    else x
  }

  function Decremented(x: Context, c: ClientId): Context {
    x.(sentClientCount := Minus1(x.sentClientCount),
       defaultDenyCount := if c in x.defaults && x.defaults[c] == DENY then Minus1(x.defaultDenyCount)
                           else x.defaultDenyCount)
  }

  function Evaluated(x: Context, s: Strategy): Context {
    if s == DENY then Publish(x.(merged := DENY, completed := true))
    else if x.sentClientCount == 0 && x.defaultDenyCount == 0 then Publish(x.(merged := ALLOW, completed := true))
    else x
  }

  function Recorded(x: Context, c: ClientId, s: Strategy): Context {
    if x.completed then x
    else Evaluated(Decremented(SatisfiedFor(x.(results := x.results[c := s]), c), c), s)
  }

  /** One round of the timeout loop. */
  function WrittenOff(x: Context, c: ClientId): Context
    requires c in x.defaults
  {
    if c in x.results then x
    else
      var deny := x.defaults[c] == DENY;
      SatisfiedFor(x.(results := x.results[c := TimeoutMark(x.defaults[c])],
                      completed := x.completed || deny,
                      merged := if deny then DENY else x.merged), c)
  }

  function WrittenOffAll(x: Context, cs: seq<ClientId>): (y: Context)
    requires forall c :: c in cs ==> c in x.defaults
    ensures y.defaults == x.defaults
  {
    if cs == [] then x else WrittenOff(WrittenOffAll(x, cs[..|cs| - 1]), cs[|cs| - 1])
  }

  predicate Silent(x: Context, c: ClientId) {
    c in x.defaults && c !in x.results
  }

  predicate SilentDenier(x: Context, c: ClientId) {
    Silent(x, c) && x.defaults[c] == DENY
  }

  /** Silent, with a promise that is still unset. */
  predicate Sleeping(x: Context, c: ClientId) {
    Silent(x, c) && c in x.promises && c !in x.satisfied
  }

  function Sleepers(x: Context): set<ClientId> {
    set c | c in x.defaults && Sleeping(x, c)
  }

  function TimeoutMarks(x: Context): map<ClientId, Strategy> {
    map c | c in x.defaults && Silent(x, c) :: TimeoutMark(x.defaults[c])
  }

  /** The context after the timeout, said of each client on its own and so of no particular order. */
  function Expired(x: Context): Context {
    var deny := exists c :: c in x.defaults && SilentDenier(x, c);
    Publish(Context(x.sentClientCount, x.defaultDenyCount, x.results + TimeoutMarks(x), x.defaults, x.promises,
                    x.satisfied + Sleepers(x), true, x.resultSatisfied,
                    if deny then DENY else if x.completed then x.merged else ALLOW,
                    x.promiseSets + multiset(Sleepers(x)), x.published))
  }

  lemma {:induction false} WrittenOffAllResults(x: Context, cs: seq<ClientId>)
    requires forall c :: c in cs ==> c in x.defaults
    ensures var y := WrittenOffAll(x, cs);
            && (forall c :: c in y.results <==> c in x.results || c in cs)
            && (forall c :: c in y.results ==>
                  y.results[c] == if c in x.results then x.results[c] else TimeoutMark(x.defaults[c]))
  {
    if cs != [] {
      WrittenOffAllResults(x, cs[..|cs| - 1]);
    }
  }

  lemma {:induction false} WrittenOffAllSatisfied(x: Context, cs: seq<ClientId>)
    requires forall c :: c in cs ==> c in x.defaults
    ensures var y := WrittenOffAll(x, cs);
            && y.promises == x.promises
            && (forall c :: c in y.satisfied <==> c in x.satisfied || (c in cs && Sleeping(x, c)))
  {
    if cs != [] {
      WrittenOffAllSatisfied(x, cs[..|cs| - 1]);
      WrittenOffAllResults(x, cs[..|cs| - 1]);
    }
  }

  lemma {:induction false} WrittenOffAllPromiseSets(x: Context, cs: seq<ClientId>)
    requires forall c :: c in cs ==> c in x.defaults
    ensures forall c :: WrittenOffAll(x, cs).promiseSets[c] ==
                        x.promiseSets[c] + if c in cs && Sleeping(x, c) then 1 else 0
  {
    if cs != [] {
      WrittenOffAllPromiseSets(x, cs[..|cs| - 1]);
      WrittenOffAllSatisfied(x, cs[..|cs| - 1]);
      WrittenOffAllResults(x, cs[..|cs| - 1]);
    }
  }

  lemma {:induction false} WrittenOffAllRest(x: Context, cs: seq<ClientId>)
    requires forall c :: c in cs ==> c in x.defaults
    ensures var y := WrittenOffAll(x, cs);
            && y.promises == x.promises && y.resultSatisfied == x.resultSatisfied && y.published == x.published
            && y.sentClientCount == x.sentClientCount && y.defaultDenyCount == x.defaultDenyCount
  {
    if cs != [] {
      WrittenOffAllRest(x, cs[..|cs| - 1]);
    }
  }

  predicate AnyDenier(x: Context, cs: seq<ClientId>) {
    exists c :: c in cs && SilentDenier(x, c)
  }

  lemma {:induction false} WrittenOffAllMerged(x: Context, cs: seq<ClientId>)
    requires forall c :: c in cs ==> c in x.defaults
    ensures var y := WrittenOffAll(x, cs);
            && y.completed == (x.completed || AnyDenier(x, cs))
            && y.merged == if AnyDenier(x, cs) then DENY else x.merged
  {
    if cs != [] {
      var front, last := cs[..|cs| - 1], cs[|cs| - 1];
      WrittenOffAllMerged(x, front);
      WrittenOffAllResults(x, front);
      assert forall c :: c in cs <==> c in front || c == last;
      assert AnyDenier(x, cs) <==> AnyDenier(x, front) || SilentDenier(x, last);
    }
  }

  lemma WrittenOffAllResultMap(x: Context, cs: seq<ClientId>)
    requires forall c :: c in cs <==> c in x.defaults
    ensures WrittenOffAll(x, cs).results == x.results + TimeoutMarks(x)
  {
    WrittenOffAllResults(x, cs);
  }

  lemma WrittenOffAllSets(x: Context, cs: seq<ClientId>)
    requires forall c :: c in cs <==> c in x.defaults
    ensures var y := WrittenOffAll(x, cs);
            y.satisfied == x.satisfied + Sleepers(x) && y.promiseSets == x.promiseSets + multiset(Sleepers(x))
  {
    WrittenOffAllSatisfied(x, cs);
    WrittenOffAllPromiseSets(x, cs);
  }

  /** The loop reaches the same context whichever way it goes through the clients. */
  lemma WrittenOffAllIsExpired(x: Context, cs: seq<ClientId>)
    requires forall c :: c in cs <==> c in x.defaults
    ensures var y := WrittenOffAll(x, cs);
            Expired(x) == Publish(if y.completed then y else y.(merged := ALLOW, completed := true))
  {
    WrittenOffAllResultMap(x, cs);
    WrittenOffAllSets(x, cs);
    WrittenOffAllRest(x, cs);
    WrittenOffAllMerged(x, cs);
  }

  class RoutingContext {
    var sentClientCount: nat
    var defaultDenyCount: nat
    var clientResults: map<ClientId, Strategy>
    var clientTimeoutStrategies: map<ClientId, Strategy>
    var clientPromises: set<ClientId>
    var satisfiedClientIds: set<ClientId>
    var completed: bool
    var resultPromiseSatisfied: bool
    var mergedAuthStrategy: Strategy
    ghost var promiseSets: multiset<ClientId>
    ghost var published: seq<Strategy>

    ghost function State(): Context
      reads this
    {
      Context(sentClientCount, defaultDenyCount, clientResults, clientTimeoutStrategies, clientPromises,
              satisfiedClientIds, completed, resultPromiseSatisfied, mergedAuthStrategy, promiseSets, published)
    }

    constructor ()
      ensures State() == EMPTY
    {
      sentClientCount, defaultDenyCount := 0, 0;
      clientResults, clientTimeoutStrategies := map[], map[];
      clientPromises, satisfiedClientIds := {}, {};
      completed, resultPromiseSatisfied, mergedAuthStrategy := false, false, ALLOW;
      promiseSets, published := multiset{}, [];
    }

    /** The part of `RegisterNormalClient` that touches the context. */
    method RegisterNormalClient(c: ClientId, default: Strategy)
      modifies this
      ensures State() == Registered(old(State()), c, default)
    {
      sentClientCount := sentClientCount + 1;
      if default == DENY {
        defaultDenyCount := defaultDenyCount + 1;
      }
      clientTimeoutStrategies := clientTimeoutStrategies[c := default];
      clientPromises := clientPromises + {c};
    }

    method SatisfyClientPromise(c: ClientId)
      modifies this
      ensures State() == SatisfiedFor(old(State()), c)
    {
      if c in clientPromises && c !in satisfiedClientIds {
        satisfiedClientIds := satisfiedClientIds + {c};
        promiseSets := promiseSets + multiset{c};
      }
    }

    method SatisfyResultPromise()
      modifies this
      ensures State() == Publish(old(State()))
    {
      if resultPromiseSatisfied {
        return;
      }
      resultPromiseSatisfied := true;
      published := published + [mergedAuthStrategy];
    }

    method DecrementCounters(c: ClientId)
      modifies this
      ensures State() == Decremented(old(State()), c)
    {
      if sentClientCount > 0 {
        sentClientCount := sentClientCount - 1;
      }
      if c in clientTimeoutStrategies && clientTimeoutStrategies[c] == DENY {
        if defaultDenyCount > 0 {
          defaultDenyCount := defaultDenyCount - 1;
        }
      }
    }

    method EvaluateStrictPolicy(s: Strategy)
      modifies this
      ensures State() == Evaluated(old(State()), s)
    {
      if s == DENY {
        mergedAuthStrategy := DENY;
        completed := true;
        SatisfyResultPromise();
      } else if sentClientCount == 0 && defaultDenyCount == 0 {
        mergedAuthStrategy := ALLOW;
        completed := true;
        SatisfyResultPromise();
      }
    }

    method RecordClientResult(c: ClientId, s: Strategy)
      modifies this
      ensures State() == Recorded(old(State()), c, s)
    {
      if completed {
        return;
      }
      clientResults := clientResults[c := s];
      SatisfyClientPromise(c);
      DecrementCounters(c);
      EvaluateStrictPolicy(s);
    }

    method HandleTimeoutClient(c: ClientId, default: Strategy)
      requires c in clientTimeoutStrategies && clientTimeoutStrategies[c] == default && c !in clientResults
      modifies this
      ensures State() == WrittenOff(old(State()), c)
    {
      if default == DENY {
        clientResults := clientResults[c := DENY];
        mergedAuthStrategy := DENY;
        completed := true;
      } else {
        clientResults := clientResults[c := TIMEOUT];
      }
      SatisfyClientPromise(c);
    }

    method HandleTimeout()
      modifies this
      ensures State() == Expired(old(State()))
    {
      ghost var x := State();
      ghost var order: seq<ClientId> := [];
      var pending := clientTimeoutStrategies.Keys;
      while pending != {}
        invariant forall c :: c in x.defaults <==> c in pending || c in order
        invariant State() == WrittenOffAll(x, order)
      {
        var c :| c in pending;
        assert (order + [c])[..|order|] == order;
        if c !in clientResults {
          HandleTimeoutClient(c, clientTimeoutStrategies[c]);
        }
        pending, order := pending - {c}, order + [c];
      }
      WrittenOffAllIsExpired(x, order);
      if !completed {
        mergedAuthStrategy := ALLOW;
        completed := true;
      }
      SatisfyResultPromise();
    }
  }
}
