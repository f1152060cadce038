/** The per-provider request quota at the level of its atomic operations: a compare-exchange loop admits calls, a
    load followed by a `fetch_sub` releases them, and any number of threads interleave. */
module ActiveRequests {
  import opened Common

  const MAX_AUTH_REQUEST_CONCURRENT_PER_PROVIDER: nat := 128
  const SIZE_MODULUS: nat := 0x1_0000_0000_0000_0000

  /** Where a thread stands: in the compare-exchange loop with the value it last read, between the increment and the
      lookup of the provider, running the accepted request, about to release, between the load and the `fetch_sub`. */
  datatype Place = Trying(current: nat) | Looking | Running | Leaving | Subtracting

  /** `listed`: the provider is still in the provider set. */
  datatype State = State(count: nat, listed: bool, threads: map<ThreadId, Place>)

  datatype Action =
    | Load(t: ThreadId)
    | Reject(t: ThreadId)
    | Exchange(t: ThreadId, spurious: bool)
    | Lookup(t: ThreadId)
    | Finish(t: ThreadId)
    | CheckCount(t: ThreadId)
    | FetchSub(t: ThreadId)
    | Unlist

  const INIT := State(0, true, map[])

  predicate At(s: State, t: ThreadId, p: Place) {
    t in s.threads && s.threads[t] == p
  }

  predicate Enabled(s: State, a: Action) {
    match a
    case Load(t) => t !in s.threads
    case Reject(t) => t in s.threads && s.threads[t].Trying? &&
                      s.threads[t].current >= MAX_AUTH_REQUEST_CONCURRENT_PER_PROVIDER
    case Exchange(t, _) => t in s.threads && s.threads[t].Trying? &&
                           s.threads[t].current < MAX_AUTH_REQUEST_CONCURRENT_PER_PROVIDER
    case Lookup(t) => At(s, t, Looking)
    case Finish(t) => At(s, t, Running)
    case CheckCount(t) => At(s, t, Leaving)
    case FetchSub(t) => At(s, t, Subtracting)
    case Unlist => true
  }

  function Goes(s: State, t: ThreadId, p: Place): State {
    s.(threads := s.threads[t := p])
  }

  function Ends(s: State, t: ThreadId): State {
    s.(threads := s.threads - {t})
  }

  function Next(s: State, a: Action): State
    requires Enabled(s, a)
  {
    match a
    case Load(t) => Goes(s, t, Trying(s.count))
    case Reject(t) => Ends(s, t)
    case Exchange(t, spurious) =>
      if s.count == s.threads[t].current && !spurious
      then Goes(s, t, Looking).(count := (s.count + 1) % SIZE_MODULUS)
      else Goes(s, t, Trying(s.count))
    case Lookup(t) => Goes(s, t, if s.listed then Running else Leaving)
    case Finish(t) => Goes(s, t, Leaving)
    case CheckCount(t) => if s.count > 0 then Goes(s, t, Subtracting) else Ends(s, t)
    case FetchSub(t) => Ends(s, t).(count := (s.count + SIZE_MODULUS - 1) % SIZE_MODULUS)
    case Unlist => s.(listed := false)
  }

  function After(acts: seq<Action>): State {
    if acts == [] then INIT
    else
      var s := After(acts[..|acts| - 1]);
      if Enabled(s, acts[|acts| - 1]) then Next(s, acts[|acts| - 1]) else s
  }

  function RunFrom(s: State, acts: seq<Action>): State
    decreases |acts|
  {
    if acts == [] then s
    else if Enabled(s, acts[0]) then RunFrom(Next(s, acts[0]), acts[1..])
    else RunFrom(s, acts[1..])
  }

  /** The threads that hold a place in the quota: accepted and not yet released, or between increment and lookup. */
  function Holders(s: State): set<ThreadId> {
    set t | t in s.threads && !s.threads[t].Trying?
  }

  predicate Exact(s: State) {
    s.count == |Holders(s)| && s.count <= MAX_AUTH_REQUEST_CONCURRENT_PER_PROVIDER
  }

  lemma NextExact(s: State, a: Action)
    requires Exact(s) && Enabled(s, a)
    ensures Exact(Next(s, a))
  {
    if a.CheckCount? || a.FetchSub? {
      assert a.t in Holders(s);
    } else if a.Exchange? {
      assert a.t !in Holders(s);
    }
    HoldersAfter(s, a);
  }

  lemma HoldersAfter(s: State, a: Action)
    requires Enabled(s, a)
    requires a.CheckCount? ==> s.count > 0
    ensures Holders(Next(s, a)) ==
            if a.Exchange? && Next(s, a).threads[a.t].Looking? then Holders(s) + {a.t}
            else if a.FetchSub? then Holders(s) - {a.t}
            else Holders(s)
  {
  }

  /** In every interleaving the counter is the number of holders and never exceeds the cap. */
  lemma {:induction false} CountIsExactInEveryInterleaving(acts: seq<Action>)
    ensures Exact(After(acts))
  {
    if acts == [] {
      assert Holders(INIT) == {};
    } else {
      CountIsExactInEveryInterleaving(acts[..|acts| - 1]);
      if Enabled(After(acts[..|acts| - 1]), acts[|acts| - 1]) {
        NextExact(After(acts[..|acts| - 1]), acts[|acts| - 1]);
      }
    }
  }

  /** So a release always finds a positive counter, and neither the increment nor the decrement wraps. */
  lemma ReleasesNeverUnderflow(acts: seq<Action>, a: Action)
    requires Enabled(After(acts), a)
    ensures var s := After(acts);
            && (a.CheckCount? ==> Next(s, a) == Goes(s, a.t, Subtracting))
            && (a.FetchSub? ==> Next(s, a).count == s.count - 1)
            && (a.Exchange? && Next(s, a).threads[a.t].Looking? ==>
                  Next(s, a).count == s.count + 1 <= MAX_AUTH_REQUEST_CONCURRENT_PER_PROVIDER)
  {
    CountIsExactInEveryInterleaving(acts);
    var s := After(acts);
    if a.CheckCount? || a.FetchSub? {
      assert a.t in Holders(s);
    }
  }

  /** At rest nothing is counted. */
  lemma AtRestNothingIsCounted(acts: seq<Action>)
    requires After(acts).threads == map[]
    ensures After(acts).count == 0
  {
    CountIsExactInEveryInterleaving(acts);
    assert Holders(After(acts)) == {};
  }

  // ---------------------------------------------------------------- what one call is told

  /** A call that meets nobody in the loop, whatever others are doing: below the cap, of a listed provider, it is accepted
      and counted; of an unlisted one it leaves everything as it was; at the cap it is refused. */
  lemma CallAlone(s: State, t: ThreadId)
    requires Exact(s) && t !in s.threads
    ensures s.count < 128 && s.listed ==>
              RunFrom(s, [Load(t), Exchange(t, false), Lookup(t)]) ==
              s.(count := s.count + 1, threads := s.threads[t := Running])
    ensures s.count < 128 && !s.listed ==>
              RunFrom(s, [Load(t), Exchange(t, false), Lookup(t), CheckCount(t), FetchSub(t)]) == s
    ensures s.count == 128 ==>
              !Enabled(Next(s, Load(t)), Exchange(t, false)) && RunFrom(s, [Load(t), Reject(t)]) == s
  {
    var s1 := Next(s, Load(t));
    if s.count < 128 {
      AcceptedAlone(s, t);
      if !s.listed {
        var s2 := s.(count := s.count + 1, threads := s.threads[t := Looking]);
        var s3 := s2.(threads := s.threads[t := Leaving]);
        assert RunFrom(s, [Load(t), Exchange(t, false), Lookup(t), CheckCount(t), FetchSub(t)]) ==
               RunFrom(s1, [Exchange(t, false), Lookup(t), CheckCount(t), FetchSub(t)]) ==
               RunFrom(s2, [Lookup(t), CheckCount(t), FetchSub(t)]) == RunFrom(s3, [CheckCount(t), FetchSub(t)]);
        ReleasedAlone(s3, t);
        assert s3.threads - {t} == s.threads;
      }
    } else {
      assert RunFrom(s, [Load(t), Reject(t)]) == RunFrom(s1, [Reject(t)]) == RunFrom(Ends(s1, t), []);
      assert s1.threads - {t} == s.threads;
    }
  }

  lemma AcceptedAlone(s: State, t: ThreadId)
    requires Exact(s) && t !in s.threads && s.count < 128
    ensures var s1, s2 := Next(s, Load(t)), s.(count := s.count + 1, threads := s.threads[t := Looking]);
            && Enabled(s1, Exchange(t, false)) && Next(s1, Exchange(t, false)) == s2
            && (s.listed ==> RunFrom(s, [Load(t), Exchange(t, false), Lookup(t)]) == s2.(threads := s.threads[t := Running]))
            && (!s.listed ==> Next(s2, Lookup(t)) == s2.(threads := s.threads[t := Leaving]))
  {
    var s1, s2 := Next(s, Load(t)), s.(count := s.count + 1, threads := s.threads[t := Looking]);
    assert Next(s1, Exchange(t, false)) == s2;
    assert RunFrom(s, [Load(t), Exchange(t, false), Lookup(t)]) == RunFrom(s1, [Exchange(t, false), Lookup(t)]) ==
           RunFrom(s2, [Lookup(t)]) == RunFrom(Next(s2, Lookup(t)), []);
  }

  lemma ReleasedAlone(s: State, t: ThreadId)
    requires s.count <= 128 && At(s, t, Leaving) && s.count > 0
    ensures RunFrom(s, [CheckCount(t), FetchSub(t)]) == s.(count := s.count - 1, threads := s.threads - {t})
  {
    var s1 := Next(s, CheckCount(t));
    assert RunFrom(s, [CheckCount(t), FetchSub(t)]) == RunFrom(s1, [FetchSub(t)]) == RunFrom(Next(s1, FetchSub(t)), []);
    assert s1.threads - {t} == s.threads - {t};
  }

  /** The end of an accepted request gives its place back. */
  lemma FinishAlone(s: State, t: ThreadId)
    requires Exact(s) && At(s, t, Running)
    ensures s.count >= 1 &&
            RunFrom(s, [Finish(t), CheckCount(t), FetchSub(t)]) == s.(count := s.count - 1, threads := s.threads - {t})
  {
    assert t in Holders(s);
    var s1 := Next(s, Finish(t));
    assert RunFrom(s, [Finish(t), CheckCount(t), FetchSub(t)]) == RunFrom(s1, [CheckCount(t), FetchSub(t)]);
    ReleasedAlone(s1, t);
    assert s1.threads - {t} == s.threads - {t};
  }

  /** Thread `t` has found its provider listed and has not finished since. */
  ghost predicate FoundListed(acts: seq<Action>, t: ThreadId) {
    acts != [] &&
    var s, a := After(acts[..|acts| - 1]), acts[|acts| - 1];
    (a == Lookup(t) && At(s, t, Looking) && s.listed) || (FoundListed(acts[..|acts| - 1], t) && a != Finish(t))
  }

  /** In every interleaving a request runs exactly from a lookup that found its provider listed until it finishes. */
  lemma {:induction false} RunningWasListed(acts: seq<Action>, t: ThreadId)
    ensures At(After(acts), t, Running) <==> FoundListed(acts, t)
  {
    if acts != [] {
      RunningWasListed(acts[..|acts| - 1], t);
    }
  }

  ghost predicate Unlisted(acts: seq<Action>) {
    acts != [] && (acts[|acts| - 1] == Unlist || Unlisted(acts[..|acts| - 1]))
  }

  lemma {:induction false} ListedUntilRemoved(acts: seq<Action>)
    ensures After(acts).listed <==> !Unlisted(acts)
  {
    if acts != [] {
      ListedUntilRemoved(acts[..|acts| - 1]);
    }
  }
}
