/** Runs of a routing context, and the strict merge they are meant to compute. */
module StrictMerge {
  import opened Common
  import opened RoutingContexts

  /** One critical section of the context's lock: a client registered by the dispatch, one answered, or the timeout. */
  datatype Event = Register(client: ClientId, default: Strategy) | Answer(client: ClientId, strategy: Strategy) | Timeout

  function Apply(x: Context, e: Event): Context {
    match e
    case Register(c, d) => Registered(x, c, d)
    case Answer(c, s) => Recorded(x, c, s)
    case Timeout => Expired(x)
  }

  function Run(x: Context, es: seq<Event>): Context {
    if es == [] then x else Apply(Run(x, es[..|es| - 1]), es[|es| - 1])
  }

  lemma RunSnoc(x: Context, es: seq<Event>, e: Event)
    ensures Run(x, es + [e]) == Apply(Run(x, es), e)
  {
    assert (es + [e])[..|es|] == es;
  }

  lemma AppendedRun(x: Context, a: seq<Event>, b: seq<Event>, e: Event, c: seq<Event>)
    requires Run(x, a + b) == Run(Run(x, a), b) && c == b + [e]
    ensures Run(x, a + c) == Run(Run(x, a), c)
  {
    assert a + c == (a + b) + [e];
    RunSnoc(x, a + b, e);
    RunSnoc(Run(x, a), b, e);
  }

  lemma {:induction false} RunConcat(x: Context, a: seq<Event>, b: seq<Event>)
    ensures Run(x, a + b) == Run(Run(x, a), b)
  {
    if b == [] {
      assert a + b == a;
    } else {
      var n := |b| - 1;
      RunConcat(x, a, b[..n]);
      AppendedRun(x, a, b[..n], b[n], b);
    }
  }

  // ---------------------------------------------------------------- every run, whatever the clients do

  predicate HasDeny(results: map<ClientId, Strategy>) {
    exists c :: c in results && results[c] == DENY
  }

  /** What holds at every release of the context's lock. */
  ghost predicate Sound(x: Context) {
    && x.completed == x.resultSatisfied
    && |x.published| == (if x.completed then 1 else 0)
    && (forall c :: x.promiseSets[c] == if c in x.satisfied then 1 else 0)
    && x.merged == (if HasDeny(x.results) then DENY else ALLOW)
    && (HasDeny(x.results) ==> x.completed)
  }

  lemma SoundAnswer(x: Context, c: ClientId, s: Strategy)
    requires Sound(x)
    ensures Sound(Recorded(x, c, s))
  {
    if !x.completed {
      var r := x.results[c := s];
      assert HasDeny(r) <==> s == DENY by {
        if s == DENY {
          assert r[c] == DENY;
        }
      }
    }
  }

  lemma ExpiredDeny(x: Context)
    ensures HasDeny(Expired(x).results) <==>
            HasDeny(x.results) || exists c :: c in x.defaults && SilentDenier(x, c)
  {
    var r := Expired(x).results;
    assert r == x.results + TimeoutMarks(x);
    if HasDeny(x.results) {
      var c :| c in x.results && x.results[c] == DENY;
      assert r[c] == DENY;
    }
    if c :| c in x.defaults && SilentDenier(x, c) {
      assert r[c] == DENY;
    }
  }

  lemma SoundTimeout(x: Context)
    requires Sound(x)
    ensures Sound(Expired(x))
  {
    ExpiredDeny(x);
    assert forall c :: c in Sleepers(x) ==> c !in x.satisfied;
  }

  /** Completion and the result promise go together, no promise is ever set twice, and a completed request is
      merged to DENY exactly when some recorded result is DENY: with repeated, late and early answers alike. */
  lemma {:induction false} EveryRunIsSound(es: seq<Event>)
    ensures Sound(Run(EMPTY, es))
  {
    if es != [] {
      var front, e := es[..|es| - 1], es[|es| - 1];
      EveryRunIsSound(front);
      var x := Run(EMPTY, front);
      match e
      case Register(c, d) =>
      case Answer(c, s) => SoundAnswer(x, c, s);
      case Timeout => SoundTimeout(x);
    }
  }

  lemma {:induction false} OneShotPromises(es: seq<Event>, c: ClientId)
    ensures var x := Run(EMPTY, es);
            && |x.published| <= 1 && x.promiseSets[c] <= 1
            && (|x.published| == 1 <==> x.completed)
            && (x.completed ==> (x.merged == DENY <==> HasDeny(x.results)))
  {
    EveryRunIsSound(es);
  }

  /** Once completed, a context no longer moves under any number of further answers. */
  lemma {:induction false} AnswersAfterCompletionChangeNothing(x: Context, es: seq<Event>)
    requires x.completed && forall i :: 0 <= i < |es| ==> es[i].Answer?
    ensures Run(x, es) == x
  {
    if es != [] {
      AnswersAfterCompletionChangeNothing(x, es[..|es| - 1]);
    }
  }

  /** A recorded DENY survives every continuation of the run, and so does a published result. */
  lemma {:induction false} DenyIsFinal(x: Context, es: seq<Event>, c: ClientId)
    requires Sound(x) && c in x.results && x.results[c] == DENY
    ensures var y := Run(x, es);
            && Sound(y) && y.completed && y.merged == DENY
            && c in y.results && y.results[c] == DENY && y.published == x.published
  {
    if es == [] {
      assert HasDeny(x.results);
    } else {
      var front, e := es[..|es| - 1], es[|es| - 1];
      DenyIsFinal(x, front, c);
      var y := Run(x, front);
      if e.Timeout? {
        SoundTimeout(y);
        ExpiredDeny(y);
      }
    }
  }

  // ---------------------------------------------------------------- the strict merge

  /** The context once every client of `D` (client to default strategy) has been dispatched to. */
  function Dispatched(D: map<ClientId, Strategy>): Context {
    EMPTY.(sentClientCount := |D|, defaultDenyCount := |Deniers(D, D.Keys)|, defaults := D, promises := D.Keys)
  }

  function Deniers(D: map<ClientId, Strategy>, cs: set<ClientId>): set<ClientId> {
    set c | c in cs && c in D && D[c] == DENY
  }

  /** The registrations a dispatch performs for a list of clients. */
  function Registrations(rs: seq<(ClientId, Strategy)>): seq<Event> {
    seq(|rs|, i requires 0 <= i < |rs| => Register(rs[i].0, rs[i].1))
  }

  predicate DistinctClients(rs: seq<(ClientId, Strategy)>) {
    forall i, j :: 0 <= i < j < |rs| ==> rs[i].0 != rs[j].0
  }

  function ClientMap(rs: seq<(ClientId, Strategy)>): (D: map<ClientId, Strategy>)
    ensures forall c :: c in D <==> exists i :: 0 <= i < |rs| && rs[i].0 == c
  {
    if rs == [] then map[] else ClientMap(rs[..|rs| - 1])[rs[|rs| - 1].0 := rs[|rs| - 1].1]
  }

  lemma DeniersOneMore(D: map<ClientId, Strategy>, c: ClientId, d: Strategy)
    requires c !in D
    ensures |D[c := d]| == |D| + 1 && D[c := d].Keys == D.Keys + {c}
    ensures var E := D[c := d];
            |Deniers(E, E.Keys)| == |Deniers(D, D.Keys)| + if d == DENY then 1 else 0
  {
    var E, deniers := D[c := d], Deniers(D, D.Keys);
    DeniersWith(D, c, d);
    assert E.Keys == D.Keys + {c};
    assert c !in deniers;
  }

  lemma DeniersWith(D: map<ClientId, Strategy>, c: ClientId, d: Strategy)
    requires c !in D
    ensures var E := D[c := d];
            Deniers(E, E.Keys) == Deniers(D, D.Keys) + if d == DENY then {c} else {}
  {
    var E := D[c := d];
    forall k
      ensures k in Deniers(E, E.Keys) <==> k in Deniers(D, D.Keys) || (k == c && d == DENY)
    {
    }
  }

  lemma DispatchedOneMore(D: map<ClientId, Strategy>, c: ClientId, d: Strategy)
    requires c !in D
    ensures Registered(Dispatched(D), c, d) == Dispatched(D[c := d])
  {
    DeniersOneMore(D, c, d);
  }

  lemma {:induction false} DispatchRegistersEveryClient(rs: seq<(ClientId, Strategy)>)
    requires DistinctClients(rs)
    ensures Run(EMPTY, Registrations(rs)) == Dispatched(ClientMap(rs))
  {
    if rs == [] {
      assert Deniers(map[], {}) == {};
    } else {
      var n := |rs| - 1;
      DispatchRegistersEveryClient(rs[..n]);
      assert Registrations(rs)[..n] == Registrations(rs[..n]);
      assert rs[n].0 !in ClientMap(rs[..n]);
      DispatchedOneMore(ClientMap(rs[..n]), rs[n].0, rs[n].1);
    }
  }

  lemma DispatchThenTail(rs: seq<(ClientId, Strategy)>, es: seq<Event>)
    requires DistinctClients(rs)
    ensures Run(EMPTY, Registrations(rs) + es) == Run(Dispatched(ClientMap(rs)), es)
  {
    DispatchRegistersEveryClient(rs);
    RunConcat(EMPTY, Registrations(rs), es);
  }

  /** After the dispatch: answers by the clients of `D`, at most one each, and timeouts, in any order. */
  predicate AnsweredOnce(D: map<ClientId, Strategy>, es: seq<Event>) {
    && (forall i :: 0 <= i < |es| ==>
          !es[i].Register? && (es[i].Answer? ==> es[i].client in D && es[i].strategy != TIMEOUT))
    && (forall i, j :: 0 <= i < j < |es| && es[i].Answer? && es[j].Answer? ==> es[i].client != es[j].client)
  }

  predicate Closes(e: Event) {
    e.Timeout? || (e.Answer? && e.strategy == DENY)
  }

  /** No timeout and no DENY among the first `i` events. */
  predicate Open(es: seq<Event>, i: int)
    requires i <= |es|
  {
    forall j :: 0 <= j < i ==> !Closes(es[j])
  }

  /** The answers that count: those that no timeout and no other DENY precedes. */
  ghost function Accepted(es: seq<Event>): map<ClientId, Strategy>
    requires forall i, j :: 0 <= i < j < |es| && es[i].Answer? && es[j].Answer? ==> es[i].client != es[j].client
  {
    map i | 0 <= i < |es| && es[i].Answer? && Open(es, i) :: es[i].client := es[i].strategy
  }

  predicate TimedOut(es: seq<Event>) {
    exists i :: 0 <= i < |es| && es[i].Timeout?
  }

  /** What the clients of `D` without an entry in `answers` are recorded as once the time is up. */
  function Filled(D: map<ClientId, Strategy>, answers: map<ClientId, Strategy>): map<ClientId, Strategy> {
    map c | c in D && c !in answers :: TimeoutMark(D[c])
  }

  /** The per-client results of the strict merge. */
  ghost function Outcome(D: map<ClientId, Strategy>, es: seq<Event>): map<ClientId, Strategy>
    requires AnsweredOnce(D, es)
  {
    var accepted := Accepted(es);
    if TimedOut(es) then accepted + Filled(D, accepted) else accepted
  }

  function Merge(results: map<ClientId, Strategy>): Strategy {
    if HasDeny(results) then DENY else ALLOW
  }

  ghost predicate Decided(D: map<ClientId, Strategy>, es: seq<Event>)
    requires AnsweredOnce(D, es)
  {
    TimedOut(es) || HasDeny(Accepted(es)) || Accepted(es).Keys == D.Keys
  }

  function Unanswered(x: Context): set<ClientId> {
    x.defaults.Keys - x.results.Keys
  }

  /** The two counters count the clients still to be heard, and those of them that default to DENY. */
  predicate CountersExact(x: Context) {
    x.sentClientCount == |Unanswered(x)| && x.defaultDenyCount == |Deniers(x.defaults, Unanswered(x))|
  }

  ghost predicate MergesResults(x: Context, D: map<ClientId, Strategy>, es: seq<Event>)
    requires AnsweredOnce(D, es)
  {
    x.defaults == D && x.results == Outcome(D, es) && x.merged == Merge(x.results)
  }

  ghost predicate MergesProgress(x: Context, D: map<ClientId, Strategy>, es: seq<Event>)
    requires AnsweredOnce(D, es)
  {
    && x.completed == Decided(D, es)
    && (x.completed ==> x.published == [x.merged])
    && (!x.completed ==> CountersExact(x))
  }

  ghost predicate Merges(x: Context, D: map<ClientId, Strategy>, es: seq<Event>)
    requires AnsweredOnce(D, es)
  {
    MergesResults(x, D, es) && MergesProgress(x, D, es)
  }

  lemma AcceptedSnoc(es: seq<Event>, e: Event)
    requires forall i, j :: 0 <= i < j <= |es| && (es + [e])[i].Answer? && (es + [e])[j].Answer? ==>
               (es + [e])[i].client != (es + [e])[j].client
    ensures forall i, j :: 0 <= i < j < |es| && es[i].Answer? && es[j].Answer? ==> es[i].client != es[j].client
    ensures Accepted(es + [e]) ==
            if e.Answer? && Open(es, |es|) then Accepted(es)[e.client := e.strategy] else Accepted(es)
    ensures TimedOut(es + [e]) <==> TimedOut(es) || e.Timeout?
  {
    var fs := es + [e];
    assert forall i :: 0 <= i < |es| ==> es[i] == fs[i];
    assert forall i :: 0 <= i <= |es| ==> (Open(fs, i) <==> Open(es, i));
    assert fs[|es|] == e;
    if TimedOut(es) {
      var i :| 0 <= i < |es| && es[i].Timeout?;
      assert fs[i].Timeout?;
    }
  }

  /** An answer that does not count comes after a DENY that does, or after the timeout. */
  lemma {:induction false} ClosedIsDecided(es: seq<Event>)
    requires forall i, j :: 0 <= i < j < |es| && es[i].Answer? && es[j].Answer? ==> es[i].client != es[j].client
    requires !Open(es, |es|)
    ensures TimedOut(es) || HasDeny(Accepted(es))
  {
    var n := |es| - 1;
    assert es == es[..n] + [es[n]];
    AcceptedSnoc(es[..n], es[n]);
    if Open(es[..n], n) {
      assert Closes(es[n]);
      if es[n].Answer? {
        assert Accepted(es)[es[n].client] == DENY;
      }
    } else {
      ClosedIsDecided(es[..n]);
      if HasDeny(Accepted(es[..n])) {
        var c :| c in Accepted(es[..n]) && Accepted(es[..n])[c] == DENY;
        assert Open(es[..n], n) || Accepted(es) == Accepted(es[..n]);
        assert c in Accepted(es) && Accepted(es)[c] == DENY;
      }
    }
  }

  lemma OpenAcceptsNoDeny(es: seq<Event>)
    requires forall i, j :: 0 <= i < j < |es| && es[i].Answer? && es[j].Answer? ==> es[i].client != es[j].client
    requires Open(es, |es|)
    ensures !TimedOut(es) && !HasDeny(Accepted(es))
    ensures forall c :: c in Accepted(es) <==> exists i :: 0 <= i < |es| && es[i].Answer? && es[i].client == c
  {
  }

  lemma AnswerCounted(x: Context, c: ClientId, s: Strategy)
    requires c in x.defaults && c !in x.results && CountersExact(x) && !x.completed && s != DENY
    ensures var y := Decremented(x.(results := x.results[c := s]), c);
            && CountersExact(y)
            && (y.sentClientCount == 0 <==> y.results.Keys >= x.defaults.Keys)
            && (y.sentClientCount == 0 ==> y.defaultDenyCount == 0)
  {
    var u := Unanswered(x);
    var y := Decremented(x.(results := x.results[c := s]), c);
    assert c in u;
    assert Unanswered(y) == u - {c};
    assert |u - {c}| == |u| - 1;
    var dn := Deniers(x.defaults, u);
    assert Deniers(x.defaults, u - {c}) == dn - {c};
    assert c in dn <==> x.defaults[c] == DENY;
    assert |dn - {c}| == if c in dn then |dn| - 1 else |dn|;
  }

  lemma OnceSnoc(D: map<ClientId, Strategy>, es: seq<Event>, e: Event)
    requires AnsweredOnce(D, es + [e])
    ensures AnsweredOnce(D, es)
    ensures e.Answer? ==> e.client in D && e.strategy != TIMEOUT && e.client !in Accepted(es)
    ensures Accepted(es + [e]) ==
            if e.Answer? && Open(es, |es|) then Accepted(es)[e.client := e.strategy] else Accepted(es)
    ensures TimedOut(es + [e]) <==> TimedOut(es) || e.Timeout?
  {
    var fs := es + [e];
    assert fs[|es|] == e;
    assert forall i :: 0 <= i < |es| ==> fs[i] == es[i];
    AcceptedSnoc(es, e);
  }

  /** An answer after the timeout or after a DENY. */
  lemma MergesLateAnswer(x: Context, D: map<ClientId, Strategy>, es: seq<Event>, e: Event)
    requires AnsweredOnce(D, es + [e]) && AnsweredOnce(D, es) && Merges(x, D, es)
    requires e.Answer? && !Open(es, |es|)
    ensures Merges(Apply(x, e), D, es + [e])
  {
    OnceSnoc(D, es, e);
    ClosedIsDecided(es);
    assert Outcome(D, es + [e]) == Outcome(D, es);
  }

  lemma CountingOutcome(x: Context, D: map<ClientId, Strategy>, es: seq<Event>, e: Event)
    requires AnsweredOnce(D, es + [e]) && AnsweredOnce(D, es) && Merges(x, D, es)
    requires e.Answer? && Open(es, |es|)
    ensures Outcome(D, es + [e]) == x.results[e.client := e.strategy] == Accepted(es + [e])
    ensures e.client in D && e.client !in x.results && x.results.Keys <= D.Keys
    ensures !x.completed && !HasDeny(x.results) && !TimedOut(es + [e])
  {
    OnceSnoc(D, es, e);
    OpenAcceptsNoDeny(es);
    assert x.results == Accepted(es);
  }

  /** The DENY of a client that has not been heard, while the request is open. */
  lemma MergesDeny(x: Context, D: map<ClientId, Strategy>, es: seq<Event>, e: Event)
    requires AnsweredOnce(D, es + [e]) && AnsweredOnce(D, es) && Merges(x, D, es) && Sound(x)
    requires e.Answer? && Open(es, |es|) && e.strategy == DENY
    ensures Merges(Apply(x, e), D, es + [e])
  {
    CountingOutcome(x, D, es, e);
    var y := Apply(x, e);
    assert y.results[e.client] == DENY;
    assert y.completed && y.merged == DENY && HasDeny(y.results);
  }

  lemma AllowRecorded(x: Context, c: ClientId, s: Strategy)
    requires c in x.defaults && c !in x.results && CountersExact(x) && !x.completed && s != DENY && x.published == []
    requires !x.resultSatisfied
    ensures var y := Recorded(x, c, s);
            && y.defaults == x.defaults && y.results == x.results[c := s]
            && (y.completed <==> y.results.Keys >= x.defaults.Keys)
            && (y.completed ==> y.merged == ALLOW && y.published == [ALLOW])
            && (!y.completed ==> y.merged == x.merged && CountersExact(y))
  {
    AnswerCounted(x, c, s);
    var z := SatisfiedFor(x.(results := x.results[c := s]), c);
    var w := Decremented(x.(results := x.results[c := s]), c);
    assert Decremented(z, c) == w.(satisfied := z.satisfied, promiseSets := z.promiseSets);
  }

  lemma NoDenyAdded(results: map<ClientId, Strategy>, c: ClientId, s: Strategy)
    requires !HasDeny(results) && s != DENY
    ensures !HasDeny(results[c := s])
  {
  }

  lemma AllowMerged(x: Context, y: Context, D: map<ClientId, Strategy>, es: seq<Event>, e: Event)
    requires AnsweredOnce(D, es + [e]) && AnsweredOnce(D, es) && Merges(x, D, es)
    requires e.Answer? && Open(es, |es|) && e.strategy != DENY
    requires y.results == x.results[e.client := e.strategy] && y.defaults == x.defaults && y.merged == ALLOW
    ensures MergesResults(y, D, es + [e]) && !HasDeny(Accepted(es + [e])) && !TimedOut(es + [e])
    ensures Accepted(es + [e]) == y.results && y.results.Keys <= D.Keys
  {
    CountingOutcome(x, D, es, e);
    NoDenyAdded(x.results, e.client, e.strategy);
  }

  /** The ALLOW of a client that has not been heard, while the request is open. */
  lemma MergesAllow(x: Context, D: map<ClientId, Strategy>, es: seq<Event>, e: Event)
    requires AnsweredOnce(D, es + [e]) && AnsweredOnce(D, es) && Merges(x, D, es) && Sound(x)
    requires e.Answer? && Open(es, |es|) && e.strategy != DENY
    ensures Merges(Apply(x, e), D, es + [e])
  {
    CountingOutcome(x, D, es, e);
    AllowRecorded(x, e.client, e.strategy);
    var y := Recorded(x, e.client, e.strategy);
    AllowMerged(x, y, D, es, e);
    AllowProgress(y, D, es + [e]);
  }

  lemma AllowProgress(y: Context, D: map<ClientId, Strategy>, fs: seq<Event>)
    requires AnsweredOnce(D, fs) && MergesResults(y, D, fs)
    requires !HasDeny(Accepted(fs)) && !TimedOut(fs) && Accepted(fs) == y.results && y.results.Keys <= D.Keys
    requires y.completed <==> y.results.Keys >= D.Keys
    requires y.completed ==> y.merged == ALLOW && y.published == [ALLOW]
    requires !y.completed ==> CountersExact(y)
    ensures MergesProgress(y, D, fs)
  {
  }

  lemma FilledTwice(D: map<ClientId, Strategy>, answers: map<ClientId, Strategy>)
    ensures var once := answers + Filled(D, answers);
            once + Filled(D, once) == once
  {
    var once := answers + Filled(D, answers);
    assert Filled(D, once) == map[];
  }

  lemma ExpiredFills(x: Context)
    ensures Expired(x).results == x.results + Filled(x.defaults, x.results)
  {
    assert TimeoutMarks(x) == Filled(x.defaults, x.results);
  }

  lemma TimeoutOutcome(x: Context, D: map<ClientId, Strategy>, es: seq<Event>)
    requires AnsweredOnce(D, es + [Timeout]) && AnsweredOnce(D, es) && Merges(x, D, es)
    ensures Expired(x).results == Outcome(D, es + [Timeout]) && TimedOut(es + [Timeout])
  {
    OnceSnoc(D, es, Timeout);
    ExpiredFills(x);
    FilledTwice(D, Accepted(es));
  }

  lemma MergesTimeout(x: Context, D: map<ClientId, Strategy>, es: seq<Event>)
    requires AnsweredOnce(D, es + [Timeout]) && AnsweredOnce(D, es) && Merges(x, D, es) && Sound(x)
    ensures Merges(Expired(x), D, es + [Timeout])
  {
    TimeoutOutcome(x, D, es);
    SoundTimeout(x);
    if x.completed {
      TimeoutKeepsPublished(x, D, es);
    }
  }

  /** A timeout that finds the request completed does not change the strategy that was published. */
  lemma TimeoutKeepsPublished(x: Context, D: map<ClientId, Strategy>, es: seq<Event>)
    requires AnsweredOnce(D, es) && Merges(x, D, es) && Sound(x) && x.completed
    ensures Expired(x).published == x.published && Expired(x).merged == x.merged
  {
    ExpiredDeny(x);
    SoundTimeout(x);
    if !HasDeny(x.results) {
      assert x.results.Keys >= D.Keys;
    }
  }

  /** Strict merge: from a dispatch to the clients of `D`, whatever the order of their answers and of the timeout,
      the counters and promises end with the results, the merged strategy and the completion of the pure merge. */
  lemma {:induction false} StrictMergeRefined(D: map<ClientId, Strategy>, es: seq<Event>)
    requires D != map[] && AnsweredOnce(D, es)
    ensures Merges(Run(Dispatched(D), es), D, es) && Sound(Run(Dispatched(D), es))
  {
    if es == [] {
      assert D.Keys != {};
      assert Outcome(D, es) == map[];
      assert D.Keys - {} == D.Keys;
    } else {
      var front, e := es[..|es| - 1], es[|es| - 1];
      assert es == front + [e];
      StrictMergeRefined(D, front);
      var x := Run(Dispatched(D), front);
      RunSnoc(Dispatched(D), front, e);
      assert AnsweredOnce(D, front + [e]);
      if e.Timeout? {
        MergesTimeout(x, D, front);
        SoundTimeout(x);
      } else {
        SoundAnswer(x, e.client, e.strategy);
        if Open(front, |front|) {
          if e.strategy == DENY {
            MergesDeny(x, D, front, e);
          } else {
            MergesAllow(x, D, front, e);
          }
        } else {
          MergesLateAnswer(x, D, front, e);
        }
      }
    }
  }
}
