/** What the strict merge promises to a provider, and what repeated answers do to it. */
module StrictMergeLaws {
  import opened Common
  import opened RoutingContexts
  import opened StrictMerge

  /** A merged ALLOW means that every client was heard or written off, and that none of them stood for DENY. */
  lemma AllowMeansAllAgreed(D: map<ClientId, Strategy>, es: seq<Event>)
    requires D != map[] && AnsweredOnce(D, es)
    ensures var x := Run(Dispatched(D), es);
            x.completed && x.merged == ALLOW ==>
              forall c :: c in D ==>
                c in x.results && (x.results[c] == ALLOW || (x.results[c] == TIMEOUT && D[c] != DENY))
  {
    StrictMergeRefined(D, es);
    var x := Run(Dispatched(D), es);
    if x.completed && x.merged == ALLOW {
      assert !HasDeny(x.results);
      forall c | c in D
        ensures c in x.results && (x.results[c] == ALLOW || (x.results[c] == TIMEOUT && D[c] != DENY))
      {
        assert HasDeny(Accepted(es)) ==> HasDeny(x.results);
        assert c in x.results;
        assert c in Accepted(es) ==> Accepted(es)[c] != TIMEOUT;
      }
    }
  }

  /** What each client is recorded as: TIMEOUT exactly if the time is up, no answer of it counts and its default is not
      DENY; ALLOW exactly if it has said so; DENY exactly if it has said so, or by its default once the time is up. */
  lemma ResultsExactly(D: map<ClientId, Strategy>, es: seq<Event>, c: ClientId)
    requires D != map[] && AnsweredOnce(D, es)
    ensures var x := Run(Dispatched(D), es);
            && (c in x.results ==> c in D)
            && (c in x.results && x.results[c] == TIMEOUT <==>
                  c in D && TimedOut(es) && c !in Accepted(es) && D[c] != DENY)
            && (c in x.results && x.results[c] == ALLOW <==> c in Accepted(es) && Accepted(es)[c] == ALLOW)
            && (c in x.results && x.results[c] == DENY <==>
                  (c in Accepted(es) && Accepted(es)[c] == DENY) ||
                  (c in D && TimedOut(es) && c !in Accepted(es) && D[c] == DENY))
  {
    StrictMergeRefined(D, es);
    assert c in Accepted(es) ==> Accepted(es)[c] != TIMEOUT && c in D;
  }

  /** An answer of the client that no timeout precedes. */
  predicate InTime(es: seq<Event>, c: ClientId, s: Strategy) {
    exists i :: 0 <= i < |es| && InTimeAt(es, i, c, s)
  }

  predicate InTimeAt(es: seq<Event>, i: nat, c: ClientId, s: Strategy)
    requires i < |es|
  {
    es[i] == Answer(c, s) && forall j :: 0 <= j < i ==> !es[j].Timeout?
  }

  predicate Heeded(es: seq<Event>, c: ClientId) {
    InTime(es, c, ALLOW) || InTime(es, c, DENY)
  }

  predicate DeniesInSilence(D: map<ClientId, Strategy>, es: seq<Event>, c: ClientId) {
    c in D && D[c] == DENY && !Heeded(es, c)
  }

  ghost predicate SilentDefaultDenies(D: map<ClientId, Strategy>, es: seq<Event>) {
    exists c :: DeniesInSilence(D, es, c)
  }

  lemma AcceptedPrefix(D: map<ClientId, Strategy>, es: seq<Event>, n: nat)
    requires AnsweredOnce(D, es) && n <= |es|
    ensures AnsweredOnce(D, es[..n])
    ensures HasDeny(Accepted(es[..n])) ==> HasDeny(Accepted(es))
  {
    assert forall i :: 0 <= i <= n ==> (Open(es[..n], i) <==> Open(es, i));
    if HasDeny(Accepted(es[..n])) {
      var c :| c in Accepted(es[..n]) && Accepted(es[..n])[c] == DENY;
      assert c in Accepted(es) && Accepted(es)[c] == DENY;
    }
  }

  lemma PrefixCloses(es: seq<Event>, i: nat, c: ClientId)
    requires i < |es| && InTimeAt(es, i, c, DENY)
    ensures !Open(es[..i + 1], i + 1) && !TimedOut(es[..i + 1])
  {
    assert es[..i + 1][i] == Answer(c, DENY) && Closes(es[..i + 1][i]);
  }

  lemma DenyInTimeCounts(D: map<ClientId, Strategy>, es: seq<Event>, i: nat, c: ClientId)
    requires AnsweredOnce(D, es) && i < |es| && InTimeAt(es, i, c, DENY)
    ensures HasDeny(Accepted(es))
  {
    var front := es[..i + 1];
    AcceptedPrefix(D, es, i + 1);
    PrefixCloses(es, i, c);
    ClosedIsDecided(front);
  }

  /** While nobody denies in time, an answer counts exactly if it is in time, and it is an ALLOW. */
  lemma OpenIsInTime(D: map<ClientId, Strategy>, es: seq<Event>, i: nat)
    requires AnsweredOnce(D, es) && i < |es| && es[i].Answer? && forall d :: !InTime(es, d, DENY)
    ensures Open(es, i) <==> InTimeAt(es, i, es[i].client, ALLOW)
  {
    forall j | 0 <= j <= i && es[j].Answer? && forall k :: 0 <= k < j ==> !es[k].Timeout?
      ensures es[j].strategy == ALLOW
    {
      assert es[j].strategy == DENY ==> InTimeAt(es, j, es[j].client, DENY) && InTime(es, es[j].client, DENY);
    }
  }

  lemma AcceptedIsInTime(D: map<ClientId, Strategy>, es: seq<Event>, c: ClientId)
    requires AnsweredOnce(D, es) && forall d :: !InTime(es, d, DENY)
    ensures c in Accepted(es) <==> InTime(es, c, ALLOW)
    ensures c in Accepted(es) ==> Accepted(es)[c] == ALLOW
  {
    forall i | 0 <= i < |es| && es[i].Answer?
      ensures Open(es, i) <==> InTimeAt(es, i, es[i].client, ALLOW)
    {
      OpenIsInTime(D, es, i);
    }
  }

  /** The strict merge, said of the answers alone: DENY exactly if some client has denied in time, or the time is up and
      a client that was not heard in time defaults to DENY. */
  lemma MergedDenyExactly(D: map<ClientId, Strategy>, es: seq<Event>)
    requires D != map[] && AnsweredOnce(D, es)
    ensures Run(Dispatched(D), es).merged == DENY <==>
            (exists c :: InTime(es, c, DENY)) || (TimedOut(es) && SilentDefaultDenies(D, es))
    ensures Run(Dispatched(D), es).merged != TIMEOUT
  {
    StrictMergeRefined(D, es);
    var x := Run(Dispatched(D), es);
    if c :| InTime(es, c, DENY) {
      var i :| 0 <= i < |es| && InTimeAt(es, i, c, DENY);
      DenyInTimeCounts(D, es, i, c);
      var d :| d in Accepted(es) && Accepted(es)[d] == DENY;
      assert x.results[d] == DENY;
    } else {
      forall c
        ensures c in x.results && x.results[c] == DENY <==> TimedOut(es) && DeniesInSilence(D, es, c)
      {
        AcceptedIsInTime(D, es, c);
        ResultsExactly(D, es, c);
      }
    }
  }

  /** Once everyone has answered in time, only the answers count and not their order. */
  lemma MergeIgnoresTheOrderOfAnswers(D: map<ClientId, Strategy>, es: seq<Event>)
    requires D != map[] && AnsweredOnce(D, es) && !TimedOut(es)
    requires forall c :: c in D ==> exists i :: 0 <= i < |es| && es[i].Answer? && es[i].client == c
    ensures var x := Run(Dispatched(D), es);
            x.completed && (x.merged == DENY <==> SomeoneDenies(es))
  {
    StrictMergeRefined(D, es);
    DenyAmongTheAnswers(es);
    if Open(es, |es|) {
      EveryoneIsAccepted(D, es);
    } else {
      ClosedIsDecided(es);
    }
  }

  lemma EveryoneIsAccepted(D: map<ClientId, Strategy>, es: seq<Event>)
    requires AnsweredOnce(D, es) && Open(es, |es|)
    requires forall c :: c in D ==> exists i :: 0 <= i < |es| && es[i].Answer? && es[i].client == c
    ensures !HasDeny(Accepted(es)) && Accepted(es).Keys == D.Keys
  {
    OpenAcceptsNoDeny(es);
  }

  predicate SomeoneDenies(es: seq<Event>) {
    exists i :: 0 <= i < |es| && es[i].Answer? && es[i].strategy == DENY
  }

  lemma DenyAmongTheAnswers(es: seq<Event>)
    requires !TimedOut(es)
    ensures Open(es, |es|) <==> !SomeoneDenies(es)
  {
  }

  // ---------------------------------------------------------------- clients that answer more than once

  /** Answers by clients of `D`, any number of them each. */
  predicate AnswersOf(D: map<ClientId, Strategy>, es: seq<Event>) {
    forall i :: 0 <= i < |es| ==> es[i].Answer? && es[i].client in D && es[i].strategy != TIMEOUT
  }

  /** Some answers make the request complete with ALLOW although a client was never heard. */
  ghost predicate PrematureAllow(D: map<ClientId, Strategy>) {
    exists es :: AnswersOf(D, es) && AllowsUnheard(Run(Dispatched(D), es))
  }

  predicate AllowsUnheard(x: Context) {
    x.completed && x.merged == ALLOW && Unanswered(x) != {}
  }

  function Repeats(c: ClientId, k: nat): seq<Event> {
    seq(k, _ => Answer(c, ALLOW))
  }

  lemma RecordedResults(x: Context, c: ClientId, s: Strategy)
    ensures var y := Recorded(x, c, s);
            && y.defaults == x.defaults
            && y.results == (if x.completed then x.results else x.results[c := s])
            && (x.completed ==> y.completed)
  {
  }

  lemma AllowKept(x: Context, c: ClientId)
    requires x.merged == ALLOW
    ensures Recorded(x, c, ALLOW).merged == ALLOW
  {
  }

  lemma {:induction false} RepeatsCount(D: map<ClientId, Strategy>, c: ClientId, k: nat)
    requires c in D && k <= |D|
    requires D[c] == DENY || Deniers(D, D.Keys) == {}
    ensures var x := Run(Dispatched(D), Repeats(c, k));
            && x.defaults == D && x.results.Keys <= {c} && x.merged == ALLOW
            && x.sentClientCount == |D| - k && x.defaultDenyCount <= |D| - k
            && (D[c] != DENY ==> x.defaultDenyCount == 0)
            && (x.completed <==> k == |D|)
  {
    if k == 0 {
      DeniersAreClients(D);
      assert c in D.Keys;
    } else {
      RepeatsCount(D, c, k - 1);
      assert Repeats(c, k)[..k - 1] == Repeats(c, k - 1);
      RecordedResults(Run(Dispatched(D), Repeats(c, k - 1)), c, ALLOW);
      AllowKept(Run(Dispatched(D), Repeats(c, k - 1)), c);
    }
  }

  lemma DeniersAreClients(D: map<ClientId, Strategy>)
    ensures |Deniers(D, D.Keys)| <= |D|
  {
    SubsetSize(Deniers(D, D.Keys), D.Keys);
  }

  lemma {:induction false} HeardBeforeCompletion(D: map<ClientId, Strategy>, es: seq<Event>)
    requires AnswersOf(D, es)
    ensures var x := Run(Dispatched(D), es);
            && x.defaults == D && x.results.Keys <= D.Keys
            && (x.completed ==> x.results.Keys != {})
  {
    if es != [] {
      HeardBeforeCompletion(D, es[..|es| - 1]);
      RecordedResults(Run(Dispatched(D), es[..|es| - 1]), es[|es| - 1].client, es[|es| - 1].strategy);
    }
  }

  /** The counters do not remember who answered. A repeating client can therefore complete a request with ALLOW
      while another was never heard, and it can do so exactly when there is another client. */
  lemma PrematureAllowNeedsASecondClient(D: map<ClientId, Strategy>)
    ensures PrematureAllow(D) <==> |D| >= 2
  {
    if |D| >= 2 {
      SomeClientRepeats(D);
    }
    if PrematureAllow(D) {
      var es :| AnswersOf(D, es) && AllowsUnheard(Run(Dispatched(D), es));
      HeardBeforeCompletion(D, es);
      var x := Run(Dispatched(D), es);
      var a :| a in x.results.Keys;
      var b :| b in Unanswered(x);
      SubsetSize({a, b}, D.Keys);
    }
  }

  lemma SomeClientRepeats(D: map<ClientId, Strategy>)
    requires |D| >= 2
    ensures PrematureAllow(D)
  {
    var dn := Deniers(D, D.Keys);
    var c: ClientId;
    if dn != {} {
      c :| c in dn;
    } else {
      assert D.Keys != {};
      c :| c in D.Keys;
    }
    RepeatsCount(D, c, |D|);
    var x := Run(Dispatched(D), Repeats(c, |D|));
    if Unanswered(x) == {} {
      assert D.Keys <= {c};
      SubsetSize(D.Keys, {c});
      assert false;
    }
    assert AnswersOf(D, Repeats(c, |D|)) && AllowsUnheard(x);
  }
}
