/** End to end: what a provider is told, over every schedule whose clients answer what they were sent, once. */
module AuthGuarantee {
  import opened Common
  import opened Text
  import opened RoutingContexts
  import opened StrictMerge
  import opened AuthCoordinator

  /** Pair (c, n) has been pushed to its client. */
  ghost predicate Pushed(s: System, c: ClientId, n: int) {
    exists r, i :: PushedAs(s, r, i, c, n)
  }

  predicate PushedAs(s: System, r: RequestId, i: int, c: ClientId, n: int) {
    HasIssue(s, r, i) && !s.requests[r].phase.Dispatching? && IssueAt(s, r, i).client == c && IssueAt(s, r, i).seqnum == n
  }

  /** An answer that is routed at all is the first one to an event that was pushed. */
  ghost predicate Proper(s: System, a: Action) {
    a.Find? && SeqnumKey(a.client, a.seqnum) in s.index ==>
      Pushed(s, a.client, a.seqnum) && (a.client, a.seqnum) !in s.answered
  }

  /** Clients answer events that were pushed to them, each of them once while its request waits. Answers that no request
      waits for are of no account: repeated ones that come late, and those of degraded clients, are allowed. */
  ghost predicate Polite(acts: seq<Action>) {
    acts == [] ||
    (var s, a := After(acts[..|acts| - 1]), acts[|acts| - 1];
     && Polite(acts[..|acts| - 1])
     && Proper(s, a))
  }

  function Roster(q: Request): seq<(ClientId, Strategy)> {
    seq(|q.issued|, i requires 0 <= i < |q.issued| => (q.issued[i].client, q.issued[i].default))
  }

  /** The events after the dispatch. */
  function Tail(q: Request): seq<Event>
    requires |q.issued| <= |q.history|
  {
    q.history[|q.issued|..]
  }

  ghost predicate WellServed(q: Request) {
    && |q.issued| <= |q.history|
    && q.history[..|q.issued|] == Registrations(Roster(q))
    && DistinctClients(Roster(q))
    && AnsweredOnce(ClientMap(Roster(q)), Tail(q))
    && (q.phase.Dispatching? ==> Tail(q) == [])
  }

  /** Client `c` of the request has an answer on record. */
  predicate Heard(q: Request, c: ClientId) {
    exists k :: |q.issued| <= k < |q.history| && q.history[k].Answer? && q.history[k].client == c
  }

  predicate HeardAt(s: System, r: RequestId, i: int) {
    HasIssue(s, r, i) && Heard(s.requests[r], IssueAt(s, r, i).client)
  }

  /** An answer on record has used up its pair. */
  ghost predicate HeardUsed(s: System) {
    forall r, i :: HeardAt(s, r, i) ==> (IssueAt(s, r, i).client, IssueAt(s, r, i).seqnum) in s.answered
  }

  /** So has an answer in flight, which is the only one of its pair. */
  ghost predicate FlightsUsed(s: System) {
    && (forall t :: t in s.flights ==> (s.flights[t].client, s.flights[t].seqnum) in s.answered)
    && (forall t, u :: t in s.flights && u in s.flights && SameAnswer(s.flights[t], s.flights[u]) ==> t == u)
  }

  ghost predicate FlightsExpected(s: System) {
    forall t :: t in s.flights ==> Expected(s, s.flights[t])
  }

  ghost predicate AnswersAccounted(s: System) {
    HeardUsed(s) && FlightsUsed(s) && FlightsExpected(s)
  }

  predicate SameAnswer(f: Flight, g: Flight) {
    f.client == g.client && f.seqnum == g.seqnum
  }

  /** The answer in flight is the first of its client to its request. */
  predicate Expected(s: System, f: Flight) {
    f.strategy != TIMEOUT && f.req in s.requests && !s.requests[f.req].phase.Dispatching? &&
    !Heard(s.requests[f.req], f.client)
  }

  ghost predicate AllWellServed(s: System) {
    forall r :: r in s.requests ==> WellServed(s.requests[r])
  }

  lemma RegisteredWell(q: Request, c: ClientId, d: Strategy, n: int)
    requires WellServed(q) && Ready(q, RegisterClient(c, d))
    ensures WellServed(Served(q, RegisterClient(c, d), n))
  {
    var q1 := Served(q, RegisterClient(c, d), n);
    assert q.history == q.history[..|q.issued|];
    assert Roster(q1) == Roster(q) + [(c, d)];
    assert q1.history == Registrations(Roster(q1));
    assert Tail(q1) == [];
  }

  lemma ServedWell(q: Request, step: Step, n: int)
    requires WellServed(q) && RequestSound(q) && Ready(q, step)
    ensures WellServed(Served(q, step, n))
  {
    var q1 := Served(q, step, n);
    if step.RegisterClient? {
      RegisteredWell(q, step.client, step.default, n);
    } else {
      assert Roster(q1) == Roster(q);
      if step.Expire? {
        assert q1.history[..|q.issued|] == q.history[..|q.issued|];
        assert Tail(q1) == Tail(q) + [Timeout];
      }
    }
  }

  lemma AnsweredWell(q: Request, c: ClientId, s: Strategy)
    requires WellServed(q) && !q.phase.Dispatching? && s != TIMEOUT && !Heard(q, c)
    requires exists i :: 0 <= i < |q.issued| && q.issued[i].client == c
    ensures WellServed(Advance(q, Answer(c, s)))
  {
    var q1 := Advance(q, Answer(c, s));
    var i :| 0 <= i < |q.issued| && q.issued[i].client == c;
    assert Roster(q1) == Roster(q) && Roster(q)[i].0 == c;
    assert q1.history[..|q.issued|] == q.history[..|q.issued|];
    assert Tail(q1) == Tail(q) + [Answer(c, s)];
    forall k | 0 <= k < |Tail(q)| && Tail(q)[k].Answer?
      ensures Tail(q)[k].client != c
    {
      assert Tail(q)[k] == q.history[|q.issued| + k];
    }
  }

  lemma NextWellServed(s: System, a: Action)
    requires RequestsSound(s) && FlightsSound(s) && AllWellServed(s) && FlightsExpected(s) && Enabled(s, a)
    ensures AllWellServed(Next(s, a))
  {
    match a
    case Begin(r) => assert WellServed(NEW_REQUEST);
    case Serve(r, step) => ServedWell(s.requests[r], step, NextSeqnum(s, step));
    case Notify(_) =>
    case Find(t, c, n, allow) =>
    case Record(t) =>
      var f := s.flights[t];
      var i :| HasIssue(s, f.req, i) && Carries(IssueAt(s, f.req, i), f);
      assert Expected(s, f);
      AnsweredWell(s.requests[f.req], f.client, f.strategy);
  }

  lemma ServingHearsNobody(q: Request, step: Step, n: int)
    requires WellServed(q) && Ready(q, step)
    ensures forall c :: Heard(Served(q, step, n), c) <==> Heard(q, c)
  {
    var q1 := Served(q, step, n);
    if step.RegisterClient? {
      assert |q.history| == |q.issued|;
    } else {
      assert q1.issued == q.issued;
      assert forall k :: 0 <= k < |q.history| ==> q1.history[k] == q.history[k];
    }
  }

  lemma AnsweringHears(q: Request, c: ClientId, s: Strategy)
    requires |q.issued| <= |q.history|
    ensures forall d :: Heard(Advance(q, Answer(c, s)), d) <==> Heard(q, d) || d == c
  {
    var q1 := Advance(q, Answer(c, s));
    assert q1.history[|q.history|] == Answer(c, s);
    assert forall k :: 0 <= k < |q.history| ==> q1.history[k] == q.history[k];
  }

  /** The step records the answer of `c` in request `r`. */
  predicate RecordsFor(s: System, a: Action, r: RequestId, c: ClientId) {
    a.Record? && a.t in s.flights && s.flights[a.t].req == r && s.flights[a.t].client == c
  }

  lemma NewlyHeard(s: System, a: Action)
    requires AllWellServed(s) && Enabled(s, a)
    ensures forall r :: r in s.requests ==> r in Next(s, a).requests
    ensures forall r, c :: r in s.requests ==>
              (Heard(Next(s, a).requests[r], c) <==> Heard(s.requests[r], c) || RecordsFor(s, a, r, c))
    ensures forall r, c :: r in Next(s, a).requests && r !in s.requests ==> !Heard(Next(s, a).requests[r], c)
  {
    if a.Serve? {
      ServingHearsNobody(s.requests[a.r], a.step, NextSeqnum(s, a.step));
    } else if a.Record? {
      var f := s.flights[a.t];
      AnsweringHears(s.requests[f.req], f.client, f.strategy);
    }
  }

  /** A client has one pair per request. */
  lemma OnePairPerClient(s: System, r: RequestId, i: int, j: int)
    requires HasIssue(s, r, i) && HasIssue(s, r, j) && WellServed(s.requests[r])
    requires IssueAt(s, r, i).client == IssueAt(s, r, j).client
    ensures i == j
  {
    var roster := Roster(s.requests[r]);
    assert roster[i].0 == roster[j].0;
  }

  /** A request that registers a client is still dispatching and has heard nobody. */
  lemma RegisteringHasHeardNobody(s: System, a: Action, r: RequestId, c: ClientId)
    requires AllWellServed(s) && Enabled(s, a) && Registers(a, r)
    ensures !Heard(s.requests[r], c)
  {
    assert |s.requests[r].history| == |s.requests[r].issued|;
  }

  lemma NextHeardUsed(s: System, a: Action)
    requires AllWellServed(s) && FlightsSound(s) && HeardUsed(s) && FlightsUsed(s) && Enabled(s, a)
    ensures HeardUsed(Next(s, a))
  {
    var s1 := Next(s, a);
    NewlyHeard(s, a);
    IssuesKept(s, a);
    forall r, i | HeardAt(s1, r, i)
      ensures (IssueAt(s1, r, i).client, IssueAt(s1, r, i).seqnum) in s1.answered
    {
      if !HasIssue(s, r, i) {
        RegisteringHasHeardNobody(s, a, r, IssueAt(s1, r, i).client);
      } else if !HeardAt(s, r, i) {
        var f := s.flights[a.t];
        var n :| HasIssue(s, f.req, n) && Carries(IssueAt(s, f.req, n), f);
        OnePairPerClient(s, r, i, n);
      }
    }
  }

  lemma NextFlightsUsed(s: System, a: Action)
    requires FlightsUsed(s) && Enabled(s, a) && Proper(s, a)
    ensures FlightsUsed(Next(s, a))
  {
  }

  /** A pushed pair that was not answered yet is routed to a request that has not heard its client. */
  lemma FreshAnswerExpected(s: System, c: ClientId, n: int)
    requires IndexSound(s) && SeqnumsUnique(s) && HeardUsed(s)
    requires Pushed(s, c, n) && (c, n) !in s.answered && SeqnumKey(c, n) in s.index
    ensures var r := s.index[SeqnumKey(c, n)];
            r in s.requests && !s.requests[r].phase.Dispatching? && !Heard(s.requests[r], c)
  {
    FoundRequestIssuedThePair(s, c, n);
    var r := s.index[SeqnumKey(c, n)];
    var i :| LiveAt(s, r, i) && IssueAt(s, r, i).client == c && IssueAt(s, r, i).seqnum == n;
    var r', j :| PushedAs(s, r', j, c, n);
    assert SamePair(IssueAt(s, r, i), IssueAt(s, r', j));
    assert !HeardAt(s, r, i);
  }

  /** Two answers in flight from one client to one request would carry the same pair. */
  lemma FlightsOfOneClient(s: System, t: ThreadId, u: ThreadId)
    requires AllWellServed(s) && FlightsSound(s) && t in s.flights && u in s.flights
    requires s.flights[t].req == s.flights[u].req && s.flights[t].client == s.flights[u].client
    requires FlightsUsed(s)
    ensures t == u
  {
    var f, g := s.flights[t], s.flights[u];
    var n :| HasIssue(s, f.req, n) && Carries(IssueAt(s, f.req, n), f);
    var m :| HasIssue(s, g.req, m) && Carries(IssueAt(s, g.req, m), g);
    OnePairPerClient(s, f.req, n, m);
    assert SameAnswer(f, g);
  }

  lemma FlightStaysExpected(s: System, a: Action, t: ThreadId)
    requires AllWellServed(s) && FlightsSound(s) && FlightsUsed(s) && FlightsExpected(s) && Enabled(s, a)
    requires t in s.flights && t in Next(s, a).flights
    ensures Expected(Next(s, a), s.flights[t])
  {
    NewlyHeard(s, a);
    var g := s.flights[t];
    assert Expected(s, g);
    if RecordsFor(s, a, g.req, g.client) {
      FlightsOfOneClient(s, t, a.t);
    }
  }

  lemma FlightIsKept(s: System, a: Action, t: ThreadId)
    requires Enabled(s, a) && t in s.flights && t in Next(s, a).flights
    ensures Next(s, a).flights[t] == s.flights[t]
  {
  }

  lemma NewFlightExpected(s: System, a: Action, t: ThreadId)
    requires IndexSound(s) && SeqnumsUnique(s) && HeardUsed(s) && Enabled(s, a) && Proper(s, a)
    requires t !in s.flights && t in Next(s, a).flights
    ensures Expected(Next(s, a), Next(s, a).flights[t])
  {
    FreshAnswerExpected(s, a.client, a.seqnum);
  }

  lemma NextFlightsExpected(s: System, a: Action)
    requires IndexSound(s) && SeqnumsUnique(s) && FlightsSound(s)
    requires AllWellServed(s) && AnswersAccounted(s) && Enabled(s, a) && Proper(s, a)
    ensures FlightsExpected(Next(s, a))
  {
    forall t | t in Next(s, a).flights
      ensures Expected(Next(s, a), Next(s, a).flights[t])
    {
      if t in s.flights {
        FlightIsKept(s, a, t);
        FlightStaysExpected(s, a, t);
      } else {
        NewFlightExpected(s, a, t);
      }
    }
  }

  lemma {:induction false} PoliteSchedulesAreWellServed(acts: seq<Action>)
    requires Polite(acts)
    ensures AllWellServed(After(acts)) && AnswersAccounted(After(acts))
  {
    if acts != [] {
      var front := acts[..|acts| - 1];
      var s, a := After(front), acts[|acts| - 1];
      PoliteSchedulesAreWellServed(front);
      EveryScheduleIsSound(front);
      if Enabled(s, a) {
        NextWellServed(s, a);
        NextHeardUsed(s, a);
        NextFlightsUsed(s, a);
        NextFlightsExpected(s, a);
      }
    }
  }

  lemma RequestReportsTheStrictMerge(q: Request)
    requires RequestSound(q) && WellServed(q) && q.report.Report?
    ensures var D := ClientMap(Roster(q));
            if D == map[] then q.report == Report(ALLOW, map[])
            else Decided(D, Tail(q)) && q.report == Report(Merge(Outcome(D, Tail(q))), Outcome(D, Tail(q)))
  {
    var D := ClientMap(Roster(q));
    if q.issued == [] {
      assert Roster(q) == [];
    } else {
      assert Roster(q)[0].0 in D;
      ContextIsTailRun(q);
      StrictMergeRefined(D, Tail(q));
    }
  }

  /** The context of a served request is what its tail makes of its dispatch. */
  lemma ContextIsTailRun(q: Request)
    requires RequestSound(q) && WellServed(q)
    ensures q.ctx == Run(Dispatched(ClientMap(Roster(q))), Tail(q))
  {
    assert q.history == Registrations(Roster(q)) + Tail(q);
    DispatchThenTail(Roster(q), Tail(q));
  }

  /** Whatever is reported to a provider is the strict merge of the answers and the timeout of its own request, and
      ALLOW for a request that has no clients. */
  lemma ReportIsTheStrictMerge(acts: seq<Action>, r: RequestId)
    requires Polite(acts) && r in After(acts).requests && After(acts).requests[r].report.Report?
    ensures var q := After(acts).requests[r];
            && WellServed(q)
            && var D := ClientMap(Roster(q));
            if D == map[] then q.report == Report(ALLOW, map[])
            else Decided(D, Tail(q)) && q.report == Report(Merge(Outcome(D, Tail(q))), Outcome(D, Tail(q)))
  {
    EveryScheduleIsSound(acts);
    PoliteSchedulesAreWellServed(acts);
    RequestReportsTheStrictMerge(After(acts).requests[r]);
  }

  lemma ReportKept(s: System, a: Action, r: RequestId)
    requires Enabled(s, a) && r in s.requests && s.requests[r].report.Report? && RequestSound(s.requests[r])
    ensures r in Next(s, a).requests && Next(s, a).requests[r].report == s.requests[r].report
  {
  }

  lemma AfterOneMore(acts: seq<Action>, a: Action, all: seq<Action>)
    requires all == acts + [a]
    ensures After(all) == if Enabled(After(acts), a) then Next(After(acts), a) else After(acts)
  {
    assert all[..|all| - 1] == acts;
  }

  lemma {:induction false} ReportStays(acts: seq<Action>, more: seq<Action>, r: RequestId)
    requires r in After(acts).requests && After(acts).requests[r].report.Report?
    ensures r in After(acts + more).requests
    ensures After(acts + more).requests[r].report == After(acts).requests[r].report
  {
    if more == [] {
      assert acts + more == acts;
    } else {
      var n := |more| - 1;
      var before := acts + more[..n];
      ReportStays(acts, more[..n], r);
      EveryScheduleIsSound(before);
      AfterOneMore(before, more[n], acts + more);
      if Enabled(After(before), more[n]) {
        ReportKept(After(before), more[n], r);
      }
    }
  }

  /** A report never changes, and it keeps agreeing with the context it was read from without a lock, although late
      answers may still reach that context. */
  lemma ReportsAreStable(acts: seq<Action>, more: seq<Action>, r: RequestId)
    requires r in After(acts).requests && After(acts).requests[r].report.Report?
    ensures r in After(acts + more).requests
    ensures var q := After(acts + more).requests[r];
            q.report == After(acts).requests[r].report && q.report == Report(q.ctx.merged, q.ctx.results)
  {
    ReportStays(acts, more, r);
    EveryScheduleIsSound(acts + more);
  }
}
