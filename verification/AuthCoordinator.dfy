/** All concurrent requests of the coordinator, one action per critical section, in any interleaving. */
module AuthCoordinator {
  import opened Common
  import opened Text
  import opened RoutingContexts
  import opened StrictMerge

  type RequestId = nat

  /** One client a request was dispatched to, with the seqnum generated for it. */
  datatype Issue = Issue(client: ClientId, default: Strategy, seqnum: int)

  /** Dispatching, waiting for the result promise, woken (by it or by the timeout), erasing its index entries. */
  datatype Phase = Dispatching | Waiting | Woken | Closing(erased: nat)

  datatype Report = NoReport | Report(merged: Strategy, results: map<ClientId, Strategy>)

  /** `history` lists the critical sections of `ctx` so far. */
  datatype Request = Request(ctx: Context, issued: seq<Issue>, indexed: nat, phase: Phase, report: Report,
                             history: seq<Event>)

  /** An answer between `FindRoutingContext` and the lock of the context it found. */
  datatype Flight = Flight(req: RequestId, client: ClientId, seqnum: int, strategy: Strategy)

  datatype System = System(
    requests: map<RequestId, Request>,
    index: map<string, RequestId>,
    counters: map<ClientId, int>,
    flights: map<ThreadId, Flight>,
    answered: set<(ClientId, int)>)

  /** A critical section of the task that serves one request. */
  datatype Step =
    | RegisterClient(client: ClientId, default: Strategy)
    | IndexClient
    | Push
    | Expire
    | Wake
    | Build
    | Erase

  /** `Notify` is the notification of a degraded client, which uses up a seqnum that nothing routes. */
  datatype Action =
    | Begin(r: RequestId)
    | Serve(r: RequestId, step: Step)
    | Notify(client: ClientId)
    | Find(t: ThreadId, client: ClientId, seqnum: int, allow: bool)
    | Record(t: ThreadId)

  const INIT := System(map[], map[], map[], map[], {})
  const NEW_REQUEST := Request(EMPTY, [], 0, Dispatching, NoReport, [])

  function Counter(s: System, c: ClientId): int {
    if c in s.counters then s.counters[c] else 0
  }

  function KeyOf(i: Issue): string {
    SeqnumKey(i.client, i.seqnum)
  }

  function Advance(q: Request, e: Event): Request {
    q.(ctx := Apply(q.ctx, e), history := q.history + [e])
  }

  /** Whether the task of request `q` can take the step next. */
  predicate Ready(q: Request, step: Step) {
    match step
    case RegisterClient(c, _) =>
      q.phase.Dispatching? && q.indexed == |q.issued| && forall i :: 0 <= i < |q.issued| ==> q.issued[i].client != c
    case IndexClient => q.phase.Dispatching? && q.indexed < |q.issued|
    case Push => q.phase.Dispatching? && q.indexed == |q.issued|
    case Expire => q.phase.Waiting?
    case Wake => q.phase.Waiting? && q.ctx.resultSatisfied
    case Build => q.phase.Woken?
    case Erase => q.phase.Closing? && q.phase.erased < |q.issued|
  }

  predicate Enabled(s: System, a: Action) {
    match a
    case Begin(r) => r !in s.requests
    case Serve(r, step) => r in s.requests && Ready(s.requests[r], step)
    case Notify(_) => true
    case Find(t, _, _, _) => t !in s.flights
    case Record(t) => t in s.flights && s.flights[t].req in s.requests
  }

  /** The request after a step of its own task, `seqnum` being the next one of the client it registers.
      A request without clients is answered ALLOW at once, and so is one whose provider has become invalid before the
      dispatch: it is pushed to nobody. */
  function Served(q: Request, step: Step, seqnum: int): Request
    requires Ready(q, step)
  {
    match step
    case RegisterClient(c, d) => Advance(q.(issued := q.issued + [Issue(c, d, seqnum)]), Register(c, d))
    case IndexClient => q.(indexed := q.indexed + 1)
    case Push =>
      if q.issued == [] then q.(phase := Closing(0), report := Report(ALLOW, q.ctx.results))
      else q.(phase := Waiting)
    case Expire => Advance(q, Timeout).(phase := Woken)
    case Wake => q.(phase := Woken)
    case Build => q.(phase := Closing(0), report := Report(q.ctx.merged, q.ctx.results))
    case Erase => q.(phase := Closing(q.phase.erased + 1))
  }

  function NextSeqnum(s: System, step: Step): int {
    if step.RegisterClient? then Counter(s, step.client) + 1 else 0
  }

  function ServedIndex(index: map<string, RequestId>, r: RequestId, q: Request, step: Step): map<string, RequestId>
    requires Ready(q, step)
  {
    match step
    case IndexClient => index[KeyOf(q.issued[q.indexed]) := r]
    case Erase => index - {KeyOf(q.issued[q.phase.erased])}
    case _ => index
  }

  function Next(s: System, a: Action): System
    requires Enabled(s, a)
  {
    match a
    case Begin(r) => s.(requests := s.requests[r := NEW_REQUEST])
    case Serve(r, step) =>
      var q := s.requests[r];
      s.(requests := s.requests[r := Served(q, step, NextSeqnum(s, step))],
         index := ServedIndex(s.index, r, q, step),
         counters := if step.RegisterClient? then s.counters[step.client := NextSeqnum(s, step)] else s.counters)
    case Notify(c) => s.(counters := s.counters[c := Counter(s, c) + 1])
    case Find(t, c, n, allow) =>
      var key := SeqnumKey(c, n);
      if key !in s.index then s
      else
        s.(flights := s.flights[t := Flight(s.index[key], c, n, if allow then ALLOW else DENY)],
           answered := s.answered + {(c, n)})
    case Record(t) =>
      var f := s.flights[t];
      s.(requests := s.requests[f.req := Advance(s.requests[f.req], Answer(f.client, f.strategy))],
         flights := s.flights - {t})
  }

  /** The system after a schedule; an action that is not enabled when its turn comes is skipped. */
  function After(acts: seq<Action>): System {
    if acts == [] then INIT
    else
      var s := After(acts[..|acts| - 1]);
      var a := acts[|acts| - 1];
      if Enabled(s, a) then Next(s, a) else s
  }

  // ---------------------------------------------------------------- bookkeeping of a single request

  /** Each context is the run of its own history, whatever the other requests did. */
  ghost predicate RequestSound(q: Request) {
    && q.ctx == Run(EMPTY, q.history)
    && q.indexed <= |q.issued| <= q.indexed + 1
    && (!q.phase.Dispatching? ==> q.indexed == |q.issued|)
    && (q.phase.Closing? ==> q.phase.erased <= |q.issued|)
    && (q.issued == [] ==> q.history == [])
    && (q.phase.Waiting? || q.phase.Woken? ==> q.issued != [])
    && (q.phase.Woken? ==> q.ctx.completed)
    && (q.phase.Closing? <==> q.report.Report?)
    && (q.report.Report? ==> (q.ctx.completed || q.issued == []) && q.report == Report(q.ctx.merged, q.ctx.results))
  }

  ghost predicate RequestsSound(s: System) {
    forall r :: r in s.requests ==> RequestSound(s.requests[r])
  }

  lemma AdvanceSound(q: Request, e: Event)
    requires q.ctx == Run(EMPTY, q.history)
    ensures Advance(q, e).ctx == Run(EMPTY, Advance(q, e).history) && Sound(Advance(q, e).ctx)
    ensures q.ctx.completed && e.Answer? ==> Advance(q, e).ctx == q.ctx
    ensures e.Timeout? ==> Advance(q, e).ctx.completed
  {
    RunSnoc(EMPTY, q.history, e);
    EveryRunIsSound(q.history + [e]);
  }

  lemma ServedSound(q: Request, step: Step, seqnum: int)
    requires RequestSound(q) && Ready(q, step)
    ensures RequestSound(Served(q, step, seqnum))
  {
    EveryRunIsSound(q.history);
    if step.RegisterClient? {
      AdvanceSound(q.(issued := q.issued + [Issue(step.client, step.default, seqnum)]),
                   Register(step.client, step.default));
    } else if step.Expire? {
      AdvanceSound(q, Timeout);
    }
  }

  lemma RecordSound(q: Request, c: ClientId, s: Strategy)
    requires RequestSound(q) && q.issued != []
    ensures RequestSound(Advance(q, Answer(c, s)))
  {
    AdvanceSound(q, Answer(c, s));
    EveryRunIsSound(q.history);
  }

  // ---------------------------------------------------------------- routing

  predicate HasIssue(s: System, r: RequestId, i: int) {
    r in s.requests && 0 <= i < |s.requests[r].issued|
  }

  function IssueAt(s: System, r: RequestId, i: int): Issue
    requires HasIssue(s, r, i)
  {
    s.requests[r].issued[i]
  }

  /** Issue `i` of request `r` is in the index. */
  predicate LiveAt(s: System, r: RequestId, i: int) {
    HasIssue(s, r, i) && i < s.requests[r].indexed &&
    (s.requests[r].phase.Closing? ==> s.requests[r].phase.erased <= i)
  }

  predicate LiveAs(s: System, r: RequestId, i: int, key: string) {
    LiveAt(s, r, i) && key == KeyOf(IssueAt(s, r, i))
  }

  predicate SamePair(a: Issue, b: Issue) {
    a.client == b.client && a.seqnum == b.seqnum
  }

  ghost predicate SeqnumsBounded(s: System) {
    forall r, i :: HasIssue(s, r, i) ==> IssueAt(s, r, i).seqnum <= Counter(s, IssueAt(s, r, i).client)
  }

  /** A (client, seqnum) pair is issued once over all requests. */
  ghost predicate SeqnumsUnique(s: System) {
    forall r, i, r', j :: HasIssue(s, r, i) && HasIssue(s, r', j) && SamePair(IssueAt(s, r, i), IssueAt(s, r', j)) ==>
                            r == r' && i == j
  }

  /** The index maps exactly the live pairs, each to its own request. */
  ghost predicate IndexSound(s: System) {
    && (forall k :: k in s.index ==> exists i :: LiveAs(s, s.index[k], i, k))
    && (forall r, i :: LiveAt(s, r, i) ==>
          KeyOf(IssueAt(s, r, i)) in s.index && s.index[KeyOf(IssueAt(s, r, i))] == r)
  }

  predicate Registers(a: Action, r: RequestId) {
    a.Serve? && a.r == r && a.step.RegisterClient?
  }

  lemma IssuesKept(s: System, a: Action)
    requires Enabled(s, a)
    ensures forall r, i :: HasIssue(s, r, i) ==> HasIssue(Next(s, a), r, i) && IssueAt(Next(s, a), r, i) == IssueAt(s, r, i)
    ensures forall r, i :: HasIssue(Next(s, a), r, i) && !HasIssue(s, r, i) ==>
              Registers(a, r) &&
              IssueAt(Next(s, a), r, i) == Issue(a.step.client, a.step.default, Counter(s, a.step.client) + 1)
  {
  }

  lemma CountersGrow(s: System, a: Action)
    requires Enabled(s, a)
    ensures forall c :: Counter(s, c) <= Counter(Next(s, a), c)
    ensures forall r :: Registers(a, r) ==> Counter(Next(s, a), a.step.client) == Counter(s, a.step.client) + 1
  {
  }

  lemma NextSeqnums(s: System, a: Action)
    requires SeqnumsUnique(s) && SeqnumsBounded(s) && Enabled(s, a)
    ensures SeqnumsBounded(Next(s, a)) && SeqnumsUnique(Next(s, a))
  {
    IssuesKept(s, a);
    CountersGrow(s, a);
  }

  /** A step that leaves the index alone leaves the live pairs alone. */
  lemma LiveKept(s: System, a: Action)
    requires Enabled(s, a)
    requires a.Serve? ==> !a.step.IndexClient? && !a.step.Erase? && RequestSound(s.requests[a.r])
    ensures forall r, i :: LiveAt(Next(s, a), r, i) <==> LiveAt(s, r, i)
    ensures Next(s, a).index == s.index
  {
  }

  lemma IndexingMakesLive(s: System, a: Action)
    requires Enabled(s, a) && a.Serve? && a.step.IndexClient?
    ensures forall r, i :: LiveAt(Next(s, a), r, i) <==> LiveAt(s, r, i) || (r == a.r && i == s.requests[r].indexed)
  {
  }

  lemma ErasingEndsLive(s: System, a: Action)
    requires Enabled(s, a) && a.Serve? && a.step.Erase? && RequestSound(s.requests[a.r])
    ensures LiveAt(s, a.r, s.requests[a.r].phase.erased)
    ensures forall r, i :: LiveAt(Next(s, a), r, i) <==>
                             LiveAt(s, r, i) && !(r == a.r && i == s.requests[r].phase.erased)
  {
  }

  lemma IndexKept(s: System, a: Action)
    requires Enabled(s, a) && IndexSound(s)
    requires a.Serve? ==> !a.step.IndexClient? && !a.step.Erase? && RequestSound(s.requests[a.r])
    ensures IndexSound(Next(s, a))
  {
    IssuesKept(s, a);
    LiveKept(s, a);
    var s1 := Next(s, a);
    forall k | k in s1.index
      ensures exists i :: LiveAs(s1, s1.index[k], i, k)
    {
      var i :| LiveAs(s, s.index[k], i, k);
      assert LiveAs(s1, s1.index[k], i, k);
    }
  }

  lemma IndexExtended(s: System, a: Action)
    requires Enabled(s, a) && IndexSound(s) && SeqnumsUnique(s) && a.Serve? && a.step.IndexClient?
    ensures IndexSound(Next(s, a))
  {
    IssuesKept(s, a);
    IndexingMakesLive(s, a);
    var s1, n := Next(s, a), s.requests[a.r].indexed;
    var key := KeyOf(IssueAt(s, a.r, n));
    forall k | k in s1.index
      ensures exists i :: LiveAs(s1, s1.index[k], i, k)
    {
      if k == key {
        assert LiveAs(s1, a.r, n, k);
      } else {
        var i :| LiveAs(s, s.index[k], i, k);
        assert LiveAs(s1, s1.index[k], i, k);
      }
    }
    forall r, i | LiveAt(s1, r, i)
      ensures KeyOf(IssueAt(s1, r, i)) in s1.index && s1.index[KeyOf(IssueAt(s1, r, i))] == r
    {
      var x, y := IssueAt(s, r, i), IssueAt(s, a.r, n);
      if KeyOf(x) == key {
        SeqnumKeyInjective(x.client, x.seqnum, y.client, y.seqnum);
        assert SamePair(x, y);
      }
    }
  }

  predicate Erases(s: System, a: Action) {
    Enabled(s, a) && a.Serve? && a.step.Erase?
  }

  /** The entries that an erasing step leaves are live pairs. */
  lemma RemainingEntriesLive(s: System, a: Action, k: string)
    requires Erases(s, a) && IndexSound(s) && RequestSound(s.requests[a.r]) && k in Next(s, a).index
    ensures exists i :: LiveAs(Next(s, a), Next(s, a).index[k], i, k)
  {
    IssuesKept(s, a);
    ErasingEndsLive(s, a);
    var s1 := Next(s, a);
    var i :| LiveAs(s, s.index[k], i, k);
    assert LiveAs(s1, s1.index[k], i, k);
  }

  /** The live pairs that an erasing step leaves keep their entries, since no other pair has the erased key. */
  lemma RemainingPairsIndexed(s: System, a: Action, r: RequestId, i: int)
    requires Erases(s, a) && IndexSound(s) && SeqnumsUnique(s) && RequestSound(s.requests[a.r])
    requires LiveAt(s, r, i) && !(r == a.r && i == s.requests[r].phase.erased)
    ensures var key := KeyOf(IssueAt(s, r, i)); key in Next(s, a).index && Next(s, a).index[key] == r
  {
    ErasingEndsLive(s, a);
    var x, y := IssueAt(s, r, i), IssueAt(s, a.r, s.requests[a.r].phase.erased);
    if KeyOf(x) == KeyOf(y) {
      SeqnumKeyInjective(x.client, x.seqnum, y.client, y.seqnum);
    }
    assert KeyOf(x) != KeyOf(y) || SamePair(x, y);
  }

  lemma IndexReduced(s: System, a: Action)
    requires Erases(s, a) && IndexSound(s) && SeqnumsUnique(s) && RequestSound(s.requests[a.r])
    ensures IndexSound(Next(s, a))
  {
    IssuesKept(s, a);
    ErasingEndsLive(s, a);
    var s1 := Next(s, a);
    forall k | k in s1.index
      ensures exists i :: LiveAs(s1, s1.index[k], i, k)
    {
      RemainingEntriesLive(s, a, k);
    }
    forall r, i | LiveAt(s1, r, i)
      ensures KeyOf(IssueAt(s1, r, i)) in s1.index && s1.index[KeyOf(IssueAt(s1, r, i))] == r
    {
      RemainingPairsIndexed(s, a, r, i);
    }
  }

  lemma NextIndex(s: System, a: Action)
    requires Enabled(s, a) && IndexSound(s) && SeqnumsUnique(s) && RequestsSound(s)
    ensures IndexSound(Next(s, a))
  {
    if a.Serve? && a.step.IndexClient? {
      IndexExtended(s, a);
    } else if a.Serve? && a.step.Erase? {
      IndexReduced(s, a);
    } else {
      IndexKept(s, a);
    }
  }

  lemma FoundRequestIssuedThePair(s: System, c: ClientId, n: int)
    requires IndexSound(s) && SeqnumKey(c, n) in s.index
    ensures exists i :: LiveAt(s, s.index[SeqnumKey(c, n)], i) &&
                        IssueAt(s, s.index[SeqnumKey(c, n)], i).client == c &&
                        IssueAt(s, s.index[SeqnumKey(c, n)], i).seqnum == n
  {
    var r := s.index[SeqnumKey(c, n)];
    var i :| LiveAt(s, r, i) && SeqnumKey(c, n) == KeyOf(IssueAt(s, r, i));
    SeqnumKeyInjective(c, n, IssueAt(s, r, i).client, IssueAt(s, r, i).seqnum);
  }

  // ---------------------------------------------------------------- every schedule

  predicate Carries(i: Issue, f: Flight) {
    i.client == f.client && i.seqnum == f.seqnum
  }

  /** An answer in flight was routed to the request that issued its pair. */
  ghost predicate FlightsSound(s: System) {
    forall t :: t in s.flights ==>
      exists i :: HasIssue(s, s.flights[t].req, i) && Carries(IssueAt(s, s.flights[t].req, i), s.flights[t])
  }

  ghost predicate SystemSound(s: System) {
    RequestsSound(s) && FlightsSound(s) && SeqnumsBounded(s) && SeqnumsUnique(s) && IndexSound(s)
  }

  lemma NextRequests(s: System, a: Action)
    requires RequestsSound(s) && FlightsSound(s) && Enabled(s, a)
    ensures RequestsSound(Next(s, a))
  {
    match a
    case Begin(r) => assert RequestSound(NEW_REQUEST);
    case Serve(r, step) => ServedSound(s.requests[r], step, NextSeqnum(s, step));
    case Notify(_) =>
    case Find(t, c, n, allow) =>
    case Record(t) => RecordSound(s.requests[s.flights[t].req], s.flights[t].client, s.flights[t].strategy);
  }

  lemma NextFlights(s: System, a: Action)
    requires FlightsSound(s) && IndexSound(s) && Enabled(s, a)
    ensures FlightsSound(Next(s, a))
  {
    IssuesKept(s, a);
    var s1 := Next(s, a);
    forall t | t in s1.flights
      ensures exists i :: HasIssue(s1, s1.flights[t].req, i) && Carries(IssueAt(s1, s1.flights[t].req, i), s1.flights[t])
    {
      var f := s1.flights[t];
      if t in s.flights && s.flights[t] == f {
        var i :| HasIssue(s, f.req, i) && Carries(IssueAt(s, f.req, i), f);
        assert HasIssue(s1, f.req, i) && Carries(IssueAt(s1, f.req, i), f);
      } else {
        FoundRequestIssuedThePair(s, f.client, f.seqnum);
        var i :| LiveAt(s, f.req, i) && IssueAt(s, f.req, i).client == f.client && IssueAt(s, f.req, i).seqnum == f.seqnum;
        assert HasIssue(s1, f.req, i) && Carries(IssueAt(s1, f.req, i), f);
      }
    }
  }

  /** In every interleaving each context is the run of its own events, each index entry is a live pair of its own
      request, and each answer in flight belongs to the request that issued its pair. */
  lemma {:induction false} EveryScheduleIsSound(acts: seq<Action>)
    ensures SystemSound(After(acts))
  {
    if acts != [] {
      var s, a := After(acts[..|acts| - 1]), acts[|acts| - 1];
      EveryScheduleIsSound(acts[..|acts| - 1]);
      if Enabled(s, a) {
        NextRequests(s, a);
        NextFlights(s, a);
        NextSeqnums(s, a);
        NextIndex(s, a);
      }
    }
  }

  /** `SetAuthResult(c, n)` reaches the one request that issued `n` to `c`, or none. */
  lemma AnswersReachOnlyTheIssuer(acts: seq<Action>, c: ClientId, n: int, r: RequestId, i: int)
    requires var s := After(acts);
             HasIssue(s, r, i) && IssueAt(s, r, i).client == c && IssueAt(s, r, i).seqnum == n
    ensures var s := After(acts);
            SeqnumKey(c, n) in s.index <==> LiveAt(s, r, i)
    ensures var s := After(acts);
            SeqnumKey(c, n) in s.index ==> s.index[SeqnumKey(c, n)] == r
  {
    EveryScheduleIsSound(acts);
    var s := After(acts);
    if SeqnumKey(c, n) in s.index {
      FoundRequestIssuedThePair(s, c, n);
      var r' := s.index[SeqnumKey(c, n)];
      var j :| LiveAt(s, r', j) && IssueAt(s, r', j).client == c && IssueAt(s, r', j).seqnum == n;
      assert SamePair(IssueAt(s, r, i), IssueAt(s, r', j));
    }
  }

  /** Once a request has cleaned up, nothing routes to it any more, while every other request's live pairs still do. */
  lemma CleanupRemovesExactlyOwnEntries(acts: seq<Action>, r: RequestId)
    requires var s := After(acts);
             r in s.requests && s.requests[r].phase == Closing(|s.requests[r].issued|)
    ensures var s := After(acts);
            forall k :: k in s.index ==> s.index[k] != r
    ensures var s := After(acts);
            forall r', i :: LiveAt(s, r', i) ==> KeyOf(IssueAt(s, r', i)) in s.index && s.index[KeyOf(IssueAt(s, r', i))] == r'
  {
    EveryScheduleIsSound(acts);
  }
}
