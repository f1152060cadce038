/** What a provider is told, said of the schedule alone: who was sent the event, who said what and when the time was up. */
module AuthSchedules {
  import opened Common
  import opened Text
  import opened RoutingContexts
  import opened StrictMerge
  import opened StrictMergeLaws
  import opened AuthCoordinator
  import opened AuthGuarantee

  // ---------------------------------------------------------------- what the schedule says

  /** Pair (c, n) was issued by the request and has not been cleaned up. */
  ghost predicate IssuesLive(s: System, r: RequestId, c: ClientId, n: int) {
    exists i :: LiveAt(s, r, i) && IssueAt(s, r, i).client == c && IssueAt(s, r, i).seqnum == n
  }

  /** Thread `t` has brought the answer of `c` to a live pair of `r`, and has not recorded it yet. */
  ghost predicate Underway(acts: seq<Action>, t: ThreadId, r: RequestId, c: ClientId, n: int, allow: bool) {
    acts != [] &&
    var front, a := acts[..|acts| - 1], acts[|acts| - 1];
    (a == Find(t, c, n, allow) && t !in After(front).flights && IssuesLive(After(front), r, c, n)) ||
    (Underway(front, t, r, c, n, allow) && a != Record(t))
  }

  /** The last action records an answer of `c` in request `r`. */
  ghost predicate Delivers(acts: seq<Action>, r: RequestId, c: ClientId, allow: bool)
    requires acts != []
  {
    var front, a := acts[..|acts| - 1], acts[|acts| - 1];
    a.Record? && exists n :: Underway(front, a.t, r, c, n, allow)
  }

  ghost predicate Delivered(acts: seq<Action>, r: RequestId, c: ClientId, allow: bool) {
    acts != [] && (Delivered(acts[..|acts| - 1], r, c, allow) || Delivers(acts, r, c, allow))
  }

  /** The time was up while the request was waiting. */
  ghost predicate TimeUp(acts: seq<Action>, r: RequestId) {
    acts != [] &&
    var s, a := After(acts[..|acts| - 1]), acts[|acts| - 1];
    (a == Serve(r, Expire) && r in s.requests && s.requests[r].phase.Waiting?) || TimeUp(acts[..|acts| - 1], r)
  }

  ghost predicate DeliveredInTime(acts: seq<Action>, r: RequestId, c: ClientId, allow: bool) {
    acts != [] &&
    (DeliveredInTime(acts[..|acts| - 1], r, c, allow) ||
     (Delivers(acts, r, c, allow) && !TimeUp(acts[..|acts| - 1], r)))
  }

  /** The request was dispatched to the client, whose default is `d`. */
  ghost predicate Sent(acts: seq<Action>, r: RequestId, c: ClientId, d: Strategy) {
    acts != [] &&
    var s, a := After(acts[..|acts| - 1]), acts[|acts| - 1];
    (a == Serve(r, RegisterClient(c, d)) && Enabled(s, a)) || Sent(acts[..|acts| - 1], r, c, d)
  }

  // ---------------------------------------------------------------- the histories say the same

  lemma IndexedIsLive(s: System, r: RequestId, c: ClientId, n: int)
    requires IndexSound(s)
    ensures SeqnumKey(c, n) in s.index && s.index[SeqnumKey(c, n)] == r <==> IssuesLive(s, r, c, n)
  {
    if SeqnumKey(c, n) in s.index {
      FoundRequestIssuedThePair(s, c, n);
    }
    if IssuesLive(s, r, c, n) {
      var i :| LiveAt(s, r, i) && IssueAt(s, r, i).client == c && IssueAt(s, r, i).seqnum == n;
      assert KeyOf(IssueAt(s, r, i)) == SeqnumKey(c, n);
    }
  }

  /** Who is in flight after a step. */
  lemma NextFlight(s: System, a: Action, t: ThreadId, f: Flight)
    requires Enabled(s, a)
    ensures t in Next(s, a).flights && Next(s, a).flights[t] == f <==>
            if a.Find? && a.t == t
            then SeqnumKey(a.client, a.seqnum) in s.index &&
                 f == Flight(s.index[SeqnumKey(a.client, a.seqnum)], a.client, a.seqnum, if a.allow then ALLOW else DENY)
            else t in s.flights && s.flights[t] == f && !(a.Record? && a.t == t)
  {
  }

  /** An answer in flight is one under way, with the strategy that its client has given. */
  lemma {:induction false} FlightsAreUnderway(acts: seq<Action>, t: ThreadId, r: RequestId, c: ClientId, n: int, allow: bool)
    ensures Underway(acts, t, r, c, n, allow) <==>
            t in After(acts).flights && After(acts).flights[t] == Flight(r, c, n, if allow then ALLOW else DENY)
  {
    if acts != [] {
      var front, a := acts[..|acts| - 1], acts[|acts| - 1];
      var s := After(front);
      FlightsAreUnderway(front, t, r, c, n, allow);
      EveryScheduleIsSound(front);
      IndexedIsLive(s, r, c, n);
      if a.Record? && t in s.flights {
        FlightHasRequest(s, t);
      }
      if Enabled(s, a) {
        NextFlight(s, a, t, Flight(r, c, n, if allow then ALLOW else DENY));
      }
    }
  }

  lemma FlightHasRequest(s: System, t: ThreadId)
    requires FlightsSound(s) && t in s.flights
    ensures s.flights[t].req in s.requests
  {
  }

  lemma DeliversIs(acts: seq<Action>, r: RequestId, c: ClientId, allow: bool)
    requires acts != []
    ensures var s, a := After(acts[..|acts| - 1]), acts[|acts| - 1];
            Delivers(acts, r, c, allow) <==>
            a.Record? && Enabled(s, a) && s.flights[a.t].req == r && s.flights[a.t].client == c &&
            s.flights[a.t].strategy == if allow then ALLOW else DENY
  {
    var front, a := acts[..|acts| - 1], acts[|acts| - 1];
    EveryScheduleIsSound(front);
    if a.Record? {
      if n :| Underway(front, a.t, r, c, n, allow) {
        FlightsAreUnderway(front, a.t, r, c, n, allow);
        FlightHasRequest(After(front), a.t);
      }
      if a.t in After(front).flights {
        FlightsAreUnderway(front, a.t, r, c, After(front).flights[a.t].seqnum, allow);
      }
    }
  }

  /** What a step of its own task adds to the history of a request. */
  function StepEvents(step: Step): seq<Event> {
    match step
    case RegisterClient(c, d) => [Register(c, d)]
    case Expire => [Timeout]
    case _ => []
  }

  /** What an action adds to the history of request `r`. */
  function NewEvents(s: System, a: Action, r: RequestId): seq<Event> {
    if !Enabled(s, a) then []
    else
      match a
      case Serve(q, step) => if q == r then StepEvents(step) else []
      case Record(t) => if s.flights[t].req == r then [Answer(s.flights[t].client, s.flights[t].strategy)] else []
      case _ => []
  }

  lemma ServedHistory(q: Request, step: Step, n: int)
    requires Ready(q, step)
    ensures Served(q, step, n).history == q.history + StepEvents(step)
  {
  }

  lemma StepHistory(s: System, a: Action, r: RequestId)
    requires Enabled(s, a) && r in s.requests
    ensures r in Next(s, a).requests && Next(s, a).requests[r].history == s.requests[r].history + NewEvents(s, a, r)
  {
    if a.Serve? {
      ServedHistory(s.requests[a.r], a.step, NextSeqnum(s, a.step));
    }
  }

  lemma HistoryBegins(s: System, a: Action, r: RequestId)
    requires Enabled(s, a) && r !in s.requests && r in Next(s, a).requests
    ensures Next(s, a).requests[r].history == [] == NewEvents(s, a, r)
  {
  }

  lemma HistoryOneMore(acts: seq<Action>, r: RequestId)
    requires acts != [] && r in After(acts).requests
    ensures var s, a := After(acts[..|acts| - 1]), acts[|acts| - 1];
            After(acts).requests[r].history ==
            (if r in s.requests then s.requests[r].history else []) + NewEvents(s, a, r)
  {
    var s, a := After(acts[..|acts| - 1]), acts[|acts| - 1];
    if Enabled(s, a) {
      if r in s.requests {
        StepHistory(s, a, r);
      } else {
        HistoryBegins(s, a, r);
      }
    }
  }

  lemma InTimeOneMore(h: seq<Event>, e: Event, c: ClientId, s: Strategy)
    ensures InTime(h + [e], c, s) <==> InTime(h, c, s) || (e == Answer(c, s) && Timeout !in h)
  {
    var h1 := h + [e];
    assert forall i :: 0 <= i < |h| ==> h1[i] == h[i] && (InTimeAt(h1, i, c, s) <==> InTimeAt(h, i, c, s));
    assert InTimeAt(h1, |h|, c, s) <==> e == Answer(c, s) && Timeout !in h;
  }

  /** Request `r` has on record exactly the answers that were delivered to it, each as its client has given it. */
  lemma {:induction false} AnswersAreDelivered(acts: seq<Action>, r: RequestId, c: ClientId, allow: bool)
    ensures r !in After(acts).requests ==> !Delivered(acts, r, c, allow)
    ensures r in After(acts).requests ==>
              (Answer(c, if allow then ALLOW else DENY) in After(acts).requests[r].history <==>
               Delivered(acts, r, c, allow))
  {
    if acts != [] {
      AnswersAreDelivered(acts[..|acts| - 1], r, c, allow);
      DeliversIs(acts, r, c, allow);
      if r in After(acts).requests {
        HistoryOneMore(acts, r);
      }
    }
  }

  /** And the timeout exactly if its time was up. */
  lemma {:induction false} TimeoutsAreTimely(acts: seq<Action>, r: RequestId)
    ensures r !in After(acts).requests ==> !TimeUp(acts, r)
    ensures r in After(acts).requests ==> (Timeout in After(acts).requests[r].history <==> TimeUp(acts, r))
  {
    if acts != [] {
      TimeoutsAreTimely(acts[..|acts| - 1], r);
      if r in After(acts).requests {
        HistoryOneMore(acts, r);
      }
    }
  }

  lemma {:induction false} InTimeIsDeliveredInTime(acts: seq<Action>, r: RequestId, c: ClientId, allow: bool)
    ensures r !in After(acts).requests ==> !DeliveredInTime(acts, r, c, allow)
    ensures r in After(acts).requests ==>
              (InTime(After(acts).requests[r].history, c, if allow then ALLOW else DENY) <==>
               DeliveredInTime(acts, r, c, allow))
  {
    if acts != [] {
      var front := acts[..|acts| - 1];
      InTimeIsDeliveredInTime(front, r, c, allow);
      DeliversIs(acts, r, c, allow);
      TimeoutsAreTimely(front, r);
      if r in After(acts).requests {
        HistoryOneMore(acts, r);
        var h := if r in After(front).requests then After(front).requests[r].history else [];
        var more := NewEvents(After(front), acts[|acts| - 1], r);
        if more != [] {
          InTimeOneMore(h, more[0], c, if allow then ALLOW else DENY);
        } else {
          assert h + more == h;
        }
      }
    }
  }

  lemma {:induction false} RegisteredIsSent(acts: seq<Action>, r: RequestId, c: ClientId, d: Strategy)
    ensures r !in After(acts).requests ==> !Sent(acts, r, c, d)
    ensures r in After(acts).requests ==> (Register(c, d) in After(acts).requests[r].history <==> Sent(acts, r, c, d))
  {
    if acts != [] {
      RegisteredIsSent(acts[..|acts| - 1], r, c, d);
      if r in After(acts).requests {
        HistoryOneMore(acts, r);
      }
    }
  }

  // ---------------------------------------------------------------- the report

  lemma RosterIsRegistered(q: Request, c: ClientId, d: Strategy)
    requires WellServed(q)
    ensures c in ClientMap(Roster(q)) && ClientMap(Roster(q))[c] == d <==> Register(c, d) in q.history
  {
    var n := |q.issued|;
    ClientMapIs(Roster(q), c, d);
    assert q.history == q.history[..n] + Tail(q);
    assert forall i :: 0 <= i < n ==> q.history[i] == q.history[..n][i] == Register(Roster(q)[i].0, Roster(q)[i].1);
  }

  lemma {:induction false} ClientMapIs(rs: seq<(ClientId, Strategy)>, c: ClientId, d: Strategy)
    requires DistinctClients(rs)
    ensures c in ClientMap(rs) && ClientMap(rs)[c] == d <==> (c, d) in rs
  {
    if rs != [] {
      var n := |rs| - 1;
      ClientMapIs(rs[..n], c, d);
      assert rs == rs[..n] + [rs[n]];
      assert (rs[n].0, rs[n].1) == rs[n];
    }
  }

  /** The events before the tail are registrations. */
  lemma TailIs(q: Request)
    requires WellServed(q)
    ensures forall i :: 0 <= i < |q.issued| ==> q.history[i].Register?
    ensures forall i :: |q.issued| <= i < |q.history| ==> q.history[i] == Tail(q)[i - |q.issued|]
  {
    assert forall i :: 0 <= i < |q.issued| ==> q.history[i] == q.history[..|q.issued|][i];
  }

  lemma TailTellsTimeouts(q: Request)
    requires WellServed(q)
    ensures TimedOut(Tail(q)) <==> Timeout in q.history
  {
    TailIs(q);
    if Timeout in q.history {
      var i :| 0 <= i < |q.history| && q.history[i] == Timeout;
      assert Tail(q)[i - |q.issued|].Timeout?;
    }
  }

  lemma TailTellsAt(q: Request, i: nat, c: ClientId, s: Strategy)
    requires WellServed(q) && i < |Tail(q)|
    ensures InTimeAt(Tail(q), i, c, s) <==> InTimeAt(q.history, |q.issued| + i, c, s)
  {
    TailIs(q);
    assert forall j :: 0 <= j < i ==> Tail(q)[j] == q.history[|q.issued| + j];
  }

  lemma TailTells(q: Request, c: ClientId, s: Strategy)
    requires WellServed(q)
    ensures InTime(Tail(q), c, s) <==> InTime(q.history, c, s)
  {
    var n := |q.issued|;
    TailIs(q);
    if i :| 0 <= i < |Tail(q)| && InTimeAt(Tail(q), i, c, s) {
      TailTellsAt(q, i, c, s);
    }
    if i :| 0 <= i < |q.history| && InTimeAt(q.history, i, c, s) {
      TailTellsAt(q, i - n, c, s);
    }
  }

  /** A client that was sent the event, defaults to DENY and was not heard in time. */
  ghost predicate DenierSent(acts: seq<Action>, r: RequestId, c: ClientId) {
    Sent(acts, r, c, DENY) && !DeliveredInTime(acts, r, c, true) && !DeliveredInTime(acts, r, c, false)
  }

  ghost predicate SilentDenierSent(acts: seq<Action>, r: RequestId) {
    exists c :: DenierSent(acts, r, c)
  }

  lemma SameInTime(acts: seq<Action>, r: RequestId, c: ClientId)
    requires r in After(acts).requests && WellServed(After(acts).requests[r])
    ensures var es := Tail(After(acts).requests[r]);
            && (InTime(es, c, DENY) <==> DeliveredInTime(acts, r, c, false))
            && (InTime(es, c, ALLOW) <==> DeliveredInTime(acts, r, c, true))
  {
    var q := After(acts).requests[r];
    TailTells(q, c, DENY);
    TailTells(q, c, ALLOW);
    InTimeIsDeliveredInTime(acts, r, c, false);
    InTimeIsDeliveredInTime(acts, r, c, true);
  }

  lemma SameDenials(acts: seq<Action>, r: RequestId)
    requires r in After(acts).requests && WellServed(After(acts).requests[r])
    ensures (exists c :: InTime(Tail(After(acts).requests[r]), c, DENY)) <==>
            exists c :: DeliveredInTime(acts, r, c, false)
  {
    if c :| InTime(Tail(After(acts).requests[r]), c, DENY) {
      SameInTime(acts, r, c);
    }
    if c :| DeliveredInTime(acts, r, c, false) {
      SameInTime(acts, r, c);
    }
  }

  lemma SameSilenceOf(acts: seq<Action>, r: RequestId, c: ClientId)
    requires r in After(acts).requests && WellServed(After(acts).requests[r])
    ensures var q := After(acts).requests[r];
            DeniesInSilence(ClientMap(Roster(q)), Tail(q), c) <==> DenierSent(acts, r, c)
  {
    SameInTime(acts, r, c);
    RosterIsRegistered(After(acts).requests[r], c, DENY);
    RegisteredIsSent(acts, r, c, DENY);
  }

  lemma SameSilence(acts: seq<Action>, r: RequestId)
    requires r in After(acts).requests && WellServed(After(acts).requests[r])
    ensures var q := After(acts).requests[r];
            SilentDefaultDenies(ClientMap(Roster(q)), Tail(q)) <==> SilentDenierSent(acts, r)
  {
    var q := After(acts).requests[r];
    forall c
      ensures DeniesInSilence(ClientMap(Roster(q)), Tail(q), c) <==> DenierSent(acts, r, c)
    {
      SameSilenceOf(acts, r, c);
    }
  }

  lemma SameTimeout(acts: seq<Action>, r: RequestId)
    requires r in After(acts).requests && WellServed(After(acts).requests[r])
    ensures TimedOut(Tail(After(acts).requests[r])) <==> TimeUp(acts, r)
  {
    TimeoutsAreTimely(acts, r);
    TailTellsTimeouts(After(acts).requests[r]);
  }

  /** A provider is told DENY exactly if a client said so before the time was up, or the time was up and a client that
      was sent the event, and was not heard until then, defaults to DENY; otherwise it is told ALLOW. */
  lemma ReportedDenyExactly(acts: seq<Action>, r: RequestId)
    requires Polite(acts) && r in After(acts).requests && After(acts).requests[r].report.Report?
    ensures After(acts).requests[r].report.merged ==
            if (exists c :: DeliveredInTime(acts, r, c, false)) || (TimeUp(acts, r) && SilentDenierSent(acts, r))
            then DENY else ALLOW
  {
    var q := After(acts).requests[r];
    ReportIsTheStrictMerge(acts, r);
    SameDenials(acts, r);
    SameSilence(acts, r);
    SameTimeout(acts, r);
    var D := ClientMap(Roster(q));
    if D == map[] {
      NobodyIsInTime(q);
    } else {
      StrictMergeRefined(D, Tail(q));
      MergedDenyExactly(D, Tail(q));
    }
  }

  lemma NobodyIsInTime(q: Request)
    requires WellServed(q) && ClientMap(Roster(q)) == map[]
    ensures forall c :: !InTime(Tail(q), c, DENY)
  {
    assert forall i :: 0 <= i < |Tail(q)| && Tail(q)[i].Answer? ==> Tail(q)[i].client in ClientMap(Roster(q));
  }
}
