/** No request is ever stuck: whatever the clients do or fail to do, its own task can bring it to its report and clean up
    after it. */
module AuthCompletion {
  import opened Common
  import opened Text
  import opened RoutingContexts
  import opened StrictMerge
  import opened AuthCoordinator

  /** The schedule and then the given steps of request `r`'s own task. */
  function Then(acts: seq<Action>, r: RequestId, steps: seq<Step>): seq<Action> {
    acts + seq(|steps|, i requires 0 <= i < |steps| => Serve(r, steps[i]))
  }

  lemma OneMoreStep(acts: seq<Action>, r: RequestId, steps: seq<Step>, step: Step)
    requires var s := After(Then(acts, r, steps)); r in s.requests && Ready(s.requests[r], step)
    ensures var s, s1 := After(Then(acts, r, steps)), After(Then(acts, r, steps + [step]));
            s1 == Next(s, Serve(r, step)) && r in s1.requests
  {
    assert Then(acts, r, steps + [step]) == Then(acts, r, steps) + [Serve(r, step)];
    assert (Then(acts, r, steps) + [Serve(r, step)])[..|Then(acts, r, steps)|] == Then(acts, r, steps);
  }

  /** A request that has reported removes its entries one by one. */
  lemma {:induction false} CanCleanUp(acts: seq<Action>, r: RequestId, steps: seq<Step>) returns (more: seq<Step>)
    requires var s := After(Then(acts, r, steps)); r in s.requests && s.requests[r].phase.Closing?
    ensures var s := After(Then(acts, r, more));
            r in s.requests && s.requests[r].phase == Closing(|s.requests[r].issued|) && s.requests[r].report.Report?
    decreases var q := After(Then(acts, r, steps)).requests[r]; |q.issued| - q.phase.erased
  {
    EveryScheduleIsSound(Then(acts, r, steps));
    var q := After(Then(acts, r, steps)).requests[r];
    assert RequestSound(q);
    if q.phase.erased == |q.issued| {
      more := steps;
    } else {
      OneMoreStep(acts, r, steps, Erase);
      more := CanCleanUp(acts, r, steps + [Erase]);
    }
  }

  lemma CanReport(acts: seq<Action>, r: RequestId, steps: seq<Step>) returns (more: seq<Step>)
    requires var s := After(Then(acts, r, steps)); r in s.requests && !s.requests[r].phase.Dispatching?
    ensures var s := After(Then(acts, r, more)); r in s.requests && s.requests[r].phase.Closing?
  {
    var q := After(Then(acts, r, steps)).requests[r];
    more := steps;
    if q.phase.Waiting? {
      OneMoreStep(acts, r, more, Expire);
      more := more + [Expire];
    }
    if !q.phase.Closing? {
      OneMoreStep(acts, r, more, Build);
      more := more + [Build];
    }
  }

  lemma CanDispatch(acts: seq<Action>, r: RequestId) returns (more: seq<Step>)
    requires r in After(acts).requests
    ensures var s := After(Then(acts, r, more)); r in s.requests && !s.requests[r].phase.Dispatching?
  {
    EveryScheduleIsSound(acts);
    assert Then(acts, r, []) == acts;
    var q := After(acts).requests[r];
    assert RequestSound(q);
    more := [];
    if q.phase.Dispatching? {
      if q.indexed < |q.issued| {
        OneMoreStep(acts, r, more, IndexClient);
        more := more + [IndexClient];
      }
      OneMoreStep(acts, r, more, Push);
      more := more + [Push];
    }
  }

  /** From every reachable state the task of a request can go on to its report, with none of its pairs left in the
      index. */
  lemma EveryRequestCanEnd(acts: seq<Action>, r: RequestId) returns (steps: seq<Step>)
    requires r in After(acts).requests
    ensures var s := After(Then(acts, r, steps));
            && r in s.requests && s.requests[r].report.Report?
            && forall k :: k in s.index ==> s.index[k] != r
  {
    steps := CanDispatch(acts, r);
    steps := CanReport(acts, r, steps);
    steps := CanCleanUp(acts, r, steps);
    CleanupRemovesExactlyOwnEntries(Then(acts, r, steps), r);
  }

  /** A request that has been completed by its clients may go on at once, without its time being up. */
  lemma CompletedMayWake(acts: seq<Action>, r: RequestId)
    requires var s := After(acts);
             r in s.requests && s.requests[r].phase.Waiting? && s.requests[r].ctx.completed
    ensures Ready(After(acts).requests[r], Wake)
    ensures var s1 := Next(After(acts), Serve(r, Wake));
            r in s1.requests && Ready(s1.requests[r], Build)
  {
    EveryScheduleIsSound(acts);
    EveryRunIsSound(After(acts).requests[r].history);
  }

  /** Dispatching reaches any client that the request was not sent to, under a number its session has not used. */
  lemma DispatchTells(acts: seq<Action>, r: RequestId, c: ClientId, d: Strategy)
    requires var s := After(acts);
             && r in s.requests && s.requests[r].phase.Dispatching?
             && s.requests[r].indexed == |s.requests[r].issued|
             && forall i :: 0 <= i < |s.requests[r].issued| ==> s.requests[r].issued[i].client != c
    ensures Enabled(After(acts), Serve(r, RegisterClient(c, d)))
    ensures var s := After(acts);
            var s1 := Next(s, Serve(r, RegisterClient(c, d)));
            && r in s1.requests && |s1.requests[r].issued| == |s.requests[r].issued| + 1
            && var issue := s1.requests[r].issued[|s.requests[r].issued|];
            && issue.client == c && issue.default == d
            && issue.seqnum == (if c in s.counters then s.counters[c] + 1 else 1)
            && Ready(s1.requests[r], IndexClient)
  {
  }

  /** A request can always be begun under a fresh name, an answer be brought by a fresh thread and recorded, and a degraded
      client be notified, which uses up one number of its session. */
  lemma AlwaysOpen(s: System, r: RequestId, t: ThreadId, c: ClientId, n: int, allow: bool)
    ensures r !in s.requests ==> Enabled(s, Begin(r)) && Next(s, Begin(r)).requests == s.requests[r := NEW_REQUEST]
    ensures t !in s.flights ==> Enabled(s, Find(t, c, n, allow))
    ensures t in s.flights && s.flights[t].req in s.requests ==> Enabled(s, Record(t))
    ensures Enabled(s, Notify(c)) &&
            Next(s, Notify(c)) == s.(counters := s.counters[c := if c in s.counters then s.counters[c] + 1 else 1])
  {
  }
}
