/** Nothing that was given is ever beyond reach: from every state the callers, the flush and the tasks can bring each event
    to its end. */
module EventCompletion {
  import opened Common
  import opened EventBuffers

  function RunFrom(p: Pipeline, s: State, acts: seq<Action>, maxTasks: nat): State {
    if acts == [] then s
    else
      var s1 := RunFrom(p, s, acts[..|acts| - 1], maxTasks);
      if Enabled(p, s1, acts[|acts| - 1]) then Next(p, s1, acts[|acts| - 1], maxTasks) else s1
  }

  lemma {:induction false} RunConcat(p: Pipeline, a: seq<Action>, b: seq<Action>, maxTasks: nat)
    ensures After(p, a + b, maxTasks) == RunFrom(p, After(p, a, maxTasks), b, maxTasks)
  {
    if b == [] {
      assert a + b == a;
    } else {
      var n := |b| - 1;
      assert a + b == (a + b[..n]) + [b[n]];
      assert ((a + b[..n]) + [b[n]])[..|a| + n] == a + b[..n];
      RunConcat(p, a, b[..n], maxTasks);
    }
  }

  lemma Extend(p: Pipeline, s: State, acts: seq<Action>, a: Action, maxTasks: nat) returns (more: seq<Action>)
    requires Enabled(p, RunFrom(p, s, acts, maxTasks), a)
    ensures RunFrom(p, s, more, maxTasks) == Next(p, RunFrom(p, s, acts, maxTasks), a, maxTasks)
  {
    more := acts + [a];
    assert more[..|acts|] == acts;
  }

  /** A queued task, or the flush, uploads what it has and ends. */
  lemma {:induction false} TaskEnds(p: Pipeline, s: State, acts: seq<Action>, t: Holder, maxTasks: nat)
      returns (more: seq<Action>)
    requires var now := RunFrom(p, s, acts, maxTasks); At(now, t, Running) || At(now, t, Flushing)
    ensures var now, end := RunFrom(p, s, acts, maxTasks), RunFrom(p, s, more, maxTasks);
            end.held == now.held - {t} && end.buffer == now.buffer
    decreases |RunFrom(p, s, acts, maxTasks).held[t].events|
  {
    var now := RunFrom(p, s, acts, maxTasks);
    if now.held[t].events == [] {
      more := Extend(p, s, acts, End(t), maxTasks);
    } else {
      more := Extend(p, s, acts, Work(t), maxTasks);
      more := TaskEnds(p, s, more, t, maxTasks);
    }
  }

  lemma FreshHolder(s: State) returns (t: Holder)
    ensures t !in s.held
  {
    t := FreshIn(s.held.Keys);
    assert t !in s.held.Keys;
  }

  lemma {:induction false} FreshIn(ts: set<Holder>) returns (n: Holder)
    ensures forall t :: t in ts ==> t < n
  {
    if ts == {} {
      n := 0;
    } else {
      var t := Inhabited(ts);
      var m := FreshIn(ts - {t});
      n := if t < m then m else t + 1;
      forall u | u in ts
        ensures u < n
      {
        assert u == t || u in ts - {t};
      }
    }
  }

  /** A caller that is about to submit its batch does so, and the task works it off. */
  lemma SubmitterEnds(p: Pipeline, s: State, acts: seq<Action>, t: Holder, maxTasks: nat) returns (more: seq<Action>)
    requires At(RunFrom(p, s, acts, maxTasks), t, Submitting)
    ensures var now, end := RunFrom(p, s, acts, maxTasks), RunFrom(p, s, more, maxTasks);
            end.held == now.held - {t} && end.buffer == now.buffer
  {
    var now := RunFrom(p, s, acts, maxTasks);
    var task := FreshHolder(now);
    more := Extend(p, s, acts, Submit(t, task, true), maxTasks);
    more := Extend(p, s, more, CountUp(t), maxTasks);
    more := TaskEnds(p, s, more, task, maxTasks);
    assert (now.held[t := Batch(Adding, [])][task := Batch(Running, now.held[t].events)] - {t}) - {task} == now.held - {t};
  }

  lemma HolderEnds(p: Pipeline, s: State, acts: seq<Action>, t: Holder, maxTasks: nat) returns (more: seq<Action>)
    requires t in RunFrom(p, s, acts, maxTasks).held
    ensures var now, end := RunFrom(p, s, acts, maxTasks), RunFrom(p, s, more, maxTasks);
            end.held == now.held - {t} && end.buffer == now.buffer
  {
    var now := RunFrom(p, s, acts, maxTasks);
    match now.held[t].stage
    case Storing => more := Extend(p, s, acts, Hand(t), maxTasks);
    case Checking =>
      more := Extend(p, s, acts, Check(t), maxTasks);
      if !Crowded(now, maxTasks) {
        more := SubmitterEnds(p, s, more, t, maxTasks);
        assert now.held[t := Batch(Submitting, now.held[t].events)] - {t} == now.held - {t};
      }
    case Submitting => more := SubmitterEnds(p, s, acts, t, maxTasks);
    case Adding => more := Extend(p, s, acts, CountUp(t), maxTasks);
    case Running => more := TaskEnds(p, s, acts, t, maxTasks);
    case Flushing => more := TaskEnds(p, s, acts, t, maxTasks);
  }

  lemma {:induction false} HoldersEnd(p: Pipeline, s: State, acts: seq<Action>, maxTasks: nat)
      returns (more: seq<Action>)
    ensures RunFrom(p, s, more, maxTasks).held == map[]
    ensures RunFrom(p, s, more, maxTasks).buffer == RunFrom(p, s, acts, maxTasks).buffer
    decreases |RunFrom(p, s, acts, maxTasks).held.Keys|
  {
    var now := RunFrom(p, s, acts, maxTasks);
    if now.held.Keys == {} {
      more := acts;
    } else {
      var t := Inhabited(now.held.Keys);
      more := HolderEnds(p, s, acts, t, maxTasks);
      assert RunFrom(p, s, more, maxTasks).held.Keys == now.held.Keys - {t};
      more := HoldersEnd(p, s, more, maxTasks);
    }
  }

  lemma FlushEmpties(p: Pipeline, s: State, acts: seq<Action>, maxTasks: nat) returns (more: seq<Action>)
    requires RunFrom(p, s, acts, maxTasks).held == map[]
    ensures RunFrom(p, s, more, maxTasks).held == map[] && RunFrom(p, s, more, maxTasks).buffer == []
  {
    more := Extend(p, s, acts, Flush(0), maxTasks);
    more := HoldersEnd(p, s, more, maxTasks);
  }

  /** From every reachable state some continuation leaves nothing buffered and nothing under way: each event that was
      given is then finished or discarded. */
  lemma EveryEventCanEnd(p: Pipeline, acts: seq<Action>, maxTasks: nat) returns (more: seq<Action>)
    ensures var s := After(p, acts + more, maxTasks);
            s.held == map[] && s.buffer == [] && forall x: nat :: x < s.given ==> x in s.finished || x in s.discarded
  {
    var s := After(p, acts, maxTasks);
    more := HoldersEnd(p, s, [], maxTasks);
    more := FlushEmpties(p, s, more, maxTasks);
    RunConcat(p, acts, more, maxTasks);
    forall x: nat | x < After(p, acts + more, maxTasks).given
      ensures var s := After(p, acts + more, maxTasks); x in s.finished || x in s.discarded
    {
      AtRest(p, acts + more, maxTasks, x);
    }
  }

  /** The flush takes the whole buffer, in order. */
  lemma FlushTells(p: Pipeline, s: State, t: Holder, maxTasks: nat)
    requires t !in s.held
    ensures Enabled(p, s, Flush(t))
    ensures var s1 := Next(p, s, Flush(t), maxTasks);
            && s1.buffer == [] && s1.given == s.given && s1.taskCount == s.taskCount
            && s1.held.Keys == s.held.Keys + {t} && s1.held[t].events == s.buffer
            && forall u :: u in s.held ==> s1.held[u] == s.held[u]
  {
  }
}
