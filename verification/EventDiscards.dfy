/** A schedule in which a full batch is discarded although no task is waiting or running. */
module EventDiscards {
  import opened Common
  import opened EventBuffers

  lemma Extend(acts: seq<Action>, s: State, a: Action, s1: State, maxTasks: nat) returns (more: seq<Action>)
    requires After(Notify, acts, maxTasks) == s && Enabled(Notify, s, a) && Next(Notify, s, a, maxTasks) == s1
    ensures After(Notify, more, maxTasks) == s1
  {
    more := acts + [a];
    assert more[..|more| - 1] == acts;
  }

  /** Fewer than ten events fill the buffer only in part. */
  lemma {:induction false} GiveSome(acts: seq<Action>, s: State, t: Holder, k: nat, maxTasks: nat)
      returns (more: seq<Action>)
    requires After(Notify, acts, maxTasks) == s && s.buffer == [] && t !in s.held && k < MAX_CACHE_NOTIFY_EVENT_SIZE
    ensures After(Notify, more, maxTasks) == s.(given := s.given + k, buffer := From(s.given, k))
  {
    if k == 0 {
      more := acts;
    } else {
      more := GiveSome(acts, s, t, k - 1, maxTasks);
      assert From(s.given, k) == From(s.given, k - 1) + [s.given + k - 1];
      more := Extend(more, s.(given := s.given + (k - 1), buffer := From(s.given, k - 1)), Give(t),
                     s.(given := s.given + k, buffer := From(s.given, k)), maxTasks);
    }
  }

  /** The tenth event hands a caller the whole batch. */
  lemma GiveBatch(acts: seq<Action>, s: State, t: Holder, maxTasks: nat) returns (more: seq<Action>)
    requires After(Notify, acts, maxTasks) == s && s.buffer == [] && t !in s.held
    ensures After(Notify, more, maxTasks) ==
            s.(given := s.given + MAX_CACHE_NOTIFY_EVENT_SIZE,
               held := s.held[t := Batch(Checking, From(s.given, MAX_CACHE_NOTIFY_EVENT_SIZE))])
  {
    var k := MAX_CACHE_NOTIFY_EVENT_SIZE - 1;
    more := GiveSome(acts, s, t, k, maxTasks);
    assert From(s.given, k + 1) == From(s.given, k) + [s.given + k];
    more := Extend(more, s.(given := s.given + k, buffer := From(s.given, k)), Give(t),
                   s.(given := s.given + (k + 1), held := s.held[t := Batch(Checking, From(s.given, k + 1))]), maxTasks);
  }

  /** A task works off its events. */
  lemma {:induction false} WorkOff(acts: seq<Action>, s: State, t: Holder, maxTasks: nat) returns (more: seq<Action>)
    requires After(Notify, acts, maxTasks) == s && At(s, t, Running)
    ensures After(Notify, more, maxTasks) ==
            s.(held := s.held[t := Batch(Running, [])], finished := s.finished + Elements(s.held[t].events))
    decreases |s.held[t].events|
  {
    var events := s.held[t].events;
    if events == [] {
      more := acts;
      assert s.held[t := Batch(Running, [])] == s.held;
      assert s.finished + Elements([]) == s.finished;
    } else {
      var s1 := s.(held := s.held[t := Batch(Running, events[1..])], finished := s.finished + {events[0]});
      more := Extend(acts, s, Work(t), s1, maxTasks);
      more := WorkOff(more, s1, t, maxTasks);
      assert events == [events[0]] + events[1..];
      assert s1.finished + Elements(events[1..]) == s.finished + Elements(events);
      assert s1.held[t := Batch(Running, [])] == s.held[t := Batch(Running, [])];
    }
  }

  /** Caller 1 submits its batch as task 2; the task ends before the caller has counted it. */
  lemma EndsBeforeCounted(maxTasks: nat) returns (acts: seq<Action>)
    ensures After(Notify, acts, maxTasks) ==
            State(10, [], map[1 := Batch(Adding, [])], Elements(From(0, 10)), {}, UINT32_MODULUS - 1)
  {
    var xs := From(0, 10);
    acts := GiveBatch([], INIT, 1, maxTasks);
    var s1 := State(10, [], map[1 := Batch(Checking, xs)], {}, {}, 0);
    assert After(Notify, acts, maxTasks) == s1;
    var s2 := State(10, [], map[1 := Batch(Submitting, xs)], {}, {}, 0);
    acts := Extend(acts, s1, Check(1), s2, maxTasks);
    var s3 := State(10, [], map[1 := Batch(Adding, []), 2 := Batch(Running, xs)], {}, {}, 0);
    acts := Extend(acts, s2, Submit(1, 2, true), s3, maxTasks);
    acts := WorkOff(acts, s3, 2, maxTasks);
    var s4 := State(10, [], map[1 := Batch(Adding, []), 2 := Batch(Running, [])], Elements(xs), {}, 0);
    assert {} + Elements(xs) == Elements(xs);
    assert After(Notify, acts, maxTasks) == s4;
    acts := Extend(acts, s4, End(2), State(10, [], map[1 := Batch(Adding, [])], Elements(xs), {}, UINT32_MODULUS - 1), maxTasks);
  }

  /** With the counter below zero the next full batch is discarded: ten events are lost while no task is pending. Any
      limit on the tasks below the largest 32-bit number allows it. */
  lemma DiscardedWithNothingPending(maxTasks: nat) returns (acts: seq<Action>)
    requires maxTasks < UINT32_MODULUS - 1
    ensures var s := After(Notify, acts, maxTasks);
            && Holders(s, Running) == {} && Backlog(s) == -1
            && At(s, 3, Checking) && s.held[3].events == From(10, 10) && Crowded(s, maxTasks)
            && Next(Notify, s, Check(3), maxTasks).discarded == Elements(From(10, 10))
  {
    acts := EndsBeforeCounted(maxTasks);
    var s := After(Notify, acts, maxTasks);
    acts := GiveBatch(acts, s, 3, maxTasks);
    var s1 := After(Notify, acts, maxTasks);
    assert s1.held == map[1 := Batch(Adding, []), 3 := Batch(Checking, From(10, 10))];
    assert Holders(s1, Adding) == {1} && Holders(s1, Running) == {};
    assert {} + Elements(From(10, 10)) == Elements(From(10, 10));
  }
}
