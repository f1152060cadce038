/** Adding and removing filters of one client as the server does it: each call of a subscribed event leaves the lock to ask
    the filter plugin, and other calls may come in between. */
module FilterProtocol {
  import opened Common
  import opened EventSession

  /** A call that has left its first locked section and waits for the plugin. */
  datatype Pending = Adding(f: Filter) | Removing(f: Filter)

  datatype State = State(session: Option<Session>, calls: map<ThreadId, Pending>)

  const INIT := State(None, map[])

  /** `Finish` is the answer of the plugin together with the second locked section, which changes something only if the
      plugin has agreed. */
  datatype Action =
    | Create
    | Destroy
    | Subscribe(e: EventId)
    | Unsubscribe(e: EventId)
    | Add(t: ThreadId, f: Filter)
    | Remove(t: ThreadId, f: Filter)
    | Finish(t: ThreadId, ok: bool)

  predicate Enabled(s: State, a: Action) {
    match a
    case Add(t, _) => t !in s.calls
    case Remove(t, _) => t !in s.calls
    case Finish(t, _) => t in s.calls
    case _ => true
  }

  predicate Stands(s: State, f: Filter) {
    s.session.Some? && f in FiltersAt(s.session.value, f.eventId)
  }

  /** The check of an addition: there is a session, and the filter is not in it. */
  predicate Passes(s: State, f: Filter) {
    s.session.Some? && !Stands(s, f)
  }

  function Stored(s: State, f: Filter): State {
    if s.session.None? then s else s.(session := Some(WithFilter(s.session.value, f)))
  }

  function Erased(s: State, f: Filter): State {
    if !Stands(s, f) then s else s.(session := Some(WithoutFilter(s.session.value, f)))
  }

  predicate IsSubscribed(s: State, e: EventId) {
    s.session.Some? && e in s.session.value.subEvents
  }

  function Next(s: State, a: Action): State
    requires Enabled(s, a)
  {
    match a
    case Create => if s.session.Some? then s else s.(session := Some(Session({}, map[])))
    case Destroy => s.(session := None)
    case Subscribe(e) =>
      if s.session.None? then s
      else s.(session := Some(s.session.value.(subEvents := s.session.value.subEvents + {e})))
    case Unsubscribe(e) =>
      if s.session.None? then s
      else s.(session := Some(s.session.value.(subEvents := s.session.value.subEvents - {e})))
    case Add(t, f) =>
      if !Passes(s, f) then s
      else if !IsSubscribed(s, f.eventId) then Stored(s, f)
      else s.(calls := s.calls[t := Adding(f)])
    case Remove(t, f) =>
      if !Stands(s, f) then s
      else if !IsSubscribed(s, f.eventId) then Erased(s, f)
      else s.(calls := s.calls[t := Removing(f)])
    case Finish(t, ok) =>
      var s1 := s.(calls := s.calls - {t});
      if !ok then s1
      else if s.calls[t].Adding? then Stored(s1, s.calls[t].f)
      else Erased(s1, s.calls[t].f)
  }

  function Stepped(s: State, a: Action): State {
    if Enabled(s, a) then Next(s, a) else s
  }

  function Run(s: State, acts: seq<Action>): State {
    if acts == [] then s else Stepped(Run(s, acts[..|acts| - 1]), acts[|acts| - 1])
  }

  function After(acts: seq<Action>): State {
    Run(INIT, acts)
  }

  // ---------------------------------------------------------------- copies of one filter

  function CopiesIn(session: Option<Session>, f: Filter): nat {
    if session.None? then 0 else multiset(FiltersAt(session.value, f.eventId))[f]
  }

  function Copies(s: State, f: Filter): nat {
    CopiesIn(s.session, f)
  }

  function Adders(s: State, f: Filter): set<ThreadId> {
    set t | t in s.calls && s.calls[t] == Adding(f)
  }

  /** The copies there will be if every addition under way succeeds. */
  function Due(s: State, f: Filter): nat {
    Copies(s, f) + |Adders(s, f)|
  }

  lemma StoredCopies(s: State, g: Filter, f: Filter)
    requires s.session.Some?
    ensures Copies(Stored(s, g), f) == Copies(s, f) + if f == g then 1 else 0
  {
    var was, more := FiltersAt(s.session.value, g.eventId), FiltersAt(Stored(s, g).session.value, g.eventId);
    assert more == was + [g];
    if f.eventId != g.eventId {
      assert FiltersAt(Stored(s, g).session.value, f.eventId) == FiltersAt(s.session.value, f.eventId);
    }
  }

  lemma {:induction false} RemovedCopies<T>(xs: seq<T>, y: T, x: T)
    ensures multiset(Removed(xs, y))[x] == multiset(xs)[x] - if x == y && y in xs then 1 else 0
  {
    if xs != [] {
      assert xs == [xs[0]] + xs[1..];
      if xs[0] != y {
        RemovedCopies(xs[1..], y, x);
      }
    }
  }

  lemma ErasedCopies(s: State, g: Filter, f: Filter)
    ensures Copies(Erased(s, g), f) <= Copies(s, f)
  {
    if Stands(s, g) {
      var was, rest := FiltersAt(s.session.value, g.eventId), FiltersAt(Erased(s, g).session.value, g.eventId);
      RemovedCopies(was, g, f);
      assert rest == Removed(was, g);
      if f.eventId != g.eventId {
        assert FiltersAt(Erased(s, g).session.value, f.eventId) == FiltersAt(s.session.value, f.eventId);
      }
    }
  }

  lemma StandsHasCopies(s: State, f: Filter)
    ensures Stands(s, f) <==> Copies(s, f) >= 1
  {
  }

  lemma AddersWithout(s: State, t: ThreadId, f: Filter)
    requires t in s.calls
    ensures |Adders(s.(calls := s.calls - {t}), f)| == |Adders(s, f)| - if s.calls[t] == Adding(f) then 1 else 0
  {
    assert Adders(s.(calls := s.calls - {t}), f) == Adders(s, f) - {t};
  }

  lemma AddersWith(s: State, t: ThreadId, p: Pending, f: Filter)
    requires t !in s.calls
    ensures |Adders(s.(calls := s.calls[t := p]), f)| == |Adders(s, f)| + if p == Adding(f) then 1 else 0
  {
    assert Adders(s.(calls := s.calls[t := p]), f) == Adders(s, f) + if p == Adding(f) then {t} else {};
  }

  /** The step is an addition of `f` that passes its check. */
  predicate Enters(s: State, a: Action, f: Filter) {
    a.Add? && a.f == f && Enabled(s, a) && Passes(s, f)
  }

  lemma AddDue(s: State, t: ThreadId, g: Filter, f: Filter)
    requires Enabled(s, Add(t, g))
    ensures Due(Next(s, Add(t, g)), f) == Due(s, f) + if Enters(s, Add(t, g), f) then 1 else 0
  {
    if Passes(s, g) {
      if IsSubscribed(s, g.eventId) {
        AddersWith(s, t, Adding(g), f);
      } else {
        StoredCopies(s, g, f);
      }
    }
  }

  lemma FinishDue(s: State, t: ThreadId, ok: bool, f: Filter)
    requires Enabled(s, Finish(t, ok))
    ensures Due(Next(s, Finish(t, ok)), f) <= Due(s, f)
    ensures ok && s.session.Some? && s.calls[t] == Adding(f) ==>
              Copies(Next(s, Finish(t, ok)), f) == Copies(s, f) + 1 &&
              Adders(Next(s, Finish(t, ok)), f) == Adders(s, f) - {t}
  {
    var s1 := s.(calls := s.calls - {t});
    AddersWithout(s, t, f);
    ErasedCopies(s1, s.calls[t].f, f);
    if s.session.Some? {
      StoredCopies(s1, s.calls[t].f, f);
    }
  }

  /** Only an addition that passes its check raises what is due. */
  lemma StepDue(s: State, a: Action, f: Filter)
    ensures if Enters(s, a, f) then Due(Stepped(s, a), f) == |Adders(s, f)| + 1 else Due(Stepped(s, a), f) <= Due(s, f)
  {
    StandsHasCopies(s, f);
    if Enabled(s, a) {
      match a
      case Add(t, g) => AddDue(s, t, g, f);
      case Finish(t, ok) => FinishDue(s, t, ok, f);
      case Remove(t, g) =>
        ErasedCopies(s, g, f);
        AddersWith(s, t, Removing(g), f);
      case _ =>
    }
  }

  // ---------------------------------------------------------------- how often a filter can stand

  /** The most additions of `f` that were under way at once, each from the moment it passes its check. */
  function Peak(acts: seq<Action>, f: Filter): nat {
    if acts == [] then 0
    else
      var front, a := acts[..|acts| - 1], acts[|acts| - 1];
      var now := if Enters(After(front), a, f) then |Adders(After(front), f)| + 1 else 0;
      if now > Peak(front, f) then now else Peak(front, f)
  }

  predicate AddsNot(acts: seq<Action>, f: Filter) {
    forall i :: 0 <= i < |acts| ==> !(acts[i].Add? && acts[i].f == f)
  }

  /** In every interleaving the copies of a filter, with those still due, are no more than the additions of it that
      overlapped. */
  lemma {:induction false} CopiesBelowPeak(acts: seq<Action>, f: Filter)
    ensures Due(After(acts), f) <= Peak(acts, f)
  {
    if acts == [] {
      assert Adders(INIT, f) == {};
    } else {
      CopiesBelowPeak(acts[..|acts| - 1], f);
      StepDue(After(acts[..|acts| - 1]), acts[|acts| - 1], f);
    }
  }

  lemma {:induction false} NoMoreThanDue(s: State, more: seq<Action>, f: Filter)
    requires AddsNot(more, f)
    ensures Due(Run(s, more), f) <= Due(s, f)
  {
    if more != [] {
      NoMoreThanDue(s, more[..|more| - 1], f);
      StepDue(Run(s, more[..|more| - 1]), more[|more| - 1], f);
    }
  }

  lemma RunSnoc(s: State, acts: seq<Action>, a: Action)
    ensures Run(s, acts + [a]) == Stepped(Run(s, acts), a)
  {
    assert (acts + [a])[..|acts|] == acts;
  }

  /** And all of them can come to stand, in a session that is there or is created again. */
  lemma {:induction false} AllLand(s: State, done: seq<Action>, f: Filter) returns (more: seq<Action>)
    requires AddsNot(done, f) && Run(s, done).session.Some?
    ensures AddsNot(more, f) && Copies(Run(s, more), f) == Due(Run(s, done), f)
    decreases |Adders(Run(s, done), f)|
  {
    var now := Run(s, done);
    if Adders(now, f) == {} {
      more := done;
    } else {
      var t := Inhabited(Adders(now, f));
      FinishDue(now, t, true, f);
      AddersWithout(now, t, f);
      RunSnoc(s, done, Finish(t, true));
      more := AllLand(s, done + [Finish(t, true)], f);
    }
  }

  lemma DueCanLand(s: State, f: Filter) returns (more: seq<Action>)
    ensures AddsNot(more, f) && Copies(Run(s, more), f) == Due(s, f)
  {
    if s.session.Some? {
      more := AllLand(s, [], f);
    } else {
      RunSnoc(s, [], Create);
      assert Adders(Stepped(s, Create), f) == Adders(s, f);
      more := AllLand(s, [] + [Create], f);
    }
  }

  /** Whatever comes next, short of further additions of it, `f` never stands more than `k` times. */
  ghost predicate AtMost(s: State, f: Filter, k: nat) {
    forall more :: AddsNot(more, f) ==> Copies(Run(s, more), f) <= k
  }

  lemma AtMostExactly(s: State, f: Filter, k: nat)
    ensures AtMost(s, f, k) <==> Due(s, f) <= k
  {
    if Due(s, f) <= k {
      forall more | AddsNot(more, f)
        ensures Copies(Run(s, more), f) <= k
      {
        NoMoreThanDue(s, more, f);
      }
    } else {
      var more := DueCanLand(s, f);
    }
  }

  /** At every moment of the run. */
  ghost predicate AlwaysAtMost(acts: seq<Action>, f: Filter, k: nat) {
    AtMost(After(acts), f, k) && (acts == [] || AlwaysAtMost(acts[..|acts| - 1], f, k))
  }

  /** A filter can come to stand more than `k` times exactly if more than `k` additions of it overlap; so no filter is
      ever stored twice exactly if no two additions of it overlap. */
  lemma {:induction false} CopiesExactly(acts: seq<Action>, f: Filter, k: nat)
    ensures AlwaysAtMost(acts, f, k) <==> Peak(acts, f) <= k
  {
    AtMostExactly(After(acts), f, k);
    CopiesBelowPeak(acts, f);
    if acts != [] {
      CopiesExactly(acts[..|acts| - 1], f, k);
      StepDue(After(acts[..|acts| - 1]), acts[|acts| - 1], f);
    }
  }

  function FirstThreads(k: nat): (ts: set<ThreadId>)
    ensures |ts| == k && forall t :: t in ts ==> t < k
  {
    if k == 0 then {} else FirstThreads(k - 1) + {k - 1}
  }

  /** So many calls that have all passed the check before the plugin answers. */
  predicate Overlapping(s: State, f: Filter, k: nat) {
    && IsSubscribed(s, f.eventId) && !Stands(s, f)
    && s.calls.Keys == FirstThreads(k) && forall t :: t in s.calls ==> s.calls[t] == Adding(f)
  }

  lemma NoneOverlapYet(f: Filter)
    ensures Overlapping(After([Create, Subscribe(f.eventId)]), f, 0)
  {
    RunSnoc(INIT, [], Create);
    RunSnoc(INIT, [] + [Create], Subscribe(f.eventId));
    assert [Create, Subscribe(f.eventId)] == [] + [Create] + [Subscribe(f.eventId)];
  }

  lemma OneMoreOverlaps(s: State, f: Filter, k: nat)
    requires Overlapping(s, f, k)
    ensures Overlapping(Stepped(s, Add(k, f)), f, k + 1)
  {
    assert k !in FirstThreads(k);
    assert Stepped(s, Add(k, f)) == s.(calls := s.calls[k := Adding(f)]);
  }

  lemma {:induction false} OverlappingAdds(f: Filter, k: nat) returns (acts: seq<Action>)
    ensures Overlapping(After(acts), f, k)
  {
    if k == 0 {
      acts := [Create, Subscribe(f.eventId)];
      NoneOverlapYet(f);
    } else {
      var before := OverlappingAdds(f, k - 1);
      acts := before + [Add(k - 1, f)];
      RunSnoc(INIT, before, Add(k - 1, f));
      OneMoreOverlaps(After(before), f, k - 1);
    }
  }

  /** Any number of copies can be reached. */
  lemma AnyNumberOfCopies(f: Filter, k: nat) returns (acts: seq<Action>, more: seq<Action>)
    ensures Copies(After(acts), f) == 0 && AddsNot(more, f) && Copies(Run(After(acts), more), f) == k
  {
    acts := OverlappingAdds(f, k);
    assert Adders(After(acts), f) == FirstThreads(k);
    more := DueCanLand(After(acts), f);
  }

  // ---------------------------------------------------------------- calls that meet nobody

  /** A call that nothing overtakes does to the session what the sequential call does, and leaves nothing behind. */
  lemma AddAlone(s: State, t: ThreadId, f: Filter, outside: Code)
    requires t !in s.calls
    ensures Stepped(Stepped(s, Add(t, f)), Finish(t, outside == SUCCESS)) ==
            s.(session := AddingFilter(s.session, f, EventSession.Answer(SUCCESS, outside)).session)
  {
    assert s.calls[t := Adding(f)] - {t} == s.calls;
  }

  lemma RemoveAlone(s: State, t: ThreadId, f: Filter, outside: Code)
    requires t !in s.calls
    ensures Stepped(Stepped(s, Remove(t, f)), Finish(t, outside == SUCCESS)) ==
            s.(session := RemovingFilter(s.session, f, EventSession.Answer(SUCCESS, outside)).session)
  {
    assert s.calls[t := Removing(f)] - {t} == s.calls;
  }

  lemma SessionSteps(s: State, e: EventId)
    ensures Stepped(s, Create).session == Creating(s.session, OK).session
    ensures Stepped(s, Subscribe(e)).session == Subscribing(s.session, e, OK).session
    ensures Stepped(s, Unsubscribe(e)).session == Unsubscribing(s.session, e, OK).session
    ensures Stepped(s, Destroy).session == None
  {
    if s.session.Some? {
      var es := s.session.value.subEvents;
      assert e in es ==> es + {e} == es;
      assert e !in es ==> es - {e} == es;
    }
  }
}
