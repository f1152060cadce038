/** The subscription ledger under every interleaving of its callers: sessions change under `sessionMutex_`, collectors
    are started and stopped under `subscribeMutex_` after a recheck. */
module SubscribeProtocol {
  import opened Common
  import opened SubscribeManager

  /** Where a caller stands between two critical sections. The middle places of each group hold `subscribeMutex_`:
      acquired and about to recheck, then rechecked and about to call the collector framework. */
  datatype Place =
    | InsertBooked(c: ClientId, e: EventId, created: bool)
    | InsertLocked(c: ClientId, e: EventId, created: bool)
    | InsertCalling(c: ClientId, e: EventId, created: bool)
    | InsertFailed(c: ClientId, e: EventId, created: bool)
    | RemoveBooked(c: ClientId, e: EventId, cleanup: bool)
    | RemoveLocked(c: ClientId, e: EventId, cleanup: bool)
    | RemoveCalling(c: ClientId, e: EventId, cleanup: bool)
    | RemoveFailed(c: ClientId, e: EventId, cleanup: bool)
    | RemoveDone(c: ClientId, cleanup: bool)
    | Draining(es: set<EventId>)
    | DrainLocked(e: EventId, es: set<EventId>)
    | DrainCalling(e: EventId, es: set<EventId>)

  datatype Holder = Free | HeldBy(t: ThreadId)

  datatype State = State(sessions: Sessions, running: set<EventId>, holder: Holder, threads: map<ThreadId, Place>)

  datatype Action =
    | Insert(t: ThreadId, c: ClientId, e: EventId, create: bool)
    | Remove(t: ThreadId, c: ClientId, e: EventId, cleanup: bool)
    | Create(t: ThreadId, c: ClientId)
    | Take(t: ThreadId, c: ClientId)
    | Continue(t: ThreadId, pick: EventId)

  const INIT := State(map[], {}, Free, map[])

  predicate HoldsLock(p: Place) {
    p.InsertLocked? || p.InsertCalling? || p.RemoveLocked? || p.RemoveCalling? || p.DrainLocked? || p.DrainCalling?
  }

  predicate WantsLock(p: Place) {
    p.InsertBooked? || p.RemoveBooked? || (p.Draining? && p.es != {})
  }

  predicate Enabled(s: State, a: Action) {
    match a
    case Continue(t, pick) =>
      t in s.threads && (WantsLock(s.threads[t]) ==> s.holder.Free?) &&
      (s.threads[t].Draining? && s.threads[t].es != {} ==> pick in s.threads[t].es)
    case _ => a.t !in s.threads
  }

  function Goes(s: State, t: ThreadId, p: Place): State {
    s.(threads := s.threads[t := p])
  }

  function Ends(s: State, t: ThreadId): State {
    s.(threads := s.threads - {t})
  }

  /** The next critical section of a caller. `starts(e)`: whether the framework starts the collector of `e`; a running
      collector is always stopped on request. */
  function Resume(s: State, t: ThreadId, p: Place, pick: EventId, starts: EventId -> bool): State
    requires p.Draining? && p.es != {} ==> pick in p.es
  {
    match p
    case InsertBooked(c, e, created) => Goes(s, t, InsertLocked(c, e, created)).(holder := HeldBy(t))
    case InsertLocked(c, e, created) =>
      if AnySubscribes(s.sessions, e) then Goes(s, t, InsertCalling(c, e, created))
      else Ends(s, t).(holder := Free)
    case InsertCalling(c, e, created) =>
      if e in s.running || starts(e) then Ends(s, t).(holder := Free, running := s.running + {e})
      else Goes(s, t, InsertFailed(c, e, created)).(holder := Free)
    case InsertFailed(c, e, created) => Ends(s, t).(sessions := RolledBack(s.sessions, c, e, created))
    case RemoveBooked(c, e, cleanup) => Goes(s, t, RemoveLocked(c, e, cleanup)).(holder := HeldBy(t))
    case RemoveLocked(c, e, cleanup) =>
      if AnySubscribes(s.sessions, e) then Goes(s, t, RemoveDone(c, cleanup)).(holder := Free)
      else Goes(s, t, RemoveCalling(c, e, cleanup))
    case RemoveCalling(c, e, cleanup) =>
      if e in s.running then Goes(s, t, RemoveDone(c, cleanup)).(holder := Free, running := s.running - {e})
      else Goes(s, t, RemoveFailed(c, e, cleanup)).(holder := Free)
    case RemoveFailed(c, e, cleanup) => Ends(s, t).(sessions := Rebooked(s.sessions, c, e))
    case RemoveDone(c, cleanup) => Ends(s, t).(sessions := Tidied(s.sessions, c, cleanup))
    case Draining(es) =>
      if es == {} then Ends(s, t)
      else Goes(s, t, DrainLocked(pick, es - {pick})).(holder := HeldBy(t))
    case DrainLocked(e, es) =>
      if AnySubscribes(s.sessions, e) then Goes(s, t, Draining(es)).(holder := Free)
      else Goes(s, t, DrainCalling(e, es))
    case DrainCalling(e, es) => Goes(s, t, Draining(es)).(holder := Free, running := s.running - {e})
  }

  function Next(s: State, a: Action, starts: EventId -> bool): State
    requires Enabled(s, a)
  {
    match a
    case Insert(t, c, e, create) =>
      if Subscribed(s.sessions, c, e) || (c !in s.sessions && !create) then s
      else Goes(s, t, InsertBooked(c, e, c !in s.sessions)).(sessions := Booked(s.sessions, c, e))
    case Remove(t, c, e, cleanup) =>
      if !Subscribed(s.sessions, c, e) then s
      else Goes(s, t, RemoveBooked(c, e, cleanup)).(sessions := Unbooked(s.sessions, c, e))
    case Create(_, c) => s.(sessions := Created(s.sessions, c))
    case Take(t, c) =>
      if c !in s.sessions then s
      else Goes(s, t, Draining(s.sessions[c])).(sessions := s.sessions - {c})
    case Continue(t, pick) => Resume(s, t, s.threads[t], pick, starts)
  }

  function After(acts: seq<Action>, starts: EventId -> bool): State {
    if acts == [] then INIT
    else
      var s := After(acts[..|acts| - 1], starts);
      if Enabled(s, acts[|acts| - 1]) then Next(s, acts[|acts| - 1], starts) else s
  }

  // ---------------------------------------------------------------- no collector leaks

  /** The caller has yet to finish its `UnSubscribeScIfLast` for `e`. */
  predicate WillCheckStop(p: Place, e: EventId) {
    match p
    case RemoveBooked(_, f, _) => f == e
    case RemoveLocked(_, f, _) => f == e
    case RemoveCalling(_, f, _) => f == e
    case Draining(es) => e in es
    case DrainLocked(f, es) => f == e || e in es
    case DrainCalling(f, es) => f == e || e in es
    case _ => false
  }

  predicate Starting(p: Place, e: EventId) {
    p.InsertCalling? && p.e == e
  }

  ghost predicate SomeStarting(s: State, e: EventId) {
    exists t :: t in s.threads && Starting(s.threads[t], e)
  }

  ghost predicate StopPending(s: State, e: EventId) {
    exists t :: t in s.threads && WillCheckStop(s.threads[t], e)
  }

  /** `subscribeMutex_` is held by at most the thread that stands inside its section. */
  ghost predicate Exclusive(s: State) {
    forall t :: t in s.threads && HoldsLock(s.threads[t]) ==> s.holder == HeldBy(t)
  }

  /** A collector that runs or is being started without a subscriber will be looked at by a pending removal. */
  ghost predicate NoLeak(s: State, e: EventId) {
    (e in s.running || SomeStarting(s, e)) && !AnySubscribes(s.sessions, e) ==> StopPending(s, e)
  }

  /** Callers whose start failed are those of events that the framework never starts. */
  ghost predicate FailuresAreLasting(s: State, starts: EventId -> bool) {
    && (forall t :: t in s.threads && s.threads[t].InsertFailed? ==> !starts(s.threads[t].e))
    && (forall e :: e in s.running ==> starts(e))
  }

  lemma NextExclusive(s: State, a: Action, starts: EventId -> bool)
    requires Exclusive(s) && Enabled(s, a)
    ensures Exclusive(Next(s, a, starts))
  {
  }

  lemma NextFailures(s: State, a: Action, starts: EventId -> bool)
    requires FailuresAreLasting(s, starts) && Enabled(s, a)
    ensures FailuresAreLasting(Next(s, a, starts), starts)
  {
  }

  lemma SessionStepsKeep(ss: Sessions, d: ClientId, f: EventId, flag: bool, c: ClientId, e: EventId)
    requires Subscribed(ss, c, e)
    ensures Subscribed(Rebooked(ss, d, f), c, e)
    ensures Subscribed(Tidied(ss, d, flag), c, e)
    ensures f != e ==> Subscribed(RolledBack(ss, d, f, flag), c, e)
  {
    assert e in ss[c] - {f} || e == f;
  }

  /** Only these steps take event `e` out of a session. */
  lemma LosesSubscriberOnlyBy(s: State, a: Action, starts: EventId -> bool, e: EventId)
    requires Enabled(s, a) && AnySubscribes(s.sessions, e) && !AnySubscribes(Next(s, a, starts).sessions, e)
    ensures a.Continue? ==> s.threads[a.t].InsertFailed? && s.threads[a.t].e == e
    ensures !a.Continue? ==> StopPending(Next(s, a, starts), e)
  {
    var s1 := Next(s, a, starts);
    var c :| c in s.sessions && e in s.sessions[c];
    assert !Subscribed(s1.sessions, c, e);
    if a.Continue? {
      var p := s.threads[a.t];
      if p.InsertFailed? {
        SessionStepsKeep(s.sessions, p.c, p.e, p.created, c, e);
      } else if p.RemoveFailed? {
        SessionStepsKeep(s.sessions, p.c, p.e, p.cleanup, c, e);
      } else if p.RemoveDone? {
        SessionStepsKeep(s.sessions, p.c, e, p.cleanup, c, e);
      }
    } else if !a.Create? {
      assert WillCheckStop(s1.threads[a.t], e);
    }
  }

  /** A caller that looks at `e` inside its section lets go of it only when it finds a subscriber, or with the collector
      off. */
  lemma StopDutyEnds(s: State, t: ThreadId, pick: EventId, starts: EventId -> bool, e: EventId)
    requires Enabled(s, Continue(t, pick)) && WillCheckStop(s.threads[t], e)
    requires var s1 := Next(s, Continue(t, pick), starts); !(t in s1.threads && WillCheckStop(s1.threads[t], e))
    ensures HoldsLock(s.threads[t])
    ensures var s1 := Next(s, Continue(t, pick), starts); AnySubscribes(s1.sessions, e) || e !in s1.running
  {
  }

  /** While one thread is in the section no other thread is starting anything, nor does a step of it begin to. */
  lemma HolderKeepsOthersOut(s: State, t: ThreadId, pick: EventId, starts: EventId -> bool, e: EventId)
    requires Enabled(s, Continue(t, pick)) && Exclusive(s) && HoldsLock(s.threads[t]) && !s.threads[t].InsertLocked?
    ensures !SomeStarting(Next(s, Continue(t, pick), starts), e)
  {
    var s1 := Next(s, Continue(t, pick), starts);
    if SomeStarting(s1, e) {
      var u :| u in s1.threads && Starting(s1.threads[u], e);
      assert u != t ==> HoldsLock(s.threads[u]);
    }
  }

  /** A step ends a thread's duty to look at `e` only when `e` has a subscriber, or once its collector is off. */
  lemma StopDutyEndsOnlyBy(s: State, a: Action, starts: EventId -> bool, e: EventId)
    requires Enabled(s, a) && Exclusive(s) && StopPending(s, e) && !StopPending(Next(s, a, starts), e)
    ensures AnySubscribes(Next(s, a, starts).sessions, e) ||
            (e !in Next(s, a, starts).running && !SomeStarting(Next(s, a, starts), e))
  {
    var t :| t in s.threads && WillCheckStop(s.threads[t], e);
    OnlyOwnStepsMoveAThread(s, a, starts, t);
    StopDutyEnds(s, t, a.pick, starts, e);
    HolderKeepsOthersOut(s, t, a.pick, starts, e);
  }

  lemma OnlyOwnStepsMoveAThread(s: State, a: Action, starts: EventId -> bool, t: ThreadId)
    requires Enabled(s, a) && t in s.threads
    ensures (a.Continue? && a.t == t) ||
            (t in Next(s, a, starts).threads && Next(s, a, starts).threads[t] == s.threads[t])
  {
  }

  /** A collector begins to start only while its event has a subscriber. */
  lemma StartsOnlyBy(s: State, a: Action, starts: EventId -> bool, e: EventId)
    requires Enabled(s, a) && !(e in s.running || SomeStarting(s, e))
    requires e in Next(s, a, starts).running || SomeStarting(Next(s, a, starts), e)
    ensures AnySubscribes(Next(s, a, starts).sessions, e)
  {
    var s1 := Next(s, a, starts);
    if a.Continue? {
      assert !Starting(s.threads[a.t], e);
    }
    var u :| u in s1.threads && Starting(s1.threads[u], e);
    assert u == a.t && a.Continue?;
    assert s.threads[u].InsertLocked?;
  }

  lemma NextNoLeak(s: State, a: Action, starts: EventId -> bool, e: EventId)
    requires Exclusive(s) && FailuresAreLasting(s, starts) && Enabled(s, a) && starts(e)
    requires NoLeak(s, e)
    ensures NoLeak(Next(s, a, starts), e)
  {
    var s1 := Next(s, a, starts);
    if (e in s1.running || SomeStarting(s1, e)) && !AnySubscribes(s1.sessions, e) && !StopPending(s1, e) {
      if AnySubscribes(s.sessions, e) {
        LosesSubscriberOnlyBy(s, a, starts, e);
      } else if !(e in s.running || SomeStarting(s, e)) {
        StartsOnlyBy(s, a, starts, e);
      } else {
        StopDutyEndsOnlyBy(s, a, starts, e);
      }
    }
  }

  /** Over every interleaving: an event whose collector the framework starts is never left running, or being started,
      without a subscriber, unless some removal has yet to look at it. An event it does not start never runs. */
  lemma {:induction false} NoCollectorLeaks(acts: seq<Action>, starts: EventId -> bool, e: EventId)
    ensures Exclusive(After(acts, starts)) && FailuresAreLasting(After(acts, starts), starts)
    ensures starts(e) ==> NoLeak(After(acts, starts), e)
    ensures !starts(e) ==> e !in After(acts, starts).running
  {
    if acts != [] {
      var s, a := After(acts[..|acts| - 1], starts), acts[|acts| - 1];
      NoCollectorLeaks(acts[..|acts| - 1], starts, e);
      if Enabled(s, a) {
        NextExclusive(s, a, starts);
        NextFailures(s, a, starts);
        if starts(e) {
          NextNoLeak(s, a, starts, e);
        }
      }
    }
  }

  ghost predicate NeverLeaks(starts: EventId -> bool, e: EventId) {
    forall acts :: NoLeak(After(acts, starts), e)
  }

  lemma Extend(acts: seq<Action>, starts: EventId -> bool, s: State, a: Action, s1: State)
    requires After(acts, starts) == s && Enabled(s, a) && Next(s, a, starts) == s1
    ensures After(acts + [a], starts) == s1
  {
    assert (acts + [a])[..|acts|] == acts;
  }

  /** A first insert of an event whose collector never starts has failed, and is about to roll back. */
  lemma FirstInsertFails(starts: EventId -> bool, c: ClientId, e: EventId) returns (acts: seq<Action>)
    requires !starts(e)
    ensures After(acts, starts) == State(map[c := {e}], {}, Free, map[1 := InsertFailed(c, e, true)])
  {
    var ss: Sessions := map[c := {e}];
    var s1 := State(ss, {}, Free, map[1 := InsertBooked(c, e, true)]);
    var s2 := State(ss, {}, HeldBy(1), map[1 := InsertLocked(c, e, true)]);
    var s3 := State(ss, {}, HeldBy(1), map[1 := InsertCalling(c, e, true)]);
    assert e in ss[c];
    Extend([], starts, INIT, Insert(1, c, e, true), s1);
    acts := [] + [Insert(1, c, e, true)];
    Extend(acts, starts, s1, Continue(1, e), s2);
    acts := acts + [Continue(1, e)];
    Extend(acts, starts, s2, Continue(1, e), s3);
    acts := acts + [Continue(1, e)];
    Extend(acts, starts, s3, Continue(1, e), State(ss, {}, Free, map[1 := InsertFailed(c, e, true)]));
    acts := acts + [Continue(1, e)];
  }

  /** Meanwhile the event is removed and inserted again. */
  lemma SecondInsertBooks(starts: EventId -> bool, c: ClientId, e: EventId) returns (acts: seq<Action>)
    requires !starts(e)
    ensures After(acts, starts) ==
            State(map[c := {e}], {}, HeldBy(2),
                  map[1 := InsertFailed(c, e, true), 2 := RemoveLocked(c, e, false), 3 := InsertBooked(c, e, false)])
  {
    acts := FirstInsertFails(starts, c, e);
    var ss: Sessions := map[c := {e}];
    var p := InsertFailed(c, e, true);
    var q := InsertBooked(c, e, false);
    var s0 := State(ss, {}, Free, map[1 := p]);
    var s1 := State(map[c := {}], {}, Free, map[1 := p, 2 := RemoveBooked(c, e, false)]);
    assert {e} - {e} == {} && {} + {e} == {e};
    assert Unbooked(ss, c, e) == map[c := {}];
    Extend(acts, starts, s0, Remove(2, c, e, false), s1);
    acts := acts + [Remove(2, c, e, false)];
    var s2 := State(ss, {}, Free, map[1 := p, 2 := RemoveBooked(c, e, false), 3 := q]);
    assert Booked(map[c := {}], c, e) == ss;
    Extend(acts, starts, s1, Insert(3, c, e, true), s2);
    acts := acts + [Insert(3, c, e, true)];
    var s3 := State(ss, {}, HeldBy(2), map[1 := p, 2 := RemoveLocked(c, e, false), 3 := q]);
    Extend(acts, starts, s2, Continue(2, e), s3);
    acts := acts + [Continue(2, e)];
  }

  /** The removal finds a subscriber and has nothing to stop; then the second start is decided. */
  lemma SecondInsertDecides(starts: EventId -> bool, c: ClientId, e: EventId) returns (acts: seq<Action>)
    requires !starts(e)
    ensures After(acts, starts) ==
            State(map[c := {e}], {}, HeldBy(3), map[1 := InsertFailed(c, e, true), 3 := InsertCalling(c, e, false)])
  {
    acts := SecondInsertBooks(starts, c, e);
    var ss: Sessions := map[c := {e}];
    assert e in ss[c];
    var p := InsertFailed(c, e, true);
    var q := InsertBooked(c, e, false);
    var s3 := State(ss, {}, HeldBy(2), map[1 := p, 2 := RemoveLocked(c, e, false), 3 := q]);
    var s4 := State(ss, {}, Free, map[1 := p, 2 := RemoveDone(c, false), 3 := q]);
    Extend(acts, starts, s3, Continue(2, e), s4);
    acts := acts + [Continue(2, e)];
    var s5 := State(ss, {}, Free, map[1 := p, 3 := q]);
    Extend(acts, starts, s4, Continue(2, e), s5);
    acts := acts + [Continue(2, e)];
    var s6 := State(ss, {}, HeldBy(3), map[1 := p, 3 := InsertLocked(c, e, false)]);
    Extend(acts, starts, s5, Continue(3, e), s6);
    acts := acts + [Continue(3, e)];
    Extend(acts, starts, s6, Continue(3, e), State(ss, {}, HeldBy(3), map[1 := p, 3 := InsertCalling(c, e, false)]));
    acts := acts + [Continue(3, e)];
  }

  /** The invariant with its clause on collectors being started holds over all runs exactly for the events that the
      framework starts: for the others, the rollback of one insert can take away what another has booked. */
  lemma NeverLeaksExactly(starts: EventId -> bool, e: EventId)
    ensures NeverLeaks(starts, e) <==> starts(e)
  {
    if starts(e) {
      forall acts
        ensures NoLeak(After(acts, starts), e)
      {
        NoCollectorLeaks(acts, starts, e);
      }
    } else {
      var c: ClientId := "c";
      var acts := SecondInsertDecides(starts, c, e);
      var p := InsertCalling(c, e, false);
      var s := State(map[], {}, HeldBy(3), map[3 := p]);
      assert {e} - {e} == {};
      Extend(acts, starts, After(acts, starts), Continue(1, e), s);
      assert 3 in s.threads && Starting(s.threads[3], e);
      assert !StopPending(s, e);
    }
  }

  /** At rest every running collector has a subscriber. */
  lemma AtRestRunningMeansSubscribed(acts: seq<Action>, starts: EventId -> bool, e: EventId)
    requires After(acts, starts).threads == map[] && e in After(acts, starts).running
    ensures AnySubscribes(After(acts, starts).sessions, e)
  {
    NoCollectorLeaks(acts, starts, e);
  }
}
