/** When the ledger and the running collectors agree, and the branch of the removal that makes them part. */
module SubscribeAgreement {
  import opened Common
  import opened SubscribeManager
  import opened SubscribeProtocol

  /** The caller has yet to finish its `SubscribeScIfNeeded` for `e`. */
  predicate WillStart(p: Place, e: EventId) {
    (p.InsertBooked? || p.InsertLocked? || p.InsertCalling?) && p.e == e
  }

  ghost predicate StartPending(s: State, e: EventId) {
    exists t :: t in s.threads && WillStart(s.threads[t], e)
  }

  /** The caller has decided to stop the collector of `e` and not done so yet. */
  predicate Stopping(p: Place, e: EventId) {
    (p.RemoveCalling? || p.DrainCalling?) && p.e == e
  }

  ghost predicate SomeStopping(s: State, e: EventId) {
    exists t :: t in s.threads && Stopping(s.threads[t], e)
  }

  ghost predicate Off(s: State, e: EventId) {
    e !in s.running || SomeStopping(s, e)
  }

  /** A subscribed event whose collector is off, or about to be, has a start pending. */
  ghost predicate Agrees(s: State, e: EventId) {
    AnySubscribes(s.sessions, e) && Off(s, e) ==> StartPending(s, e)
  }

  /** `RemoveSubscribeRecordCore` failed to stop a collector that was not running, and is about to put the event back
      into a session that still exists although nobody is going to start the collector. */
  ghost predicate Strands(s: State, a: Action, e: EventId) {
    && a.Continue? && a.t in s.threads && s.threads[a.t].RemoveFailed? && s.threads[a.t].e == e
    && s.threads[a.t].c in s.sessions
    && Off(s, e) && !StartPending(s, e)
  }

  lemma StrandedDisagrees(s: State, a: Action, starts: EventId -> bool, e: EventId)
    requires Enabled(s, a) && Strands(s, a, e)
    ensures !Agrees(Next(s, a, starts), e)
  {
    var s1, c := Next(s, a, starts), s.threads[a.t].c;
    assert e in s1.sessions[c];
    if SomeStopping(s, e) {
      var t :| t in s.threads && Stopping(s.threads[t], e);
      assert t in s1.threads && Stopping(s1.threads[t], e);
    }
    assert forall t :: t in s1.threads ==> t in s.threads && s1.threads[t] == s.threads[t];
  }

  /** A step that gives `e` its first subscriber books a start, or is the reinsertion. */
  lemma GainsSubscriberOnlyBy(s: State, a: Action, starts: EventId -> bool, e: EventId)
    requires Enabled(s, a) && !AnySubscribes(s.sessions, e) && AnySubscribes(Next(s, a, starts).sessions, e)
    ensures StartPending(Next(s, a, starts), e) ||
            (a.Continue? && s.threads[a.t].RemoveFailed? && s.threads[a.t].e == e && s.threads[a.t].c in s.sessions)
  {
    var s1 := Next(s, a, starts);
    var c :| c in s1.sessions && e in s1.sessions[c];
    assert !(c in s.sessions && e in s.sessions[c]);
    if !a.Continue? {
      assert WillStart(s1.threads[a.t], e);
    }
  }

  /** A collector goes off only while nobody subscribes. */
  lemma GoesOffOnlyBy(s: State, a: Action, starts: EventId -> bool, e: EventId)
    requires Enabled(s, a) && !Off(s, e) && Off(Next(s, a, starts), e)
    ensures !AnySubscribes(Next(s, a, starts).sessions, e)
  {
    var s1 := Next(s, a, starts);
    if a.Continue? {
      assert !Stopping(s.threads[a.t], e);
    }
    var t :| t in s1.threads && Stopping(s1.threads[t], e);
    assert !(t in s.threads && Stopping(s.threads[t], e));
    assert t == a.t && a.Continue?;
  }

  /** A pending start ends when it finds no subscriber, or with the collector running. */
  lemma StartEndsOnlyBy(s: State, a: Action, starts: EventId -> bool, e: EventId)
    requires Enabled(s, a) && Exclusive(s) && starts(e) && StartPending(s, e) && !StartPending(Next(s, a, starts), e)
    ensures !AnySubscribes(Next(s, a, starts).sessions, e) || !Off(Next(s, a, starts), e)
  {
    var s1 := Next(s, a, starts);
    var t :| t in s.threads && WillStart(s.threads[t], e);
    assert !(t in s1.threads && WillStart(s1.threads[t], e));
    assert a.Continue? && a.t == t;
    if SomeStopping(s1, e) {
      var u :| u in s1.threads && Stopping(s1.threads[u], e);
      assert u != t ==> HoldsLock(s.threads[u]);
    }
  }

  /** A step keeps the agreement exactly when it is not a stranding reinsertion. */
  lemma AgreementBreaksOnlyByStranding(s: State, a: Action, starts: EventId -> bool, e: EventId)
    requires Exclusive(s) && Enabled(s, a) && starts(e) && Agrees(s, e)
    ensures Agrees(Next(s, a, starts), e) <==> !Strands(s, a, e)
  {
    var s1 := Next(s, a, starts);
    if Strands(s, a, e) {
      StrandedDisagrees(s, a, starts, e);
    } else if AnySubscribes(s1.sessions, e) && Off(s1, e) && !StartPending(s1, e) {
      if StartPending(s, e) {
        StartEndsOnlyBy(s, a, starts, e);
      } else if !Off(s, e) {
        GoesOffOnlyBy(s, a, starts, e);
      } else {
        GainsSubscriberOnlyBy(s, a, starts, e);
      }
    }
  }

  /** No caller of the schedule takes the reinserting branch in the stranding situation. */
  ghost predicate NeverStrands(acts: seq<Action>, starts: EventId -> bool, e: EventId) {
    acts == [] ||
    (NeverStrands(acts[..|acts| - 1], starts, e) && !Strands(After(acts[..|acts| - 1], starts), acts[|acts| - 1], e))
  }

  lemma {:induction false} AgreementInEveryRun(acts: seq<Action>, starts: EventId -> bool, e: EventId)
    requires starts(e) && NeverStrands(acts, starts, e)
    ensures Agrees(After(acts, starts), e)
  {
    if acts != [] {
      var s, a := After(acts[..|acts| - 1], starts), acts[|acts| - 1];
      AgreementInEveryRun(acts[..|acts| - 1], starts, e);
      NoCollectorLeaks(acts[..|acts| - 1], starts, e);
      if Enabled(s, a) {
        AgreementBreaksOnlyByStranding(s, a, starts, e);
      }
    }
  }

  /** At rest the collector of a startable event runs exactly when some session subscribes to it. */
  lemma AtRestRunningIffSubscribed(acts: seq<Action>, starts: EventId -> bool, e: EventId)
    requires starts(e) && NeverStrands(acts, starts, e) && After(acts, starts).threads == map[]
    ensures e in After(acts, starts).running <==> AnySubscribes(After(acts, starts).sessions, e)
  {
    AgreementInEveryRun(acts, starts, e);
    NoCollectorLeaks(acts, starts, e);
  }

  /** A removal that overtakes the start of its insert finds nothing to stop. */
  lemma StopFailsBeforeStart(starts: EventId -> bool, c: ClientId, e: EventId) returns (acts: seq<Action>)
    ensures After(acts, starts) ==
            State(map[c := {}], {}, Free, map[1 := InsertBooked(c, e, true), 2 := RemoveFailed(c, e, false)])
  {
    var booked: Sessions, unbooked: Sessions := map[c := {e}], map[c := {}];
    var p := InsertBooked(c, e, true);
    var s1 := State(booked, {}, Free, map[1 := p]);
    Extend([], starts, INIT, Insert(1, c, e, true), s1);
    acts := [] + [Insert(1, c, e, true)];
    assert {e} - {e} == {};
    assert Unbooked(booked, c, e) == unbooked;
    var s2 := State(unbooked, {}, Free, map[1 := p, 2 := RemoveBooked(c, e, false)]);
    Extend(acts, starts, s1, Remove(2, c, e, false), s2);
    acts := acts + [Remove(2, c, e, false)];
    var s3 := State(unbooked, {}, HeldBy(2), map[1 := p, 2 := RemoveLocked(c, e, false)]);
    Extend(acts, starts, s2, Continue(2, e), s3);
    acts := acts + [Continue(2, e)];
    var s4 := State(unbooked, {}, HeldBy(2), map[1 := p, 2 := RemoveCalling(c, e, false)]);
    Extend(acts, starts, s3, Continue(2, e), s4);
    acts := acts + [Continue(2, e)];
    Extend(acts, starts, s4, Continue(2, e), State(unbooked, {}, Free, map[1 := p, 2 := RemoveFailed(c, e, false)]));
    acts := acts + [Continue(2, e)];
  }

  /** The reinsertion needs no rare failure: one insert and one removal of the same event are enough for a session to
      keep an event at rest whose collector does not run. The insert finds no subscriber and ends; then the removal
      puts the event back. */
  lemma ReinsertionCanStrand(starts: EventId -> bool, c: ClientId, e: EventId) returns (acts: seq<Action>)
    ensures After(acts, starts) == State(map[c := {e}], {}, Free, map[])
  {
    acts := StopFailsBeforeStart(starts, c, e);
    var unbooked: Sessions, none: set<EventId> := map[c := {}], {};
    var q := RemoveFailed(c, e, false);
    var s6 := State(unbooked, {}, HeldBy(1), map[1 := InsertLocked(c, e, true), 2 := q]);
    Extend(acts, starts, After(acts, starts), Continue(1, e), s6);
    acts := acts + [Continue(1, e)];
    var s7 := State(unbooked, {}, Free, map[2 := q]);
    Extend(acts, starts, s6, Continue(1, e), s7);
    acts := acts + [Continue(1, e)];
    assert none + {e} == {e};
    assert Rebooked(unbooked, c, e) == map[c := {e}];
    Extend(acts, starts, s7, Continue(2, e), State(map[c := {e}], {}, Free, map[]));
    acts := acts + [Continue(2, e)];
  }
}
