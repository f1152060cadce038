/** What each operation of the subscription ledger achieves for its caller when it runs alone, and that every operation
    under way can be brought to its end. */
module SubscribeCalls {
  import opened Common
  import opened SubscribeManager
  import opened SubscribeProtocol

  function Stepped(s: State, a: Action, starts: EventId -> bool): State {
    if Enabled(s, a) then Next(s, a, starts) else s
  }

  function RunFrom(s: State, acts: seq<Action>, starts: EventId -> bool): State {
    if acts == [] then s else Stepped(RunFrom(s, acts[..|acts| - 1], starts), acts[|acts| - 1], starts)
  }

  predicate AtRest(s: State) {
    s.threads == map[] && s.holder.Free?
  }

  // ---------------------------------------------------------------- one step of a caller that is alone

  /** The thread is the only one, and holds the lock exactly where its place says so. */
  predicate Alone(s: State, t: ThreadId, p: Place) {
    s.threads == map[t := p] && s.holder == if HoldsLock(p) then HeldBy(t) else Free
  }

  lemma RunSnoc(s: State, acts: seq<Action>, a: Action, starts: EventId -> bool)
    ensures RunFrom(s, acts + [a], starts) == Stepped(RunFrom(s, acts, starts), a, starts)
  {
    assert (acts + [a])[..|acts|] == acts;
  }

  function Again(t: ThreadId, e: EventId, n: nat): seq<Action> {
    seq(n, _ => Continue(t, e))
  }

  function StepTimes(s: State, t: ThreadId, e: EventId, n: nat, starts: EventId -> bool): State {
    if n == 0 then s else Stepped(StepTimes(s, t, e, n - 1, starts), Continue(t, e), starts)
  }

  lemma {:induction false} AgainSteps(s: State, a: Action, t: ThreadId, e: EventId, n: nat, starts: EventId -> bool)
    ensures RunFrom(s, [a] + Again(t, e, n), starts) == StepTimes(Stepped(s, a, starts), t, e, n, starts)
  {
    if n == 0 {
      assert [a] + Again(t, e, 0) == [] + [a];
      RunSnoc(s, [], a, starts);
    } else {
      AgainSteps(s, a, t, e, n - 1, starts);
      assert [a] + Again(t, e, n) == ([a] + Again(t, e, n - 1)) + [Continue(t, e)];
      RunSnoc(s, [a] + Again(t, e, n - 1), Continue(t, e), starts);
    }
  }

  lemma TwoSteps(s: State, t: ThreadId, e: EventId, n: nat, starts: EventId -> bool)
    ensures var step := Continue(t, e);
            StepTimes(s, t, e, n + 2, starts) == Stepped(Stepped(StepTimes(s, t, e, n, starts), step, starts), step, starts)
  {
  }

  /** The operation and four steps of its thread. */
  lemma FourSteps(s: State, a: Action, t: ThreadId, e: EventId, starts: EventId -> bool)
    ensures var step := Continue(t, e);
            RunFrom(s, [a] + Again(t, e, 4), starts) ==
            Stepped(Stepped(Stepped(Stepped(Stepped(s, a, starts), step, starts), step, starts), step, starts), step, starts)
  {
    AgainSteps(s, a, t, e, 4, starts);
    TwoSteps(Stepped(s, a, starts), t, e, 0, starts);
    TwoSteps(Stepped(s, a, starts), t, e, 2, starts);
  }

  /** `ss1` is `ss` but for the session of `c`, which holds `es`. */
  predicate OnlyChanged(ss: Sessions, ss1: Sessions, c: ClientId, es: set<EventId>) {
    ss1.Keys == ss.Keys + {c} && ss1[c] == es && forall d :: d in ss && d != c ==> ss1[d] == ss[d]
  }

  predicate OnlyGone(ss: Sessions, ss1: Sessions, c: ClientId) {
    ss1.Keys == ss.Keys - {c} && forall d :: d in ss && d != c ==> ss1[d] == ss[d]
  }

  function EventsOf(ss: Sessions, c: ClientId): set<EventId> {
    if c in ss then ss[c] else {}
  }

  predicate OthersSubscribe(ss: Sessions, c: ClientId, e: EventId) {
    exists d :: d in ss && d != c && e in ss[d]
  }

  // ---------------------------------------------------------------- subscribing

  lemma InsertBooks(s: State, t: ThreadId, c: ClientId, e: EventId, create: bool, starts: EventId -> bool)
    requires AtRest(s) && e !in EventsOf(s.sessions, c) && (c in s.sessions || create)
    ensures var s1 := Stepped(Stepped(Stepped(s, Insert(t, c, e, create), starts), Continue(t, e), starts),
                              Continue(t, e), starts);
            && Alone(s1, t, InsertCalling(c, e, c !in s.sessions)) && s1.running == s.running
            && s1.sessions == Booked(s.sessions, c, e)
            && OnlyChanged(s.sessions, s1.sessions, c, EventsOf(s.sessions, c) + {e})
  {
    var s0 := Next(s, Insert(t, c, e, create), starts);
    assert Subscribed(s0.sessions, c, e);
  }

  lemma EndsWithStarting(s1: State, t: ThreadId, c: ClientId, e: EventId, created: bool, starts: EventId -> bool)
    requires Alone(s1, t, InsertCalling(c, e, created))
    ensures var step := Continue(t, e);
            Stepped(Stepped(s1, step, starts), step, starts) ==
            if e in s1.running || starts(e) then State(s1.sessions, s1.running + {e}, Free, map[])
            else State(RolledBack(s1.sessions, c, e, created), s1.running, Free, map[])
  {
  }

  /** A subscription that runs alone: refused or done already it changes nothing; else the event is the client's and its
      collector runs, or, if that does not start, everything is as before. */
  lemma InsertAlone(s: State, t: ThreadId, c: ClientId, e: EventId, create: bool, starts: EventId -> bool)
    requires AtRest(s)
    ensures var s1 := RunFrom(s, [Insert(t, c, e, create)] + Again(t, e, 4), starts);
            if e !in EventsOf(s.sessions, c) && (c in s.sessions || create) && (e in s.running || starts(e)) then
              AtRest(s1) && s1.running == s.running + {e} &&
              OnlyChanged(s.sessions, s1.sessions, c, EventsOf(s.sessions, c) + {e})
            else s1 == s
  {
    FourSteps(s, Insert(t, c, e, create), t, e, starts);
    if e !in EventsOf(s.sessions, c) && (c in s.sessions || create) {
      InsertBooks(s, t, c, e, create, starts);
      RollbackRestores(s.sessions, c, e);
      var step := Continue(t, e);
      var s1 := Stepped(Stepped(Stepped(s, Insert(t, c, e, create), starts), step, starts), step, starts);
      EndsWithStarting(s1, t, c, e, c !in s.sessions, starts);
    }
  }

  lemma RollbackRestores(ss: Sessions, c: ClientId, e: EventId)
    requires e !in EventsOf(ss, c)
    ensures RolledBack(Booked(ss, c, e), c, e, c !in ss) == ss
  {
    assert EventsOf(ss, c) + {e} - {e} == EventsOf(ss, c);
  }

  // ---------------------------------------------------------------- unsubscribing

  lemma RemoveUnbooks(s: State, t: ThreadId, c: ClientId, e: EventId, cleanup: bool, starts: EventId -> bool)
    requires AtRest(s) && e in EventsOf(s.sessions, c)
    ensures var s1 := Stepped(Stepped(Stepped(s, Remove(t, c, e, cleanup), starts), Continue(t, e), starts),
                              Continue(t, e), starts);
            && s1.running == s.running && s1.sessions == Unbooked(s.sessions, c, e)
            && OnlyChanged(s.sessions, s1.sessions, c, s.sessions[c] - {e})
            && Alone(s1, t, if OthersSubscribe(s.sessions, c, e) then RemoveDone(c, cleanup)
                            else RemoveCalling(c, e, cleanup))
  {
    SubscribersBut(s.sessions, Unbooked(s.sessions, c, e), c, e);
  }

  /** Where nobody but others can subscribe to `e`. */
  lemma SubscribersBut(ss: Sessions, ss1: Sessions, c: ClientId, e: EventId)
    requires forall d :: d != c ==> (d in ss1 <==> d in ss) && (d in ss ==> ss1[d] == ss[d])
    requires c in ss1 ==> e !in ss1[c]
    ensures AnySubscribes(ss1, e) <==> OthersSubscribe(ss, c, e)
  {
    if OthersSubscribe(ss, c, e) {
      var d :| d in ss && d != c && e in ss[d];
      assert d in ss1 && e in ss1[d];
    }
  }

  lemma EndsWithTidying(s1: State, t: ThreadId, c: ClientId, e: EventId, cleanup: bool, starts: EventId -> bool)
    requires Alone(s1, t, RemoveDone(c, cleanup))
    ensures var step := Continue(t, e);
            Stepped(Stepped(s1, step, starts), step, starts) ==
            State(Tidied(s1.sessions, c, cleanup), s1.running, Free, map[])
  {
  }

  lemma EndsWithStopping(s1: State, t: ThreadId, c: ClientId, e: EventId, cleanup: bool, starts: EventId -> bool)
    requires Alone(s1, t, RemoveCalling(c, e, cleanup))
    ensures var step := Continue(t, e);
            Stepped(Stepped(s1, step, starts), step, starts) ==
            if e in s1.running then State(Tidied(s1.sessions, c, cleanup), s1.running - {e}, Free, map[])
            else State(Rebooked(s1.sessions, c, e), s1.running, Free, map[])
  {
  }

  /** An unsubscription that runs alone: without a subscription it changes nothing; else the event leaves the session,
      an emptied session goes if that is asked, and the collector stops exactly if nobody else subscribes. If then it
      does not run, the subscription stays. */
  lemma RemoveAlone(s: State, t: ThreadId, c: ClientId, e: EventId, cleanup: bool, starts: EventId -> bool)
    requires AtRest(s)
    ensures var s1 := RunFrom(s, [Remove(t, c, e, cleanup)] + Again(t, e, 4), starts);
            if e in EventsOf(s.sessions, c) && (OthersSubscribe(s.sessions, c, e) || e in s.running) then
              AtRest(s1) &&
              s1.running == (if OthersSubscribe(s.sessions, c, e) then s.running else s.running - {e}) &&
              if cleanup && s.sessions[c] == {e} then OnlyGone(s.sessions, s1.sessions, c)
              else OnlyChanged(s.sessions, s1.sessions, c, s.sessions[c] - {e})
            else s1 == s
  {
    FourSteps(s, Remove(t, c, e, cleanup), t, e, starts);
    if e in EventsOf(s.sessions, c) {
      RemoveUnbooks(s, t, c, e, cleanup, starts);
      RebookingRestores(s.sessions, c, e);
      TidyingIs(s.sessions, c, e, cleanup);
      var step := Continue(t, e);
      var s1 := Stepped(Stepped(Stepped(s, Remove(t, c, e, cleanup), starts), step, starts), step, starts);
      if OthersSubscribe(s.sessions, c, e) {
        EndsWithTidying(s1, t, c, e, cleanup, starts);
      } else {
        EndsWithStopping(s1, t, c, e, cleanup, starts);
      }
    }
  }

  lemma RebookingRestores(ss: Sessions, c: ClientId, e: EventId)
    requires e in EventsOf(ss, c)
    ensures Rebooked(Unbooked(ss, c, e), c, e) == ss
  {
    assert ss[c] - {e} + {e} == ss[c];
  }

  lemma TidyingIs(ss: Sessions, c: ClientId, e: EventId, cleanup: bool)
    requires e in EventsOf(ss, c)
    ensures var ss1 := Tidied(Unbooked(ss, c, e), c, cleanup);
            if cleanup && ss[c] == {e} then OnlyGone(ss, ss1, c) else OnlyChanged(ss, ss1, c, ss[c] - {e})
  {
    assert ss[c] == ss[c] - {e} + {e};
  }

  // ---------------------------------------------------------------- creating

  lemma CreateAlone(s: State, t: ThreadId, c: ClientId, starts: EventId -> bool)
    requires AtRest(s)
    ensures var s1 := Stepped(s, Create(t, c), starts);
            && AtRest(s1) && s1.running == s.running
            && OnlyChanged(s.sessions, s1.sessions, c, EventsOf(s.sessions, c))
  {
  }

  // ---------------------------------------------------------------- death and destruction

  /** A session that dies or is destroyed is gone at once, whatever else goes on, and its caller has its events to look
      at. */
  lemma TakeTells(s: State, t: ThreadId, c: ClientId, starts: EventId -> bool)
    requires t !in s.threads && c in s.sessions
    ensures Enabled(s, Take(t, c))
    ensures var s1 := Next(s, Take(t, c), starts);
            && OnlyGone(s.sessions, s1.sessions, c) && s1.running == s.running && s1.holder == s.holder
            && s1.threads == s.threads[t := Draining(s.sessions[c])]
  {
  }

  /** The collectors left to look at, the one in hand included. */
  function LeftOf(p: Place): set<EventId> {
    match p
    case Draining(es) => es
    case DrainLocked(e, es) => es + {e}
    case DrainCalling(e, es) => es + {e}
    case _ => {}
  }

  predicate IsDrain(p: Place) {
    p.Draining? || p.DrainLocked? || p.DrainCalling?
  }

  /** The collectors of `es` that nobody needs once `c` is gone. */
  function Orphans(ss: Sessions, c: ClientId, es: set<EventId>): set<EventId> {
    set e | e in es && !OthersSubscribe(ss, c, e)
  }

  /** A drain of the session of `c` in `s0`, with the events of `left` still to look at. */
  ghost predicate Drains(s0: State, c: ClientId, s: State, t: ThreadId, p: Place) {
    && c in s0.sessions && OnlyGone(s0.sessions, s.sessions, c)
    && IsDrain(p) && Alone(s, t, p) && LeftOf(p) <= s0.sessions[c]
    && (p.DrainCalling? ==> !OthersSubscribe(s0.sessions, c, p.e))
    && (!p.Draining? ==> p.e !in p.es)
    && s.running == s0.running - Orphans(s0.sessions, c, s0.sessions[c] - LeftOf(p))
  }

  /** What the end of the drain leaves. */
  ghost predicate DrainedAway(s0: State, c: ClientId, s: State) {
    && c in s0.sessions && OnlyGone(s0.sessions, s.sessions, c) && AtRest(s)
    && s.running == s0.running - Orphans(s0.sessions, c, s0.sessions[c])
  }

  lemma DrainTakesUp(s0: State, c: ClientId, s: State, t: ThreadId, es: set<EventId>, pick: EventId,
                     starts: EventId -> bool)
    requires Drains(s0, c, s, t, Draining(es)) && Enabled(s, Continue(t, pick))
    ensures var s1 := Next(s, Continue(t, pick), starts);
            if es == {} then t !in s1.threads && DrainedAway(s0, c, s1)
            else t in s1.threads && Drains(s0, c, s1, t, s1.threads[t])
  {
    if es == {} {
      assert s0.sessions[c] - {} == s0.sessions[c];
    } else {
      assert es - {pick} + {pick} == es;
    }
  }

  lemma DrainRechecks(s0: State, c: ClientId, s: State, t: ThreadId, e: EventId, es: set<EventId>, pick: EventId,
                      starts: EventId -> bool)
    requires Drains(s0, c, s, t, DrainLocked(e, es)) && Enabled(s, Continue(t, pick))
    ensures var s1 := Next(s, Continue(t, pick), starts);
            t in s1.threads && Drains(s0, c, s1, t, s1.threads[t])
  {
    SubscribersBut(s0.sessions, s.sessions, c, e);
    LookedAt(s0, c, es, e);
    assert es <= es + {e};
  }

  lemma DrainStops(s0: State, c: ClientId, s: State, t: ThreadId, e: EventId, es: set<EventId>, pick: EventId,
                   starts: EventId -> bool)
    requires Drains(s0, c, s, t, DrainCalling(e, es)) && Enabled(s, Continue(t, pick))
    ensures var s1 := Next(s, Continue(t, pick), starts);
            t in s1.threads && Drains(s0, c, s1, t, s1.threads[t])
  {
    LookedAt(s0, c, es, e);
  }

  /** A step either goes on or ends the drain. */
  lemma DrainStep(s0: State, c: ClientId, s: State, t: ThreadId, p: Place, pick: EventId, starts: EventId -> bool)
    requires Drains(s0, c, s, t, p) && Enabled(s, Continue(t, pick))
    ensures var s1 := Next(s, Continue(t, pick), starts);
            if t in s1.threads then Drains(s0, c, s1, t, s1.threads[t]) else DrainedAway(s0, c, s1)
  {
    match p
    case Draining(es) => DrainTakesUp(s0, c, s, t, es, pick, starts);
    case DrainLocked(e, es) => DrainRechecks(s0, c, s, t, e, es, pick, starts);
    case DrainCalling(e, es) => DrainStops(s0, c, s, t, e, es, pick, starts);
  }

  lemma LookedAt(s0: State, c: ClientId, es: set<EventId>, e: EventId)
    requires c in s0.sessions && e in s0.sessions[c] && e !in es
    ensures Orphans(s0.sessions, c, s0.sessions[c] - es) ==
            Orphans(s0.sessions, c, s0.sessions[c] - (es + {e})) +
            if OthersSubscribe(s0.sessions, c, e) then {} else {e}
  {
  }

  predicate OwnSteps(acts: seq<Action>, t: ThreadId) {
    forall i :: 0 <= i < |acts| ==> acts[i].Continue? && acts[i].t == t
  }

  lemma {:induction false} DrainGoesOn(s0: State, c: ClientId, t: ThreadId, acts: seq<Action>, starts: EventId -> bool)
    requires AtRest(s0) && c in s0.sessions && OwnSteps(acts, t)
    ensures var s := RunFrom(Stepped(s0, Take(t, c), starts), acts, starts);
            if t in s.threads then Drains(s0, c, s, t, s.threads[t]) else DrainedAway(s0, c, s)
  {
    if acts == [] {
      TakeTells(s0, t, c, starts);
      assert s0.sessions[c] - s0.sessions[c] == {};
    } else {
      var n := |acts| - 1;
      DrainGoesOn(s0, c, t, acts[..n], starts);
      var s := RunFrom(Stepped(s0, Take(t, c), starts), acts[..n], starts);
      if Enabled(s, acts[n]) {
        DrainStep(s0, c, s, t, s.threads[t], acts[n].pick, starts);
      }
    }
  }

  /** The session of a dead client that is drained alone, in any order of its events: when the drain has ended the session
      is gone, its collectors that nobody else needs are off, and all others run as before. */
  lemma TakeAlone(s0: State, c: ClientId, t: ThreadId, acts: seq<Action>, starts: EventId -> bool)
    requires AtRest(s0) && c in s0.sessions && OwnSteps(acts, t)
    requires t !in RunFrom(Stepped(s0, Take(t, c), starts), acts, starts).threads
    ensures var s := RunFrom(Stepped(s0, Take(t, c), starts), acts, starts);
            && AtRest(s) && OnlyGone(s0.sessions, s.sessions, c)
            && forall e :: e in s.running <==>
                 e in s0.running && !(e in s0.sessions[c] && !OthersSubscribe(s0.sessions, c, e))
  {
    DrainGoesOn(s0, c, t, acts, starts);
  }

  // ---------------------------------------------------------------- every call can be brought to its end

  /** The lock is held only by a thread that stands in the section. */
  ghost predicate HolderStands(s: State) {
    s.holder.HeldBy? ==> s.holder.t in s.threads && HoldsLock(s.threads[s.holder.t])
  }

  lemma NextHolder(s: State, a: Action, starts: EventId -> bool)
    requires Exclusive(s) && HolderStands(s) && Enabled(s, a)
    ensures HolderStands(Next(s, a, starts))
  {
  }

  lemma {:induction false} LockIsNeverLost(acts: seq<Action>, starts: EventId -> bool)
    ensures Exclusive(After(acts, starts)) && HolderStands(After(acts, starts))
  {
    NoCollectorLeaks(acts, starts, 0);
    if acts != [] {
      var s, a := After(acts[..|acts| - 1], starts), acts[|acts| - 1];
      LockIsNeverLost(acts[..|acts| - 1], starts);
      if Enabled(s, a) {
        NextHolder(s, a, starts);
      }
    }
  }

  /** How many steps a caller has to go at most. */
  function StepsLeft(p: Place): nat {
    match p
    case InsertBooked(_, _, _) => 4
    case InsertLocked(_, _, _) => 3
    case InsertCalling(_, _, _) => 2
    case InsertFailed(_, _, _) => 1
    case RemoveBooked(_, _, _) => 4
    case RemoveLocked(_, _, _) => 3
    case RemoveCalling(_, _, _) => 2
    case RemoveFailed(_, _, _) => 1
    case RemoveDone(_, _) => 1
    case Draining(es) => 1 + 3 * |es|
    case DrainLocked(_, es) => 3 + 3 * |es|
    case DrainCalling(_, es) => 2 + 3 * |es|
  }

  lemma DrainBecomesShorter(s: State, t: ThreadId, pick: EventId, starts: EventId -> bool)
    requires Enabled(s, Continue(t, pick)) && IsDrain(s.threads[t])
    ensures var s1 := Next(s, Continue(t, pick), starts);
            if t in s1.threads then StepsLeft(s1.threads[t]) < StepsLeft(s.threads[t])
            else s1.threads == s.threads - {t}
  {
    var p := s.threads[t];
    if p.Draining? && p.es != {} {
      assert |p.es - {pick}| == |p.es| - 1;
    }
  }

  lemma StepsBecomeFewer(s: State, t: ThreadId, pick: EventId, starts: EventId -> bool)
    requires Enabled(s, Continue(t, pick))
    ensures var s1 := Next(s, Continue(t, pick), starts);
            if t in s1.threads then StepsLeft(s1.threads[t]) < StepsLeft(s.threads[t])
            else s1.threads == s.threads - {t}
  {
    if IsDrain(s.threads[t]) {
      DrainBecomesShorter(s, t, pick, starts);
    }
  }

  lemma OwnStepOnly(s: State, t: ThreadId, pick: EventId, starts: EventId -> bool)
    requires Enabled(s, Continue(t, pick)) && t in Next(s, Continue(t, pick), starts).threads
    ensures Next(s, Continue(t, pick), starts).threads.Keys == s.threads.Keys
  {
  }

  /** A step of `t` leaves the lock free or with `t`. */
  lemma OwnLock(s: State, t: ThreadId, pick: EventId, starts: EventId -> bool)
    requires Exclusive(s) && HolderStands(s) && Enabled(s, Continue(t, pick)) && (s.holder.Free? || s.holder == HeldBy(t))
    ensures var s1 := Next(s, Continue(t, pick), starts);
            Exclusive(s1) && HolderStands(s1) && (s1.holder.Free? || s1.holder == HeldBy(t))
  {
    NextExclusive(s, Continue(t, pick), starts);
    NextHolder(s, Continue(t, pick), starts);
  }

  lemma PickIsPossible(s: State, t: ThreadId) returns (pick: EventId)
    requires t in s.threads && (s.holder.Free? || !WantsLock(s.threads[t]))
    ensures Enabled(s, Continue(t, pick))
  {
    if s.threads[t].Draining? && s.threads[t].es != {} {
      pick := Inhabited(s.threads[t].es);
    } else {
      pick := 0;
    }
  }

  /** A thread that has the lock, or finds it free, can go on to its end. */
  lemma {:induction false} CanFinish(s: State, t: ThreadId, done: seq<Action>, starts: EventId -> bool)
      returns (acts: seq<Action>)
    requires OwnSteps(done, t)
    requires var now := RunFrom(s, done, starts);
             && Exclusive(now) && HolderStands(now) && t in now.threads
             && (now.holder.Free? || now.holder == HeldBy(t)) && now.threads.Keys == s.threads.Keys
    ensures OwnSteps(acts, t)
    ensures var s1 := RunFrom(s, acts, starts);
            Exclusive(s1) && HolderStands(s1) && s1.holder.Free? && s1.threads.Keys == s.threads.Keys - {t}
    decreases StepsLeft(RunFrom(s, done, starts).threads[t])
  {
    var now := RunFrom(s, done, starts);
    var pick := PickIsPossible(now, t);
    StepsBecomeFewer(now, t, pick, starts);
    OwnLock(now, t, pick, starts);
    RunSnoc(s, done, Continue(t, pick), starts);
    acts := done + [Continue(t, pick)];
    if t in Next(now, Continue(t, pick), starts).threads {
      OwnStepOnly(now, t, pick, starts);
      acts := CanFinish(s, t, acts, starts);
    }
  }

  predicate OnlySteps(acts: seq<Action>) {
    forall i :: 0 <= i < |acts| ==> acts[i].Continue?
  }

  lemma {:induction false} RunConcat(s: State, a: seq<Action>, b: seq<Action>, starts: EventId -> bool)
    ensures RunFrom(s, a + b, starts) == RunFrom(RunFrom(s, a, starts), b, starts)
  {
    if b == [] {
      assert a + b == a;
    } else {
      var n := |b| - 1;
      assert a + b == (a + b[..n]) + [b[n]];
      RunConcat(s, a, b[..n], starts);
      RunSnoc(s, a + b[..n], b[n], starts);
    }
  }

  lemma {:induction false} AllCanFinish(s: State, starts: EventId -> bool) returns (acts: seq<Action>)
    requires Exclusive(s) && HolderStands(s)
    ensures OnlySteps(acts) && AtRest(RunFrom(s, acts, starts))
    decreases |s.threads.Keys|
  {
    if s.threads.Keys == {} {
      acts := [];
    } else {
      var t := if s.holder.HeldBy? then s.holder.t else var u :| u in s.threads.Keys; u;
      var first := CanFinish(s, t, [], starts);
      var s1 := RunFrom(s, first, starts);
      assert |s.threads.Keys - {t}| < |s.threads.Keys|;
      var rest := AllCanFinish(s1, starts);
      acts := first + rest;
      RunConcat(s, first, rest, starts);
    }
  }

  /** No interleaving gets stuck: whatever is under way, the callers can all be brought to their ends. */
  lemma EveryCallCanEnd(before: seq<Action>, starts: EventId -> bool) returns (acts: seq<Action>)
    ensures OnlySteps(acts) && AtRest(RunFrom(After(before, starts), acts, starts))
  {
    LockIsNeverLost(before, starts);
    acts := AllCanFinish(After(before, starts), starts);
  }
}
